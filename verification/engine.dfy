/**
 * Evaluating a rule set against the facts.
 *
 * The rules-engine library that consumes the descriptors is not part of this
 * model. Its behaviour is assumed, not reproduced: it evaluates the rules one
 * at a time in an order of non-increasing priority (rules of equal priority in
 * any order), and a matched rule's handler finishes before the next rule is
 * evaluated. `Run` is that engine over one such schedule. `Evaluate` is the
 * two-stage reading of it: accumulate, then emit. The theorems below show
 * that every admissible schedule gives the two-stage result.
 */
module Engine {
  import opened Wrappers
  import opened CounterMaps
  import opened Generators

  /** What a matched rule adds to the counter on `side`; nothing when it does not match. */
  function Fired(r: Rule, facts: Facts, side: Side): multiset<string>
  {
    if Matches(r, facts) then Contribution(r, side) else multiset{}
  }

  /**
   * The total a sequence of rules adds to the counter on `side`: for each
   * type, the sum over the matched rules of that side of its occurrences in
   * the rule's list.
   */
  function Tally(rules: seq<Rule>, facts: Facts, side: Side): multiset<string>
    decreases |rules|
  {
    if |rules| == 0 then multiset{}
    else Fired(rules[0], facts, side) + Tally(rules[1..], facts, side)
  }

  lemma {:induction false} TallyAppend(a: seq<Rule>, b: seq<Rule>, facts: Facts, side: Side)
    ensures Tally(a + b, facts, side) == Tally(a, facts, side) + Tally(b, facts, side)
    decreases |a|
  {
    if |a| == 0 {
      assert a + b == b;
    } else {
      assert (a + b)[1..] == a[1..] + b;
      TallyAppend(a[1..], b, facts, side);
    }
  }

  /** Taking out the rule at index `j` takes its share out of the tally. */
  lemma TallyRemove(b: seq<Rule>, j: nat, facts: Facts, side: Side)
    requires j < |b|
    ensures multiset(b[..j] + b[j + 1..]) == multiset(b) - multiset{b[j]}
    ensures Tally(b, facts, side) == Fired(b[j], facts, side) + Tally(b[..j] + b[j + 1..], facts, side)
  {
    assert b == b[..j] + [b[j]] + b[j + 1..];
    TallyAppend(b[..j] + [b[j]], b[j + 1..], facts, side);
    TallyAppend(b[..j], [b[j]], facts, side);
    TallyAppend(b[..j], b[j + 1..], facts, side);
    assert Tally([b[j]], facts, side) == Fired(b[j], facts, side);
  }

  /** The tally depends on the rule set only, not on the order of its rules. */
  lemma {:induction false} TallyPermutation(a: seq<Rule>, b: seq<Rule>, facts: Facts, side: Side)
    requires multiset(a) == multiset(b)
    ensures Tally(a, facts, side) == Tally(b, facts, side)
    decreases |a|
  {
    if |a| == 0 {
      assert |b| == |multiset(b)| == 0;
    } else {
      var r := a[0];
      assert a == [r] + a[1..];
      assert multiset(a) == multiset{r} + multiset(a[1..]);
      assert r in b by {
        assert r in multiset(b);
      }
      var j :| 0 <= j < |b| && b[j] == r;
      TallyRemove(b, j, facts, side);
      var rest := b[..j] + b[j + 1..];
      assert multiset(a[1..]) == multiset(rest);
      TallyPermutation(a[1..], rest, facts, side);
    }
  }

  /** One rule applied by the engine: the handler runs only when the condition holds. */
  function Step(r: Rule, facts: Facts, c: Cache): (c': Cache)
    ensures forall side :: Added(CounterOf(c, side), Fired(r, facts, side), CounterOf(c', side))
  {
    if Matches(r, facts) then OnSuccess(r, c) else c
  }

  /** The engine's state after a schedule: the cache and the events fired, in order. */
  datatype Outcome = Outcome(cache: Cache, events: seq<Event>)

  /**
   * The engine over one schedule: each rule's condition is evaluated in turn;
   * a matched rule fires its event (reading the cache as it is then) and its
   * handler completes before the next rule.
   */
  function Run(schedule: seq<Rule>, facts: Facts, c: Cache): Outcome
    decreases |schedule|
  {
    if |schedule| == 0 then Outcome(c, [])
    else
      var r := schedule[0];
      var rest := Run(schedule[1..], facts, Step(r, facts, c));
      if Matches(r, facts) then Outcome(rest.cache, [EventOf(r, c)] + rest.events)
      else rest
  }

  /** After a schedule, each counter is its start plus the tally of the schedule. */
  lemma {:induction false} RunAdds(schedule: seq<Rule>, facts: Facts, c: Cache, side: Side)
    ensures Added(CounterOf(c, side), Tally(schedule, facts, side), CounterOf(Run(schedule, facts, c).cache, side))
    decreases |schedule|
  {
    if |schedule| > 0 {
      var r := schedule[0];
      var c1 := Step(r, facts, c);
      RunAdds(schedule[1..], facts, c1, side);
      AddedCompose(CounterOf(c, side), Fired(r, facts, side), CounterOf(c1, side),
                   Tally(schedule[1..], facts, side), CounterOf(Run(schedule, facts, c).cache, side));
    }
  }

  /** The schedules the engine may use: priorities never increase along it. */
  ghost predicate PriorityOrdered(schedule: seq<Rule>)
  {
    forall i, j :: 0 <= i < j < |schedule| ==> Priority(schedule[i]) >= Priority(schedule[j])
  }

  /**
   * Stage one: the matched priority-100 rules' handlers, in the order of
   * `rules`.
   */
  function Accumulate(rules: seq<Rule>, facts: Facts, c: Cache): Cache
    decreases |rules|
  {
    if |rules| == 0 then c
    else
      var r := rules[0];
      Accumulate(rules[1..], facts, if Priority(r) == 100 then Step(r, facts, c) else c)
  }

  /** The accumulation stage leaves each counter at its start plus the tally of the rules. */
  lemma {:induction false} AccumulateAdds(rules: seq<Rule>, facts: Facts, c: Cache, side: Side)
    ensures Added(CounterOf(c, side), Tally(rules, facts, side), CounterOf(Accumulate(rules, facts, c), side))
    decreases |rules|
  {
    if |rules| > 0 {
      var r := rules[0];
      var c1 := if Priority(r) == 100 then Step(r, facts, c) else c;
      assert Added(CounterOf(c, side), Fired(r, facts, side), CounterOf(c1, side));
      AccumulateAdds(rules[1..], facts, c1, side);
      AddedCompose(CounterOf(c, side), Fired(r, facts, side), CounterOf(c1, side),
                   Tally(rules[1..], facts, side), CounterOf(Accumulate(rules, facts, c), side));
    }
  }

  /** The result of an evaluation: the final cache and the emitted snapshot, if any. */
  datatype Result = Result(cache: Cache, emitted: Option<Cache>)

  /**
   * Two-stage evaluation: accumulate (priority 100), then emit (priority 10).
   * The snapshot is emitted when the rule set holds the `counters` rule and
   * `returnCounters` is true.
   */
  function Evaluate(rules: seq<Rule>, facts: Facts, c: Cache): (r: Result)
    ensures forall side :: Added(CounterOf(c, side), Tally(rules, facts, side), CounterOf(r.cache, side))
    ensures r.emitted.Some? <==> Counters in rules && facts.returnCounters
    ensures r.emitted.Some? ==> r.emitted.value == r.cache
  {
    var final := Accumulate(rules, facts, c);
    assert forall side :: Added(CounterOf(c, side), Tally(rules, facts, side), CounterOf(final, side)) by {
      forall side
        ensures Added(CounterOf(c, side), Tally(rules, facts, side), CounterOf(final, side))
      {
        AccumulateAdds(rules, facts, c, side);
      }
    }
    Result(final, if Counters in rules && Matches(Counters, facts) then Some(final) else None)
  }

  /** A counters event in a run's event list. */
  ghost predicate EmitsCounters(events: seq<Event>)
  {
    exists i :: 0 <= i < |events| && events[i].CountersEvent?
  }

  lemma EmitsCons(e: Event, events: seq<Event>)
    ensures EmitsCounters([e] + events) <==> e.CountersEvent? || EmitsCounters(events)
  {
    var evs := [e] + events;
    if EmitsCounters(events) {
      var i :| 0 <= i < |events| && events[i].CountersEvent?;
      assert evs[i + 1] == events[i];
    }
    if e.CountersEvent? {
      assert evs[0].CountersEvent?;
    }
    if EmitsCounters(evs) {
      var i :| 0 <= i < |evs| && evs[i].CountersEvent?;
      if i > 0 {
        assert events[i - 1] == evs[i];
      }
    }
  }

  /** A run emits a counters event exactly when its schedule holds the counters rule and `returnCounters` is true. */
  lemma {:induction false} RunEmitsIff(schedule: seq<Rule>, facts: Facts, c: Cache)
    ensures EmitsCounters(Run(schedule, facts, c).events) <==> Counters in schedule && facts.returnCounters
    decreases |schedule|
  {
    if |schedule| > 0 {
      var r := schedule[0];
      var c1 := Step(r, facts, c);
      var rest := Run(schedule[1..], facts, c1);
      RunEmitsIff(schedule[1..], facts, c1);
      assert schedule == [r] + schedule[1..];
      assert Counters in schedule <==> r == Counters || Counters in schedule[1..];
      if Matches(r, facts) {
        EmitsCons(EventOf(r, c), rest.events);
      }
    }
  }

  /** A schedule of counters rules only leaves the cache as it is. */
  lemma {:induction false} CountersOnlyInert(schedule: seq<Rule>, facts: Facts, c: Cache)
    requires forall i :: 0 <= i < |schedule| ==> schedule[i].Counters?
    ensures Run(schedule, facts, c).cache == c
    decreases |schedule|
  {
    if |schedule| > 0 {
      CountersOnlyInert(schedule[1..], facts, c);
    }
  }

  /**
   * The priority barrier: on a priority-ordered schedule, every counters
   * event carries the cache as it is at the end of the run.
   */
  lemma {:induction false} EmissionSeesFinalCache(schedule: seq<Rule>, facts: Facts, c: Cache)
    requires PriorityOrdered(schedule)
    ensures forall i :: 0 <= i < |Run(schedule, facts, c).events| && Run(schedule, facts, c).events[i].CountersEvent? ==>
      Run(schedule, facts, c).events[i] == CountersEvent(Run(schedule, facts, c).cache.strong, Run(schedule, facts, c).cache.weak)
    decreases |schedule|
  {
    if |schedule| > 0 {
      var r := schedule[0];
      var c1 := Step(r, facts, c);
      var rest := Run(schedule[1..], facts, c1);
      var o := Run(schedule, facts, c);
      assert PriorityOrdered(schedule[1..]) by {
        forall i, j | 0 <= i < j < |schedule[1..]|
          ensures Priority(schedule[1..][i]) >= Priority(schedule[1..][j])
        {
          assert schedule[1..][i] == schedule[i + 1] && schedule[1..][j] == schedule[j + 1];
        }
      }
      EmissionSeesFinalCache(schedule[1..], facts, c1);
      if r.Counters? {
        assert forall i :: 0 <= i < |schedule[1..]| ==> schedule[1..][i].Counters? by {
          forall i | 0 <= i < |schedule[1..]|
            ensures schedule[1..][i].Counters?
          {
            assert Priority(schedule[0]) >= Priority(schedule[i + 1]);
          }
        }
        CountersOnlyInert(schedule[1..], facts, c1);
      }
      forall i | 0 <= i < |o.events| && o.events[i].CountersEvent?
        ensures o.events[i] == CountersEvent(o.cache.strong, o.cache.weak)
      {
        if Matches(r, facts) && i > 0 {
          assert o.events[i] == rest.events[i - 1];
        }
      }
    }
  }

  /** Each counter of two caches is the same addition to the same start: the caches are equal. */
  lemma SameAddition(c: Cache, t: seq<Rule>, u: seq<Rule>, facts: Facts, c1: Cache, c2: Cache)
    requires forall side :: Added(CounterOf(c, side), Tally(t, facts, side), CounterOf(c1, side))
    requires forall side :: Added(CounterOf(c, side), Tally(u, facts, side), CounterOf(c2, side))
    requires multiset(t) == multiset(u)
    ensures c1 == c2
  {
    forall side
      ensures CounterOf(c1, side) == CounterOf(c2, side)
    {
      TallyPermutation(t, u, facts, side);
      AddedUnique(CounterOf(c, side), Tally(t, facts, side), CounterOf(c1, side), CounterOf(c2, side));
    }
    CacheExt(c1, c2);
  }

  /**
   * Every schedule the engine may pick for a rule set gives the two-stage
   * result: the same final cache, a counters event exactly when a snapshot
   * is emitted, and every counters event carrying that snapshot.
   */
  lemma RunAgreesWithEvaluate(rules: seq<Rule>, schedule: seq<Rule>, facts: Facts, c: Cache)
    requires multiset(schedule) == multiset(rules)
    requires PriorityOrdered(schedule)
    ensures Run(schedule, facts, c).cache == Evaluate(rules, facts, c).cache
    ensures EmitsCounters(Run(schedule, facts, c).events) <==> Evaluate(rules, facts, c).emitted.Some?
    ensures forall i :: 0 <= i < |Run(schedule, facts, c).events| && Run(schedule, facts, c).events[i].CountersEvent? ==>
      var e := Run(schedule, facts, c).events[i];
      Evaluate(rules, facts, c).emitted == Some(Cache(e.strong, e.weak))
  {
    var o := Run(schedule, facts, c);
    var r := Evaluate(rules, facts, c);
    forall side
      ensures Added(CounterOf(c, side), Tally(schedule, facts, side), CounterOf(o.cache, side))
    {
      RunAdds(schedule, facts, c, side);
    }
    SameAddition(c, schedule, rules, facts, o.cache, r.cache);
    RunEmitsIff(schedule, facts, c);
    assert Counters in schedule <==> Counters in rules by {
      assert Counters in schedule <==> Counters in multiset(schedule);
      assert Counters in rules <==> Counters in multiset(rules);
    }
    EmissionSeesFinalCache(schedule, facts, c);
    forall i | 0 <= i < |o.events| && o.events[i].CountersEvent?
      ensures r.emitted == Some(Cache(o.events[i].strong, o.events[i].weak))
    {
      assert EmitsCounters(o.events);
    }
  }

  /** The order in which the rule set is listed does not change the evaluation. */
  lemma EvaluateOrderIndependent(a: seq<Rule>, b: seq<Rule>, facts: Facts, c: Cache)
    requires multiset(a) == multiset(b)
    ensures Evaluate(a, facts, c) == Evaluate(b, facts, c)
  {
    SameAddition(c, a, b, facts, Evaluate(a, facts, c).cache, Evaluate(b, facts, c).cache);
    assert Counters in a <==> Counters in b by {
      assert Counters in a <==> Counters in multiset(a);
      assert Counters in b <==> Counters in multiset(b);
    }
  }

  /**
   * From a fresh cache, the count of type `t` on each side is the tally of
   * the matched rules, and a type whose tally is 0 has no key.
   */
  lemma FreshCounts(rules: seq<Rule>, facts: Facts, side: Side, t: string)
    ensures Get(CounterOf(Evaluate(rules, facts, Empty).cache, side), t) == Tally(rules, facts, side)[t]
    ensures t in CounterOf(Evaluate(rules, facts, Empty).cache, side) <==> Tally(rules, facts, side)[t] > 0
  {
  }

  /** Running a schedule in two parts is running it whole. */
  lemma {:induction false} RunSplit(a: seq<Rule>, b: seq<Rule>, facts: Facts, c: Cache)
    ensures Run(a + b, facts, c).cache == Run(b, facts, Run(a, facts, c).cache).cache
    ensures Run(a + b, facts, c).events == Run(a, facts, c).events + Run(b, facts, Run(a, facts, c).cache).events
    decreases |a|
  {
    if |a| == 0 {
      assert a + b == b;
    } else {
      assert (a + b)[1..] == a[1..] + b;
      RunSplit(a[1..], b, facts, Step(a[0], facts, c));
    }
  }

  /** Within a run, no count ever decreases and no key disappears. */
  lemma CountsNeverDecrease(schedule: seq<Rule>, k: nat, facts: Facts, c: Cache)
    requires k <= |schedule|
    ensures CacheGrows(c, Run(schedule[..k], facts, c).cache)
    ensures CacheGrows(Run(schedule[..k], facts, c).cache, Run(schedule, facts, c).cache)
  {
    var mid := Run(schedule[..k], facts, c).cache;
    assert schedule == schedule[..k] + schedule[k..];
    RunSplit(schedule[..k], schedule[k..], facts, c);
    var last := Run(schedule[k..], facts, mid).cache;
    RunAdds(schedule[..k], facts, c, StrongSide);
    RunAdds(schedule[..k], facts, c, WeakSide);
    RunAdds(schedule[k..], facts, mid, StrongSide);
    RunAdds(schedule[k..], facts, mid, WeakSide);
    AddedGrows(c.strong, Tally(schedule[..k], facts, StrongSide), mid.strong);
    AddedGrows(c.weak, Tally(schedule[..k], facts, WeakSide), mid.weak);
    AddedGrows(mid.strong, Tally(schedule[k..], facts, StrongSide), last.strong);
    AddedGrows(mid.weak, Tally(schedule[k..], facts, WeakSide), last.weak);
  }

  /** With an empty roster no accumulation rule matches. */
  lemma {:induction false} EmptyRosterTally(rules: seq<Rule>, facts: Facts, side: Side)
    requires facts.enemyPokemon == []
    ensures Tally(rules, facts, side) == multiset{}
    decreases |rules|
  {
    if |rules| > 0 {
      EmptyRosterTally(rules[1..], facts, side);
    }
  }

  /**
   * An empty roster with `returnCounters` set emits two counters without
   * keys: an empty result, not an absent one.
   */
  lemma EmptyRosterEmitsEmpty(rules: seq<Rule>, facts: Facts)
    requires facts.enemyPokemon == [] && facts.returnCounters && Counters in rules
    ensures Evaluate(rules, facts, Empty).emitted == Some(Empty)
  {
    var r := Evaluate(rules, facts, Empty);
    forall side
      ensures CounterOf(r.cache, side) == CounterOf(Empty, side)
    {
      EmptyRosterTally(rules, facts, side);
      AddedNothing(CounterOf(Empty, side), CounterOf(r.cache, side));
    }
    CacheExt(r.cache, Empty);
  }
}
