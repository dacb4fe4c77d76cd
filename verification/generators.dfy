/**
 * The rule descriptors of `src/engine/expert/generators.js`.
 *
 * In the source each generator closes over a shared cache object; here the
 * cache is an explicit value handed to the success handler, which returns
 * the updated cache instead of mutating it.
 */
module Generators {
  import opened CounterMaps

  /** The `enemyPokemon` fact: member `i`'s `types` list is `roster[i]`. */
  type Roster = seq<seq<string>>

  /** The facts a run is evaluated against. */
  datatype Facts = Facts(enemyPokemon: Roster, returnCounters: bool)

  /** The shared cache: `strongCounter` and `weakCounter`. */
  datatype Cache = Cache(strong: Counter, weak: Counter)

  /** A run starts from a cache whose two counters have no keys. */
  const Empty: Cache := Cache(map[], map[])

  /** Names one of the two counters of a cache. */
  datatype Side = StrongSide | WeakSide

  function CounterOf(c: Cache, side: Side): Counter
  {
    match side
    case StrongSide => c.strong
    case WeakSide => c.weak
  }

  /**
   * The three generators:
   * - `Strong(id, trigger, types)` is `ruleStrong(id, trigger, types, cache)`,
   * - `Weak(id, trigger, types)` is `ruleWeak(id, trigger, types, cache)`,
   * - `Counters` is `ruleCounters(cache)`.
   */
  datatype Rule =
    | Strong(id: int, trigger: string, types: seq<string>)
    | Weak(id: int, trigger: string, types: seq<string>)
    | Counters

  /** The two accumulation rules; `Counters` only reads the cache. */
  predicate IsAccumulator(r: Rule)
  {
    r.Strong? || r.Weak?
  }

  function Priority(r: Rule): int
  {
    match r
    case Strong(_, _, _) => 100
    case Weak(_, _, _) => 100
    case Counters => 10
  }

  /** Every accumulation rule outranks the emission rule. */
  lemma AccumulatorsOutrankCounters(r: Rule, s: Rule)
    requires IsAccumulator(r) && s.Counters?
    ensures Priority(r) > Priority(s)
  {
  }

  /**
   * The `contains` condition on the path `$.<id>.types` of `enemyPokemon`:
   * an index outside the roster resolves to nothing and does not match.
   */
  predicate MemberHasType(roster: Roster, id: int, t: string)
  {
    0 <= id < |roster| && t in roster[id]
  }

  /** A rule's condition. `Counters` tests `returnCounters` for equality with `true`. */
  predicate Matches(r: Rule, facts: Facts)
  {
    match r
    case Strong(id, t, _) => MemberHasType(facts.enemyPokemon, id, t)
    case Weak(id, t, _) => MemberHasType(facts.enemyPokemon, id, t)
    case Counters => facts.returnCounters
  }

  /**
   * The condition computed the way the operator does it: resolve the path,
   * then scan the member's type list for the value.
   */
  method EvaluateCondition(r: Rule, facts: Facts) returns (b: bool)
    ensures IsAccumulator(r) ==>
      (b <==> 0 <= r.id < |facts.enemyPokemon| && r.trigger in facts.enemyPokemon[r.id])
    ensures r.Counters? ==> (b <==> facts.returnCounters)
    ensures b == Matches(r, facts)
  {
    if r.Counters? {
      return facts.returnCounters;
    }
    if !(0 <= r.id < |facts.enemyPokemon|) {
      return false;
    }
    var types := facts.enemyPokemon[r.id];
    b := false;
    var i := 0;
    while i < |types|
      invariant 0 <= i <= |types|
      invariant b <==> r.trigger in types[..i]
    {
      if types[i] == r.trigger {
        b := true;
      }
      i := i + 1;
    }
    assert types[..i] == types;
  }

  /** The event a matched rule fires, with its `params`. */
  datatype Event =
    | StrongEvent(id: int, types: seq<string>)
    | WeakEvent(id: int, types: seq<string>)
    | CountersEvent(strong: Counter, weak: Counter)

  /**
   * The event of `r` when it fires against cache `c`. The `counters` event
   * carries the two counter maps as they are at that moment.
   */
  function EventOf(r: Rule, c: Cache): Event
  {
    match r
    case Strong(id, _, types) => StrongEvent(id, types)
    case Weak(id, _, types) => WeakEvent(id, types)
    case Counters => CountersEvent(c.strong, c.weak)
  }

  /**
   * The `onSuccess` handler of `r`. The strong handler raises
   * `strongCounter[t]` once per occurrence of `t` in the rule's list and
   * leaves `weakCounter` alone; the weak handler is the mirror image;
   * `Counters` has no handler.
   */
  function OnSuccess(r: Rule, c: Cache): (c': Cache)
    ensures r.Strong? ==> c'.weak == c.weak && Added(c.strong, multiset(r.types), c'.strong)
    ensures r.Weak? ==> c'.strong == c.strong && Added(c.weak, multiset(r.types), c'.weak)
    ensures r.Counters? ==> c' == c
  {
    match r
    case Strong(_, _, types) =>
      BumpAdds(c.strong, types);
      c.(strong := Bump(c.strong, types))
    case Weak(_, _, types) =>
      BumpAdds(c.weak, types);
      c.(weak := Bump(c.weak, types))
    case Counters => c
  }

  /** What the handler of `r` adds to the counter on `side`. */
  function Contribution(r: Rule, side: Side): multiset<string>
  {
    match r
    case Strong(_, _, types) => if side == StrongSide then multiset(types) else multiset{}
    case Weak(_, _, types) => if side == WeakSide then multiset(types) else multiset{}
    case Counters => multiset{}
  }

  /** The handler of `r` adds exactly its contribution to each counter. */
  lemma HandlerAdds(r: Rule, c: Cache, side: Side)
    ensures Added(CounterOf(c, side), Contribution(r, side), CounterOf(OnSuccess(r, c), side))
  {
  }

  /** A cache whose two counters each grow. */
  ghost predicate CacheGrows(c: Cache, c': Cache)
  {
    Grows(c.strong, c'.strong) && Grows(c.weak, c'.weak)
  }

  /** No handler lowers a count or removes a key. */
  lemma HandlerMonotone(r: Rule, c: Cache)
    ensures CacheGrows(c, OnSuccess(r, c))
  {
  }

  /** Two caches are equal when both their counters are. */
  lemma CacheExt(c1: Cache, c2: Cache)
    requires forall side :: CounterOf(c1, side) == CounterOf(c2, side)
    ensures c1 == c2
  {
    assert CounterOf(c1, StrongSide) == CounterOf(c2, StrongSide);
    assert CounterOf(c1, WeakSide) == CounterOf(c2, WeakSide);
  }

  /** Any two handlers give the same cache in either order. */
  lemma HandlersCommute(r1: Rule, r2: Rule, c: Cache)
    ensures OnSuccess(r2, OnSuccess(r1, c)) == OnSuccess(r1, OnSuccess(r2, c))
  {
    var a := OnSuccess(r2, OnSuccess(r1, c));
    var b := OnSuccess(r1, OnSuccess(r2, c));
    forall side
      ensures CounterOf(a, side) == CounterOf(b, side)
    {
      var m := CounterOf(c, side);
      var b1 := Contribution(r1, side);
      var b2 := Contribution(r2, side);
      HandlerAdds(r1, c, side);
      HandlerAdds(r2, OnSuccess(r1, c), side);
      AddedCompose(m, b1, CounterOf(OnSuccess(r1, c), side), b2, CounterOf(a, side));
      HandlerAdds(r2, c, side);
      HandlerAdds(r1, OnSuccess(r2, c), side);
      AddedCompose(m, b2, CounterOf(OnSuccess(r2, c), side), b1, CounterOf(b, side));
      assert b1 + b2 == b2 + b1;
      AddedUnique(m, b1 + b2, CounterOf(a, side), CounterOf(b, side));
    }
    CacheExt(a, b);
  }
}
