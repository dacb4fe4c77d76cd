/**
 * The counter maps `strongCounter` and `weakCounter`: plain objects from an
 * elemental type name to a count. A type that no handler ever incremented
 * has no key at all; reading it through `?? 0` yields 0.
 */
module CounterMaps {

  type Counter = map<string, nat>

  /** Reading a counter with a missing key treated as 0 (`counter[t] ?? 0`). */
  function Get(m: Counter, t: string): nat
  {
    if t in m then m[t] else 0
  }

  /**
   * `m'` is `m` with `bag[t]` added to the count of every type `t`: a key is
   * present afterwards exactly when it was present before or the bag holds
   * it, and every type the bag does not hold keeps its entry (or its absence).
   */
  ghost predicate Added(m: Counter, bag: multiset<string>, m': Counter)
  {
    forall t :: (t in m' <==> t in m || t in bag) && Get(m', t) == Get(m, t) + bag[t]
  }

  /** `m'` has every key of `m`, with a count at least as large. */
  ghost predicate Grows(m: Counter, m': Counter)
  {
    forall t :: t in m ==> t in m' && m[t] <= m'[t]
  }

  /**
   * The body of the `forEach` in the success handlers: for each entry of
   * `types`, left to right, the counter at that type becomes its previous
   * value (0 when absent) plus one.
   */
  function Bump(m: Counter, types: seq<string>): Counter
    decreases |types|
  {
    if |types| == 0 then m
    else Bump(m[types[0] := Get(m, types[0]) + 1], types[1..])
  }

  /** A type listed k times is raised by k; no unlisted key appears. */
  lemma {:induction false} BumpAdds(m: Counter, types: seq<string>)
    ensures Added(m, multiset(types), Bump(m, types))
    decreases |types|
  {
    if |types| > 0 {
      var t := types[0];
      var m1 := m[t := Get(m, t) + 1];
      assert types == [t] + types[1..];
      BumpAdds(m1, types[1..]);
      assert Added(m, multiset{t}, m1);
      AddedCompose(m, multiset{t}, m1, multiset(types[1..]), Bump(m, types));
    }
  }

  /** The same `forEach` as a loop over an index, updating one key per step. */
  method IncrementEach(m: Counter, types: seq<string>) returns (r: Counter)
    ensures Added(m, multiset(types), r)
    ensures r == Bump(m, types)
  {
    r := m;
    var i := 0;
    while i < |types|
      invariant 0 <= i <= |types|
      invariant Bump(r, types[i..]) == Bump(m, types)
    {
      var t := types[i];
      var prev := Get(r, t);
      BumpStep(r, types, i);
      r := r[t := prev + 1];
      i := i + 1;
    }
    assert types[i..] == [];
    assert r == Bump(r, types[i..]);
    BumpAdds(m, types);
  }

  /** One step of the `forEach`: the entry at index `i` is applied first. */
  lemma BumpStep(m: Counter, types: seq<string>, i: nat)
    requires i < |types|
    ensures Bump(m, types[i..]) == Bump(m[types[i] := Get(m, types[i]) + 1], types[i + 1..])
  {
  }

  /** Adding a bag determines the resulting map completely. */
  lemma AddedUnique(m: Counter, bag: multiset<string>, m1: Counter, m2: Counter)
    requires Added(m, bag, m1) && Added(m, bag, m2)
    ensures m1 == m2
  {
  }

  /** Adding two bags one after the other adds their sum. */
  lemma AddedCompose(m: Counter, b1: multiset<string>, m1: Counter, b2: multiset<string>, m2: Counter)
    requires Added(m, b1, m1) && Added(m1, b2, m2)
    ensures Added(m, b1 + b2, m2)
  {
  }

  /** Adding the empty bag changes nothing. */
  lemma AddedNothing(m: Counter, m': Counter)
    requires Added(m, multiset{}, m')
    ensures m' == m
  {
    AddedUnique(m, multiset{}, m, m');
  }

  /** Adding never removes a key and never lowers a count. */
  lemma AddedGrows(m: Counter, bag: multiset<string>, m': Counter)
    requires Added(m, bag, m')
    ensures Grows(m, m')
  {
  }
}
