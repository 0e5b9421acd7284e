/** Sums over the values of a finite map, in any order. */
module Sums {

  ghost function MapSum<K>(m: map<K, real>): real
    decreases |m|
  {
    if m == map[] then 0.0 else
    var k :| k in m;
    m[k] + MapSum(m - {k})
  }

  lemma {:induction false} MapSumTake<K>(m: map<K, real>, k: K)
    requires k in m
    ensures MapSum(m) == m[k] + MapSum(m - {k})
    decreases |m|
  {
    var c :| c in m && MapSum(m) == m[c] + MapSum(m - {c});
    if c != k {
      MapSumTake(m - {c}, k);
      MapSumTake(m - {k}, c);
      assert m - {c} - {k} == m - {k} - {c};
    }
  }

  lemma MapSumPut<K>(m: map<K, real>, k: K, v: real)
    ensures MapSum(m[k := v]) == MapSum(m) + v - (if k in m then m[k] else 0.0)
  {
    MapSumTake(m[k := v], k);
    assert m[k := v] - {k} == m - {k};
    if k in m {
      MapSumTake(m, k);
    } else {
      assert m - {k} == m;
    }
  }

  lemma {:induction false} MapSumNonNegative<K>(m: map<K, real>)
    requires forall k :: k in m ==> m[k] >= 0.0
    ensures MapSum(m) >= 0.0
    decreases |m|
  {
    if m != map[] {
      var k :| k in m;
      MapSumTake(m, k);
      MapSumNonNegative(m - {k});
    }
  }

  /** A part of a map of weights weighs no more than the whole. */
  lemma {:induction false} MapSumPart<K>(part: map<K, real>, m: map<K, real>)
    requires part.Keys <= m.Keys
    requires forall k :: k in part ==> part[k] == m[k]
    requires forall k :: k in m ==> m[k] >= 0.0
    ensures MapSum(part) <= MapSum(m)
    decreases |part|
  {
    if part == map[] {
      MapSumNonNegative(m);
    } else {
      var k :| k in part;
      MapSumTake(part, k);
      MapSumTake(m, k);
      MapSumPart(part - {k}, m - {k});
    }
  }

  /** `sum(m.values())`. */
  method Total<K>(m: map<K, real>) returns (t: real)
    ensures t == MapSum(m)
  {
    t := 0.0;
    var rest := m;
    while rest != map[]
      invariant t + MapSum(rest) == MapSum(m)
      decreases |rest|
    {
      var k :| k in rest;
      MapSumTake(rest, k);
      t, rest := t + rest[k], rest - {k};
    }
  }
}
