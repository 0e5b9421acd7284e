/** `codex_demand_weighted_quantile`: the level at which a weighted histogram reaches a percentage. */
module WeightedQuantile {
  import opened Options
  import opened Ordering
  import opened Sums

  type Histogram = map<int, real>

  ghost predicate Weights(h: Histogram) {
    forall k :: k in h ==> h[k] >= 0.0
  }

  predicate IntLess(a: int, b: int) {
    a < b
  }

  ghost function UpTo(h: Histogram, level: int): Histogram {
    map k | k in h && k <= level :: h[k]
  }

  /** The weight at or below a level. */
  ghost function Cumulative(h: Histogram, level: int): real {
    MapSum(UpTo(h, level))
  }

  ghost function Target(h: Histogram, percentile: real): real {
    MapSum(h) * percentile / 100.0
  }

  /** The least level of the histogram whose cumulative weight reaches the target. */
  ghost predicate IsQuantile(h: Histogram, percentile: real, level: int) {
    && MapSum(h) != 0.0
    && level in h
    && Cumulative(h, level) >= Target(h, percentile)
    && (forall k :: k in h && k < level ==> Cumulative(h, k) < Target(h, percentile))
  }

  /** The target is the percentage of the whole weight: nothing at 0, all of it at 100. */
  lemma TargetIs(h: Histogram, percentile: real)
    ensures Target(h, percentile) * 100.0 == MapSum(h) * percentile
    ensures Target(h, 0.0) == 0.0 && Target(h, 100.0) == MapSum(h) && Target(h, 50.0) + Target(h, 50.0) == MapSum(h)
  {
    hide MapSum;
  }

  lemma CumulativeStep(h: Histogram, below: int, level: int)
    requires level in h && below < level
    requires forall k :: k in h && k < level ==> k <= below
    ensures Cumulative(h, level) == Cumulative(h, below) + h[level]
  {
    MapSumTake(UpTo(h, level), level);
    assert UpTo(h, level) - {level} == UpTo(h, below);
  }

  lemma CumulativeGrows(h: Histogram, a: int, b: int)
    requires Weights(h) && a <= b
    ensures 0.0 <= Cumulative(h, a) <= Cumulative(h, b) <= MapSum(h)
  {
    MapSumNonNegative(UpTo(h, a));
    MapSumPart(UpTo(h, a), UpTo(h, b));
    MapSumPart(UpTo(h, b), h);
  }

  lemma BelowAll(h: Histogram, level: int)
    requires forall k :: k in h ==> level < k
    ensures Cumulative(h, level) == 0.0
  {
  }

  lemma AboveAll(h: Histogram, level: int)
    requires forall k :: k in h ==> k <= level
    ensures Cumulative(h, level) == MapSum(h)
  {
    assert UpTo(h, level) == h;
  }

  /** The levels of a histogram in increasing order. */
  method Levels(h: Histogram) returns (levels: seq<int>)
    ensures Increasing(IntLess, levels)
    ensures forall k :: k in levels <==> k in h
  {
    levels := Listing(IntLess, h.Keys);
  }

  /** None means an empty histogram, or a percentage beyond its whole weight. */
  method Quantile(h: Histogram, percentile: real) returns (q: Option<int>)
    requires Weights(h)
    ensures q.Some? ==> IsQuantile(h, percentile, q.value)
    ensures q.None? <==> MapSum(h) == 0.0 || MapSum(h) < Target(h, percentile)
  {
    hide MapSum, Cumulative, Increasing;
    var total := Total(h);
    if total == 0.0 {
      return None;
    }
    var target := total * percentile / 100.0;
    assert target == Target(h, percentile);
    hide Target;
    var cumulative := 0.0;
    var levels := Levels(h);
    ghost var below := if levels == [] then 0 else levels[0] - 1;
    AllLevels(h, levels, below);
    for i := 0 to |levels|
      invariant below == if levels == [] then 0 else if i == 0 then levels[0] - 1 else levels[i - 1]
      invariant cumulative == Cumulative(h, below)
      invariant forall j :: 0 <= j < i ==> Cumulative(h, levels[j]) < target
    {
      var concurrency := levels[i];
      LevelsBetween(h, levels, i, below);
      CumulativeStep(h, below, concurrency);
      cumulative := cumulative + h[concurrency];
      if cumulative >= target {
        EarlierLevels(h, levels, i, target);
        CumulativeGrows(h, concurrency, concurrency);
        return Some(concurrency);
      }
      below := concurrency;
    }
    AllLevels(h, levels, below);
    return None;
  }

  lemma AllLevels(h: Histogram, levels: seq<int>, below: int)
    requires Increasing(IntLess, levels) && (forall k :: k in levels <==> k in h)
    requires levels == [] || below == levels[0] - 1 || below == levels[|levels| - 1]
    ensures levels == [] || below == levels[0] - 1 ==> Cumulative(h, below) == 0.0
    ensures levels == [] || below == levels[|levels| - 1] ==> Cumulative(h, below) == MapSum(h)
  {
    if levels == [] || below == levels[0] - 1 {
      forall k | k in h
        ensures below < k
      {
        var j :| 0 <= j < |levels| && levels[j] == k;
      }
      BelowAll(h, below);
    }
    if levels == [] || below == levels[|levels| - 1] {
      forall k | k in h
        ensures k <= below
      {
        var j :| 0 <= j < |levels| && levels[j] == k;
      }
      AboveAll(h, below);
    }
  }

  lemma EarlierLevels(h: Histogram, levels: seq<int>, i: nat, target: real)
    requires Increasing(IntLess, levels) && i < |levels| && (forall k :: k in levels <==> k in h)
    requires forall j :: 0 <= j < i ==> Cumulative(h, levels[j]) < target
    ensures forall k :: k in h && k < levels[i] ==> Cumulative(h, k) < target
  {
  }

  lemma LevelsBetween(h: Histogram, levels: seq<int>, i: nat, below: int)
    requires Increasing(IntLess, levels) && i < |levels|
    requires forall k :: k in levels <==> k in h
    requires below == if i == 0 then levels[0] - 1 else levels[i - 1]
    ensures levels[i] in h && below < levels[i]
    ensures forall k :: k in h && k < levels[i] ==> k <= below
  {
  }

  /** A quantile is the only one. */
  lemma QuantileUnique(h: Histogram, percentile: real, a: int, b: int)
    requires IsQuantile(h, percentile, a) && IsQuantile(h, percentile, b)
    ensures a == b
  {
  }

  lemma TargetGrows(total: real, p: real, q: real)
    requires total >= 0.0 && p <= q
    ensures total * p / 100.0 <= total * q / 100.0
  {
  }

  lemma TargetMonotone(h: Histogram, p: real, q: real)
    requires Weights(h) && p <= q
    ensures Target(h, p) <= Target(h, q)
  {
    hide MapSum;
    CumulativeGrows(h, 0, 0);
    TargetGrows(MapSum(h), p, q);
  }

  /** A higher percentage is reached no earlier. */
  lemma QuantileMonotone(h: Histogram, p: real, a: int, q: real, b: int)
    requires Weights(h) && p <= q && IsQuantile(h, p, a) && IsQuantile(h, q, b)
    ensures a <= b
  {
    hide Target, Cumulative, MapSum;
    TargetMonotone(h, p, q);
  }

  /** The histogram of active time only. */
  function Active(h: Histogram): Histogram {
    map k | k in h && k > 0 :: h[k]
  }

  function Idle(h: Histogram): real {
    if 0 in h then h[0] else 0.0
  }

  lemma SplitIdle(h: Histogram)
    requires forall k :: k in h ==> k >= 0
    ensures MapSum(h) == MapSum(Active(h)) + Idle(h)
  {
    if 0 in h {
      MapSumTake(h, 0);
      assert h - {0} == Active(h);
    } else {
      assert h == Active(h);
    }
  }

  lemma ActiveCumulative(h: Histogram, level: int)
    requires (forall k :: k in h ==> k >= 0) && level > 0
    ensures Cumulative(h, level) == Cumulative(Active(h), level) + Idle(h)
  {
    SplitIdle(UpTo(h, level));
    assert Active(UpTo(h, level)) == UpTo(Active(h), level);
  }

  lemma TargetWithIdle(active: real, idle: real, percentile: real)
    requires idle >= 0.0 && percentile <= 100.0
    ensures (active + idle) * percentile / 100.0 <= active * percentile / 100.0 + idle
  {
  }

  lemma ActiveTarget(h: Histogram, percentile: real)
    requires Weights(h) && (forall k :: k in h ==> k >= 0) && percentile <= 100.0
    ensures Target(h, percentile) <= Target(Active(h), percentile) + Idle(h)
  {
    hide MapSum;
    SplitIdle(h);
    var active, idle, total := MapSum(Active(h)), Idle(h), MapSum(h);
    assert total == active + idle;
    TargetWithIdle(active, idle, percentile);
    assert total * percentile / 100.0 <= active * percentile / 100.0 + idle;
  }

  /** Leaving idle time out never lowers a quantile. */
  lemma ActiveQuantileNotBelow(h: Histogram, percentile: real, whole: int, active: int)
    requires Weights(h) && (forall k :: k in h ==> k >= 0) && percentile <= 100.0
    requires IsQuantile(h, percentile, whole) && IsQuantile(Active(h), percentile, active)
    ensures whole <= active
  {
    hide Target, Cumulative, MapSum;
    ActiveTarget(h, percentile);
    ActiveCumulative(h, active);
  }
}
