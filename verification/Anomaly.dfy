/** The daily spend anomaly rule (`robust_z`, `flag_today`): today's total against the median and the median absolute
    deviation of the days before, over the reals. */
module Anomaly {
  import opened Options
  import opened Ordering
  import opened Reals

  const MIN_HISTORY_DAYS := 7
  const Z_THRESHOLD := 3.5
  const FLOOR_USD := 5.0
  const MAD_SCALE := 1.4826

  function Ordered(s: seq<real>): (r: seq<real>)
    ensures |r| == |s| && multiset(r) == multiset(s) && forall i, j :: 0 <= i <= j < |r| ==> r[i] <= r[j]
  {
    RealOrder();
    SortedByValue(SortBy(RealLess, s), s);
    SortBy(RealLess, s)
  }

  lemma SortedByValue(r: seq<real>, s: seq<real>)
    requires multiset(r) == multiset(s) && Sorted(RealLess, r)
    ensures |r| == |s| && forall i, j :: 0 <= i <= j < |r| ==> r[i] <= r[j]
  {
    assert |multiset(r)| == |multiset(s)|;
    forall i, j | 0 <= i < j < |r|
      ensures r[i] <= r[j]
    {
      assert !RealLess(r[j], r[i]);
    }
  }

  /** The middle of a sorted list, or the mean of its two middle values. */
  function Middle(s: seq<real>): real
    requires s != []
  {
    var n := |s|;
    if n % 2 == 1 then s[n / 2] else (s[n / 2 - 1] + s[n / 2]) / 2.0
  }

  function Median(s: seq<real>): real
    requires s != []
  {
    Middle(Ordered(s))
  }

  function Abs(x: real): real {
    if x < 0.0 then -x else x
  }

  function Deviations(s: seq<real>, m: real): seq<real> {
    seq(|s|, i requires 0 <= i < |s| => Abs(s[i] - m))
  }

  /** The median absolute deviation. */
  function Mad(s: seq<real>): real
    requires s != []
  {
    Median(Deviations(Ordered(s), Median(s)))
  }

  /** Score and median.  Without spread, only a value above everything seen scores. */
  function RobustZ(history: seq<real>, value: real): (real, real) {
    if history == [] then (0.0, 0.0) else
    var h := Ordered(history);
    var med := Median(history);
    var mad := Mad(history);
    if mad > 0.0 then ((value - med) / (MAD_SCALE * mad), med)
    else (if value > h[|h| - 1] then 99.0 else 0.0, med)
  }

  // ---------------------------------------------------------------- counting

  function Count(s: seq<real>, p: real -> bool): nat {
    if s == [] then 0 else (if p(s[0]) then 1 else 0) + Count(s[1..], p)
  }

  function AtMost(v: real): real -> bool {
    x => x <= v
  }

  function Below(v: real): real -> bool {
    x => x < v
  }

  function Inside(lo: real, hi: real): real -> bool {
    x => lo <= x <= hi
  }

  lemma {:induction false} CountInsert(x: real, s: seq<real>, p: real -> bool)
    requires StrictWeak(RealLess) && Sorted(RealLess, s)
    ensures Count(Insert(RealLess, x, s), p) == Count([x] + s, p)
  {
    assert ([x] + s)[1..] == s;
    if s != [] && RealLess(s[0], x) {
      CountInsert(x, s[1..], p);
      var rest := Insert(RealLess, x, s[1..]);
      assert Insert(RealLess, x, s) == [s[0]] + rest;
      assert ([s[0]] + rest)[1..] == rest && ([x] + s[1..])[1..] == s[1..];
    }
  }

  lemma {:induction false} CountSort(s: seq<real>, p: real -> bool)
    requires StrictWeak(RealLess)
    ensures Count(SortBy(RealLess, s), p) == Count(s, p)
  {
    if s != [] {
      CountSort(s[1..], p);
      CountInsert(s[0], SortBy(RealLess, s[1..]), p);
      assert ([s[0]] + SortBy(RealLess, s[1..]))[1..] == SortBy(RealLess, s[1..]);
    }
  }

  lemma {:induction false} CountBounds(s: seq<real>, p: real -> bool)
    ensures Count(s, p) <= |s|
  {
    if s != [] {
      CountBounds(s[1..], p);
    }
  }

  lemma {:induction false} CountAll(s: seq<real>, p: real -> bool)
    requires forall i :: 0 <= i < |s| ==> p(s[i])
    ensures Count(s, p) == |s|
  {
    if s != [] {
      CountAll(s[1..], p);
    }
  }

  lemma {:induction false} CountNone(s: seq<real>, p: real -> bool)
    requires forall i :: 0 <= i < |s| ==> !p(s[i])
    ensures Count(s, p) == 0
  {
    if s != [] {
      CountNone(s[1..], p);
    }
  }

  lemma {:induction false} CountSplit(s: seq<real>, k: nat, p: real -> bool)
    requires k <= |s|
    ensures Count(s, p) == Count(s[..k], p) + Count(s[k..], p)
  {
    if k == 0 {
      assert s[0..] == s;
    } else {
      CountSplit(s[1..], k - 1, p);
      assert s[..k][1..] == s[1..][..k - 1] && s[1..][k - 1..] == s[k..];
    }
  }

  lemma CountOrdered(s: seq<real>, p: real -> bool)
    ensures Count(Ordered(s), p) == Count(s, p)
  {
    RealOrder();
    CountSort(s, p);
  }

  lemma SortedCount(r: seq<real>, k: nat, p: real -> bool)
    requires k < |r| && (forall x, y :: x <= y && p(y) ==> p(x))
    requires forall i, j :: 0 <= i <= j < |r| ==> r[i] <= r[j]
    ensures p(r[k]) <==> Count(r, p) > k
  {
    if p(r[k]) {
      CountSplit(r, k + 1, p);
      var low := r[..k + 1];
      forall i | 0 <= i < |low|
        ensures p(low[i])
      {
        assert r[i] <= r[k];
      }
      CountAll(low, p);
    } else {
      CountSplit(r, k, p);
      forall i | 0 <= i < |r| - k
        ensures !p(r[k..][i])
      {
        assert r[k] <= r[k + i];
      }
      CountNone(r[k..], p);
      CountBounds(r[..k], p);
    }
  }

  /** The k-th smallest value satisfies a downward-closed condition exactly when more than k values do. */
  lemma OrderStatistic(s: seq<real>, k: nat, p: real -> bool)
    requires k < |s| && forall x, y :: x <= y && p(y) ==> p(x)
    ensures p(Ordered(s)[k]) <==> Count(s, p) > k
  {
    hide Ordered;
    CountOrdered(s, p);
    SortedCount(Ordered(s), k, p);
  }

  // ---------------------------------------------------------------- robustness of the median

  lemma {:induction false} CountsApart(s: seq<real>, lo: real, hi: real)
    ensures Count(s, Below(lo)) + Count(s, Inside(lo, hi)) <= |s|
    ensures Count(s, Inside(lo, hi)) <= Count(s, AtMost(hi))
  {
    if s != [] {
      CountsApart(s[1..], lo, hi);
    }
  }

  /** Where more than half of the values lie, there lies the median. */
  lemma MedianAmongMost(s: seq<real>, lo: real, hi: real)
    requires 2 * Count(s, Inside(lo, hi)) > |s|
    ensures s != [] && lo <= Median(s) <= hi
  {
    CountBounds(s, Inside(lo, hi));
    CountsApart(s, lo, hi);
    var n := |s|;
    OrderStatistic(s, n / 2, AtMost(hi));
    if n % 2 == 1 {
      OrderStatistic(s, n / 2, Below(lo));
    } else {
      OrderStatistic(s, n / 2 - 1, Below(lo));
    }
  }

  /** Days whose value differs. */
  function Changed(a: seq<real>, b: seq<real>): nat
    requires |a| == |b|
  {
    if a == [] then 0 else (if a[0] != b[0] then 1 else 0) + Changed(a[1..], b[1..])
  }

  lemma {:induction false} UnchangedInside(a: seq<real>, b: seq<real>, lo: real, hi: real)
    requires |a| == |b| && forall i :: 0 <= i < |a| && a[i] == b[i] ==> lo <= a[i] <= hi
    ensures Count(a, Inside(lo, hi)) + Changed(a, b) >= |a|
    ensures Count(b, Inside(lo, hi)) + Changed(a, b) >= |a|
  {
    if a != [] {
      UnchangedInside(a[1..], b[1..], lo, hi);
    }
  }

  /** Whatever fewer than half of the days are changed to, the median stays in the range of the others. */
  lemma MedianRobust(a: seq<real>, b: seq<real>, lo: real, hi: real)
    requires |a| == |b| && 2 * Changed(a, b) < |a|
    requires forall i :: 0 <= i < |a| && a[i] == b[i] ==> lo <= a[i] <= hi
    ensures lo <= Median(a) <= hi && lo <= Median(b) <= hi
  {
    UnchangedInside(a, b, lo, hi);
    MedianAmongMost(a, lo, hi);
    MedianAmongMost(b, lo, hi);
  }

  lemma {:induction false} Extremes(a: seq<real>) returns (lo: real, hi: real)
    requires a != []
    ensures forall i :: 0 <= i < |a| ==> lo <= a[i] <= hi
  {
    lo, hi := a[0], a[0];
    if |a| > 1 {
      lo, hi := Extremes(a[1..]);
      lo, hi := if a[0] < lo then a[0] else lo, if a[0] > hi then a[0] else hi;
      assert forall i :: 0 < i < |a| ==> a[i] == a[1..][i - 1];
    }
  }

  /** The first k days changed to v. */
  function Raised(a: seq<real>, k: nat, v: real): seq<real>
    requires k <= |a|
  {
    seq(k, _ => v) + a[k..]
  }

  lemma {:induction false} ChangedRaised(a: seq<real>, k: nat, v: real)
    requires k <= |a|
    ensures Changed(a, Raised(a, k, v)) <= k
  {
    if k == 0 {
      assert Raised(a, 0, v) == a;
      ChangedNot(a);
    } else {
      assert Raised(a, k, v)[1..] == Raised(a[1..], k - 1, v);
      ChangedRaised(a[1..], k - 1, v);
    }
  }

  lemma {:induction false} ChangedNot(a: seq<real>)
    ensures Changed(a, a) == 0
  {
    if a != [] {
      ChangedNot(a[1..]);
    }
  }

  lemma CountRaised(a: seq<real>, k: nat, v: real)
    requires k <= |a|
    ensures Count(Raised(a, k, v), Below(v)) <= |a| - k
  {
    var b := Raised(a, k, v);
    CountSplit(b, k, Below(v));
    CountNone(b[..k], Below(v));
    CountBounds(b[k..], Below(v));
  }

  /** Half of the days, rounded up, put the median above any bound. */
  lemma HalfMovesMedian(a: seq<real>, bound: real) returns (b: seq<real>)
    requires a != []
    ensures |b| == |a| && Changed(a, b) <= (|a| + 1) / 2 && Median(b) > bound
  {
    var n, k := |a|, (|a| + 1) / 2;
    var lo, hi := Extremes(a);
    var v := Max(Max(lo, bound), 2.0 * bound - lo) + 1.0;
    b := Raised(a, k, v);
    ChangedRaised(a, k, v);
    CountRaised(a, k, v);
    hide Ordered, Count;
    OrderStatistic(b, n / 2, Below(v));
    if n % 2 == 0 {
      CountNone(b, Below(lo));
      OrderStatistic(b, n / 2 - 1, Below(lo));
    }
  }

  /** Some change of k days puts the median above the bound. */
  ghost predicate CanPass(a: seq<real>, k: nat, bound: real)
    requires a != []
  {
    exists b: seq<real> :: |b| == |a| && Changed(a, b) <= k && Median(b) > bound
  }

  /** Every bound can be passed exactly from half of the days on. */
  lemma BreakdownIff(a: seq<real>, k: nat)
    requires a != []
    ensures (forall bound :: CanPass(a, k, bound)) <==> 2 * k >= |a|
  {
    hide Median, Changed;
    if 2 * k >= |a| {
      forall bound
        ensures CanPass(a, k, bound)
      {
        var b := HalfMovesMedian(a, bound);
      }
    } else {
      var lo, hi := Extremes(a);
      forall b: seq<real> | |b| == |a| && Changed(a, b) <= k
        ensures Median(b) <= hi
      {
        MedianRobust(a, b, lo, hi);
      }
      assert !CanPass(a, k, hi);
    }
  }

  // ---------------------------------------------------------------- the deviations

  lemma {:induction false} CountDeviations(s: seq<real>, m: real, p: real -> bool, q: real -> bool)
    requires forall x :: x in s && q(x) ==> p(Abs(x - m))
    ensures Count(Deviations(s, m), p) >= Count(s, q)
  {
    if s != [] {
      assert Deviations(s, m)[1..] == Deviations(s[1..], m);
      CountDeviations(s[1..], m, p, q);
    }
  }

  /** The deviation scale is never negative, and at most the width of the range most values lie in. */
  lemma MadAmongMost(s: seq<real>, lo: real, hi: real)
    requires 2 * Count(s, Inside(lo, hi)) > |s|
    ensures s != [] && 0.0 <= Mad(s) <= hi - lo
  {
    hide Ordered, Count, Median;
    MedianAmongMost(s, lo, hi);
    var med := Median(s);
    CountOrdered(s, Inside(lo, hi));
    CountDeviations(Ordered(s), med, Inside(0.0, hi - lo), Inside(lo, hi));
    MedianAmongMost(Deviations(Ordered(s), med), 0.0, hi - lo);
  }

  /** The scale vanishes exactly when more than half of the days equal the median. */
  lemma MadZeroIff(s: seq<real>)
    requires s != []
    ensures Mad(s) == 0.0 <==> 2 * Count(s, Inside(Median(s), Median(s))) > |s|
  {
    if Mad(s) == 0.0 {
      MadZeroMost(s);
    }
    hide Count, Median, Mad;
    if 2 * Count(s, Inside(Median(s), Median(s))) > |s| {
      MadAmongMost(s, Median(s), Median(s));
    }
  }

  lemma MadZeroMost(s: seq<real>)
    requires s != [] && Mad(s) == 0.0
    ensures 2 * Count(s, Inside(Median(s), Median(s))) > |s|
  {
    hide Count, Median, Deviations;
    MedianDeviationZero(Ordered(s), Median(s));
    CountOrdered(s, Inside(Median(s), Median(s)));
  }

  lemma MedianDeviationZero(r: seq<real>, m: real)
    requires r != [] && Median(Deviations(r, m)) == 0.0
    ensures 2 * Count(r, Inside(m, m)) > |r|
  {
    hide Count, Median;
    NoDeviations(Deviations(r, m));
    ZeroDeviations(r, m);
  }

  /** A median of zero over values that are not negative takes more than half zeros. */
  lemma NoDeviations(d: seq<real>)
    requires d != [] && Median(d) == 0.0 && forall i :: 0 <= i < |d| ==> d[i] >= 0.0
    ensures 2 * Count(d, AtMost(0.0)) > |d|
  {
    hide Ordered, Count;
    var e := Ordered(d);
    forall i | 0 <= i < |e|
      ensures e[i] >= 0.0
    {
      assert e[i] in multiset(e) && e[i] in multiset(d);
    }
    OrderStatistic(d, |d| / 2, AtMost(0.0));
  }

  lemma {:induction false} ZeroDeviations(s: seq<real>, m: real)
    ensures Count(Deviations(s, m), AtMost(0.0)) == Count(s, Inside(m, m))
  {
    if s != [] {
      assert Deviations(s, m)[1..] == Deviations(s[1..], m);
      ZeroDeviations(s[1..], m);
    }
  }

  // ---------------------------------------------------------------- the rule

  datatype Flag = Flag(usd: real, z: real, median: real, days: nat)

  /** Anomalous or not, given the values of the days before. */
  function Judge(history: seq<real>, value: real): Option<Flag> {
    if value < FLOOR_USD || |history| < MIN_HISTORY_DAYS then None else
    var (z, med) := RobustZ(history, value);
    if z >= Z_THRESHOLD && value - med >= Max(FLOOR_USD, 0.5 * med) then Some(Flag(value, z, med, |history|)) else None
  }

  /** The days of a record with at most that value. */
  ghost function DaysAtMost(m: map<string, real>, v: real): set<string> {
    set d | d in m && m[d] <= v
  }

  /** The list holds the record's values, in any order: at every value the same number at or below it. */
  ghost predicate Lists(h: seq<real>, m: map<string, real>) {
    |h| == |m| && forall v :: Count(h, AtMost(v)) == |DaysAtMost(m, v)|
  }

  lemma CountAppend(s: seq<real>, x: real, p: real -> bool)
    ensures Count(s + [x], p) == Count(s, p) + (if p(x) then 1 else 0)
  {
    CountSplit(s + [x], |s|, p);
    assert (s + [x])[..|s|] == s && (s + [x])[|s|..] == [x];
    assert [x][1..] == [];
  }

  lemma DaysTake(m: map<string, real>, d: string, v: real)
    requires d in m
    ensures |DaysAtMost(m, v)| == |DaysAtMost(m - {d}, v)| + (if m[d] <= v then 1 else 0)
  {
    if m[d] <= v {
      assert DaysAtMost(m, v) == DaysAtMost(m - {d}, v) + {d};
    } else {
      assert DaysAtMost(m, v) == DaysAtMost(m - {d}, v);
    }
  }

  /** The days before today; a day dated after it is not history. */
  ghost function Past(byDay: map<string, real>, today: string): map<string, real> {
    map d | d in byDay && StringLess(d, today) :: byDay[d]
  }

  function On(byDay: map<string, real>, day: string): real {
    if day in byDay then byDay[day] else 0.0
  }

  /** The rule's answer on the record of the days before, in whatever order they are listed. */
  ghost predicate Answers(flag: Option<Flag>, past: map<string, real>, value: real) {
    forall h :: Lists(h, past) ==> flag == Judge(h, value)
  }

  lemma OrderedUnique(a: seq<real>, b: seq<real>)
    requires |a| == |b| && forall v :: Count(a, AtMost(v)) == Count(b, AtMost(v))
    ensures Ordered(a) == Ordered(b)
  {
    hide Ordered, Count;
    forall k | 0 <= k < |a|
      ensures Ordered(a)[k] == Ordered(b)[k]
    {
      OrderStatistic(a, k, AtMost(Ordered(a)[k]));
      OrderStatistic(b, k, AtMost(Ordered(a)[k]));
      OrderStatistic(a, k, AtMost(Ordered(b)[k]));
      OrderStatistic(b, k, AtMost(Ordered(b)[k]));
    }
  }

  /** The order in which the days are listed does not matter. */
  lemma JudgeOrder(a: seq<real>, b: seq<real>, m: map<string, real>, value: real)
    requires Lists(a, m) && Lists(b, m)
    ensures Judge(a, value) == Judge(b, value)
  {
    hide RobustZ, Ordered;
    OrderedUnique(a, b);
    SameScore(a, b, value);
  }

  lemma SameScore(a: seq<real>, b: seq<real>, value: real)
    requires |a| == |b| && Ordered(a) == Ordered(b)
    ensures RobustZ(a, value) == RobustZ(b, value)
  {
    hide Median, Mad, Ordered;
    if a != [] {
      SameScale(a, b);
    }
  }

  lemma SameScale(a: seq<real>, b: seq<real>)
    requires a != [] && b != [] && Ordered(a) == Ordered(b)
    ensures Median(a) == Median(b) && Mad(a) == Mad(b)
  {
  }

  /** `flag_today`. */
  method FlagToday(byDay: map<string, real>, today: string) returns (flag: Option<Flag>)
    ensures Answers(flag, Past(byDay, today), On(byDay, today))
  {
    hide Judge;
    var history := PastValues(map d | d in byDay && StringLess(d, today) :: byDay[d]);
    flag := Judge(history, On(byDay, today));
    forall h | Lists(h, Past(byDay, today))
      ensures flag == Judge(h, On(byDay, today))
    {
      JudgeOrder(history, h, Past(byDay, today), On(byDay, today));
    }
  }

  /** The values of the past days, as they come. */
  method PastValues(past: map<string, real>) returns (history: seq<real>)
    ensures Lists(history, past)
  {
    history := [];
    var rest := past;
    while rest != map[]
      invariant |history| + |rest| == |past|
      invariant forall v :: Count(history, AtMost(v)) + |DaysAtMost(rest, v)| == |DaysAtMost(past, v)|
      decreases |rest|
    {
      hide DaysAtMost, Count;
      var d :| d in rest;
      forall v
        ensures Count(history + [rest[d]], AtMost(v)) + |DaysAtMost(rest - {d}, v)| == |DaysAtMost(past, v)|
      {
        DaysTake(rest, d, v);
        CountAppend(history, rest[d], AtMost(v));
      }
      history, rest := history + [rest[d]], rest - {d};
    }
    assert forall v :: DaysAtMost(rest, v) == {};
  }

  lemma {:induction false} SomeListing(m: map<string, real>) returns (h: seq<real>)
    ensures Lists(h, m)
    decreases |m|
  {
    if m == map[] {
      h := [];
      assert forall v :: DaysAtMost(m, v) == {};
    } else {
      var d :| d in m;
      var rest := SomeListing(m - {d});
      h := rest + [m[d]];
      forall v
        ensures Count(h, AtMost(v)) == |DaysAtMost(m, v)|
      {
        DaysTake(m, d, v);
        CountAppend(rest, m[d], AtMost(v));
      }
    }
  }

  /** Future-dated days, whatever they hold, never change the answer. */
  lemma FutureIgnored(byDay: map<string, real>, other: map<string, real>, today: string, flag: Option<Flag>,
                      otherFlag: Option<Flag>)
    requires On(byDay, today) == On(other, today)
    requires forall d :: StringLess(d, today) ==> (d in byDay <==> d in other) && (d in byDay ==> byDay[d] == other[d])
    requires Answers(flag, Past(byDay, today), On(byDay, today))
    requires Answers(otherFlag, Past(other, today), On(other, today))
    ensures flag == otherFlag
  {
    hide Judge, Lists, StringLess;
    assert Past(byDay, today) == Past(other, today);
    var h := SomeListing(Past(byDay, today));
  }

  // ---------------------------------------------------------------- what the rule promises

  lemma QuotientAtLeast(a: real, b: real, k: real)
    requires b > 0.0 && a >= k * b
    ensures a / b >= k
  {
  }

  /** Without spread a day is flagged exactly when it exceeds every past day, and by enough. */
  lemma FlatHistoryFlagIff(history: seq<real>, value: real)
    requires history != [] && Mad(history) == 0.0
    ensures Judge(history, value).Some? <==>
      (|history| >= MIN_HISTORY_DAYS && value >= FLOOR_USD
       && (forall x :: x in history ==> value > x)
       && value - Median(history) >= Max(FLOOR_USD, 0.5 * Median(history)))
  {
    hide Mad, Median;
    LargestLast(history, value);
  }

  lemma LargestLast(s: seq<real>, value: real)
    requires s != []
    ensures value > Ordered(s)[|s| - 1] <==> forall x :: x in s ==> value > x
  {
    var r := Ordered(s);
    assert forall x :: x in s <==> x in multiset(s);
    assert forall x :: x in r <==> x in multiset(r);
    assert r[|s| - 1] in r;
    forall x | x in s
      ensures x <= r[|s| - 1]
    {
      assert x in r;
    }
  }

  /** A larger total is flagged whenever a smaller one is. */
  lemma FlagMonotone(history: seq<real>, value: real, more: real)
    requires Judge(history, value).Some? && value <= more
    ensures Judge(history, more).Some?
  {
    hide Mad, Median, Ordered;
    var med, mad := Median(history), Mad(history);
    if mad > 0.0 {
      var scale := MAD_SCALE * mad;
      var z := (value - med) / scale;
      assert z * scale == value - med;
      QuotientAtLeast(more - med, scale, z);
    }
  }

  /** A jump clear of the undisturbed days is flagged whatever fewer than half of the history was changed to, except that
      a history left without spread must not hold a value as large. */
  lemma DetectionSurvives(history: seq<real>, changed: seq<real>, lo: real, hi: real, value: real)
    requires |history| == |changed| >= MIN_HISTORY_DAYS && 2 * Changed(history, changed) < |history|
    requires forall i :: 0 <= i < |history| && history[i] == changed[i] ==> lo <= history[i] <= hi
    requires value >= FLOOR_USD && value - hi >= Max(FLOOR_USD, 0.5 * hi)
    requires value - hi >= Z_THRESHOLD * (MAD_SCALE * (hi - lo))
    ensures Judge(changed, value).Some? <==> Mad(changed) > 0.0 || forall x :: x in changed ==> value > x
  {
    MedianRobust(history, changed, lo, hi);
    UnchangedInside(history, changed, lo, hi);
    MadAmongMost(changed, lo, hi);
    LargestLast(changed, value);
    ClearJump(changed, lo, hi, value);
  }

  lemma ClearJump(h: seq<real>, lo: real, hi: real, value: real)
    requires |h| >= MIN_HISTORY_DAYS && lo <= Median(h) <= hi && 0.0 <= Mad(h) <= hi - lo
    requires value >= FLOOR_USD && value - hi >= Max(FLOOR_USD, 0.5 * hi)
    requires value - hi >= Z_THRESHOLD * (MAD_SCALE * (hi - lo))
    ensures Judge(h, value).Some? <==> Mad(h) > 0.0 || value > Ordered(h)[|h| - 1]
  {
    hide Mad, Median, Ordered;
    if Mad(h) > 0.0 {
      QuotientAtLeast(value - Median(h), MAD_SCALE * Mad(h), Z_THRESHOLD);
    }
  }

  /** A total within five dollars of the undisturbed days is never flagged, whatever fewer than half were changed to. */
  lemma NoFalseAlarm(history: seq<real>, changed: seq<real>, lo: real, hi: real, value: real)
    requires |history| == |changed| && 2 * Changed(history, changed) < |history|
    requires forall i :: 0 <= i < |history| && history[i] == changed[i] ==> lo <= history[i] <= hi
    requires value < lo + FLOOR_USD
    ensures Judge(changed, value).None?
  {
    MedianRobust(history, changed, lo, hi);
  }

  // ---------------------------------------------------------------- the rule in the terms of the history

  lemma CountRemove(s: seq<real>, i: nat, p: real -> bool)
    requires i < |s|
    ensures Count(s, p) == Count(s[..i] + s[i + 1..], p) + (if p(s[i]) then 1 else 0)
  {
    var rest := s[..i] + s[i + 1..];
    CountSplit(s, i, p);
    CountSplit(rest, i, p);
    assert rest[..i] == s[..i] && rest[i..] == s[i + 1..] && s[i..][1..] == s[i + 1..];
  }

  lemma {:induction false} CountSame(a: seq<real>, b: seq<real>, p: real -> bool)
    requires multiset(a) == multiset(b)
    ensures |a| == |b| && Count(a, p) == Count(b, p)
  {
    if a == [] {
      assert |multiset(b)| == 0;
    } else {
      assert a == [a[0]] + a[1..];
      assert a[0] in multiset(b);
      var i :| 0 <= i < |b| && b[i] == a[0];
      var rest := b[..i] + b[i + 1..];
      assert b == b[..i] + [b[i]] + b[i + 1..];
      assert multiset(rest) == multiset(b) - multiset{a[0]} == multiset(a[1..]);
      CountSame(a[1..], rest, p);
      CountRemove(b, i, p);
    }
  }

  /** A sorted arrangement of the values is the one the median is taken from. */
  lemma OrderedIs(s: seq<real>, r: seq<real>)
    requires multiset(r) == multiset(s) && forall i, j :: 0 <= i <= j < |r| ==> r[i] <= r[j]
    ensures Ordered(s) == r
  {
    CountSame(r, s, AtMost(0.0));
    hide Count;
    forall k | 0 <= k < |r|
      ensures Ordered(s)[k] == r[k]
    {
      SortedCount(r, k, AtMost(r[k]));
      SortedCount(r, k, AtMost(Ordered(s)[k]));
      OrderStatistic(s, k, AtMost(r[k]));
      OrderStatistic(s, k, AtMost(Ordered(s)[k]));
      CountSame(r, s, AtMost(r[k]));
      CountSame(r, s, AtMost(Ordered(s)[k]));
    }
  }

  /** The median is the middle value of the sorted ones, or the mean of the middle two. */
  lemma MedianIs(s: seq<real>, r: seq<real>)
    requires s != [] && multiset(r) == multiset(s) && forall i, j :: 0 <= i <= j < |r| ==> r[i] <= r[j]
    ensures |r| == |s|
    ensures |s| % 2 == 1 ==> Median(s) == r[|s| / 2]
    ensures |s| % 2 == 0 ==> Median(s) + Median(s) == r[|s| / 2 - 1] + r[|s| / 2]
  {
    OrderedIs(s, r);
  }

  lemma {:induction false} CountDistances(s: seq<real>, m: real, p: real -> bool)
    ensures Count(Deviations(s, m), p) == Count(s, x => p(Abs(x - m)))
  {
    if s != [] {
      assert Deviations(s, m)[1..] == Deviations(s[1..], m);
      CountDistances(s[1..], m, p);
    }
  }

  lemma MedianByCounts(a: seq<real>, b: seq<real>)
    requires a != [] && |a| == |b| && forall v :: Count(a, AtMost(v)) == Count(b, AtMost(v))
    ensures Median(a) == Median(b)
  {
    OrderedUnique(a, b);
  }

  /** The deviation scale is the median of the distances of the values from the median, in whatever order they are listed. */
  lemma MadIs(s: seq<real>, d: seq<real>)
    requires s != [] && |d| == |s|
    requires forall i :: 0 <= i < |s| ==> d[i] == if s[i] >= Median(s) then s[i] - Median(s) else Median(s) - s[i]
    ensures Mad(s) == Median(d)
  {
    var m := Median(s);
    assert d == Deviations(s, m);
    var e := Deviations(Ordered(s), m);
    hide Median, Count, Deviations, Ordered;
    forall v
      ensures Count(e, AtMost(v)) == Count(d, AtMost(v))
    {
      CountDistances(s, m, AtMost(v));
      CountDistances(Ordered(s), m, AtMost(v));
      CountOrdered(s, x => AtMost(v)(Abs(x - m)));
    }
    LengthOfDeviations(Ordered(s), m);
    LengthOfDeviations(s, m);
    MedianByCounts(e, d);
  }

  lemma LengthOfDeviations(s: seq<real>, m: real)
    ensures |Deviations(s, m)| == |s|
  {
  }

  lemma LargestOrdered(s: seq<real>, value: real)
    requires s != []
    ensures var h := Ordered(s); |h| == |s| && (value > h[|h| - 1] <==> forall x :: x in s ==> value > x)
  {
    var h := Ordered(s);
    assert forall x :: x in multiset(h) <==> x in multiset(s);
    var largest := h[|h| - 1];
    assert largest in multiset(h);
    assert largest in multiset(s);
    assert largest in s;
    if value > h[|h| - 1] {
      forall x | x in s
        ensures value > x
      {
        assert x in multiset(s) && x in multiset(h) && x in h;
      }
    }
  }

  /** The score: with spread the distance above the median in units of 1.4826 scales; without, 99 above every past value and
      nothing below; nothing without history. */
  lemma ScoreIs(s: seq<real>, value: real)
    ensures s == [] ==> RobustZ(s, value) == (0.0, 0.0)
    ensures s != [] ==> RobustZ(s, value).1 == Median(s)
    ensures s != [] && Mad(s) > 0.0 ==> RobustZ(s, value).0 * (1.4826 * Mad(s)) == value - Median(s)
    ensures s != [] && Mad(s) <= 0.0 ==>
      RobustZ(s, value).0 == if forall x :: x in s ==> value > x then 99.0 else 0.0
  {
    if s != [] {
      if Mad(s) > 0.0 {
        SpreadScore(s, value);
      } else {
        LargestOrdered(s, value);
        hide Mad, Median, Ordered;
      }
    }
  }

  lemma SpreadScore(s: seq<real>, value: real)
    requires s != [] && Mad(s) > 0.0
    ensures RobustZ(s, value).0 * (1.4826 * Mad(s)) == value - Median(s)
  {
    hide Mad, Median, Ordered;
    Undivided(value - Median(s), 1.4826 * Mad(s));
  }

  lemma Undivided(x: real, d: real)
    requires d > 0.0
    ensures x / d * d == x
  {
  }

  /** A day is flagged exactly if it came to five dollars, there are seven days before it, it exceeds their median by five
      dollars and by half, and by 3.5 times 1.4826 deviation scales, or without spread exceeds every one of them. */
  lemma FlaggedIff(s: seq<real>, value: real)
    ensures Judge(s, value).Some? <==>
      && value >= 5.0 && |s| >= 7 && value - Median(s) >= 5.0 && value - Median(s) >= 0.5 * Median(s)
      && if Mad(s) > 0.0 then value - Median(s) >= 3.5 * (1.4826 * Mad(s)) else forall x :: x in s ==> value > x
    ensures Judge(s, value).Some? ==>
      var flag := Judge(s, value).value;
      && flag.usd == value && flag.median == Median(s) && flag.days == |s|
      && if Mad(s) > 0.0 then flag.z * (1.4826 * Mad(s)) == value - Median(s) else flag.z == 99.0
  {
    ScoreIs(s, value);
    hide RobustZ, Median, Mad;
    if |s| >= 7 && Mad(s) > 0.0 {
      Scaled(RobustZ(s, value).0, 1.4826 * Mad(s), value - Median(s));
    }
  }

  lemma Scaled(z: real, scale: real, distance: real)
    requires scale > 0.0 && z * scale == distance
    ensures z >= 3.5 <==> distance >= 3.5 * scale
  {
    if z >= 3.5 {
      assert (z - 3.5) * scale >= 0.0;
    } else {
      assert (3.5 - z) * scale > 0.0;
    }
  }

  /** What is judged: today's total, zero if the record has none, against the days before today and no other. */
  lemma JudgedDays(byDay: map<string, real>, today: string, day: string)
    ensures day in Past(byDay, today) <==> day in byDay && StringLess(day, today)
    ensures day in Past(byDay, today) ==> Past(byDay, today)[day] == byDay[day]
    ensures On(byDay, today) == if today in byDay then byDay[today] else 0.0
  {
  }
}
