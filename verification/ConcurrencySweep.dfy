/** The half-open sweep over execution intervals (`codex_demand_interval_summary`).

    Times are seconds on the real line.  The reference is pointwise: `Cover(ivs, t)` counts the
    intervals that contain the instant t. */
module ConcurrencySweep {
  import opened Options
  import opened Ordering
  import opened Reals
  import opened Sums
  import opened WeightedQuantile

  datatype Interval = Interval(start: real, end: real)

  datatype Segment = Segment(since: real, until: real, concurrency: int)

  // ---------------------------------------------------------------- the pointwise reference

  predicate Covers(iv: Interval, t: real) {
    iv.start <= t < iv.end
  }

  /** How many intervals are running at instant t. */
  ghost function Cover(ivs: seq<Interval>, t: real): nat {
    if ivs == [] then 0 else
    Cover(ivs[..|ivs| - 1], t) + if Covers(ivs[|ivs| - 1], t) then 1 else 0
  }

  /** How many intervals are running just before instant t. */
  ghost function CoverBefore(ivs: seq<Interval>, t: real): nat {
    if ivs == [] then 0 else
    CoverBefore(ivs[..|ivs| - 1], t) + if ivs[|ivs| - 1].start < t <= ivs[|ivs| - 1].end then 1 else 0
  }

  /** Starts minus ends at instant t. */
  ghost function Change(ivs: seq<Interval>, t: real): int {
    if ivs == [] then 0 else
    Change(ivs[..|ivs| - 1], t) + (if ivs[|ivs| - 1].start == t then 1 else 0) - (if ivs[|ivs| - 1].end == t then 1 else 0)
  }

  /** The length of the part of an interval inside [a, b). */
  function Overlap(iv: Interval, a: real, b: real): real {
    Max(0.0, Min(iv.end, b) - Max(iv.start, a))
  }

  ghost function TotalOverlap(ivs: seq<Interval>, a: real, b: real): real {
    if ivs == [] then 0.0 else
    TotalOverlap(ivs[..|ivs| - 1], a, b) + Overlap(ivs[|ivs| - 1], a, b)
  }

  lemma OneMore(ivs: seq<Interval>, iv: Interval, t: real)
    ensures Cover(ivs + [iv], t) == Cover(ivs, t) + (if Covers(iv, t) then 1 else 0)
    ensures Change(ivs + [iv], t) == Change(ivs, t) + (if iv.start == t then 1 else 0) - (if iv.end == t then 1 else 0)
  {
  }

  // ---------------------------------------------------------------- the clipped intervals

  function Clip(iv: Interval, since: real, until: real): Interval {
    Interval(Max(iv.start, since), Min(iv.end, until))
  }

  /** The intervals the sweep counts: clipped to the window, those that are left non-empty. */
  ghost function Clipped(ivs: seq<Interval>, since: real, until: real): seq<Interval> {
    if ivs == [] then [] else
    var rest := Clipped(ivs[..|ivs| - 1], since, until);
    var iv := Clip(ivs[|ivs| - 1], since, until);
    if iv.start < iv.end then rest + [iv] else rest
  }

  ghost predicate InWindow(ivs: seq<Interval>, since: real, until: real) {
    forall iv :: iv in ivs ==> since <= iv.start < iv.end <= until
  }

  lemma {:induction false} ClippedInWindow(ivs: seq<Interval>, since: real, until: real)
    ensures InWindow(Clipped(ivs, since, until), since, until)
  {
    if ivs != [] {
      ClippedInWindow(ivs[..|ivs| - 1], since, until);
    }
  }

  /** Inside the window, clipping changes no count and no length. */
  lemma {:induction false} ClippingKeepsCover(ivs: seq<Interval>, since: real, until: real, t: real)
    requires since <= t < until
    ensures Cover(Clipped(ivs, since, until), t) == Cover(ivs, t)
  {
    if ivs != [] {
      var rest := ivs[..|ivs| - 1];
      ClippingKeepsCover(rest, since, until, t);
      OneMore(Clipped(rest, since, until), Clip(ivs[|ivs| - 1], since, until), t);
    }
  }

  lemma {:induction false} ClippingKeepsOverlap(ivs: seq<Interval>, since: real, until: real)
    requires since < until
    ensures TotalOverlap(Clipped(ivs, since, until), since, until) == TotalOverlap(ivs, since, until)
  {
    if ivs != [] {
      var rest := ivs[..|ivs| - 1];
      var iv := Clip(ivs[|ivs| - 1], since, until);
      ClippingKeepsOverlap(rest, since, until);
      assert (Clipped(rest, since, until) + [iv])[..|Clipped(rest, since, until)|] == Clipped(rest, since, until);
      assert Overlap(ivs[|ivs| - 1], since, until) == if iv.start < iv.end then Overlap(iv, since, until) else 0.0;
    }
  }

  // ---------------------------------------------------------------- between two events

  /** No interval starts or ends strictly between a and b. */
  ghost predicate Quiet(ivs: seq<Interval>, a: real, b: real) {
    forall iv :: iv in ivs ==> !(a < iv.start < b) && !(a < iv.end < b)
  }

  lemma {:induction false} QuietCover(ivs: seq<Interval>, a: real, b: real, t: real)
    requires Quiet(ivs, a, b) && a <= t < b
    ensures Cover(ivs, t) == Cover(ivs, a)
  {
    if ivs != [] {
      assert ivs[|ivs| - 1] in ivs;
      QuietCover(ivs[..|ivs| - 1], a, b, t);
    }
  }

  lemma {:induction false} QuietCoverBefore(ivs: seq<Interval>, a: real, b: real)
    requires Quiet(ivs, a, b) && a < b
    ensures CoverBefore(ivs, b) == Cover(ivs, a)
  {
    if ivs != [] {
      assert ivs[|ivs| - 1] in ivs;
      QuietCoverBefore(ivs[..|ivs| - 1], a, b);
    }
  }

  /** An event moves the count from its left limit to its value. */
  lemma {:induction false} EventStep(ivs: seq<Interval>, t: real)
    requires forall iv :: iv in ivs ==> iv.start < iv.end
    ensures Cover(ivs, t) == CoverBefore(ivs, t) + Change(ivs, t)
  {
    if ivs != [] {
      assert ivs[|ivs| - 1] in ivs;
      EventStep(ivs[..|ivs| - 1], t);
    }
  }

  lemma {:induction false} NothingStarted(ivs: seq<Interval>, t: real)
    requires forall iv :: iv in ivs ==> t <= iv.start < iv.end
    ensures CoverBefore(ivs, t) == 0
    ensures forall u :: u < t ==> Cover(ivs, u) == 0
  {
    if ivs != [] {
      assert ivs[|ivs| - 1] in ivs;
      NothingStarted(ivs[..|ivs| - 1], t);
    }
  }

  lemma {:induction false} QuietOverlap(ivs: seq<Interval>, since: real, a: real, b: real)
    requires Quiet(ivs, a, b) && since <= a < b && forall iv :: iv in ivs ==> iv.start < iv.end
    ensures TotalOverlap(ivs, since, b) == TotalOverlap(ivs, since, a) + Times(Cover(ivs, a), b - a)
  {
    TimesOneMore(0, b - a);
    hide Times;
    if ivs != [] {
      var iv, rest := ivs[|ivs| - 1], ivs[..|ivs| - 1];
      assert iv in ivs;
      QuietOverlap(rest, since, a, b);
      assert Overlap(iv, since, b) == Overlap(iv, since, a) + if Covers(iv, a) then b - a else 0.0;
      TimesOneMore(Cover(rest, a), b - a);
    }
  }

  /** `n` intervals running for `d` seconds, in interval-seconds. */
  function Times(n: int, d: real): real {
    n as real * d
  }

  lemma TimesOneMore(n: int, d: real)
    ensures Times(0, d) == 0.0 && Times(n + 1, d) == Times(n, d) + d
  {
  }

  lemma TimesAdd(n: int, d: real, e: real)
    ensures Times(n, d + e) == Times(n, d) + Times(n, e)
  {
  }

  // ---------------------------------------------------------------- timeline and histogram

  ghost predicate Tiles(timeline: seq<Segment>, a: real, b: real) {
    if timeline == [] then a == b else
    && timeline[0].since == a
    && timeline[|timeline| - 1].until == b
    && (forall i :: 0 <= i < |timeline| ==> timeline[i].since < timeline[i].until)
    && (forall i, j :: 0 <= i && j == i + 1 && j < |timeline| ==> timeline[i].until == timeline[j].since)
  }

  /** Each segment's concurrency is the true count at every instant in it. */
  ghost predicate Faithful(timeline: seq<Segment>, ivs: seq<Interval>) {
    forall s, t :: s in timeline && s.since <= t < s.until ==> Cover(ivs, t) == s.concurrency
  }

  /** The time the timeline spends at one concurrency. */
  ghost function TimeAt(timeline: seq<Segment>, level: int): real {
    if timeline == [] then 0.0 else
    var s := timeline[|timeline| - 1];
    TimeAt(timeline[..|timeline| - 1], level) + if s.concurrency == level then s.until - s.since else 0.0
  }

  /** The histogram holds the levels that have time on the timeline, with that time. */
  ghost predicate HistogramOf(h: Histogram, timeline: seq<Segment>) {
    && (forall k :: TimeAt(timeline, k) >= 0.0 && (k in h <==> TimeAt(timeline, k) > 0.0))
    && (forall k :: k in h ==> h[k] == TimeAt(timeline, k) && k >= 0)
  }

  /** Seconds weighted by their level: interval-seconds. */
  ghost function Weighted(h: Histogram): Histogram {
    map k | k in h :: Times(k, h[k])
  }

  function Put(h: Histogram, level: int, seconds: real): Histogram {
    h[level := (if level in h then h[level] else 0.0) + seconds]
  }

  lemma PutSums(h: Histogram, level: int, seconds: real)
    ensures MapSum(Put(h, level, seconds)) == MapSum(h) + seconds
    ensures MapSum(Weighted(Put(h, level, seconds))) == MapSum(Weighted(h)) + Times(level, seconds)
  {
    var before := if level in h then h[level] else 0.0;
    TimesAdd(level, before, seconds);
    assert Times(level, 0.0) == 0.0;
    hide Times, MapSum;
    MapSumPut(h, level, before + seconds);
    assert Weighted(Put(h, level, seconds)) == Weighted(h)[level := Times(level, before + seconds)];
    MapSumPut(Weighted(h), level, Times(level, before + seconds));
  }

  lemma TimelineGrows(timeline: seq<Segment>, s: Segment, a: real)
    requires Tiles(timeline, a, s.since) && s.since < s.until
    ensures Tiles(timeline + [s], a, s.until)
    ensures forall k :: TimeAt(timeline + [s], k) == TimeAt(timeline, k) + if s.concurrency == k then s.until - s.since else 0.0
  {
  }

  /** A tiling leaves no instant out. */
  lemma {:induction false} TileAt(timeline: seq<Segment>, a: real, b: real, t: real) returns (s: Segment)
    requires Tiles(timeline, a, b) && a <= t < b
    ensures s in timeline && s.since <= t < s.until
  {
    if t < timeline[0].until {
      s := timeline[0];
    } else {
      var rest := timeline[1..];
      assert Tiles(rest, timeline[0].until, b);
      s := TileAt(rest, timeline[0].until, b, t);
    }
  }

  /** What the sweep has established about the window up to `previous`. */
  ghost predicate Swept(ivs: seq<Interval>, since: real, previous: real, h: Histogram, timeline: seq<Segment>) {
    && Tiles(timeline, since, previous)
    && Faithful(timeline, ivs)
    && HistogramOf(h, timeline)
    && MapSum(h) == previous - since
    && MapSum(Weighted(h)) == TotalOverlap(ivs, since, previous)
  }

  lemma {:induction false} NoOverlap(ivs: seq<Interval>, a: real)
    ensures TotalOverlap(ivs, a, a) == 0.0
  {
    if ivs != [] {
      NoOverlap(ivs[..|ivs| - 1], a);
    }
  }

  lemma SweepStarts(ivs: seq<Interval>, since: real)
    ensures Swept(ivs, since, since, map[], [])
  {
    NoOverlap(ivs, since);
    assert Weighted(map[]) == map[];
  }

  lemma HistogramGrows(h: Histogram, timeline: seq<Segment>, s: Segment, a: real)
    requires HistogramOf(h, timeline) && s.since < s.until && s.concurrency >= 0
    requires Tiles(timeline, a, s.since)
    ensures HistogramOf(Put(h, s.concurrency, s.until - s.since), timeline + [s])
  {
    TimelineGrows(timeline, s, a);
    hide Tiles;
    forall k
      ensures TimeAt(timeline + [s], k) == TimeAt(timeline, k) + if s.concurrency == k then s.until - s.since else 0.0
    {
    }
    hide TimeAt;
  }

  /** A level with time has a segment. */
  lemma {:induction false} SegmentAt(timeline: seq<Segment>, level: int) returns (s: Segment)
    requires TimeAt(timeline, level) > 0.0
    ensures s in timeline && s.concurrency == level
  {
    s := timeline[|timeline| - 1];
    if s.concurrency != level {
      s := SegmentAt(timeline[..|timeline| - 1], level);
    }
  }

  lemma {:induction false} LevelHasTime(timeline: seq<Segment>, s: Segment)
    requires s in timeline && (forall u :: u in timeline ==> u.since < u.until)
    ensures TimeAt(timeline, s.concurrency) > 0.0
  {
    var rest := timeline[..|timeline| - 1];
    TimesNonNegative(rest, s.concurrency);
    if s != timeline[|timeline| - 1] {
      LevelHasTime(rest, s);
    }
  }

  lemma {:induction false} TimesNonNegative(timeline: seq<Segment>, level: int)
    requires forall u :: u in timeline ==> u.since < u.until
    ensures TimeAt(timeline, level) >= 0.0
  {
    if timeline != [] {
      assert timeline[|timeline| - 1] in timeline;
      TimesNonNegative(timeline[..|timeline| - 1], level);
    }
  }

  lemma StillFaithful(ivs: seq<Interval>, timeline: seq<Segment>, s: Segment)
    requires Faithful(timeline, ivs) && Quiet(ivs, s.since, s.until) && s.concurrency == Cover(ivs, s.since)
    ensures Faithful(timeline + [s], ivs)
  {
    forall u, t | u in timeline + [s] && u.since <= t < u.until
      ensures Cover(ivs, t) == u.concurrency
    {
      if u == s {
        QuietCover(ivs, s.since, s.until, t);
      } else {
        assert u in timeline;
      }
    }
  }

  /** One segment more. */
  lemma SweepStep(ivs: seq<Interval>, since: real, previous: real, to: real, h: Histogram, timeline: seq<Segment>, concurrency: int, until: real)
    requires Swept(ivs, since, previous, h, timeline) && since <= previous < to
    requires Quiet(ivs, previous, to) && concurrency == Cover(ivs, previous)
    requires InWindow(ivs, since, until)
    ensures Swept(ivs, since, to, Put(h, concurrency, to - previous), timeline + [Segment(previous, to, concurrency)])
  {
    hide Times, MapSum, Faithful, HistogramOf, Tiles, Put;
    var s := Segment(previous, to, concurrency);
    TimelineGrows(timeline, s, since);
    HistogramGrows(h, timeline, s, since);
    PutSums(h, concurrency, to - previous);
    QuietOverlap(ivs, since, previous, to);
    StillFaithful(ivs, timeline, s);
  }

  // ---------------------------------------------------------------- collecting the events

  ghost predicate EventsOf(events: map<real, int>, ivs: seq<Interval>, since: real, until: real) {
    && (forall iv :: iv in ivs ==> iv.start in events && iv.end in events)
    && (forall t :: t in events ==> since <= t <= until && events[t] == Change(ivs, t))
  }

  lemma {:induction false} NoChange(ivs: seq<Interval>, t: real)
    requires forall iv :: iv in ivs ==> iv.start != t && iv.end != t
    ensures Change(ivs, t) == 0
  {
    if ivs != [] {
      assert ivs[|ivs| - 1] in ivs;
      NoChange(ivs[..|ivs| - 1], t);
    }
  }

  function Bump(events: map<real, int>, t: real, step: int): map<real, int> {
    events[t := (if t in events then events[t] else 0) + step]
  }

  lemma EventsGrow(events: map<real, int>, ivs: seq<Interval>, since: real, until: real, iv: Interval)
    requires EventsOf(events, ivs, since, until) && since <= iv.start < iv.end <= until
    ensures EventsOf(Bump(Bump(events, iv.start, 1), iv.end, -1), ivs + [iv], since, until)
  {
    var grown := Bump(Bump(events, iv.start, 1), iv.end, -1);
    forall t | t in grown
      ensures grown[t] == Change(ivs + [iv], t)
    {
      OneMore(ivs, iv, t);
      if t !in events {
        NoChange(ivs, t);
      }
    }
  }

  method CollectEvents(intervals: seq<Interval>, since: real, until: real) returns (events: map<real, int>, included: nat, bad: bool)
    requires since < until
    ensures bad <==> exists iv :: iv in intervals && iv.end < iv.start
    ensures !bad ==> EventsOf(events, Clipped(intervals, since, until), since, until)
    ensures !bad ==> included == |Clipped(intervals, since, until)|
  {
    events, included, bad := map[], 0, false;
    for n := 0 to |intervals|
      invariant forall iv :: iv in intervals[..n] ==> iv.start <= iv.end
      invariant EventsOf(events, Clipped(intervals[..n], since, until), since, until)
      invariant included == |Clipped(intervals[..n], since, until)|
    {
      var iv := intervals[n];
      if iv.end < iv.start {
        return events, included, true;
      }
      assert intervals[..n + 1][..n] == intervals[..n];
      var clipped := Clip(iv, since, until);
      if clipped.start < clipped.end {
        EventsGrow(events, Clipped(intervals[..n], since, until), since, until, clipped);
        events := Bump(Bump(events, clipped.start, 1), clipped.end, -1);
        included := included + 1;
      }
    }
    assert intervals[..|intervals|] == intervals;
  }

  // ---------------------------------------------------------------- sweeping them

  /** Where the sweep stands before the event at position j. */
  ghost predicate Standing(ivs: seq<Interval>, times: seq<real>, j: nat, since: real, previous: real, concurrency: int)
    requires j <= |times|
  {
    if j == 0 then
      previous == since && concurrency == 0
    else
      previous == times[j - 1] && concurrency == Cover(ivs, previous)
  }

  ghost predicate EventTimes(times: seq<real>, ivs: seq<Interval>, since: real, until: real) {
    && Increasing(RealLess, times)
    && (forall iv :: iv in ivs ==> iv.start in times && iv.end in times)
    && (forall t :: t in times ==> since <= t <= until)
  }

  /** From one event to the next: nothing happens in between, and the count is carried over. */
  lemma ToEvent(ivs: seq<Interval>, times: seq<real>, j: nat, since: real, until: real, previous: real, concurrency: int)
    requires InWindow(ivs, since, until) && EventTimes(times, ivs, since, until)
    requires j < |times| && Standing(ivs, times, j, since, previous, concurrency)
    ensures since <= previous <= times[j] <= until
    ensures Quiet(ivs, previous, times[j])
    ensures CoverBefore(ivs, times[j]) == concurrency
    ensures previous < times[j] ==> concurrency == Cover(ivs, previous)
  {
    var to := times[j];
    assert to in times;
    assert j > 0 ==> times[j - 1] in times;
    forall t | t in times
      ensures !(previous < t < to) && (j == 0 ==> to <= t)
    {
      var k :| 0 <= k < |times| && times[k] == t;
    }
    if j == 0 {
      NothingStarted(ivs, to);
    } else {
      QuietCoverBefore(ivs, previous, to);
    }
  }

  /** After the event the count has moved by its starts minus its ends; an event that falls on
      `previous` can only be the first. */
  lemma NextStanding(ivs: seq<Interval>, times: seq<real>, j: nat, since: real, until: real, previous: real, concurrency: int,
                     events: map<real, int>)
    requires InWindow(ivs, since, until) && EventTimes(times, ivs, since, until) && EventsOf(events, ivs, since, until)
    requires j < |times| && Standing(ivs, times, j, since, previous, concurrency) && times[j] in events
    ensures Standing(ivs, times, j + 1, since, times[j], concurrency + events[times[j]])
    ensures previous == times[j] ==> concurrency == 0
  {
    ToEvent(ivs, times, j, since, until, previous, concurrency);
    EventStep(ivs, times[j]);
  }

  method OrderedTimes(events: map<real, int>, ghost ivs: seq<Interval>, since: real, until: real) returns (times: seq<real>)
    requires EventsOf(events, ivs, since, until)
    ensures EventTimes(times, ivs, since, until)
    ensures forall t :: t in times ==> t in events
    ensures Standing(ivs, times, 0, since, since, 0)
  {
    times := Listing(RealLess, events.Keys);
  }

  /** After the last event. */
  lemma ToTheEnd(ivs: seq<Interval>, times: seq<real>, since: real, until: real, previous: real, concurrency: int)
    requires InWindow(ivs, since, until) && EventTimes(times, ivs, since, until) && since < until
    requires Standing(ivs, times, |times|, since, previous, concurrency)
    ensures since <= previous <= until
    ensures Quiet(ivs, previous, until) && concurrency == Cover(ivs, previous)
  {
    if times == [] {
      assert forall iv :: iv in ivs ==> iv.start in times;
      NothingStarted(ivs, until);
    } else {
      assert times[|times| - 1] in times;
    }
    forall t | t in times
      ensures t <= previous
    {
      var k :| 0 <= k < |times| && times[k] == t;
    }
  }

  method Sweep(events: map<real, int>, ghost ivs: seq<Interval>, since: real, until: real)
    returns (histogram: Histogram, timeline: seq<Segment>)
    requires since < until && InWindow(ivs, since, until) && EventsOf(events, ivs, since, until)
    ensures Swept(ivs, since, until, histogram, timeline)
  {
    hide Swept, Quiet, Cover, CoverBefore, Change, Standing, InWindow, EventsOf, EventTimes;
    histogram, timeline := map[], [];
    var previous, concurrency := since, 0;
    SweepStarts(ivs, since);
    var times := OrderedTimes(events, ivs, since, until);
    for j := 0 to |times|
      invariant Standing(ivs, times, j, since, previous, concurrency)
      invariant Swept(ivs, since, previous, histogram, timeline)
    {
      var timestamp := times[j];
      ToEvent(ivs, times, j, since, until, previous, concurrency);
      NextStanding(ivs, times, j, since, until, previous, concurrency, events);
      if timestamp > previous {
        SweepStep(ivs, since, previous, timestamp, histogram, timeline, concurrency, until);
        histogram := Put(histogram, concurrency, timestamp - previous);
        timeline := timeline + [Segment(previous, timestamp, concurrency)];
      }
      concurrency := concurrency + events[timestamp];
      previous := timestamp;
    }
    ToTheEnd(ivs, times, since, until, previous, concurrency);
    if previous < until {
      SweepStep(ivs, since, previous, until, histogram, timeline, concurrency, until);
      histogram := Put(histogram, concurrency, until - previous);
      timeline := timeline + [Segment(previous, until, concurrency)];
    }
  }

  // ---------------------------------------------------------------- the summary

  datatype Quantiles = Quantiles(p50: Option<int>, p95: Option<int>)

  datatype Summary = Summary(
    usable: nat,
    timeline: seq<Segment>,
    allWindow: Quantiles,
    activeOnly: Quantiles,
    maxConcurrent: int,
    secondsByConcurrency: Histogram,
    saturation: real)

  datatype Outcome = Summarized(summary: Summary) | BadWindow | BackwardsInterval

  /** The part of the histogram at or above the pool size. */
  function AtLeast(h: Histogram, pool: int): Histogram {
    map k | k in h && k >= pool :: h[k]
  }

  /** `most` is reached, and never exceeded, at some instant of the window. */
  ghost predicate IsPeak(ivs: seq<Interval>, since: real, until: real, most: int) {
    && (exists t :: since <= t < until && Cover(ivs, t) == most)
    && (forall t :: since <= t < until ==> Cover(ivs, t) <= most)
  }

  ghost predicate QuantilesOf(q: Quantiles, h: Histogram) {
    && (q.p50.Some? ==> IsQuantile(h, 50.0, q.p50.value))
    && (q.p95.Some? ==> IsQuantile(h, 95.0, q.p95.value))
    && (q.p50.None? <==> MapSum(h) == 0.0)
    && (q.p95.None? <==> MapSum(h) == 0.0)
  }

  method QuantilePair(h: Histogram) returns (q: Quantiles)
    requires Weights(h)
    ensures QuantilesOf(q, h)
  {
    var p50 := Quantile(h, 50.0);
    var p95 := Quantile(h, 95.0);
    CumulativeGrows(h, 0, 0);
    q := Quantiles(p50, p95);
  }

  /** `max(histogram, default=0)`. */
  method MaxLevel(h: Histogram) returns (most: int)
    ensures h == map[] ==> most == 0
    ensures h != map[] ==> most in h && forall k :: k in h ==> k <= most
  {
    most := 0;
    var levels := Levels(h);
    if levels != [] {
      most := levels[|levels| - 1];
      assert most in levels;
      forall k | k in levels
        ensures k <= most
      {
        var j :| 0 <= j < |levels| && levels[j] == k;
      }
    }
    assert forall k :: k in h ==> k in levels;
  }

  lemma Fraction(x: real, d: real)
    requires 0.0 <= x <= d && d > 0.0
    ensures 0.0 <= x / d <= 1.0 && (x / d > 0.0 <==> x > 0.0)
  {
  }

  /** The share of the window spent at or above the pool size. */
  ghost predicate SaturationOf(saturation: real, h: Histogram, pool: int, duration: real, most: int)
    requires duration > 0.0
  {
    && saturation == MapSum(AtLeast(h, pool)) / duration
    && 0.0 <= saturation <= 1.0
    && (saturation > 0.0 <==> most >= pool)
  }

  predicate InOrder(q: Quantiles, most: int) {
    (q.p50.Some? <==> q.p95.Some?) && (q.p50.Some? && q.p95.Some? ==> q.p50.value <= q.p95.value <= most)
  }

  ghost predicate Quantified(whole: Quantiles, active: Quantiles, h: Histogram, most: int) {
    && QuantilesOf(whole, h)
    && QuantilesOf(active, Active(h))
    && InOrder(whole, most) && InOrder(active, most)
    && (active.p50.Some? <==> most > 0)
    && (active.p50.Some? ==> whole.p50.Some? && whole.p50.value <= active.p50.value)
    && (active.p95.Some? ==> whole.p95.Some? && whole.p95.value <= active.p95.value)
  }

  /** What the summary says about the intervals themselves, clipping aside. */
  ghost predicate TrueSummary(ivs: seq<Interval>, since: real, until: real, pool: int, s: Summary)
    requires since < until
  {
    && s.usable == |Clipped(ivs, since, until)|
    && Tiles(s.timeline, since, until)
    && Faithful(s.timeline, ivs)
    && HistogramOf(s.secondsByConcurrency, s.timeline)
    && MapSum(s.secondsByConcurrency) == until - since
    && MapSum(Weighted(s.secondsByConcurrency)) == TotalOverlap(ivs, since, until)
    && IsPeak(ivs, since, until, s.maxConcurrent)
    && SaturationOf(s.saturation, s.secondsByConcurrency, pool, until - since, s.maxConcurrent)
    && Quantified(s.allWindow, s.activeOnly, s.secondsByConcurrency, s.maxConcurrent)
  }

  lemma PeakOfHistogram(ivs: seq<Interval>, since: real, until: real, h: Histogram, timeline: seq<Segment>, most: int)
    requires since < until && Tiles(timeline, since, until) && Faithful(timeline, ivs) && HistogramOf(h, timeline)
    requires h == map[] ==> most == 0
    requires h != map[] ==> most in h && forall k :: k in h ==> k <= most
    ensures IsPeak(ivs, since, until, most) && most in h
  {
    forall t | since <= t < until
      ensures Cover(ivs, t) in h
    {
      var s := TileAt(timeline, since, until, t);
      LevelHasTime(timeline, s);
    }
    assert Cover(ivs, since) in h;
    var s := SegmentAt(timeline, most);
    SegmentInside(timeline, since, until, s);
    assert Cover(ivs, s.since) == most;
  }

  lemma {:induction false} SegmentInside(timeline: seq<Segment>, a: real, b: real, s: Segment)
    requires Tiles(timeline, a, b) && s in timeline
    ensures a <= s.since < s.until <= b
  {
    if s != timeline[0] {
      var rest := timeline[1..];
      assert Tiles(rest, timeline[0].until, b);
      SegmentInside(rest, timeline[0].until, b, s);
    } else if |timeline| > 1 {
      var rest := timeline[1..];
      assert Tiles(rest, timeline[0].until, b);
      assert rest[0] in rest;
      SegmentInside(rest, timeline[0].until, b, rest[0]);
    }
  }

  lemma PartPositive(h: Histogram, level: int, most: int)
    requires (forall k :: k in h ==> h[k] > 0.0) && most in h && (forall k :: k in h ==> k <= most)
    ensures MapSum(AtLeast(h, level)) >= 0.0 && MapSum(AtLeast(h, level)) <= MapSum(h)
    ensures MapSum(AtLeast(h, level)) > 0.0 <==> most >= level
  {
    var part := AtLeast(h, level);
    MapSumNonNegative(part);
    MapSumPart(part, h);
    if most >= level {
      MapSumTake(part, most);
      MapSumNonNegative(part - {most});
    } else {
      assert part == map[];
    }
  }

  lemma FaithfulToAll(timeline: seq<Segment>, ivs: seq<Interval>, since: real, until: real)
    requires Tiles(timeline, since, until) && Faithful(timeline, Clipped(ivs, since, until))
    ensures Faithful(timeline, ivs)
  {
    forall s, t | s in timeline && s.since <= t < s.until
      ensures Cover(ivs, t) == s.concurrency
    {
      SegmentInside(timeline, since, until, s);
      ClippingKeepsCover(ivs, since, until, t);
    }
  }

  lemma PairInOrder(h: Histogram, q: Quantiles, most: int)
    requires (forall k :: k in h ==> h[k] > 0.0 && k <= most) && QuantilesOf(q, h)
    ensures InOrder(q, most)
  {
    hide Target, Cumulative, MapSum;
    if q.p50.Some? {
      QuantileMonotone(h, 50.0, q.p50.value, 95.0, q.p95.value);
    }
  }

  lemma QuantilesOrdered(h: Histogram, whole: Quantiles, active: Quantiles, most: int)
    requires (forall k :: k in h ==> h[k] > 0.0 && 0 <= k <= most) && most in h
    requires QuantilesOf(whole, h) && QuantilesOf(active, Active(h))
    ensures Quantified(whole, active, h, most)
  {
    assert Active(h) == AtLeast(h, 1);
    PartPositive(h, 1, most);
    hide Target, Cumulative, MapSum;
    PairInOrder(h, whole, most);
    PairInOrder(Active(h), active, most);
    if active.p50.Some? {
      ActiveQuantileNotBelow(h, 50.0, whole.p50.value, active.p50.value);
    }
    if active.p95.Some? {
      ActiveQuantileNotBelow(h, 95.0, whole.p95.value, active.p95.value);
    }
  }

  method Saturation(h: Histogram, pool: int, duration: real, ghost most: int) returns (saturation: real)
    requires (forall k :: k in h ==> h[k] > 0.0 && k <= most) && most in h
    requires duration > 0.0 && MapSum(h) == duration
    ensures SaturationOf(saturation, h, pool, duration, most)
  {
    hide MapSum;
    var saturated := Total(AtLeast(h, pool));
    PartPositive(h, pool, most);
    Fraction(saturated, duration);
    saturation := saturated / duration;
  }

  lemma SweptHistogram(h: Histogram, timeline: seq<Segment>, most: int)
    requires HistogramOf(h, timeline)
    requires h == map[] ==> most == 0
    requires h != map[] ==> most in h && forall k :: k in h ==> k <= most
    ensures Weights(h) && Weights(Active(h))
    ensures forall k :: k in h ==> h[k] > 0.0 && 0 <= k <= most
  {
  }

  method IntervalSummary(intervals: seq<Interval>, since: real, until: real, pool: int) returns (r: Outcome)
    ensures r.BadWindow? <==> until <= since || pool < 1
    ensures r.BackwardsInterval? <==> since < until && pool >= 1 && exists iv :: iv in intervals && iv.end < iv.start
    ensures r.Summarized? ==> since < until && TrueSummary(intervals, since, until, pool, r.summary)
  {
    hide MapSum, Cover, Tiles, Faithful, HistogramOf, SaturationOf, Quantified, QuantilesOf, IsPeak, EventsOf,
      InWindow, TotalOverlap, Weighted, Weights, Clipped;
    if until <= since || pool < 1 {
      return BadWindow;
    }
    var events, included, bad := CollectEvents(intervals, since, until);
    if bad {
      return BackwardsInterval;
    }
    ghost var clipped := Clipped(intervals, since, until);
    ClippedInWindow(intervals, since, until);
    var h, timeline := Sweep(events, clipped, since, until);
    FaithfulToAll(timeline, intervals, since, until);
    ClippingKeepsOverlap(intervals, since, until);
    var most := MaxLevel(h);
    PeakOfHistogram(intervals, since, until, h, timeline, most);
    SweptHistogram(h, timeline, most);
    var allWindow := QuantilePair(h);
    var activeOnly := QuantilePair(Active(h));
    QuantilesOrdered(h, allWindow, activeOnly, most);
    var saturation := Saturation(h, pool, until - since, most);
    return Summarized(Summary(included, timeline, allWindow, activeOnly, most, h, saturation));
  }
}
