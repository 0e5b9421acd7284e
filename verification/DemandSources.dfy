/** Where the sweep's intervals come from: the paired execution journal
    (`codex_demand_read_agentic_events`) and the call ledger, which has a sweep of its own
    (`measure_codex_demand_from_ledger`). */
module DemandSources {
  import opened ConcurrencySweep
  import opened Options
  import opened Reals
  import opened Sums
  import opened WeightedQuantile

  // ---------------------------------------------------------------- the journal

  /** A journal line, parsed: `Unusable` is any line the reader cannot take as an event. */
  datatype Entry =
    | Coverage(at: real)
    | Started(id: string, at: real)
    | Ended(id: string, at: real)
    | Unusable

  datatype Pair = Pair(start: Option<real>, end: Option<real>)

  datatype Gaps = Gaps(missing: bool, unusable: nat, duplicate: nat, endWithoutStart: nat, startWithoutEnd: nat, negative: nat,
                       predatesCapture: bool) {
    predicate None() {
      !missing && unusable == duplicate == endWithoutStart == startWithoutEnd == negative == 0 && !predatesCapture
    }
  }

  /** The last start time the journal gives an execution. */
  ghost function StartOf(journal: seq<Entry>, id: string): Option<real> {
    if journal == [] then Option.None else
    var e := journal[|journal| - 1];
    if e.Started? && e.id == id then Some(e.at) else StartOf(journal[..|journal| - 1], id)
  }

  ghost function EndOf(journal: seq<Entry>, id: string): Option<real> {
    if journal == [] then Option.None else
    var e := journal[|journal| - 1];
    if e.Ended? && e.id == id then Some(e.at) else EndOf(journal[..|journal| - 1], id)
  }

  /** The executions in order of first mention. */
  ghost function Executions(journal: seq<Entry>): seq<string> {
    if journal == [] then [] else
    var rest := Executions(journal[..|journal| - 1]);
    var e := journal[|journal| - 1];
    if (e.Started? || e.Ended?) && e.id !in rest then rest + [e.id] else rest
  }

  ghost function PairOf(journal: seq<Entry>, id: string): Pair {
    Pair(StartOf(journal, id), EndOf(journal, id))
  }

  datatype Fate = Counted | EndWithoutStart | StartWithoutEnd | Negative | OutsideWindow

  /** What becomes of one execution; an unfinished one is named, never given an end. */
  function FateOf(p: Pair, since: real, until: real): Fate {
    match p
    case Pair(None, Some(e)) => if e >= since then EndWithoutStart else OutsideWindow
    case Pair(Some(s), None) => if s < until then StartWithoutEnd else OutsideWindow
    case Pair(Some(s), Some(e)) =>
      if e < s then Negative else if s < until && e > since then Counted else OutsideWindow
    case Pair(None, None) => OutsideWindow
  }

  ghost function HowMany(journal: seq<Entry>, ids: seq<string>, since: real, until: real, fate: Fate): nat {
    if ids == [] then 0 else
    HowMany(journal, ids[..|ids| - 1], since, until, fate) +
    if FateOf(PairOf(journal, ids[|ids| - 1]), since, until) == fate then 1 else 0
  }

  ghost function CountedIntervals(journal: seq<Entry>, ids: seq<string>, since: real, until: real): seq<Interval> {
    if ids == [] then [] else
    var rest := CountedIntervals(journal, ids[..|ids| - 1], since, until);
    var p := PairOf(journal, ids[|ids| - 1]);
    if FateOf(p, since, until) == Counted then rest + [Interval(p.start.value, p.end.value)] else rest
  }

  /** How many executions, whole in the journal, are running at instant t. */
  ghost function Running(journal: seq<Entry>, ids: seq<string>, t: real): nat {
    if ids == [] then 0 else
    var p := PairOf(journal, ids[|ids| - 1]);
    Running(journal, ids[..|ids| - 1], t) +
    if p.start.Some? && p.end.Some? && p.start.value <= t < p.end.value then 1 else 0
  }

  ghost predicate PairsRead(journal: seq<Entry>, ids: seq<string>, pairs: map<string, Pair>) {
    && ids == Executions(journal)
    && (forall id :: id in pairs <==> id in ids)
    && (forall id :: id in pairs ==> pairs[id] == PairOf(journal, id))
    && (forall id :: id !in pairs ==> PairOf(journal, id) == Pair(Option.None, Option.None))
  }

  ghost function UnusableLines(journal: seq<Entry>): nat {
    if journal == [] then 0 else
    UnusableLines(journal[..|journal| - 1]) + if journal[|journal| - 1].Unusable? then 1 else 0
  }

  /** Lines that give an execution a second start or a second end. */
  ghost function RepeatedLines(journal: seq<Entry>): nat {
    if journal == [] then 0 else
    var rest, e := journal[..|journal| - 1], journal[|journal| - 1];
    RepeatedLines(rest) +
    if (e.Started? && StartOf(rest, e.id).Some?) || (e.Ended? && EndOf(rest, e.id).Some?) then 1 else 0
  }

  ghost function CaptureStart(journal: seq<Entry>): Option<real> {
    if journal == [] then Option.None else
    var rest, e := CaptureStart(journal[..|journal| - 1]), journal[|journal| - 1];
    if !e.Coverage? then rest else if rest.None? || e.at < rest.value then Some(e.at) else rest
  }

  /** The earliest coverage mark is one of the journal's, and no mark is earlier. */
  lemma {:induction false} CaptureStartIsEarliest(journal: seq<Entry>, e: Entry)
    requires e in journal && e.Coverage?
    ensures CaptureStart(journal).Some? && CaptureStart(journal).value <= e.at
    ensures Coverage(CaptureStart(journal).value) in journal
  {
    var rest, last := journal[..|journal| - 1], journal[|journal| - 1];
    assert journal == rest + [last];
    if e in rest {
      CaptureStartIsEarliest(rest, e);
    } else if CaptureStart(rest).Some? {
      CaptureStartFound(rest);
    }
  }

  lemma {:induction false} CaptureStartFound(journal: seq<Entry>)
    requires CaptureStart(journal).Some?
    ensures Coverage(CaptureStart(journal).value) in journal
  {
    var rest, last := journal[..|journal| - 1], journal[|journal| - 1];
    assert journal == rest + [last];
    if CaptureStart(rest).Some? {
      CaptureStartFound(rest);
    }
  }

  function PairIn(pairs: map<string, Pair>, id: string): Pair {
    if id in pairs then pairs[id] else Pair(Option.None, Option.None)
  }

  lemma PairStep(journal: seq<Entry>, ids: seq<string>, pairs: map<string, Pair>, e: Entry)
    requires PairsRead(journal, ids, pairs)
    ensures !e.Started? && !e.Ended? ==> PairsRead(journal + [e], ids, pairs)
    ensures e.Started? || e.Ended? ==>
      var p := PairIn(pairs, e.id);
      PairsRead(journal + [e], if e.id in pairs then ids else ids + [e.id],
                pairs[e.id := if e.Started? then p.(start := Some(e.at)) else p.(end := Some(e.at))])
  {
  }

  /** Pairs start and end lines by execution; every other line only counts as a gap. */
  method ReadPairs(journal: seq<Entry>) returns (ids: seq<string>, pairs: map<string, Pair>, unusable: nat, duplicate: nat, capture: Option<real>)
    ensures PairsRead(journal, ids, pairs)
    ensures unusable == UnusableLines(journal) && duplicate == RepeatedLines(journal) && capture == CaptureStart(journal)
  {
    ids, pairs, unusable, duplicate, capture := [], map[], 0, 0, Option.None;
    for n := 0 to |journal|
      invariant PairsRead(journal[..n], ids, pairs)
      invariant unusable == UnusableLines(journal[..n])
      invariant duplicate == RepeatedLines(journal[..n])
      invariant capture == CaptureStart(journal[..n])
    {
      var e := journal[n];
      PairStep(journal[..n], ids, pairs, e);
      assert journal[..n + 1] == journal[..n] + [e];
      assert journal[..n + 1][..n] == journal[..n];
      hide PairsRead;
      match e
      case Unusable =>
        unusable := unusable + 1;
      case Coverage(at) =>
        capture := if capture.None? || at < capture.value then Some(at) else capture;
      case Started(id, at) =>
        var p := PairIn(pairs, id);
        PairIsOf(journal[..n], ids, pairs, id);
        duplicate := if p.start.Some? then duplicate + 1 else duplicate;
        ids := if id in pairs then ids else ids + [id];
        pairs := pairs[id := p.(start := Some(at))];
      case Ended(id, at) =>
        var p := PairIn(pairs, id);
        PairIsOf(journal[..n], ids, pairs, id);
        duplicate := if p.end.Some? then duplicate + 1 else duplicate;
        ids := if id in pairs then ids else ids + [id];
        pairs := pairs[id := p.(end := Some(at))];
    }
    assert journal[..|journal|] == journal;
  }

  lemma PairIsOf(journal: seq<Entry>, ids: seq<string>, pairs: map<string, Pair>, id: string)
    requires PairsRead(journal, ids, pairs)
    ensures PairIn(pairs, id) == PairOf(journal, id)
  {
  }

  datatype Verdict = Insufficient | PoolTooSmall | PoolMatches | PoolAbovePeak

  /** The reader's report, unless the summary refuses its window or pool size. */
  datatype Reading = Refused | Reported(gaps: Gaps, observed: Option<Summary>, verdict: Verdict)

  /** The lines read; none of a missing file. */
  function LinesOf(journal: Option<seq<Entry>>): seq<Entry> {
    if journal.Some? then journal.value else []
  }

  ghost function IntervalsOf(journal: Option<seq<Entry>>, since: real, until: real): seq<Interval> {
    CountedIntervals(LinesOf(journal), Executions(LinesOf(journal)), since, until)
  }

  ghost function GapsOf(journal: Option<seq<Entry>>, since: real, until: real): Gaps {
    var lines := LinesOf(journal);
    var ids, capture := Executions(lines), CaptureStart(lines);
    Gaps(journal.None?, UnusableLines(lines), RepeatedLines(lines),
         HowMany(lines, ids, since, until, EndWithoutStart), HowMany(lines, ids, since, until, StartWithoutEnd),
         HowMany(lines, ids, since, until, Negative), capture.None? || capture.value > since)
  }

  /** The pairing loop: the whole executions that touch the window, and the gaps of the others. */
  method ClassifyPairs(lines: seq<Entry>, ids: seq<string>, pairs: map<string, Pair>, since: real, until: real)
    returns (found: seq<Interval>, noStart: nat, noEnd: nat, negative: nat)
    requires PairsRead(lines, ids, pairs)
    ensures found == CountedIntervals(lines, ids, since, until) && forall iv :: iv in found ==> iv.start <= iv.end
    ensures noStart == HowMany(lines, ids, since, until, EndWithoutStart)
    ensures noEnd == HowMany(lines, ids, since, until, StartWithoutEnd)
    ensures negative == HowMany(lines, ids, since, until, Negative)
  {
    found, noStart, noEnd, negative := [], 0, 0, 0;
    for n := 0 to |ids|
      invariant found == CountedIntervals(lines, ids[..n], since, until)
      invariant forall iv :: iv in found ==> iv.start <= iv.end
      invariant noStart == HowMany(lines, ids[..n], since, until, EndWithoutStart)
      invariant noEnd == HowMany(lines, ids[..n], since, until, StartWithoutEnd)
      invariant negative == HowMany(lines, ids[..n], since, until, Negative)
    {
      assert ids[..n + 1][..n] == ids[..n];
      var p := pairs[ids[n]];
      match FateOf(p, since, until)
      case Counted => found := found + [Interval(p.start.value, p.end.value)];
      case EndWithoutStart => noStart := noStart + 1;
      case StartWithoutEnd => noEnd := noEnd + 1;
      case Negative => negative := negative + 1;
      case OutsideWindow =>
    }
    assert ids[..|ids|] == ids;
  }

  /** The journal reader's report: the summary of the counted intervals, named gaps, and a verdict on the pool size.  Without
      a summary to make it accepts any window and pool size. */
  method ReadJournal(journal: Option<seq<Entry>>, since: real, until: real, pool: int) returns (r: Reading)
    ensures var intervals, gaps := IntervalsOf(journal, since, until), GapsOf(journal, since, until);
      && (r.Refused? <==> (until <= since || pool < 1) && (intervals != [] || gaps.None()))
      && (r.Reported? ==>
           && r.gaps == gaps
           && (r.observed.Some? <==> intervals != [] || gaps.None())
           && (r.observed.Some? ==> since < until && TrueSummary(intervals, since, until, pool, r.observed.value))
           && (r.verdict.Insufficient? <==> !gaps.None())
           && (gaps.None() ==> (r.verdict.PoolTooSmall? <==> r.observed.value.maxConcurrent > pool))
           && (gaps.None() ==> (r.verdict.PoolMatches? <==> r.observed.value.maxConcurrent == pool)))
  {
    hide TrueSummary, HowMany, CountedIntervals, UnusableLines, RepeatedLines, CaptureStart, Executions;
    var lines := LinesOf(journal);
    var ids, pairs, unusable, duplicate, capture := ReadPairs(lines);
    var found, noStart, noEnd, negative := ClassifyPairs(lines, ids, pairs, since, until);
    var gaps := Gaps(journal.None?, unusable, duplicate, noStart, noEnd, negative, capture.None? || capture.value > since);
    if found == [] && !gaps.None() {
      return Reported(gaps, Option.None, Insufficient);
    }
    var outcome := IntervalSummary(found, since, until, pool);
    if outcome.BadWindow? {
      return Refused;
    }
    var peak := outcome.summary.maxConcurrent;
    var verdict := if !gaps.None() then Insufficient
      else if peak > pool then PoolTooSmall
      else if peak == pool then PoolMatches
      else PoolAbovePeak;
    return Reported(gaps, Some(outcome.summary), verdict);
  }

  /** No whole execution is dropped in silence: at any instant of the window the counted intervals
      carry exactly the executions whose journaled start and end enclose it. */
  lemma {:induction false} CountedIsRunning(journal: seq<Entry>, ids: seq<string>, since: real, until: real, t: real)
    requires since <= t < until
    ensures Cover(CountedIntervals(journal, ids, since, until), t) == Running(journal, ids, t)
  {
    if ids != [] {
      var rest := ids[..|ids| - 1];
      CountedIsRunning(journal, rest, since, until, t);
      var p := PairOf(journal, ids[|ids| - 1]);
      if FateOf(p, since, until) == Counted {
        OneMore(CountedIntervals(journal, rest, since, until), Interval(p.start.value, p.end.value), t);
      }
    }
  }

  /** Every execution has exactly one fate. */
  lemma {:induction false} FatesAddUp(journal: seq<Entry>, ids: seq<string>, since: real, until: real)
    ensures |ids| == |CountedIntervals(journal, ids, since, until)|
      + HowMany(journal, ids, since, until, EndWithoutStart) + HowMany(journal, ids, since, until, StartWithoutEnd)
      + HowMany(journal, ids, since, until, Negative) + HowMany(journal, ids, since, until, OutsideWindow)
  {
    if ids != [] {
      FatesAddUp(journal, ids[..|ids| - 1], since, until);
    }
  }

  // ---------------------------------------------------------------- the ledger

  /** A ledger row with a usable completion time; the start is reconstructed from the latency. */
  datatype Row = Row(end: real, latency: Option<real>) {
    predicate Usable() {
      latency.Some? && latency.value > 0.0
    }
  }

  ghost function Reconstructed(rows: seq<Row>): seq<Interval> {
    if rows == [] then [] else
    var rest := Reconstructed(rows[..|rows| - 1]);
    var row := rows[|rows| - 1];
    if row.Usable() then rest + [Interval(row.end - row.latency.value, row.end)] else rest
  }

  lemma LedgerStep(rows: seq<Row>, n: nat, since: real, now: real)
    requires n < |rows| && since < now
    ensures var row := rows[n];
      Clipped(Reconstructed(rows[..n + 1]), since, now) ==
      if row.Usable() && row.end >= since && Max(since, row.end - row.latency.value) < Min(row.end, now)
      then Clipped(Reconstructed(rows[..n]), since, now) + [Interval(Max(since, row.end - row.latency.value), Min(row.end, now))]
      else Clipped(Reconstructed(rows[..n]), since, now)
  {
    assert rows[..n + 1][..n] == rows[..n];
    if rows[n].Usable() {
      ClippedOneMore(Reconstructed(rows[..n]), Interval(rows[n].end - rows[n].latency.value, rows[n].end), since, now);
    }
  }

  ghost function Kept(rows: seq<Row>, n: nat, since: real, now: real): seq<Interval>
    requires n <= |rows|
  {
    Clipped(Reconstructed(rows[..n]), since, now)
  }

  lemma KeptAll(rows: seq<Row>, since: real, now: real)
    ensures EventsOf(map[], Kept(rows, 0, since, now), since, now) && Kept(rows, 0, since, now) == []
    ensures Kept(rows, |rows|, since, now) == Clipped(Reconstructed(rows), since, now)
  {
    assert rows[..|rows|] == rows;
  }

  /** A row that counts adds its clipped interval; any other row adds nothing. */
  lemma KeptStep(events: map<real, int>, rows: seq<Row>, n: nat, since: real, now: real)
    requires n < |rows| && since < now && EventsOf(events, Kept(rows, n, since, now), since, now)
    ensures var row := rows[n];
      if row.end < since || !row.Usable() || Max(since, row.end - row.latency.value) >= Min(row.end, now) then
        Kept(rows, n + 1, since, now) == Kept(rows, n, since, now)
      else
        && EventsOf(Bump(Bump(events, Max(since, row.end - row.latency.value), 1), Min(row.end, now), -1),
                    Kept(rows, n + 1, since, now), since, now)
        && |Kept(rows, n + 1, since, now)| == |Kept(rows, n, since, now)| + 1
  {
    LedgerStep(rows, n, since, now);
    var row := rows[n];
    if !(row.end < since || !row.Usable() || Max(since, row.end - row.latency.value) >= Min(row.end, now)) {
      EventsGrow(events, Kept(rows, n, since, now), since, now, Interval(Max(since, row.end - row.latency.value), Min(row.end, now)));
    }
  }

  method CollectLedger(rows: seq<Row>, since: real, now: real) returns (events: map<real, int>, included: nat)
    requires since < now
    ensures EventsOf(events, Clipped(Reconstructed(rows), since, now), since, now)
    ensures included == |Clipped(Reconstructed(rows), since, now)|
  {
    hide EventsOf, Kept, Clipped, Reconstructed, Bump, Max, Min;
    events, included := map[], 0;
    KeptAll(rows, since, now);
    for n := 0 to |rows|
      invariant EventsOf(events, Kept(rows, n, since, now), since, now)
      invariant included == |Kept(rows, n, since, now)|
    {
      var row := rows[n];
      KeptStep(events, rows, n, since, now);
      if row.end < since {
        continue;
      }
      if !row.Usable() {
        continue;
      }
      var start := Max(since, row.end - row.latency.value);
      var end := Min(row.end, now);
      if start >= end {
        continue;
      }
      events := Bump(Bump(events, start, 1), end, -1);
      included := included + 1;
    }
  }

  lemma ClippedOneMore(ivs: seq<Interval>, iv: Interval, since: real, until: real)
    ensures Clipped(ivs + [iv], since, until) ==
      Clipped(ivs, since, until) + if Clip(iv, since, until).start < Clip(iv, since, until).end then [Clip(iv, since, until)] else []
  {
  }

  /** The same histogram, except that level 0 may be present with no time. */
  ghost predicate SameButIdle(g: Histogram, h: Histogram) {
    g == h || (0 !in h && g == h[0 := 0.0])
  }

  lemma SameStep(g: Histogram, h: Histogram, level: int, seconds: real)
    requires SameButIdle(g, h)
    ensures SameButIdle(Put(g, level, seconds), Put(h, level, seconds))
  {
  }

  lemma SameIdleStep(g: Histogram, h: Histogram)
    requires SameButIdle(g, h)
    ensures SameButIdle(Put(g, 0, 0.0), h)
  {
  }

  lemma {:induction false} NoneRunningAt(ivs: seq<Interval>, since: real, until: real)
    requires InWindow(ivs, since, until)
    ensures Cover(ivs, until) == 0
  {
    if ivs != [] {
      assert ivs[|ivs| - 1] in ivs;
      NoneRunningAt(ivs[..|ivs| - 1], since, until);
    }
  }

  /** The time since `previous` is booked at the current level, even when it is none. */
  method Book(histogram: Histogram, concurrency: int, previous: real, to: real,
              ghost ivs: seq<Interval>, ghost since: real, ghost until: real, ghost h: Histogram, ghost timeline: seq<Segment>)
    returns (histogram': Histogram, ghost h': Histogram, ghost timeline': seq<Segment>)
    requires Swept(ivs, since, previous, h, timeline) && SameButIdle(histogram, h)
    requires since <= previous <= to && InWindow(ivs, since, until) && Quiet(ivs, previous, to)
    requires if previous < to then concurrency == Cover(ivs, previous) else concurrency == 0
    ensures Swept(ivs, since, to, h', timeline') && SameButIdle(histogram', h')
  {
    hide Swept, Quiet, Cover, SameButIdle, InWindow;
    histogram' := Put(histogram, concurrency, to - previous);
    h', timeline' := h, timeline;
    if previous < to {
      SweepStep(ivs, since, previous, to, h, timeline, concurrency, until);
      SameStep(histogram, h, concurrency, to - previous);
      h' := Put(h, concurrency, to - previous);
      timeline' := timeline + [Segment(previous, to, concurrency)];
    } else {
      SameIdleStep(histogram, h);
    }
  }

  /** The histogram is, up to a level without time, the one of a faithful tiling of the window. */
  ghost predicate SweptHistogram(g: Histogram, ivs: seq<Interval>, since: real, until: real)
    requires since < until
  {
    exists h, timeline ::
      Tiles(timeline, since, until) && Faithful(timeline, ivs) && HistogramOf(h, timeline) && SameButIdle(g, h)
  }

  /** The sweep that books every step. */
  method SweepAll(events: map<real, int>, ghost ivs: seq<Interval>, since: real, until: real) returns (histogram: Histogram)
    requires since < until && InWindow(ivs, since, until) && EventsOf(events, ivs, since, until)
    ensures SweptHistogram(histogram, ivs, since, until)
  {
    assert SameButIdle(map[], map[]);
    hide Swept, Quiet, Cover, CoverBefore, Change, SameButIdle, Put, Standing, InWindow, EventsOf, EventTimes;
    histogram := map[];
    ghost var h: Histogram, timeline: seq<Segment> := map[], [];
    var previous, concurrency := since, 0;
    SweepStarts(ivs, since);
    var times := OrderedTimes(events, ivs, since, until);
    for j := 0 to |times|
      invariant Standing(ivs, times, j, since, previous, concurrency)
      invariant Swept(ivs, since, previous, h, timeline) && SameButIdle(histogram, h)
    {
      var timestamp := times[j];
      ToEvent(ivs, times, j, since, until, previous, concurrency);
      NextStanding(ivs, times, j, since, until, previous, concurrency, events);
      histogram, h, timeline := Book(histogram, concurrency, previous, timestamp, ivs, since, until, h, timeline);
      concurrency := concurrency + events[timestamp];
      previous := timestamp;
    }
    ToTheEnd(ivs, times, since, until, previous, concurrency);
    if previous == until {
      NoneRunningAt(ivs, since, until);
    }
    histogram, h, timeline := Book(histogram, concurrency, previous, until, ivs, since, until, h, timeline);
    SweptAll(histogram, ivs, since, until, h, timeline);
  }

  lemma SweptAll(g: Histogram, ivs: seq<Interval>, since: real, until: real, h: Histogram, timeline: seq<Segment>)
    requires since < until && Swept(ivs, since, until, h, timeline) && SameButIdle(g, h)
    ensures SweptHistogram(g, ivs, since, until)
  {
    hide SameButIdle, Faithful, HistogramOf, Tiles;
  }

  lemma ActivePeak(ivs: seq<Interval>, since: real, until: real, g: Histogram, h: Histogram, timeline: seq<Segment>, peak: int)
    requires since < until && Tiles(timeline, since, until) && Faithful(timeline, ivs) && HistogramOf(h, timeline)
    requires SameButIdle(g, h)
    requires Active(g) == map[] ==> peak == 0
    requires Active(g) != map[] ==> peak in Active(g) && forall k :: k in Active(g) ==> k <= peak
    ensures IsPeak(ivs, since, until, peak)
  {
    assert Active(g) == Active(h);
    LevelHasTime(timeline, timeline[0]);
    forall k | k in h
      ensures k <= peak
    {
      assert k > 0 ==> k in Active(g);
      assert Active(g) == map[] ==> k !in Active(g);
    }
    if Active(g) == map[] {
      assert timeline[0].concurrency !in Active(g);
      assert peak in h;
    }
    PeakOfHistogram(ivs, since, until, h, timeline, peak);
  }

  /** The ledger's own sweep, which does not skip empty steps, and its peak. */
  method LedgerSweep(rows: seq<Row>, since: real, now: real) returns (histogram: Histogram, peak: int)
    requires since < now
    ensures SweptHistogram(histogram, Reconstructed(rows), since, now)
    ensures IsPeak(Reconstructed(rows), since, now, peak)
  {
    hide SameButIdle, HistogramOf, IsPeak, EventsOf, Faithful, Tiles, Reconstructed, SweptHistogram;
    ghost var ivs := Clipped(Reconstructed(rows), since, now);
    ClippedInWindow(Reconstructed(rows), since, now);
    var events, included := CollectLedger(rows, since, now);
    histogram := SweepAll(events, ivs, since, now);
    SweptForAll(histogram, Reconstructed(rows), since, now);
    peak := MaxLevel(Active(histogram));
    PeakOfSwept(histogram, Reconstructed(rows), since, now, peak);
  }

  lemma SweptForAll(g: Histogram, ivs: seq<Interval>, since: real, until: real)
    requires since < until && SweptHistogram(g, Clipped(ivs, since, until), since, until)
    ensures SweptHistogram(g, ivs, since, until)
  {
    hide SameButIdle, HistogramOf, Faithful, Tiles, Clipped;
    var h, timeline :| Tiles(timeline, since, until) && Faithful(timeline, Clipped(ivs, since, until))
      && HistogramOf(h, timeline) && SameButIdle(g, h);
    FaithfulToAll(timeline, ivs, since, until);
  }

  lemma PeakOfSwept(g: Histogram, ivs: seq<Interval>, since: real, until: real, peak: int)
    requires since < until && SweptHistogram(g, ivs, since, until)
    requires Active(g) == map[] ==> peak == 0
    requires Active(g) != map[] ==> peak in Active(g) && forall k :: k in Active(g) ==> k <= peak
    ensures IsPeak(ivs, since, until, peak)
  {
    hide SameButIdle, HistogramOf, Faithful, Tiles, IsPeak;
    var h, timeline :| Tiles(timeline, since, until) && Faithful(timeline, ivs) && HistogramOf(h, timeline) && SameButIdle(g, h);
    ActivePeak(ivs, since, until, g, h, timeline, peak);
  }

  /** Both sweeps find the same peak on the same intervals. */
  lemma PeakIsUnique(ivs: seq<Interval>, since: real, until: real, a: int, b: int)
    requires IsPeak(ivs, since, until, a) && IsPeak(ivs, since, until, b)
    ensures a == b
  {
  }

  /** A level without time moves no quantile above percentage zero. */
  lemma SameQuantile(g: Histogram, h: Histogram, percentile: real, a: int, b: int)
    requires SameButIdle(g, h) && Weights(h) && (forall k :: k in h ==> k >= 0) && percentile > 0.0
    requires IsQuantile(g, percentile, a) && IsQuantile(h, percentile, b)
    ensures a == b
  {
    hide Target, MapSum, Cumulative;
    if g != h {
      IdleAddsNothing(g, h, a, percentile);
      IdleAddsNothing(g, h, b, percentile);
      PositiveTarget(h, percentile);
      if a == 0 {
        BelowAll(h, 0);
      }
    }
  }

  lemma PositiveTarget(h: Histogram, percentile: real)
    requires Weights(h) && MapSum(h) != 0.0 && percentile > 0.0
    ensures Target(h, percentile) > 0.0
  {
    CumulativeGrows(h, 0, 0);
    hide MapSum;
    assert MapSum(h) * percentile > 0.0;
  }

  lemma SameTarget(g: Histogram, h: Histogram, percentile: real)
    requires MapSum(g) == MapSum(h)
    ensures Target(g, percentile) == Target(h, percentile)
  {
  }

  lemma IdleAddsNothing(g: Histogram, h: Histogram, level: int, percentile: real)
    requires g == h[0 := 0.0] && 0 !in h && (forall k :: k in h ==> k >= 0)
    ensures MapSum(g) == MapSum(h) && (level >= 0 ==> Cumulative(g, level) == Cumulative(h, level))
    ensures Target(g, percentile) == Target(h, percentile)
  {
    hide Target;
    MapSumTake(g, 0);
    assert g - {0} == h;
    SameTarget(g, h, percentile);
    if level >= 0 {
      MapSumTake(UpTo(g, level), 0);
      assert UpTo(g, level) - {0} == UpTo(h, level);
    }
  }

  // ---------------------------------------------------------------- in the terms of the journal's lines

  /** The i-th line is the last start of the execution. */
  ghost predicate LastStart(journal: seq<Entry>, id: string, i: nat) {
    && i < |journal| && journal[i].Started? && journal[i].id == id
    && forall j :: i < j < |journal| && journal[j].Started? ==> journal[j].id != id
  }

  ghost predicate LastEnd(journal: seq<Entry>, id: string, i: nat) {
    && i < |journal| && journal[i].Ended? && journal[i].id == id
    && forall j :: i < j < |journal| && journal[j].Ended? ==> journal[j].id != id
  }

  /** The time of the last start line of an execution, if it has one. */
  lemma {:induction false} StartIs(journal: seq<Entry>, id: string)
    ensures StartOf(journal, id).None? <==> forall e :: e in journal && e.Started? ==> e.id != id
    ensures StartOf(journal, id).Some? ==> exists i: nat :: LastStart(journal, id, i) && StartOf(journal, id).value == journal[i].at
  {
    if journal != [] {
      var n: nat := |journal| - 1;
      var rest := journal[..n];
      StartIs(rest, id);
      assert journal == rest + [journal[n]];
      if journal[n].Started? && journal[n].id == id {
        assert LastStart(journal, id, n);
      } else if StartOf(rest, id).Some? {
        var i: nat :| LastStart(rest, id, i) && StartOf(rest, id).value == rest[i].at;
        assert LastStart(journal, id, i);
      }
    }
  }

  lemma {:induction false} EndIs(journal: seq<Entry>, id: string)
    ensures EndOf(journal, id).None? <==> forall e :: e in journal && e.Ended? ==> e.id != id
    ensures EndOf(journal, id).Some? ==> exists i: nat :: LastEnd(journal, id, i) && EndOf(journal, id).value == journal[i].at
  {
    if journal != [] {
      var n: nat := |journal| - 1;
      var rest := journal[..n];
      EndIs(rest, id);
      assert journal == rest + [journal[n]];
      if journal[n].Ended? && journal[n].id == id {
        assert LastEnd(journal, id, n);
      } else if EndOf(rest, id).Some? {
        var i: nat :| LastEnd(rest, id, i) && EndOf(rest, id).value == rest[i].at;
        assert LastEnd(journal, id, i);
      }
    }
  }

  /** Every execution with a start or an end line, once. */
  lemma {:induction false} ExecutionsAre(journal: seq<Entry>)
    ensures forall id :: id in Executions(journal) <==> exists e :: e in journal && (e.Started? || e.Ended?) && e.id == id
    ensures forall i, j :: 0 <= i < j < |Executions(journal)| ==> Executions(journal)[i] != Executions(journal)[j]
  {
    if journal != [] {
      var n := |journal| - 1;
      ExecutionsAre(journal[..n]);
      assert journal == journal[..n] + [journal[n]];
    }
  }

  /** What becomes of an execution, by its times and the window [since, until). */
  lemma FateIs(p: Pair, since: real, until: real)
    ensures FateOf(p, since, until).Counted? <==>
      p.start.Some? && p.end.Some? && p.start.value <= p.end.value && p.start.value < until && p.end.value > since
    ensures FateOf(p, since, until).Negative? <==> p.start.Some? && p.end.Some? && p.end.value < p.start.value
    ensures FateOf(p, since, until).EndWithoutStart? <==> p.start.None? && p.end.Some? && p.end.value >= since
    ensures FateOf(p, since, until).StartWithoutEnd? <==> p.start.Some? && p.end.None? && p.start.value < until
  {
  }

  /** The indices below n for which it holds. */
  ghost function Such(n: nat, p: int -> bool): set<int> {
    set i | 0 <= i < n && p(i)
  }

  lemma SuchNext(n: nat, p: int -> bool, q: int -> bool)
    requires forall i :: 0 <= i < n ==> p(i) == q(i)
    ensures |Such(n + 1, p)| == |Such(n, q)| + (if p(n) then 1 else 0)
  {
    assert Such(n + 1, p) == Such(n, q) + (if p(n) then {n} else {});
  }

  /** The counts are of the executions, and of the lines, that they name. */
  lemma {:induction false} HowManyIs(journal: seq<Entry>, ids: seq<string>, since: real, until: real, fate: Fate)
    ensures HowMany(journal, ids, since, until, fate)
      == |Such(|ids|, i => 0 <= i < |ids| && FateOf(PairOf(journal, ids[i]), since, until) == fate)|
  {
    hide FateOf, PairOf, Such;
    if ids == [] {
      SuchNone(i => 0 <= i < |ids| && FateOf(PairOf(journal, ids[i]), since, until) == fate);
    } else {
      var n := |ids| - 1;
      var most := ids[..n];
      HowManyIs(journal, most, since, until, fate);
      SuchNext(n, i => 0 <= i < |ids| && FateOf(PairOf(journal, ids[i]), since, until) == fate,
               i => 0 <= i < |most| && FateOf(PairOf(journal, most[i]), since, until) == fate);
    }
  }

  lemma SuchNone(p: int -> bool)
    ensures Such(0, p) == {}
  {
  }

  lemma {:induction false} NoneSuch(journal: seq<Entry>, ids: seq<string>, since: real, until: real, fate: Fate)
    ensures HowMany(journal, ids, since, until, fate) == 0 <==>
      forall id :: id in ids ==> FateOf(PairOf(journal, id), since, until) != fate
  {
    if ids != [] {
      hide FateOf, PairOf;
      NoneSuch(journal, ids[..|ids| - 1], since, until, fate);
      assert ids == ids[..|ids| - 1] + [ids[|ids| - 1]];
    }
  }

  lemma {:induction false} NoUnusable(journal: seq<Entry>)
    ensures UnusableLines(journal) == 0 <==> Unusable !in journal
  {
    if journal != [] {
      NoUnusable(journal[..|journal| - 1]);
      assert journal == journal[..|journal| - 1] + [journal[|journal| - 1]];
    }
  }

  /** The window counts as complete exactly if there is a journal, each of its lines can be used and none repeats another, every
      execution was either counted or lies outside the window, and the capture began by its start. */
  lemma NoGapsIff(journal: Option<seq<Entry>>, since: real, until: real)
    ensures GapsOf(journal, since, until).None() <==>
      && journal.Some? && Unusable !in journal.value && RepeatedLines(journal.value) == 0
      && (forall id :: id in Executions(journal.value) ==>
           var fate := FateOf(PairOf(journal.value, id), since, until); fate.Counted? || fate.OutsideWindow?)
      && CaptureStart(journal.value).Some? && CaptureStart(journal.value).value <= since
  {
    hide FateOf, PairOf, HowMany, Executions, UnusableLines, RepeatedLines, CaptureStart;
    if journal.Some? {
      NoUnusable(journal.value);
      var ids := Executions(journal.value);
      NoneSuch(journal.value, ids, since, until, EndWithoutStart);
      NoneSuch(journal.value, ids, since, until, StartWithoutEnd);
      NoneSuch(journal.value, ids, since, until, Negative);
    }
  }

  lemma {:induction false} UnusableIs(journal: seq<Entry>)
    ensures UnusableLines(journal) == |Such(|journal|, i => 0 <= i < |journal| && journal[i].Unusable?)|
  {
    hide Such;
    if journal == [] {
      SuchNone(i => 0 <= i < |journal| && journal[i].Unusable?);
    } else {
      var n := |journal| - 1;
      var most := journal[..n];
      UnusableIs(most);
      SuchNext(n, i => 0 <= i < |journal| && journal[i].Unusable?, i => 0 <= i < |most| && most[i].Unusable?);
    }
  }

  /** The i-th line repeats an earlier start, or an earlier end, of the same execution. */
  ghost predicate Repeats(journal: seq<Entry>, i: int)
    requires 0 <= i < |journal|
  {
    || (journal[i].Started? && exists e :: e in journal[..i] && e.Started? && e.id == journal[i].id)
    || (journal[i].Ended? && exists e :: e in journal[..i] && e.Ended? && e.id == journal[i].id)
  }

  lemma RepeatsSame(journal: seq<Entry>, n: int)
    requires 0 <= n <= |journal|
    ensures forall i :: 0 <= i < n ==> (Repeats(journal, i) <==> Repeats(journal[..n], i))
  {
    forall i | 0 <= i < n
      ensures Repeats(journal, i) <==> Repeats(journal[..n], i)
    {
      assert journal[..n][..i] == journal[..i];
    }
  }

  lemma RepeatedNext(journal: seq<Entry>)
    requires journal != []
    ensures var n := |journal| - 1;
      RepeatedLines(journal) == RepeatedLines(journal[..n]) + (if Repeats(journal, n) then 1 else 0)
  {
    RepeatsLast(journal);
    hide Repeats, StartOf, EndOf;
  }

  lemma {:induction false} RepeatedIs(journal: seq<Entry>)
    ensures RepeatedLines(journal) == |Such(|journal|, i => 0 <= i < |journal| && Repeats(journal, i))|
  {
    hide Such, Repeats;
    if journal == [] {
      SuchNone(i => 0 <= i < |journal| && Repeats(journal, i));
    } else {
      var n := |journal| - 1;
      var most := journal[..n];
      RepeatedIs(most);
      RepeatedNext(journal);
      RepeatsSame(journal, n);
      hide RepeatedLines;
      SuchNext(n, i => 0 <= i < |journal| && Repeats(journal, i), i => 0 <= i < |most| && Repeats(most, i));
    }
  }

  lemma RepeatsLast(journal: seq<Entry>)
    requires journal != []
    ensures var n := |journal| - 1;
      Repeats(journal, n) <==>
        || (journal[n].Started? && StartOf(journal[..n], journal[n].id).Some?)
        || (journal[n].Ended? && EndOf(journal[..n], journal[n].id).Some?)
  {
    var n := |journal| - 1;
    hide StartOf, EndOf;
    if journal[n].Started? {
      StartIs(journal[..n], journal[n].id);
    }
    if journal[n].Ended? {
      EndIs(journal[..n], journal[n].id);
    }
  }

  /** A ledger row's interval ends when it was recorded and is as long as its latency; a row without a positive latency has
      none. */
  lemma {:induction false} ReconstructedJoin(a: seq<Row>, b: seq<Row>)
    ensures Reconstructed(a + b) == Reconstructed(a) + Reconstructed(b)
    decreases |b|
  {
    if b == [] {
      assert a + b == a;
    } else {
      assert (a + b)[..|a + b| - 1] == a + b[..|b| - 1];
      ReconstructedJoin(a, b[..|b| - 1]);
    }
  }

  lemma ReconstructedOne(row: Row)
    ensures Reconstructed([row]) ==
      if row.latency.Some? && row.latency.value > 0.0 then [Interval(row.end - row.latency.value, row.end)] else []
    ensures Reconstructed([]) == []
  {
    assert [row][..0] == [];
  }
}
