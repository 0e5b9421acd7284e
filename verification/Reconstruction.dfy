/** The reconstruction's totals (`_reconstruction_cache_payload`) and the publication of its result
    (`_write_reconstruction_checkpoint`).  Dollars are reals. */
module Reconstruction {
  import opened Options
  import opened Ordering

  const UNATTRIBUTED := "unattributed"
  const ESTIMATE_WEIGHT := 0.5

  /** A provider and a month. */
  datatype Key = Key(provider: string, month: string)

  predicate KeyLess(a: Key, b: Key) {
    if a.provider != b.provider then StringLess(a.provider, b.provider) else StringLess(a.month, b.month)
  }

  lemma KeyOrder()
    ensures StrictTotal(KeyLess)
  {
    StringOrder();
    hide StringLess;
  }

  // ---------------------------------------------------------------- dollars by key

  datatype Entry = Entry(key: Key, usd: real)

  function Sum(entries: seq<Entry>): real {
    if entries == [] then 0.0 else Sum(entries[..|entries| - 1]) + entries[|entries| - 1].usd
  }

  function At(entries: seq<Entry>, key: Key): real {
    if entries == [] then 0.0 else
    var last := entries[|entries| - 1];
    At(entries[..|entries| - 1], key) + (if last.key == key then last.usd else 0.0)
  }

  predicate Has(entries: seq<Entry>, key: Key) {
    exists e :: e in entries && e.key == key
  }

  function SumAt(entries: seq<Entry>, keys: seq<Key>): real {
    if keys == [] then 0.0 else SumAt(entries, keys[..|keys| - 1]) + At(entries, keys[|keys| - 1])
  }

  lemma {:induction false} SumAtAppend(entries: seq<Entry>, e: Entry, keys: seq<Key>)
    requires Distinct(keys)
    ensures SumAt(entries + [e], keys) == SumAt(entries, keys) + (if e.key in keys then e.usd else 0.0)
  {
    assert (entries + [e])[..|entries|] == entries;
    if keys != [] {
      var most, last := keys[..|keys| - 1], keys[|keys| - 1];
      assert keys == most + [last] && last !in most;
      SumAtAppend(entries, e, most);
    }
  }

  lemma {:induction false} SumAtNothing(keys: seq<Key>)
    ensures SumAt([], keys) == 0.0
  {
    if keys != [] {
      SumAtNothing(keys[..|keys| - 1]);
    }
  }

  /** Split by key, the dollars add up again. */
  lemma {:induction false} SumByKey(entries: seq<Entry>, keys: seq<Key>)
    requires Distinct(keys) && forall e :: e in entries ==> e.key in keys
    ensures SumAt(entries, keys) == Sum(entries)
  {
    if entries == [] {
      SumAtNothing(keys);
    } else {
      var most, last := entries[..|entries| - 1], entries[|entries| - 1];
      assert entries == most + [last];
      SumByKey(most, keys);
      SumAtAppend(most, last, keys);
    }
  }

  /** The dictionary of the entries' dollars by key. */
  ghost predicate IsTotal(m: map<Key, real>, entries: seq<Entry>) {
    (forall k :: k in m <==> Has(entries, k)) && (forall k :: k in m ==> m[k] == At(entries, k))
  }

  /** The accumulating dictionary. */
  method Accumulate(entries: seq<Entry>) returns (m: map<Key, real>)
    ensures IsTotal(m, entries)
  {
    m := map[];
    for i := 0 to |entries|
      invariant forall k :: k in m <==> Has(entries[..i], k)
      invariant forall k :: At(entries[..i], k) == if k in m then m[k] else 0.0
    {
      hide Has, At;
      var e := entries[i];
      forall k
        ensures At(entries[..i + 1], k) == At(entries[..i], k) + (if e.key == k then e.usd else 0.0)
        ensures Has(entries[..i + 1], k) <==> Has(entries[..i], k) || e.key == k
      {
        EntryNext(entries, i, k);
      }
      m := m[e.key := (if e.key in m then m[e.key] else 0.0) + e.usd];
    }
    assert entries[..|entries|] == entries;
  }

  lemma EntryNext(entries: seq<Entry>, i: nat, k: Key)
    requires i < |entries|
    ensures At(entries[..i + 1], k) == At(entries[..i], k) + (if entries[i].key == k then entries[i].usd else 0.0)
    ensures Has(entries[..i + 1], k) <==> Has(entries[..i], k) || entries[i].key == k
  {
    assert entries[..i + 1][..i] == entries[..i];
    assert entries[..i + 1] == entries[..i] + [entries[i]];
    assert entries[i] in entries[..i + 1];
  }

  // ---------------------------------------------------------------- the rows

  /** A kept run: `priced` is the provider the price list gives for its model, if it knows the model. */
  datatype Run = Run(project: string, provider: Option<string>, priced: Option<string>, month: Option<string>, usd: real,
                     printed: bool)

  datatype Row = Row(project: string, provider: Option<string>, month: Option<string>, usd: real)

  datatype Gap =
    | PriceLookupUnavailable(row: nat)
    | Unattributed(row: nat)
    | MissingDay(row: nat)
    | MissingTruth(key: Key)

  predicate Named(provider: Option<string>) {
    provider.Some? && provider.value != ""
  }

  /** Evidence keeps its dollars, an estimate counts half; the provider comes from the price list when the run names none. */
  function RowOf(r: Run): Row {
    Row(if r.project == "" then UNATTRIBUTED else r.project,
        if Named(r.provider) then r.provider else if r.priced.Some? then r.priced else r.provider,
        r.month, if r.printed then r.usd else r.usd * ESTIMATE_WEIGHT)
  }

  function RowsOf(runs: seq<Run>): seq<Row> {
    seq(|runs|, i requires 0 <= i < |runs| => RowOf(runs[i]))
  }

  predicate Placed(r: Row) {
    r.month.Some? && r.provider.Some?
  }

  function EntriesOf(rows: seq<Row>): seq<Entry> {
    if rows == [] then [] else
    var last := rows[|rows| - 1];
    EntriesOf(rows[..|rows| - 1])
      + (if Placed(last) then [Entry(Key(last.provider.value, last.month.value), last.usd)] else [])
  }

  function Total(rows: seq<Row>): real {
    if rows == [] then 0.0 else Total(rows[..|rows| - 1]) + rows[|rows| - 1].usd
  }

  /** The dollars of the rows without a day or a provider. */
  function Unplaced(rows: seq<Row>): real {
    if rows == [] then 0.0 else
    Unplaced(rows[..|rows| - 1]) + (if Placed(rows[|rows| - 1]) then 0.0 else rows[|rows| - 1].usd)
  }

  lemma {:induction false} PlacedAndUnplaced(rows: seq<Row>)
    ensures Total(rows) == Sum(EntriesOf(rows)) + Unplaced(rows)
  {
    if rows != [] {
      PlacedAndUnplaced(rows[..|rows| - 1]);
      var before, after := EntriesOf(rows[..|rows| - 1]), EntriesOf(rows);
      if Placed(rows[|rows| - 1]) {
        assert after[..|after| - 1] == before;
      } else {
        assert after == before;
      }
    }
  }

  // ---------------------------------------------------------------- the comparison

  /** A provider's month: its billed truth, if any is known, and what was reconstructed. */
  datatype Comparison = Comparison(key: Key, truth: Option<real>, reconstructed: real, residual: Option<real>)

  datatype Payload = Payload(total: real, rows: seq<Row>, months: seq<Comparison>, gaps: seq<Gap>, complete: bool)

  function ReconstructedTotal(months: seq<Comparison>): real {
    if months == [] then 0.0 else ReconstructedTotal(months[..|months| - 1]) + months[|months| - 1].reconstructed
  }

  /** One comparison for each provider-month of either side, in order, each with both sides' dollars. */
  ghost predicate Compares(months: seq<Comparison>, rows: seq<Row>, truth: seq<Entry>, complete: bool) {
    var entries := EntriesOf(rows);
    && (forall i, j :: 0 <= i < j < |months| ==> KeyLess(months[i].key, months[j].key))
    && (forall k :: Has(entries, k) || Has(truth, k) <==> exists c :: c in months && c.key == k)
    && (forall c :: c in months ==>
         && c.reconstructed == At(entries, c.key)
         && c.truth == (if Has(truth, c.key) then Some(At(truth, c.key)) else None)
         && c.residual == (if c.truth.Some? && complete then Some(c.truth.value - c.reconstructed) else None))
  }

  /** The gaps of the first n runs. */
  ghost predicate RowGaps(gaps: seq<Gap>, runs: seq<Run>, n: nat)
    requires n <= |runs|
  {
    && (forall i: nat :: PriceLookupUnavailable(i) in gaps <==> i < n && !Named(runs[i].provider) && runs[i].priced.None?)
    && (forall i: nat :: Unattributed(i) in gaps <==> i < n && RowOf(runs[i]).project == UNATTRIBUTED)
    && (forall i: nat :: MissingDay(i) in gaps <==> i < n && runs[i].month.None?)
    && (forall k :: MissingTruth(k) !in gaps)
  }

  lemma RowGapsNext(gaps: seq<Gap>, runs: seq<Run>, n: nat)
    requires n < |runs| && RowGaps(gaps, runs, n)
    ensures RowGaps(gaps
      + (if !Named(runs[n].provider) && runs[n].priced.None? then [PriceLookupUnavailable(n)] else [])
      + (if RowOf(runs[n]).project == UNATTRIBUTED then [Unattributed(n)] else [])
      + (if runs[n].month.None? then [MissingDay(n)] else []), runs, n + 1)
  {
    hide RowOf, Named;
  }

  /** The named gaps: each kind exactly where it applies. */
  ghost predicate NamesGaps(gaps: seq<Gap>, runs: seq<Run>, truth: seq<Entry>) {
    && (forall i: nat :: PriceLookupUnavailable(i) in gaps <==> i < |runs| && !Named(runs[i].provider) && runs[i].priced.None?)
    && (forall i: nat :: Unattributed(i) in gaps <==> i < |runs| && RowOf(runs[i]).project == UNATTRIBUTED)
    && (forall i: nat :: MissingDay(i) in gaps <==> i < |runs| && runs[i].month.None?)
    && (forall k :: MissingTruth(k) in gaps <==> Has(EntriesOf(RowsOf(runs)), k) && !Has(truth, k))
  }

  lemma GapsJoin(own: seq<Gap>, missing: seq<Gap>, runs: seq<Run>, truth: seq<Entry>)
    requires RowGaps(own, runs, |runs|)
    requires forall g :: g in missing <==> g.MissingTruth? && Has(EntriesOf(RowsOf(runs)), g.key) && !Has(truth, g.key)
    ensures NamesGaps(own + missing, runs, truth)
  {
    hide Has, EntriesOf, RowOf, RowsOf, Named;
  }

  method Rows(runs: seq<Run>) returns (rows: seq<Row>, gaps: seq<Gap>, complete: bool)
    ensures rows == RowsOf(runs) && RowGaps(gaps, runs, |runs|)
    ensures complete <==> forall i :: 0 <= i < |runs| ==> Named(runs[i].provider) || runs[i].priced.Some?
  {
    rows, gaps, complete := [], [], true;
    for n := 0 to |runs|
      invariant rows == RowsOf(runs[..n]) && RowGaps(gaps, runs, n)
      invariant complete <==> forall i :: 0 <= i < n ==> Named(runs[i].provider) || runs[i].priced.Some?
    {
      hide RowOf, RowGaps, Named;
      RowGapsNext(gaps, runs, n);
      var row := RowOf(runs[n]);
      assert RowsOf(runs[..n + 1]) == RowsOf(runs[..n]) + [row];
      rows := rows + [row];
      if !Named(runs[n].provider) && runs[n].priced.None? {
        gaps := gaps + [PriceLookupUnavailable(n)];
        complete := false;
      }
      if row.project == UNATTRIBUTED {
        gaps := gaps + [Unattributed(n)];
      }
      if runs[n].month.None? {
        gaps := gaps + [MissingDay(n)];
      }
    }
    assert runs[..|runs|] == runs;
  }

  /** A truth row: unusable without a provider or a finite amount. */
  datatype Truth = Truth(key: Key, usd: Option<real>)

  predicate Usable(t: Truth) {
    t.key.provider != "" && t.usd.Some?
  }

  predicate AllUsable(truth: seq<Truth>) {
    forall i :: 0 <= i < |truth| ==> Usable(truth[i])
  }

  function TruthEntries(truth: seq<Truth>): seq<Entry>
    requires AllUsable(truth)
  {
    if truth == [] then [] else
    TruthEntries(truth[..|truth| - 1]) + [Entry(truth[|truth| - 1].key, truth[|truth| - 1].usd.value)]
  }

  method ReadTruth(truth: seq<Truth>) returns (entries: Option<seq<Entry>>)
    ensures entries.Some? <==> AllUsable(truth)
    ensures entries.Some? ==> entries.value == TruthEntries(truth)
  {
    var read := [];
    for i := 0 to |truth|
      invariant AllUsable(truth[..i])
      invariant read == TruthEntries(truth[..i])
    {
      if !Usable(truth[i]) {
        return None;
      }
      assert truth[..i + 1] == truth[..i] + [truth[i]];
      assert truth[..i + 1][..i] == truth[..i];
      read := read + [Entry(truth[i].key, truth[i].usd.value)];
    }
    assert truth[..|truth|] == truth;
    return Some(read);
  }

  function ComparisonAt(entries: seq<Entry>, truth: seq<Entry>, complete: bool, key: Key): Comparison {
    var measured := if Has(truth, key) then Some(At(truth, key)) else None;
    var estimate := At(entries, key);
    Comparison(key, measured, estimate, if measured.Some? && complete then Some(measured.value - estimate) else None)
  }

  ghost predicate ComparesKeys(months: seq<Comparison>, entries: seq<Entry>, truth: seq<Entry>, complete: bool, keys: seq<Key>) {
    |months| == |keys| && forall i :: 0 <= i < |keys| ==> months[i] == ComparisonAt(entries, truth, complete, keys[i])
  }

  /** The comparisons, one for each provider-month known to either side. */
  method Compare(rows: seq<Row>, truth: seq<Entry>, complete: bool) returns (months: seq<Comparison>, missing: seq<Gap>)
    ensures Compares(months, rows, truth, complete)
    ensures forall g :: g in missing <==> g.MissingTruth? && Has(EntriesOf(rows), g.key) && !Has(truth, g.key)
    ensures ReconstructedTotal(months) == Sum(EntriesOf(rows))
  {
    hide Has, EntriesOf, KeyLess, Compares, ComparesKeys, IsTotal, Increasing;
    var reconstructed := Accumulate(EntriesOf(rows));
    var actual := Accumulate(truth);
    KeyOrder();
    var keys := Listing(KeyLess, actual.Keys + reconstructed.Keys);
    KeysOfEither(actual, reconstructed, truth, EntriesOf(rows), keys);
    months, missing := CompareKeys(keys, actual, reconstructed, EntriesOf(rows), truth, complete);
    AllCompared(months, rows, truth, complete, keys);
  }

  lemma KeysOfEither(actual: map<Key, real>, reconstructed: map<Key, real>, truth: seq<Entry>, entries: seq<Entry>,
                     keys: seq<Key>)
    requires IsTotal(actual, truth) && IsTotal(reconstructed, entries)
    requires forall k :: k in keys <==> k in actual.Keys + reconstructed.Keys
    ensures forall k :: k in keys <==> Has(truth, k) || Has(entries, k)
  {
  }

  /** The comparison loop. */
  method CompareKeys(keys: seq<Key>, actual: map<Key, real>, reconstructed: map<Key, real>, ghost entries: seq<Entry>,
                     ghost truth: seq<Entry>, complete: bool) returns (months: seq<Comparison>, missing: seq<Gap>)
    requires IsTotal(actual, truth) && IsTotal(reconstructed, entries)
    ensures ComparesKeys(months, entries, truth, complete, keys)
    ensures forall g :: g in missing <==> g.MissingTruth? && g.key in keys && !Has(truth, g.key)
  {
    hide Has, At, ComparesKeys, ComparisonAt, IsTotal;
    NoComparisons(entries, truth, complete);
    months, missing := [], [];
    assert keys[..0] == [];
    for i := 0 to |keys|
      invariant ComparesKeys(months, entries, truth, complete, keys[..i])
      invariant forall g :: g in missing <==> g.MissingTruth? && g.key in keys[..i] && !Has(truth, g.key)
    {
      var key := keys[i];
      var measured := if key in actual then Some(actual[key]) else None;
      var estimate := if key in reconstructed then reconstructed[key] else 0.0;
      var residual := if measured.None? || !complete then None else Some(measured.value - estimate);
      TotalAt(actual, truth, key);
      TotalAt(reconstructed, entries, key);
      NextComparison(months, entries, truth, complete, keys, i);
      assert keys[..i + 1] == keys[..i] + [key];
      if measured.None? {
        missing := missing + [MissingTruth(key)];
      }
      months := months + [Comparison(key, measured, estimate, residual)];
    }
    assert keys[..|keys|] == keys;
  }

  lemma TotalAt(m: map<Key, real>, entries: seq<Entry>, key: Key)
    requires IsTotal(m, entries)
    ensures key in m <==> Has(entries, key)
    ensures At(entries, key) == if key in m then m[key] else 0.0
  {
    AbsentIsZero(entries, key);
    hide Has, At;
  }

  lemma NoComparisons(entries: seq<Entry>, truth: seq<Entry>, complete: bool)
    ensures ComparesKeys([], entries, truth, complete, [])
  {
  }

  lemma NextComparison(months: seq<Comparison>, entries: seq<Entry>, truth: seq<Entry>, complete: bool, keys: seq<Key>, i: nat)
    requires i < |keys| && ComparesKeys(months, entries, truth, complete, keys[..i])
    ensures var measured := if Has(truth, keys[i]) then Some(At(truth, keys[i])) else None;
      var estimate := At(entries, keys[i]);
      var residual := if measured.None? || !complete then None else Some(measured.value - estimate);
      ComparesKeys(months + [Comparison(keys[i], measured, estimate, residual)], entries, truth, complete, keys[..i + 1])
  {
    hide Has, At;
    forall j | 0 <= j < i
      ensures months[j] == ComparisonAt(entries, truth, complete, keys[..i + 1][j])
    {
      assert keys[..i + 1][j] == keys[..i][j];
    }
  }

  lemma AllCompared(months: seq<Comparison>, rows: seq<Row>, truth: seq<Entry>, complete: bool, keys: seq<Key>)
    requires ComparesKeys(months, EntriesOf(rows), truth, complete, keys)
    requires Increasing(KeyLess, keys) && StrictTotal(KeyLess)
    requires forall k :: k in keys <==> Has(truth, k) || Has(EntriesOf(rows), k)
    ensures Compares(months, rows, truth, complete)
    ensures ReconstructedTotal(months) == Sum(EntriesOf(rows))
    ensures forall k :: k in keys && !Has(truth, k) <==> Has(EntriesOf(rows), k) && !Has(truth, k)
  {
    hide Has, At, EntriesOf, KeyLess;
    var entries := EntriesOf(rows);
    AllKeys(entries, truth, keys, months);
    SumByKey(entries, keys);
    TotalByKeys(months, entries, truth, complete, keys);
  }

  lemma {:induction false} TotalByKeys(months: seq<Comparison>, entries: seq<Entry>, truth: seq<Entry>, complete: bool,
                                       keys: seq<Key>)
    requires ComparesKeys(months, entries, truth, complete, keys)
    ensures ReconstructedTotal(months) == SumAt(entries, keys)
  {
    hide Has, At;
    if keys != [] {
      TotalByKeys(months[..|months| - 1], entries, truth, complete, keys[..|keys| - 1]);
    }
  }

  lemma {:induction false} AbsentIsZero(entries: seq<Entry>, key: Key)
    ensures !Has(entries, key) ==> At(entries, key) == 0.0
  {
    if entries != [] {
      var most, last := entries[..|entries| - 1], entries[|entries| - 1];
      assert entries == most + [last];
      AbsentIsZero(most, key);
      assert last in entries;
    }
  }

  lemma AllKeys(entries: seq<Entry>, truth: seq<Entry>, keys: seq<Key>, months: seq<Comparison>)
    requires forall k :: k in keys <==> Has(truth, k) || Has(entries, k)
    requires Increasing(KeyLess, keys) && StrictTotal(KeyLess)
    requires |months| == |keys| && forall j :: 0 <= j < |keys| ==> months[j].key == keys[j]
    ensures forall k :: Has(entries, k) || Has(truth, k) <==> exists c :: c in months && c.key == k
    ensures forall i, j :: 0 <= i < j < |months| ==> KeyLess(months[i].key, months[j].key)
    ensures Distinct(keys) && forall e :: e in entries ==> e.key in keys
  {
  }

  /** `_reconstruction_cache_payload`; nothing when a truth row is unusable. */
  method CachePayload(runs: seq<Run>, truth: seq<Truth>) returns (r: Option<Payload>)
    ensures r.Some? <==> AllUsable(truth)
    ensures r.Some? ==>
      && r.value.rows == RowsOf(runs) && r.value.total == Total(r.value.rows)
      && (r.value.complete <==> forall i :: 0 <= i < |runs| ==> Named(runs[i].provider) || runs[i].priced.Some?)
      && Compares(r.value.months, r.value.rows, TruthEntries(truth), r.value.complete)
      && NamesGaps(r.value.gaps, runs, TruthEntries(truth))
      && r.value.total == ReconstructedTotal(r.value.months) + Unplaced(r.value.rows)
  {
    hide Has, EntriesOf, Compares, RowOf, RowsOf, RowGaps, NamesGaps;
    var rows, gaps, complete := Rows(runs);
    var entries := ReadTruth(truth);
    if entries.None? {
      return None;
    }
    var months, missing := Compare(rows, entries.value, complete);
    GapsJoin(gaps, missing, runs, entries.value);
    var total := SumRows(rows);
    PlacedAndUnplaced(rows);
    return Some(Payload(total, rows, months, gaps + missing, complete));
  }

  method SumRows(rows: seq<Row>) returns (total: real)
    ensures total == Total(rows)
  {
    total := 0.0;
    for i := 0 to |rows|
      invariant total == Total(rows[..i])
    {
      assert rows[..i + 1][..i] == rows[..i];
      total := total + rows[i].usd;
    }
    assert rows[..|rows|] == rows;
  }

  /** A row's dollars are in no provider-month exactly when the run has no day, or names no provider and the price list
      does not know its model. */
  lemma UnplacedIff(r: Run)
    ensures !Placed(RowOf(r)) <==> r.month.None? || (r.provider.None? && r.priced.None?)
  {
  }

  // ---------------------------------------------------------------- publishing the result

  /** A file's bytes: a whole document, or one whose writing was cut off. */
  datatype Content = Whole(text: string) | Partial

  /** The output file, its checkpoint and the temporary file beside them. */
  class OutputFiles {
    var path: Option<Content>
    var checkpoint: Option<Content>
    var temporary: Option<Content>

    constructor (path: Option<Content>, checkpoint: Option<Content>)
      ensures this.path == path && this.checkpoint == checkpoint && temporary == None
    {
      this.path, this.checkpoint, temporary := path, checkpoint, None;
    }

    /** `_write_reconstruction_checkpoint`, ended after `steps` effects by an exception or by the end of the process:
        create and fill the temporary file, copy the settled output aside, replace it. */
    method Publish(text: string, steps: nat, killed: bool) returns (published: bool)
      requires temporary == None
      modifies this
      ensures path == old(path) || path == Some(Whole(text))
      ensures old(path).Some? ==> path == old(path) || checkpoint == old(path)
      ensures checkpoint == old(checkpoint) || (old(path).Some? && (checkpoint == old(path) || checkpoint == Some(Partial)))
      ensures published ==> path == Some(Whole(text)) && temporary == None && (old(path).Some? ==> checkpoint == old(path))
      ensures !published ==> path == old(path)
      ensures !killed ==> temporary == None
      ensures published <==> steps >= if old(path).Some? then 5 else 3
    {
      var left := steps;
      published := false;
      if left > 0 {
        temporary := Some(Partial);
        left := left - 1;
      }
      if left > 0 {
        temporary := Some(Whole(text));
        left := left - 1;
      }
      if left > 0 && path.Some? {
        checkpoint := Some(Partial);
        left := left - 1;
        if left > 0 {
          checkpoint := path;
          left := left - 1;
        }
      }
      if left > 0 {
        path, temporary := temporary, None;
        published := true;
      } else if !killed && temporary.Some? {
        temporary := None;
      }
    }
  }

  // ---------------------------------------------------------------- in the terms of the runs

  /** What a run becomes: its dollars if they were printed and half of them if not; its own provider if it names one, else the
      price list's, if that knows the model; "unattributed" without a project. */
  lemma RowIs(runs: seq<Run>, i: nat)
    requires i < |runs|
    ensures |RowsOf(runs)| == |runs|
    ensures var run, row := runs[i], RowsOf(runs)[i];
      && (run.printed ==> row.usd == run.usd) && (!run.printed ==> row.usd + row.usd == run.usd)
      && (run.provider.Some? && run.provider.value != "" ==> row.provider == run.provider)
      && (run.provider.None? || run.provider.value == "" ==>
           row.provider == if run.priced.Some? then run.priced else run.provider)
      && row.month == run.month
      && (run.project != "" ==> row.project == run.project) && (run.project == "" ==> row.project == "unattributed")
  {
  }

  lemma {:induction false} EntriesJoin(a: seq<Row>, b: seq<Row>)
    ensures EntriesOf(a + b) == EntriesOf(a) + EntriesOf(b)
    ensures Total(a + b) == Total(a) + Total(b)
    decreases |b|
  {
    if b == [] {
      assert a + b == a;
    } else {
      assert (a + b)[..|a + b| - 1] == a + b[..|b| - 1];
      EntriesJoin(a, b[..|b| - 1]);
    }
  }

  /** A row enters the comparison exactly if it has a day and a provider; it counts in the total in any case. */
  lemma EntryOfRow(row: Row)
    ensures EntriesOf([row]) ==
      if row.month.Some? && row.provider.Some? then [Entry(Key(row.provider.value, row.month.value), row.usd)] else []
    ensures Total([row]) == row.usd && Total([]) == 0.0 && EntriesOf([]) == []
  {
    assert [row][..0] == [];
  }

  lemma {:induction false} AtJoin(a: seq<Entry>, b: seq<Entry>, key: Key)
    ensures At(a + b, key) == At(a, key) + At(b, key)
    decreases |b|
  {
    if b == [] {
      assert a + b == a;
    } else {
      assert (a + b)[..|a + b| - 1] == a + b[..|b| - 1];
      AtJoin(a, b[..|b| - 1], key);
    }
  }

  lemma AtOne(e: Entry, key: Key)
    ensures At([e], key) == (if e.key == key then e.usd else 0.0) && At([], key) == 0.0
  {
    assert [e][..0] == [];
  }

  /** Comparisons are in the order of provider, then month. */
  lemma KeyLessIff(a: Key, b: Key)
    ensures KeyLess(a, b) <==>
      StringLess(a.provider, b.provider) || (a.provider == b.provider && StringLess(a.month, b.month))
  {
    StringOrder();
    hide StringLess;
  }

  /** The truth rows are taken as they are, in order, exactly if each has a provider and an amount. */
  lemma TruthIs(truth: seq<Truth>)
    ensures AllUsable(truth) <==> forall t :: t in truth ==> t.key.provider != "" && t.usd.Some?
    ensures AllUsable(truth) ==>
      && |TruthEntries(truth)| == |truth|
      && forall i :: 0 <= i < |truth| ==> TruthEntries(truth)[i] == Entry(truth[i].key, truth[i].usd.value)
  {
    if AllUsable(truth) {
      TruthEntriesAre(truth);
    }
  }

  lemma {:induction false} TruthEntriesAre(truth: seq<Truth>)
    requires AllUsable(truth)
    ensures |TruthEntries(truth)| == |truth|
    ensures forall i :: 0 <= i < |truth| ==> TruthEntries(truth)[i] == Entry(truth[i].key, truth[i].usd.value)
  {
    if truth != [] {
      TruthEntriesAre(truth[..|truth| - 1]);
    }
  }
}
