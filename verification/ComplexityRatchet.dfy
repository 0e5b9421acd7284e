/** The per-file complexity ratchet: the gate's check, and the regeneration of its baseline
    (`regenerate_architectural_complexity_baseline`).

    A dictionary is a list of entries with different names, in insertion order. */
module ComplexityRatchet {
  import opened Options
  import opened Ordering

  /** Worst cyclomatic complexity and maintainability index. */
  datatype Metrics = Metrics(maxCc: int, mi: real)

  datatype Entry = Entry(name: string, metrics: Metrics)

  type Files = seq<Entry>

  ghost predicate Keyed(files: Files) {
    forall i, j :: 0 <= i < j < |files| ==> files[i].name != files[j].name
  }

  function Lookup(files: Files, name: string): Option<Metrics> {
    if files == [] then None else
    if files[0].name == name then Some(files[0].metrics) else Lookup(files[1..], name)
  }

  function Names(files: Files): seq<string> {
    seq(|files|, i requires 0 <= i < |files| => files[i].name)
  }

  /** `dict[name] = metrics`. */
  function Put(files: Files, e: Entry): Files {
    if files == [] then [e] else
    if files[0].name == e.name then [e] + files[1..] else [files[0]] + Put(files[1..], e)
  }

  lemma {:induction false} LookupPut(files: Files, e: Entry, name: string)
    ensures Lookup(Put(files, e), name) == if name == e.name then Some(e.metrics) else Lookup(files, name)
  {
    if files != [] && files[0].name != e.name {
      LookupPut(files[1..], e, name);
    }
  }

  lemma {:induction false} LookupIn(files: Files, i: nat)
    requires Keyed(files) && i < |files|
    ensures Lookup(files, files[i].name) == Some(files[i].metrics)
  {
    if i > 0 {
      LookupIn(files[1..], i - 1);
    }
  }

  lemma {:induction false} LookupFound(files: Files, name: string)
    ensures Lookup(files, name).None? <==> name !in Names(files)
    ensures Lookup(files, name).Some? ==> Entry(name, Lookup(files, name).value) in files
  {
    if files != [] {
      LookupFound(files[1..], name);
      assert Names(files) == [files[0].name] + Names(files[1..]);
      assert files == [files[0]] + files[1..];
    }
  }

  /** Names stay in place; a new one goes last. */
  lemma {:induction false} NamesPut(files: Files, e: Entry)
    ensures Names(Put(files, e)) == if e.name in Names(files) then Names(files) else Names(files) + [e.name]
  {
    if files != [] {
      assert Names(files) == [files[0].name] + Names(files[1..]);
      if files[0].name == e.name {
        assert Names(Put(files, e)) == [e.name] + Names(files[1..]);
      } else {
        NamesPut(files[1..], e);
        assert Names(Put(files, e)) == [files[0].name] + Names(Put(files[1..], e));
      }
    }
  }

  lemma KeyedByNames(files: Files)
    ensures Keyed(files) <==> Distinct(Names(files))
  {
    if Distinct(Names(files)) {
      forall i, j | 0 <= i < j < |files|
        ensures files[i].name != files[j].name
      {
        assert Names(files)[i] != Names(files)[j];
      }
    }
  }

  lemma KeyedPut(files: Files, e: Entry)
    requires Keyed(files)
    ensures Keyed(Put(files, e))
  {
    KeyedByNames(files);
    NamesPut(files, e);
    if e.name !in Names(files) {
      AppendDistinct(Names(files), e.name);
    }
    KeyedByNames(Put(files, e));
  }

  // ---------------------------------------------------------------- the check

  predicate Regress(current: Metrics, stored: Option<Metrics>) {
    stored.None? || current.maxCc > stored.value.maxCc || current.mi < stored.value.mi
  }

  /** The gate's complexity check passes. */
  ghost predicate Passes(measured: Files, recorded: Files) {
    forall i :: 0 <= i < |measured| ==> !Regress(measured[i].metrics, Lookup(recorded, measured[i].name))
  }

  /** The entries the check complains of, in order. */
  method Violations(measured: Files, recorded: Files) returns (found: Files)
    ensures forall e :: e in found <==> e in measured && Regress(e.metrics, Lookup(recorded, e.name))
    ensures found == [] <==> Passes(measured, recorded)
    ensures Keyed(measured) ==> Keyed(found)
  {
    found := [];
    for i := 0 to |measured|
      invariant forall e :: e in found <==> e in measured[..i] && Regress(e.metrics, Lookup(recorded, e.name))
      invariant Keyed(measured) ==> Keyed(found)
    {
      if Regress(measured[i].metrics, Lookup(recorded, measured[i].name)) {
        assert Keyed(measured) ==> forall e :: e in measured[..i] ==> e.name != measured[i].name;
        found := found + [measured[i]];
      }
    }
    assert measured[..|measured|] == measured;
    if found != [] {
      assert found[0] in found;
    }
  }

  // ---------------------------------------------------------------- recording regressions

  ghost predicate Updated(before: Files, updates: Files, after: Files) {
    forall name :: Lookup(after, name) ==
      if Lookup(updates, name).Some? then Lookup(updates, name) else Lookup(before, name)
  }

  lemma {:induction false} LookupAppend(files: Files, e: Entry, name: string)
    requires e.name !in Names(files)
    ensures Lookup(files + [e], name) == if name == e.name then Some(e.metrics) else Lookup(files, name)
  {
    if files != [] {
      assert Names(files) == [files[0].name] + Names(files[1..]);
      assert (files + [e])[1..] == files[1..] + [e];
      LookupAppend(files[1..], e, name);
    } else {
      assert [e][1..] == [];
    }
  }

  /** `dict.update`. */
  method UpdateAll(files: Files, updates: Files) returns (after: Files)
    requires Keyed(files) && Keyed(updates)
    ensures Keyed(after) && Updated(files, updates, after)
    ensures Names(files) <= Names(after)
    ensures forall n :: n in Names(after) <==> n in Names(files) || n in Names(updates)
  {
    after := files;
    for i := 0 to |updates|
      invariant Keyed(after) && Updated(files, updates[..i], after)
      invariant Names(files) <= Names(after)
      invariant forall n :: n in Names(after) <==> n in Names(files) || n in Names(updates[..i])
    {
      UpdateStep(files, updates, i, after);
      after := Put(after, updates[i]);
    }
    assert updates[..|updates|] == updates;
  }

  lemma UpdateStep(files: Files, updates: Files, i: nat, after: Files)
    requires i < |updates| && Keyed(updates) && Keyed(after) && Updated(files, updates[..i], after)
    requires Names(files) <= Names(after)
    requires forall n :: n in Names(after) <==> n in Names(files) || n in Names(updates[..i])
    ensures var next := Put(after, updates[i]);
      Keyed(next) && Updated(files, updates[..i + 1], next) && Names(files) <= Names(next)
      && forall n :: n in Names(next) <==> n in Names(files) || n in Names(updates[..i + 1])
  {
    var e := updates[i];
    KeyedPut(after, e);
    NamesPut(after, e);
    assert updates[..i + 1] == updates[..i] + [e];
    assert Names(updates[..i + 1]) == Names(updates[..i]) + [e.name];
    assert e.name !in Names(updates[..i]);
    forall name
      ensures Lookup(Put(after, e), name) ==
        if Lookup(updates[..i + 1], name).Some? then Lookup(updates[..i + 1], name) else Lookup(files, name)
    {
      LookupPut(after, e, name);
      LookupAppend(updates[..i], e, name);
    }
  }

  predicate EntryLess(a: Entry, b: Entry) {
    StringLess(a.name, b.name)
  }

  lemma EntryOrder()
    ensures StrictWeak(EntryLess)
  {
    StringOrder();
    TotalIsWeak(StringLess);
    forall a: Entry, b: Entry, c: Entry | !EntryLess(a, b) && !EntryLess(b, c)
      ensures !EntryLess(a, c)
    {
      assert !StringLess(a.name, b.name) && !StringLess(b.name, c.name);
    }
  }

  /** `dict(sorted(d.items()))`: the same dictionary in name order. */
  lemma SortKeepsDictionary(files: Files)
    requires Keyed(files)
    ensures StrictWeak(EntryLess)
    ensures Keyed(SortBy(EntryLess, files))
    ensures forall name :: Lookup(SortBy(EntryLess, files), name) == Lookup(files, name)
    ensures Increasing(StringLess, Names(SortBy(EntryLess, files)))
  {
    EntryOrder();
    var sorted := SortBy(EntryLess, files);
    forall e
      ensures e in sorted <==> e in files
    {
      assert e in sorted <==> e in multiset(sorted);
      assert e in files <==> e in multiset(files);
    }
    KeyedPermutation(files, sorted);
    forall name
      ensures Lookup(sorted, name) == Lookup(files, name)
    {
      SameLookup(files, sorted, name);
    }
    StringOrder();
    forall i, j | 0 <= i < j < |sorted|
      ensures StringLess(Names(sorted)[i], Names(sorted)[j])
    {
      assert !EntryLess(sorted[j], sorted[i]);
    }
  }

  lemma KeyedPermutation(files: Files, sorted: Files)
    requires Keyed(files) && multiset(sorted) == multiset(files) && (forall e :: e in sorted <==> e in files)
    ensures Keyed(sorted)
  {
    KeyedByNames(files);
    KeyedDistinct(files);
    DistinctMultiset(files);
    forall x
      ensures multiset(sorted)[x] <= 1
    {
      assert multiset(sorted)[x] == multiset(files)[x];
      assert x in multiset(files) <==> x in files;
    }
    MultisetDistinct(sorted);
    forall i, j | 0 <= i < j < |sorted|
      ensures sorted[i].name != sorted[j].name
    {
      assert sorted[i] in files && sorted[j] in files;
    }
  }

  lemma KeyedDistinct(files: Files)
    requires Keyed(files)
    ensures Distinct(files)
  {
  }

  lemma SameLookup(files: Files, sorted: Files, name: string)
    requires Keyed(files) && Keyed(sorted) && (forall e :: e in sorted <==> e in files)
    ensures Lookup(sorted, name) == Lookup(files, name)
  {
    LookupFound(files, name);
    LookupFound(sorted, name);
    if Lookup(files, name).Some? {
      var e := Entry(name, Lookup(files, name).value);
      var i :| 0 <= i < |sorted| && sorted[i] == e;
      LookupIn(sorted, i);
    } else if Lookup(sorted, name).Some? {
      var e := Entry(name, Lookup(sorted, name).value);
      var i :| 0 <= i < |files| && files[i] == e;
      LookupIn(files, i);
    }
  }

  // ---------------------------------------------------------------- regeneration

  /** What regeneration records for a file: its measurement, if that regresses the loaded baseline. */
  function Recording(measured: Files, loaded: Files, name: string): Option<Metrics> {
    var m := Lookup(measured, name);
    if m.Some? && Regress(m.value, Lookup(loaded, name)) then m else None
  }

  /** Exactly the regressed files have been re-recorded; every other entry is as before. */
  ghost predicate Regenerated(measured: Files, loaded: Files, before: Files, after: Files) {
    forall name :: Lookup(after, name) ==
      if Recording(measured, loaded, name).Some? then Recording(measured, loaded, name) else Lookup(before, name)
  }

  lemma ViolationsAreRecordings(measured: Files, loaded: Files, found: Files, name: string)
    requires Keyed(measured) && Keyed(found)
    requires forall e :: e in found <==> e in measured && Regress(e.metrics, Lookup(loaded, e.name))
    ensures Lookup(found, name) == Recording(measured, loaded, name)
  {
    LookupFound(found, name);
    LookupFound(measured, name);
    if Lookup(found, name).Some? {
      var e := Entry(name, Lookup(found, name).value);
      assert e in found;
      var i :| 0 <= i < |measured| && measured[i] == e;
      LookupIn(measured, i);
    } else if Recording(measured, loaded, name).Some? {
      var e := Entry(name, Lookup(measured, name).value);
      assert e in measured && e in found;
      var i :| 0 <= i < |found| && found[i] == e;
      LookupIn(found, i);
    }
  }

  /** The true extremes over all entries. */
  ghost predicate ExtremesOf(x: Metrics, files: Files) {
    && (forall i :: 0 <= i < |files| ==> files[i].metrics.maxCc <= x.maxCc && x.mi <= files[i].metrics.mi)
    && (exists i :: 0 <= i < |files| && files[i].metrics.maxCc == x.maxCc)
    && (exists i :: 0 <= i < |files| && files[i].metrics.mi == x.mi)
  }

  method Extremes(files: Files) returns (x: Metrics)
    requires files != []
    ensures ExtremesOf(x, files)
  {
    x := files[0].metrics;
    for i := 1 to |files|
      invariant ExtremesOf(x, files[..i])
    {
      var m := files[i].metrics;
      ghost var before := x;
      x := Metrics(if x.maxCc < m.maxCc then m.maxCc else x.maxCc, if m.mi < x.mi then m.mi else x.mi);
      ExtremesStep(before, x, files, i);
    }
    assert files[..|files|] == files;
  }

  lemma ExtremesStep(before: Metrics, after: Metrics, files: Files, i: nat)
    requires 0 < i < |files| && ExtremesOf(before, files[..i])
    requires var m := files[i].metrics;
      after == Metrics(if before.maxCc < m.maxCc then m.maxCc else before.maxCc, if m.mi < before.mi then m.mi else before.mi)
    ensures ExtremesOf(after, files[..i + 1])
  {
  }

  /** The entries with the updates in, sorted again if they were sorted before. */
  method Merge(files: Files, updates: Files) returns (merged: Files)
    requires Keyed(files) && Keyed(updates) && updates != []
    ensures Keyed(merged) && Updated(files, updates, merged) && merged != []
    ensures Increasing(StringLess, Names(files)) ==> Increasing(StringLess, Names(merged))
    ensures !Increasing(StringLess, Names(files)) ==> Names(files) <= Names(merged)
  {
    hide Keyed, Increasing;
    var names := Names(files);
    KeyedByNames(files);
    NamesSortedIff(names);
    merged := UpdateAll(files, updates);
    assert merged != [] by {
      assert updates[0].name == Names(updates)[0];
      assert updates[0].name in Names(merged);
    }
    if names == SortBy(StringLess, names) {
      SortKeepsDictionary(merged);
      assert |multiset(SortBy(EntryLess, merged))| == |multiset(merged)|;
      merged := SortBy(EntryLess, merged);
    }
  }

  const REVIEW_PREFIX := "reviewed_"

  predicate IsSpace(c: char) {
    c in " \t\n\r"
  }

  /** The justification given with the regeneration is text with something in it. */
  predicate Justified(text: Option<string>) {
    text.Some? && exists i :: 0 <= i < |text.value| && !IsSpace(text.value[i])
  }

  predicate ReviewKey(key: Option<string>) {
    key.Some? && REVIEW_PREFIX < key.value
  }

  datatype Outcome =
    | NothingToRecord(extremes: Metrics)
    | Recorded(updated: seq<string>, key: string, extremes: Metrics)
    | MissingJustification
    | BadKey
    | ConflictingReview

  /** One interpreter's baseline as stored in the baseline file. */
  class Baseline {
    var files: Files
    var extremes: Metrics
    var reviews: map<string, string>

    constructor (files: Files, extremes: Metrics, reviews: map<string, string>)
      ensures this.files == files && this.extremes == extremes && this.reviews == reviews
    {
      this.files, this.extremes, this.reviews := files, extremes, reviews;
    }

    /** The edit of the stored baseline, made on the file as it is at that moment. */
    method Record(updates: Files, key: string, justification: string)
      requires Keyed(files) && Keyed(updates) && updates != []
      modifies this
      ensures Keyed(files) && Updated(old(files), updates, files)
      ensures ExtremesOf(extremes, files)
      ensures reviews == old(reviews)[key := justification]
      ensures Increasing(StringLess, Names(old(files))) ==> Increasing(StringLess, Names(files))
      ensures !Increasing(StringLess, Names(old(files))) ==> Names(old(files)) <= Names(files)
    {
      hide Keyed, Updated, Increasing, ExtremesOf;
      files := Merge(files, updates);
      extremes := Extremes(files);
      reviews := reviews[key := justification];
    }

    /** Regeneration from the measurements and the baseline loaded beforehand. */
    method Regenerate(measured: Files, loaded: Files, loadedExtremes: Metrics, loadedReviews: map<string, string>,
                      justification: Option<string>, key: Option<string>) returns (r: Outcome)
      requires Keyed(measured) && Keyed(loaded) && Keyed(files)
      modifies this
      ensures r.NothingToRecord? <==> Passes(measured, loaded)
      ensures r.MissingJustification? <==> !Passes(measured, loaded) && !Justified(justification)
      ensures r.BadKey? <==> !Passes(measured, loaded) && Justified(justification) && !ReviewKey(key)
      ensures r.ConflictingReview? <==>
        (!Passes(measured, loaded) && Justified(justification) && ReviewKey(key)
         && key.value in loadedReviews && loadedReviews[key.value] != justification.value)
      ensures !r.Recorded? ==> files == old(files) && extremes == old(extremes) && reviews == old(reviews)
      ensures r.NothingToRecord? ==> r.extremes == loadedExtremes
      ensures r.Recorded? ==>
        && Keyed(files)
        && Regenerated(measured, loaded, old(files), files)
        && ExtremesOf(extremes, files) && r.extremes == extremes
        && r.key == key.value && reviews == old(reviews)[key.value := justification.value]
        && Increasing(StringLess, r.updated)
        && (forall name :: name in r.updated <==> Recording(measured, loaded, name).Some?)
        && (Increasing(StringLess, Names(old(files))) ==> Increasing(StringLess, Names(files)))
        && (!Increasing(StringLess, Names(old(files))) ==> Names(old(files)) <= Names(files))
    {
      var updates := Violations(measured, loaded);
      if updates == [] {
        return NothingToRecord(loadedExtremes);
      }
      if !Justified(justification) {
        return MissingJustification;
      }
      if !ReviewKey(key) {
        return BadKey;
      }
      if key.value in loadedReviews && loadedReviews[key.value] != justification.value {
        return ConflictingReview;
      }
      forall name
        ensures Lookup(updates, name) == Recording(measured, loaded, name)
      {
        ViolationsAreRecordings(measured, loaded, updates, name);
      }
      Record(updates, key.value, justification.value);
      var updated := SortedNames(updates);
      return Recorded(updated, key.value, extremes);
    }
  }

  /** A list of different names equals its sorted copy exactly when it is increasing. */
  lemma NamesSortedIff(names: seq<string>)
    requires Distinct(names)
    ensures StrictWeak(StringLess)
    ensures names == SortBy(StringLess, names) <==> Increasing(StringLess, names)
  {
    StringOrder();
    TotalIsWeak(StringLess);
    SortOfDistinct(StringLess, names);
    if Increasing(StringLess, names) {
      IncreasingIsUnique(StringLess, names, SortBy(StringLess, names));
    }
  }

  method SortedNames(updates: Files) returns (names: seq<string>)
    requires Keyed(updates)
    ensures Increasing(StringLess, names)
    ensures forall n :: n in names <==> Lookup(updates, n).Some?
  {
    KeyedByNames(updates);
    NamesSortedIff(Names(updates));
    StringOrder();
    SortOfDistinct(StringLess, Names(updates));
    names := SortBy(StringLess, Names(updates));
    forall n
      ensures n in names <==> Lookup(updates, n).Some?
    {
      LookupFound(updates, n);
    }
  }

  // ---------------------------------------------------------------- what regeneration achieves

  /** When the baseline did not change between loading and writing, the same measurements pass afterwards,
      so a second regeneration records nothing. */
  lemma RegeneratedPasses(measured: Files, loaded: Files, after: Files)
    requires Keyed(measured) && Regenerated(measured, loaded, loaded, after)
    ensures Passes(measured, after)
  {
    forall i | 0 <= i < |measured|
      ensures !Regress(measured[i].metrics, Lookup(after, measured[i].name))
    {
      LookupIn(measured, i);
    }
  }

  /** In general they pass exactly when the file written to still accepts every measurement that was not recorded. */
  lemma RegeneratedPassesIff(measured: Files, loaded: Files, before: Files, after: Files)
    requires Keyed(measured) && Regenerated(measured, loaded, before, after)
    ensures Passes(measured, after) <==>
      forall i :: 0 <= i < |measured| && !Regress(measured[i].metrics, Lookup(loaded, measured[i].name))
        ==> !Regress(measured[i].metrics, Lookup(before, measured[i].name))
  {
    forall i | 0 <= i < |measured|
      ensures Lookup(after, measured[i].name) ==
        if Regress(measured[i].metrics, Lookup(loaded, measured[i].name)) then Some(measured[i].metrics)
        else Lookup(before, measured[i].name)
    {
      LookupIn(measured, i);
    }
  }

  /** The ratchet only gives way where the measurements force it: no entry gets stricter or looser without a regression,
      and a measurement that passed before passes after. */
  lemma OnlyRegressionsMove(measured: Files, loaded: Files, after: Files, name: string)
    requires Regenerated(measured, loaded, loaded, after)
    ensures Lookup(after, name) != Lookup(loaded, name) ==>
      Lookup(measured, name).Some? && Regress(Lookup(measured, name).value, Lookup(loaded, name))
    ensures Lookup(after, name) != Lookup(loaded, name) ==> Lookup(after, name) == Lookup(measured, name)
  {
  }

  // ---------------------------------------------------------------- in the terms of the files

  /** The dictionary's entry for a name, whatever it is. */
  lemma LookupIff(files: Files, name: string, metrics: Metrics)
    requires Keyed(files)
    ensures Lookup(files, name) == Some(metrics) <==> Entry(name, metrics) in files
  {
    LookupFound(files, name);
    if Entry(name, metrics) in files {
      var i :| 0 <= i < |files| && files[i] == Entry(name, metrics);
      LookupIn(files, i);
    }
  }

  /** The check passes exactly when each measured file is recorded, with at least its complexity and at most its
      maintainability index. */
  lemma PassesIff(measured: Files, recorded: Files)
    requires Keyed(recorded)
    ensures Passes(measured, recorded) <==>
      forall e :: e in measured ==>
        exists r :: r in recorded && r.name == e.name && e.metrics.maxCc <= r.metrics.maxCc && e.metrics.mi >= r.metrics.mi
  {
    hide Lookup, Keyed;
    forall i | 0 <= i < |measured|
      ensures !Regress(measured[i].metrics, Lookup(recorded, measured[i].name)) <==>
        exists r :: r in recorded && r.name == measured[i].name && measured[i].metrics.maxCc <= r.metrics.maxCc
                    && measured[i].metrics.mi >= r.metrics.mi
    {
      RegressIff(measured[i], recorded);
    }
    hide Regress;
    if Passes(measured, recorded) {
      forall e | e in measured
        ensures exists r :: r in recorded && r.name == e.name && e.metrics.maxCc <= r.metrics.maxCc && e.metrics.mi >= r.metrics.mi
      {
        var i :| 0 <= i < |measured| && measured[i] == e;
      }
    }
  }

  /** A measurement regresses exactly when no recorded entry of its name accepts it. */
  lemma RegressIff(e: Entry, recorded: Files)
    requires Keyed(recorded)
    ensures Regress(e.metrics, Lookup(recorded, e.name)) <==>
      !exists r :: r in recorded && r.name == e.name && e.metrics.maxCc <= r.metrics.maxCc && e.metrics.mi >= r.metrics.mi
  {
    LookupFound(recorded, e.name);
    forall r | r in recorded && r.name == e.name
      ensures Lookup(recorded, e.name) == Some(r.metrics)
    {
      LookupIff(recorded, e.name, r.metrics);
    }
  }

  /** A justification is text with a character other than space, tab, newline and carriage return. */
  lemma JustifiedIff(text: Option<string>)
    ensures Justified(text) <==> text.Some? && exists c :: c in text.value && c != ' ' && c != '\t' && c != '\n' && c != '\r'
  {
    if text.Some? {
      if c :| c in text.value && !IsSpace(c) {
        var i :| 0 <= i < |text.value| && text.value[i] == c;
      }
    }
  }

  /** A review key is "reviewed_" and something more. */
  lemma ReviewKeyIff(key: Option<string>)
    ensures ReviewKey(key) <==> key.Some? && exists rest: string :: rest != "" && key.value == "reviewed_" + rest
  {
    if ReviewKey(key) {
      assert key.value == "reviewed_" + key.value[|REVIEW_PREFIX|..];
    }
  }
}
