/** Dating catalog rows from history (`derive_dates`, `_stamp`): an incremental replay of the catalog's revisions, one
    proposal for each current row, and the write that fills in missing dates only. */
module CatalogStamp {
  import opened Options

  const TRACKED_FIELDS := {"price", "vision", "capabilities", "context_window", "output_ceiling"}

  /** The fields that own a row's freshness, as far as the row has them. */
  type Payload = map<string, string>

  /** A catalog row: its fields other than the date, each with the JSON text of its value (a field that is null is there, and
      differs from a missing one), and its date, which may be empty, or null or missing, which the code treats alike. */
  datatype Row = Row(fields: map<string, string>, asOf: Option<string>) {
    function Tracked(): Payload {
      map f | f in TRACKED_FIELDS && f in fields :: fields[f]
    }
  }

  /** One revision, oldest first: the day it was made, and its rows unless it does not parse. */
  datatype Revision = Revision(day: string, models: Option<map<string, Row>>)

  datatype Reason = FirstAppearance | PayloadChanged

  datatype Dated = Dated(day: string, reason: Reason)

  predicate Truthy(s: Option<string>) {
    s.Some? && s.value != ""
  }

  // ---------------------------------------------------------------- the declarative date

  /** A model as one parseable revision shows it. */
  datatype Sighting = Sighting(day: string, payload: Payload)

  /** The parseable revisions that contain the model. */
  function Sightings(revs: seq<Revision>, mid: string): seq<Sighting> {
    if revs == [] then [] else
    var last := revs[|revs| - 1];
    Sightings(revs[..|revs| - 1], mid)
      + (if last.models.Some? && mid in last.models.value then [Sighting(last.day, last.models.value[mid].Tracked())] else [])
  }

  /** Position i starts the last run of equal payloads. */
  ghost predicate StartsLastRun(s: seq<Sighting>, i: nat) {
    && i < |s|
    && (forall j :: i <= j < |s| ==> s[j].payload == s[i].payload)
    && (i > 0 ==> s[i - 1].payload != s[i].payload)
  }

  /** The date of a model: where its last run of equal payloads starts. */
  ghost predicate IsDate(revs: seq<Revision>, mid: string, d: Dated) {
    exists i: nat :: StartsLastRun(Sightings(revs, mid), i)
      && d == Dated(Sightings(revs, mid)[i].day, if i == 0 then FirstAppearance else PayloadChanged)
  }

  /** There is only one such date. */
  lemma DateIsUnique(revs: seq<Revision>, mid: string, a: Dated, b: Dated)
    requires IsDate(revs, mid, a) && IsDate(revs, mid, b)
    ensures a == b
  {
  }

  // ---------------------------------------------------------------- the replay

  /** What the replay knows about one model after some revisions. */
  ghost predicate Replayed(revs: seq<Revision>, mid: string, payloads: map<string, Payload>, dates: map<string, Dated>) {
    var s := Sightings(revs, mid);
    && (mid in payloads <==> s != []) && (mid in dates <==> s != [])
    && (s != [] ==> payloads[mid] == s[|s| - 1].payload && IsDate(revs, mid, dates[mid]))
  }

  /** The rows of the newest parseable revision. */
  function Newest(revs: seq<Revision>): map<string, Row> {
    if revs == [] then map[] else
    if revs[|revs| - 1].models.Some? then revs[|revs| - 1].models.value else Newest(revs[..|revs| - 1])
  }

  lemma SightingsNext(revs: seq<Revision>, n: nat, mid: string)
    requires n < |revs|
    ensures var r := revs[n];
      Sightings(revs[..n + 1], mid) == Sightings(revs[..n], mid)
        + (if r.models.Some? && mid in r.models.value then [Sighting(r.day, r.models.value[mid].Tracked())] else [])
  {
    assert revs[..n + 1][..n] == revs[..n];
  }

  lemma ReplayUnseen(revs: seq<Revision>, n: nat, mid: string, payloads: map<string, Payload>, dates: map<string, Dated>)
    requires n < |revs| && (revs[n].models.None? || mid !in revs[n].models.value)
    requires Replayed(revs[..n], mid, payloads, dates)
    ensures Replayed(revs[..n + 1], mid, payloads, dates)
  {
    SightingsNext(revs, n, mid);
    assert Sightings(revs[..n + 1], mid) == Sightings(revs[..n], mid);
  }

  /** A model seen again: its date moves exactly when its payload differs from the one seen before. */
  lemma ReplaySeen(revs: seq<Revision>, n: nat, mid: string, payloads: map<string, Payload>, dates: map<string, Dated>,
                      payloads1: map<string, Payload>, dates1: map<string, Dated>)
    requires n < |revs| && revs[n].models.Some? && mid in revs[n].models.value
    requires Replayed(revs[..n], mid, payloads, dates)
    requires mid in payloads1 && payloads1[mid] == revs[n].models.value[mid].Tracked() && mid in dates1
    requires dates1[mid] ==
      if mid !in payloads then Dated(revs[n].day, FirstAppearance)
      else if payloads1[mid] != payloads[mid] then Dated(revs[n].day, PayloadChanged)
      else dates[mid]
    ensures Replayed(revs[..n + 1], mid, payloads1, dates1)
  {
    SightingsNext(revs, n, mid);
    var s, t := Sightings(revs[..n], mid), Sightings(revs[..n + 1], mid);
    assert t == s + [Sighting(revs[n].day, payloads1[mid])];
    if mid in payloads && payloads1[mid] == payloads[mid] {
      var i: nat :| StartsLastRun(s, i) && dates[mid] == Dated(s[i].day, if i == 0 then FirstAppearance else PayloadChanged);
      assert s[|s| - 1].payload == s[i].payload;
      assert StartsLastRun(t, i);
    } else {
      assert StartsLastRun(t, |s|);
    }
  }

  ghost predicate AllReplayed(revs: seq<Revision>, payloads: map<string, Payload>, dates: map<string, Dated>) {
    payloads.Keys == dates.Keys && forall mid :: Replayed(revs, mid, payloads, dates)
  }

  lemma SkippedReplayed(revs: seq<Revision>, n: nat, payloads: map<string, Payload>, dates: map<string, Dated>)
    requires n < |revs| && revs[n].models.None? && AllReplayed(revs[..n], payloads, dates)
    ensures AllReplayed(revs[..n + 1], payloads, dates)
  {
    hide Replayed;
    var next := revs[..n + 1];
    forall mid
      ensures Replayed(next, mid, payloads, dates)
    {
      ReplayUnseen(revs, n, mid, payloads, dates);
    }
  }

  lemma RevisionReplayed(revs: seq<Revision>, n: nat, payloads: map<string, Payload>, dates: map<string, Dated>,
                         payloads1: map<string, Payload>, dates1: map<string, Dated>)
    requires n < |revs| && revs[n].models.Some? && AllReplayed(revs[..n], payloads, dates)
    requires payloads1.Keys == dates1.Keys
    requires var models := revs[n].models.value;
      RevisionStep(models, models.Keys, revs[n].day, payloads, dates, payloads1, dates1)
    ensures AllReplayed(revs[..n + 1], payloads1, dates1)
  {
    hide Replayed;
    var next := revs[..n + 1];
    forall mid
      ensures Replayed(next, mid, payloads1, dates1)
    {
      assert ModelStep(revs[n].models.value, revs[n].models.value.Keys, revs[n].day, payloads, dates, payloads1, dates1, mid);
      assert Replayed(revs[..n], mid, payloads, dates);
      if mid in revs[n].models.value {
        ReplaySeen(revs, n, mid, payloads, dates, payloads1, dates1);
      } else {
        ReplayElsewhere(revs[..n], mid, payloads, dates, payloads1, dates1);
        ReplayUnseen(revs, n, mid, payloads1, dates1);
      }
    }
  }

  /** The replay loop: last payload, date and newest rows, updated revision by revision. */
  method Replay(revs: seq<Revision>) returns (dates: map<string, Dated>, newest: map<string, Row>)
    ensures newest == Newest(revs)
    ensures forall mid :: mid in dates <==> Sightings(revs, mid) != []
    ensures forall mid :: mid in dates ==> IsDate(revs, mid, dates[mid])
  {
    var payloads: map<string, Payload> := map[];
    dates, newest := map[], map[];
    NothingReplayed();
    assert revs[..0] == [];
    for n := 0 to |revs|
      invariant newest == Newest(revs[..n])
      invariant AllReplayed(revs[..n], payloads, dates)
    {
      hide Replayed, AllReplayed, RevisionStep;
      assert revs[..n + 1][..n] == revs[..n];
      if revs[n].models.None? {
        SkippedReplayed(revs, n, payloads, dates);
        continue;
      }
      newest := revs[n].models.value;
      ghost var before, datesBefore := payloads, dates;
      payloads, dates := ReplayRevision(newest, revs[n].day, payloads, dates);
      RevisionReplayed(revs, n, before, datesBefore, payloads, dates);
    }
    assert revs[..|revs|] == revs;
    ReplayedDates(revs, payloads, dates);
  }

  lemma NothingReplayed()
    ensures AllReplayed([], map[], map[])
  {
  }

  lemma ReplayedDates(revs: seq<Revision>, payloads: map<string, Payload>, dates: map<string, Dated>)
    requires AllReplayed(revs, payloads, dates)
    ensures forall mid :: mid in dates <==> Sightings(revs, mid) != []
    ensures forall mid :: mid in dates ==> IsDate(revs, mid, dates[mid])
  {
    hide IsDate;
    forall mid
      ensures mid in dates <==> Sightings(revs, mid) != []
    {
      assert Replayed(revs, mid, payloads, dates);
    }
    forall mid | mid in dates
      ensures IsDate(revs, mid, dates[mid])
    {
      assert Replayed(revs, mid, payloads, dates);
    }
  }

  lemma ReplayElsewhere(revs: seq<Revision>, mid: string, payloads: map<string, Payload>, dates: map<string, Dated>,
                           payloads1: map<string, Payload>, dates1: map<string, Dated>)
    requires Replayed(revs, mid, payloads, dates)
    requires (mid in payloads1 <==> mid in payloads) && (mid in payloads ==> payloads1[mid] == payloads[mid])
    requires (mid in dates1 <==> mid in dates) && (mid in dates ==> dates1[mid] == dates[mid])
    ensures Replayed(revs, mid, payloads1, dates1)
  {
  }

  /** What the rows `seen` of one revision do to a model's entries. */
  ghost predicate ModelStep(models: map<string, Row>, seen: set<string>, day: string, payloads0: map<string, Payload>,
                            dates0: map<string, Dated>, payloads: map<string, Payload>, dates: map<string, Dated>, mid: string)
  {
    if mid in seen && mid in models then
      && mid in payloads && payloads[mid] == models[mid].Tracked() && mid in dates
      && (mid in payloads0 ==> mid in dates0)
      && dates[mid] == (if mid !in payloads0 then Dated(day, FirstAppearance)
                        else if payloads[mid] != payloads0[mid] then Dated(day, PayloadChanged)
                        else dates0[mid])
    else
      && (mid in payloads <==> mid in payloads0) && (mid in dates <==> mid in dates0)
      && (mid in payloads0 ==> payloads[mid] == payloads0[mid]) && (mid in dates0 ==> dates[mid] == dates0[mid])
  }

  ghost predicate RevisionStep(models: map<string, Row>, seen: set<string>, day: string, payloads0: map<string, Payload>,
                               dates0: map<string, Dated>, payloads: map<string, Payload>, dates: map<string, Dated>)
  {
    forall mid :: ModelStep(models, seen, day, payloads0, dates0, payloads, dates, mid)
  }

  /** One revision: its rows in any order. */
  method ReplayRevision(models: map<string, Row>, day: string, payloads0: map<string, Payload>, dates0: map<string, Dated>)
    returns (payloads: map<string, Payload>, dates: map<string, Dated>)
    requires payloads0.Keys == dates0.Keys
    ensures payloads.Keys == dates.Keys
    ensures RevisionStep(models, models.Keys, day, payloads0, dates0, payloads, dates)
  {
    hide ModelStep, RevisionStep;
    payloads, dates := payloads0, dates0;
    var rest := models.Keys;
    NoRows(models, day, payloads, dates);
    while rest != {}
      invariant rest <= models.Keys && payloads.Keys == dates.Keys
      invariant RevisionStep(models, models.Keys - rest, day, payloads0, dates0, payloads, dates)
      decreases |rest|
    {
      var mid :| mid in rest;
      var payload := models[mid].Tracked();
      RowReplayed(models, models.Keys - rest, day, payloads0, dates0, payloads, dates, mid);
      assert models.Keys - rest + {mid} == models.Keys - (rest - {mid});
      if mid !in payloads || payload != payloads[mid] {
        dates := dates[mid := Dated(day, if mid !in payloads then FirstAppearance else PayloadChanged)];
      }
      payloads := payloads[mid := payload];
      rest := rest - {mid};
    }
    assert models.Keys - rest == models.Keys;
  }

  lemma NoRows(models: map<string, Row>, day: string, payloads: map<string, Payload>, dates: map<string, Dated>)
    ensures RevisionStep(models, models.Keys - models.Keys, day, payloads, dates, payloads, dates)
  {
  }

  lemma RowReplayed(models: map<string, Row>, seen: set<string>, day: string, payloads0: map<string, Payload>,
                    dates0: map<string, Dated>, payloads: map<string, Payload>, dates: map<string, Dated>, mid: string)
    requires RevisionStep(models, seen, day, payloads0, dates0, payloads, dates)
    requires mid in models && mid !in seen && payloads0.Keys == dates0.Keys
    ensures var payload := models[mid].Tracked();
      var dates1 :=
        if mid !in payloads || payload != payloads[mid] then
          dates[mid := Dated(day, if mid !in payloads then FirstAppearance else PayloadChanged)]
        else dates;
      RevisionStep(models, seen + {mid}, day, payloads0, dates0, payloads[mid := payload], dates1)
  {
    assert ModelStep(models, seen, day, payloads0, dates0, payloads, dates, mid);
    var payload := models[mid].Tracked();
    var payloads1 := payloads[mid := payload];
    var dates1 :=
      if mid !in payloads || payload != payloads[mid] then
        dates[mid := Dated(day, if mid !in payloads then FirstAppearance else PayloadChanged)]
      else dates;
    var more := seen + {mid};
    forall m
      ensures ModelStep(models, more, day, payloads0, dates0, payloads1, dates1, m)
    {
      assert ModelStep(models, seen, day, payloads0, dates0, payloads, dates, m);
    }
  }

  // ---------------------------------------------------------------- one proposal for each current row

  datatype Kind = Existing | FromHistory | Today | UnknownLegacy

  datatype Proposal = Proposal(date: Option<string>, kind: Kind)

  /** What a row's proposal has to be, told by the row, the newest revision and the declarative date. */
  ghost predicate IsProposal(row: Row, mid: string, revs: seq<Revision>, today: string, p: Proposal) {
    if Truthy(row.asOf) then p == Proposal(row.asOf, Existing)
    else if mid !in Newest(revs) then p == Proposal(None, UnknownLegacy)
    else if row.Tracked() != Newest(revs)[mid].Tracked() then p == Proposal(Some(today), Today)
    else p.kind.FromHistory? && p.date.Some? && exists d :: IsDate(revs, mid, d) && d.day == p.date.value
  }

  lemma {:induction false} NewestIsSeen(revs: seq<Revision>, mid: string)
    requires mid in Newest(revs)
    ensures Sightings(revs, mid) != []
  {
    if revs[|revs| - 1].models.None? {
      NewestIsSeen(revs[..|revs| - 1], mid);
    }
  }

  /** `derive_dates`: every current row gets exactly one proposal; a row of the newest revision always has a date, so the
      branch for one without a semantic history is never taken. */
  method Derive(current: map<string, Row>, revs: seq<Revision>, today: string) returns (proposals: map<string, Proposal>)
    ensures proposals.Keys == current.Keys
    ensures forall mid :: mid in current ==> IsProposal(current[mid], mid, revs, today, proposals[mid])
  {
    hide IsDate, Newest;
    var dates, newest := Replay(revs);
    proposals := map[];
    var rest := current.Keys;
    while rest != {}
      invariant rest <= current.Keys && proposals.Keys == current.Keys - rest
      invariant forall mid :: mid in proposals ==> IsProposal(current[mid], mid, revs, today, proposals[mid])
      decreases |rest|
    {
      var mid :| mid in rest;
      var row := current[mid];
      var p: Proposal;
      if Truthy(row.asOf) {
        p := Proposal(row.asOf, Existing);
      } else if mid in newest && row.Tracked() == newest[mid].Tracked() {
        NewestIsSeen(revs, mid);
        p := Proposal(Some(dates[mid].day), FromHistory);
      } else if mid in newest {
        p := Proposal(Some(today), Today);
      } else {
        p := Proposal(None, UnknownLegacy);
      }
      proposals := proposals[mid := p];
      rest := rest - {mid};
    }
  }

  // ---------------------------------------------------------------- the write

  function StampedRow(row: Row, p: Proposal): Row {
    if row.asOf.None? && Truthy(p.date) then row.(asOf := p.date) else row
  }

  function Stamped(models: map<string, Row>, proposals: map<string, Proposal>): map<string, Row> {
    map mid | mid in models :: if mid in proposals then StampedRow(models[mid], proposals[mid]) else models[mid]
  }

  /** The catalog file as the write finds it. */
  class Catalog {
    var models: map<string, Row>

    constructor (models: map<string, Row>)
      ensures this.models == models
    {
      this.models := models;
    }

    /** `_stamp`. */
    method Stamp(proposals: map<string, Proposal>)
      modifies this
      ensures models == Stamped(old(models), proposals)
    {
      var rest := proposals.Keys;
      while rest != {}
        invariant rest <= proposals.Keys && models.Keys == old(models).Keys
        invariant forall mid :: mid in models ==>
          models[mid] == if mid in proposals && mid !in rest then StampedRow(old(models)[mid], proposals[mid]) else old(models)[mid]
        decreases |rest|
      {
        var mid :| mid in rest;
        var p := proposals[mid];
        if mid in models && models[mid].asOf.None? && Truthy(p.date) {
          models := models[mid := models[mid].(asOf := p.date)];
        }
        rest := rest - {mid};
      }
    }
  }

  /** Stamping never changes an existing date or any other field; a row is dated exactly when it had none and its proposal
      has one. */
  lemma StampingFillsGaps(models: map<string, Row>, proposals: map<string, Proposal>, mid: string)
    requires mid in models
    ensures var after := Stamped(models, proposals);
      && after.Keys == models.Keys && after[mid].fields == models[mid].fields
      && (models[mid].asOf.Some? ==> after[mid] == models[mid])
      && (after[mid] != models[mid] <==> models[mid].asOf.None? && mid in proposals && Truthy(proposals[mid].date))
  {
  }

  /** Deriving and stamping again, on the same history and at any later day, changes nothing more. */
  lemma StampingIsIdempotent(models: map<string, Row>, revs: seq<Revision>, today: string, later: string,
                             proposals: map<string, Proposal>, again: map<string, Proposal>)
    requires today != "" && proposals.Keys == models.Keys
    requires forall mid :: mid in models ==> IsProposal(models[mid], mid, revs, today, proposals[mid])
    requires var stamped := Stamped(models, proposals);
      again.Keys == stamped.Keys && forall mid :: mid in stamped ==> IsProposal(stamped[mid], mid, revs, later, again[mid])
    requires forall r :: r in revs ==> r.day != ""
    ensures Stamped(Stamped(models, proposals), again) == Stamped(models, proposals)
  {
  }

  /** A row whose date is the empty string gets a dated proposal that the write then leaves out. */
  lemma EmptyDateStaysEmpty(row: Row, earlier: Row, day: string, today: string)
    requires row.asOf == Some("") && today != "" && row.Tracked() != earlier.Tracked()
    ensures var revs := [Revision(day, Some(map["m" := earlier]))];
      && IsProposal(row, "m", revs, today, Proposal(Some(today), Today))
      && Stamped(map["m" := row], map["m" := Proposal(Some(today), Today)])["m"] == row
  {
  }

  // ---------------------------------------------------------------- in the terms of the revisions

  /** The payload is what the row has of the five fields. */
  lemma TrackedIs(row: Row, f: string)
    ensures f in row.Tracked() <==>
      f in row.fields && (f == "price" || f == "vision" || f == "capabilities" || f == "context_window" || f == "output_ceiling")
    ensures f in row.Tracked() ==> row.Tracked()[f] == row.fields[f]
  {
  }

  /** The rows of the last revision that parses; none if none does. */
  lemma {:induction false} NewestIs(revs: seq<Revision>)
    ensures (exists i :: 0 <= i < |revs| && revs[i].models == Some(Newest(revs)) && forall j :: i < j < |revs| ==> revs[j].models.None?)
         || ((forall j :: 0 <= j < |revs| ==> revs[j].models.None?) && Newest(revs) == map[])
  {
    if revs != [] {
      var n := |revs| - 1;
      if revs[n].models.None? {
        NewestIs(revs[..n]);
        if i :| 0 <= i < n && revs[..n][i].models == Some(Newest(revs[..n])) && forall j :: i < j < n ==> revs[..n][j].models.None? {
          assert revs[i].models == Some(Newest(revs));
        }
      } else {
        assert revs[n].models == Some(Newest(revs));
      }
    }
  }

  lemma {:induction false} SightingsJoin(a: seq<Revision>, b: seq<Revision>, mid: string)
    ensures Sightings(a + b, mid) == Sightings(a, mid) + Sightings(b, mid)
    decreases |b|
  {
    if b == [] {
      assert a + b == a;
    } else {
      assert (a + b)[..|a + b| - 1] == a + b[..|b| - 1];
      SightingsJoin(a, b[..|b| - 1], mid);
    }
  }

  /** A revision shows a model exactly if it parses and has its row. */
  lemma SightingOf(r: Revision, mid: string)
    ensures Sightings([r], mid) ==
      if r.models.Some? && mid in r.models.value then [Sighting(r.day, r.models.value[mid].Tracked())] else []
    ensures Sightings([], mid) == []
  {
    assert [r][..0] == [];
  }
}
