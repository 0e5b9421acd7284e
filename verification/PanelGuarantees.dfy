/** What becomes of the findings of a panel review over any launches, each cut off anywhere. */
module PanelGuarantees {
  import opened AppendFile
  import opened PanelPasses
  import opened PanelReview

  // ---------------------------------------------------------------- any number of launches

  lemma LaunchedFiles(d: Disk, p: Plan, key: Finding -> string)
    ensures var g := Gathered(d.raw, d.done, p);
      Launched(d, p, key).0.raw == g.raw && Launched(d, p, key).0.done == g.done
  {
    hide Gathered, Complete, Verified;
  }

  /** However many launches follow, wherever they end: RAW and DONE only grow, a RAW that is not clean stays so and is never
      read further, and a clean RAW stays clean if no write to it ends inside a line. */
  lemma {:induction false} CampaignGrows(d: Disk, plans: seq<Plan>, key: Finding -> string)
    ensures var after := Campaign(d, plans, key);
      && Grows(d.raw, after.raw) && d.done.lines <= after.done.lines
      && (Clean(d.raw) && (forall p :: p in plans ==> Untorn(p)) ==> Clean(after.raw))
  {
    hide Grows, Clean, Launched, Gathered, Rows, MarksWork, Untorn;
    if plans == [] {
      GrowsNot(d.raw);
    } else {
      var most, p := plans[..|plans| - 1], plans[|plans| - 1];
      var before := Campaign(d, most, key);
      CampaignGrows(d, most, key);
      LaunchedFiles(before, p, key);
      GatheredMarks(before.raw, before.done, p, "");
      GrowsOn(d.raw, before.raw, Launched(before, p, key).0.raw);
      assert Grows(before.raw, Launched(before, p, key).0.raw) && before.done.lines <= Launched(before, p, key).0.done.lines;
    }
  }

  /** Launches follow each other, each from what the one before it left on disk. */
  lemma CampaignNext(d: Disk, plans: seq<Plan>, p: Plan, key: Finding -> string)
    ensures Campaign(d, [], key) == d
    ensures Campaign(d, plans + [p], key) == Launched(Campaign(d, plans, key), p, key).0
  {
    hide Launched;
    assert (plans + [p])[..|plans|] == plans;
  }

  lemma {:induction false} CampaignJoin(d: Disk, plans: seq<Plan>, more: seq<Plan>, key: Finding -> string)
    ensures Campaign(d, plans + more, key) == Campaign(Campaign(d, plans, key), more, key)
    decreases |more|
  {
    hide Launched;
    if more == [] {
      assert plans + more == plans;
    } else {
      var most := more[..|more| - 1];
      assert (plans + more)[..|plans + more| - 1] == plans + most;
      CampaignJoin(d, plans, most, key);
    }
  }

  /** The i-th launch did the work, and what it found lies in RAW after all the launches. */
  ghost predicate DidIn(plans: seq<Plan>, key: Finding -> string, i: nat, w: Work)
    requires i < |plans|
  {
    Did(plans[i], w, Campaign(START, plans[..i], key).raw, Campaign(START, plans, key).raw)
  }

  lemma DidEarlier(plans: seq<Plan>, key: Finding -> string, i: nat, w: Work)
    requires plans != [] && i < |plans| - 1 && DidIn(plans[..|plans| - 1], key, i, w)
    ensures DidIn(plans, key, i, w)
  {
    hide Did, Clean, Rows, Launched, Delivered, Untorn;
    var n := |plans| - 1;
    var before, after := Campaign(START, plans[..n], key), Campaign(START, plans, key);
    assert plans[..n][..i] == plans[..i];
    LaunchedFiles(before, plans[n], key);
    GatheredMarks(before.raw, before.done, plans[n], "");
    DidWithin(plans[i], w, Campaign(START, plans[..i], key).raw, Campaign(START, plans[..i], key).raw, before.raw, after.raw);
  }

  /** Resuming loses nothing: for every unit on DONE, after any launches cut off anywhere, one of the launches did its work:
      none of its panel calls ended in an exception, and everything they found was appended to RAW. */
  lemma {:induction false} NothingLost(plans: seq<Plan>, key: Finding -> string, u: string)
    requires u in DoneSet(Campaign(START, plans, key).done)
    ensures exists i: nat, w :: i < |plans| && MarkOf(w) == u && DidIn(plans, key, i, w)
  {
    hide Launched, Did, Clean;
    if plans != [] {
      var n := |plans| - 1;
      var before, after := Campaign(START, plans[..n], key), Campaign(START, plans, key);
      LaunchedFiles(before, plans[n], key);
      if u in DoneSet(before.done) {
        NothingLost(plans[..n], key, u);
        var i: nat, w :| i < n && MarkOf(w) == u && DidIn(plans[..n], key, i, w);
        DidEarlier(plans, key, i, w);
      } else {
        GatheredMarks(before.raw, before.done, plans[n], u);
        var w :| MarkOf(w) == u && Did(plans[n], w, before.raw, after.raw);
        assert DidIn(plans, key, n, w);
      }
    }
  }

  lemma DidIsHeld(plans: seq<Plan>, key: Finding -> string, i: nat, w: Work) returns (at: Log<Finding>)
    requires i < |plans| && DidIn(plans, key, i, w)
    ensures AppendAll(at, YieldOf(plans[i], w)).lines <= Campaign(START, plans, key).raw.lines
  {
    hide AppendAll, YieldOf, Campaign, Clean;
    var before, after := Campaign(START, plans[..i], key).raw, Campaign(START, plans, key).raw;
    at :| before.lines <= at.lines && (Clean(before) ==> Clean(at)) && AppendAll(at, YieldOf(plans[i], w)).lines <= after.lines;
  }

  /** In terms of the vendors' replies: for every unit on DONE, what each vendor of each of its calls answered in one of the
      launches was appended to RAW, vendor by vendor, without a gap and without anything else in between. */
  lemma EveryReplyWritten(plans: seq<Plan>, key: Finding -> string, u: string)
    requires u in DoneSet(Campaign(START, plans, key).done)
    ensures exists i: nat, w, at: Log<Finding> ::
      && i < |plans| && MarkOf(w) == u && DidIn(plans, key, i, w)
      && AppendAll(at, Concat(AllParts(CallsOf(plans[i], w)))).lines <= Campaign(START, plans, key).raw.lines
  {
    hide Campaign, AppendAll, CallsOf, YieldOf, Clean, AllParts;
    NothingLost(plans, key, u);
    var i: nat, w :| i < |plans| && MarkOf(w) == u && DidIn(plans, key, i, w);
    var at := DidIsHeld(plans, key, i, w);
    YieldInOrder(plans[i], w);
    assert AppendAll(at, Concat(AllParts(CallsOf(plans[i], w)))).lines <= Campaign(START, plans, key).raw.lines;
  }

  /** What a launch found is read back after any later launches exactly when RAW was clean before the launch (or holds it
      from earlier). */
  lemma ReadIffClean(plans: seq<Plan>, key: Finding -> string, i: nat, w: Work)
    requires i < |plans| && DidIn(plans, key, i, w)
    ensures var before, after := Campaign(START, plans[..i], key).raw, Campaign(START, plans, key).raw;
      var found := YieldOf(plans[i], w);
      (forall f :: f in found ==> f in Read(after)) <==> Clean(before) || forall f :: f in found ==> f in UpToJunk(before.lines)
  {
    hide AppendAll, UpToJunk, Clean, YieldOf, Launched;
    var d := Campaign(START, plans[..i], key);
    var before, after, found := d.raw, Campaign(START, plans, key).raw, YieldOf(plans[i], w);
    assert plans[..i] + plans[i..] == plans;
    CampaignJoin(START, plans[..i], plans[i..], key);
    CampaignGrows(d, plans[i..], key);
    if Clean(before) {
      DeliveredRead(before, after, found);
    } else if found != [] {
      var at: Log<Finding> :|
        before.lines <= at.lines && (Clean(before) ==> Clean(at)) && AppendAll(at, found).lines <= after.lines;
      AppendAllLonger(at, found);
      assert Read(after) == UpToJunk(after.lines);
    }
  }

  /** If no write to RAW ever ends inside a line, verification reads all that was found for every unit on DONE. */
  lemma UntornIsReadBack(plans: seq<Plan>, key: Finding -> string, u: string)
    requires (forall p :: p in plans ==> Untorn(p)) && u in DoneSet(Campaign(START, plans, key).done)
    ensures exists i: nat, w ::
      && i < |plans| && MarkOf(w) == u && DidIn(plans, key, i, w)
      && forall f :: f in YieldOf(plans[i], w) ==> f in Read(Campaign(START, plans, key).raw)
  {
    hide Campaign, Untorn, Read, UpToJunk, YieldOf, DidIn;
    NothingLost(plans, key, u);
    var i: nat, w :| i < |plans| && MarkOf(w) == u && DidIn(plans, key, i, w);
    CampaignGrows(START, plans[..i], key);
    ReadIffClean(plans, key, i, w);
  }

  /** In terms of the vendors' replies: then no finding of any vendor's readable answer is missing. */
  lemma EveryReplyRead(plans: seq<Plan>, key: Finding -> string, u: string)
    requires (forall p :: p in plans ==> Untorn(p)) && u in DoneSet(Campaign(START, plans, key).done)
    ensures exists i: nat, w ::
      && i < |plans| && MarkOf(w) == u && DidIn(plans, key, i, w)
      && forall c, r, f :: c in CallsOf(plans[i], w) && c.Returned? && r in c.replies && r.Parsed? && f in r.findings ==>
           f in Read(Campaign(START, plans, key).raw)
  {
    hide Campaign, Untorn, Read, YieldOf, DidIn, CallsOf;
    UntornIsReadBack(plans, key, u);
    var i: nat, w :|
      && i < |plans| && MarkOf(w) == u && DidIn(plans, key, i, w)
      && forall f :: f in YieldOf(plans[i], w) ==> f in Read(Campaign(START, plans, key).raw);
    forall c, r, f | c in CallsOf(plans[i], w) && c.Returned? && r in c.replies && r.Parsed? && f in r.findings
      ensures f in Read(Campaign(START, plans, key).raw)
    {
      YieldHas(plans[i], w, c, r, f);
    }
  }

  /** Otherwise not: after a torn line, a later file is finished although verification sees none of its findings. */
  lemma TornLineHidesFindings(f: Finding)
    ensures var raw := Tear(Empty<Finding>());
      Rows(Append(Empty<string>(), "a.py")) == ["a.py"] && Read(AppendAll(raw, [f, f])) == []
  {
    var raw := Tear(Empty<Finding>());
    AppendAllUnclean(raw, [f, f]);
    RowsAppend(Empty<string>(), "a.py");
    assert UpToJunk(raw.lines) == [] && AppendAll(raw, [f, f]).tail.Ended?;
  }

  // ---------------------------------------------------------------- verification

  /** Nothing is judged or reported before the phase's files, clusters and repository are all on DONE; a launch that pauses
      still misses one of them, and leaves the verdicts alone. */
  lemma VerifiesOnlyComplete(d: Disk, p: Plan, key: Finding -> string)
    ensures var (after, r) := Launched(d, p, key);
      var complete := (p.phase.FilePhase? || p.phase.All? ==> forall f :: f in p.files ==> f in Rows(after.done))
        && (p.phase.SeamPhase? || p.phase.All? ==> "__seam__" in Rows(after.done))
        && (p.phase.RepoPhase? || p.phase.All? ==> "__repo__" in Rows(after.done));
      && (r.Reported? || after.verified != d.verified ==> complete)
      && (r.Paused? ==> !complete && after.verified == d.verified)
  {
    hide Gathered, Verified, Rows;
    VerifiedEnds(d, p, key);
  }

  lemma VerifiedEnds(d: Disk, p: Plan, key: Finding -> string)
    ensures !Verified(d.verified, Read(Gathered(d.raw, d.done, p).raw), p, key).1.Paused?
  {
    hide Gathered, NewVerdicts, Undecided, Decided, Surviving, Verdicts, AppendCut, Read;
  }

  // ---------------------------------------------------------------- finished without a review

  /** The answer of some vendor could be read. */
  predicate Heard(c: Panel) {
    c.Returned? && exists r :: r in c.replies && r.Parsed?
  }

  /** Every panel call of the work was heard, and there was one. */
  predicate Reviewed(p: Plan, w: Work) {
    CallsOf(p, w) != [] && forall c :: c in CallsOf(p, w) ==> Heard(c)
  }

  /** The call came back, but every vendor failed or gave an answer that does not parse. */
  predicate Silent(c: Panel) {
    c.Returned? && forall r :: r in c.replies ==> !r.Parsed?
  }

  /** No two known files are to be reviewed together; so always when the clustering call is refused. */
  predicate ProposesNothing(p: Plan) {
    p.clustering.NotAllowed? || (p.clustering.Proposed? && Reviewable(p.clustering.clusters, p.files) == [])
  }

  lemma {:induction false} SilentFindsNothing(replies: seq<Reply>)
    requires forall r :: r in replies ==> !r.Parsed?
    ensures FoundBy(replies) == []
  {
    if replies != [] {
      SilentFindsNothing(replies[..|replies| - 1]);
      assert replies[|replies| - 1] in replies;
    }
  }

  /** A call that was not heard leaves nothing to append. */
  lemma UnheardFindsNothing(c: Panel)
    ensures !Heard(c) ==> FindingsOf(c) == []
  {
    if c.Returned? && !Heard(c) {
      SilentFindsNothing(c.replies);
    }
  }

  /** Which of the units a launch finishes the panel did not review: those with a call that the budget gate refused or that no
      vendor answered readably, and the seam pass without two known files to review together. */
  lemma FinishedUnreviewedIff(d: Disk, p: Plan, key: Finding -> string, u: string)
    requires u in DoneSet(Launched(d, p, key).0.done) && u !in DoneSet(d.done)
    ensures exists w ::
      && MarkOf(w) == u && Did(p, w, d.raw, Launched(d, p, key).0.raw)
      && (!Reviewed(p, w) <==>
           || (exists c :: c in CallsOf(p, w) && (c.Refused? || Silent(c)))
           || (w.SeamWork? && ProposesNothing(p)))
      && (!Reviewed(p, w) && !w.SeamWork? ==> YieldOf(p, w) == [])
  {
    hide Launched, Delivered, Rows, FindingsOfAll, Reviewed, ProposesNothing, CallsOf, YieldOf, Silent;
    LaunchedFiles(d, p, key);
    GatheredMarks(d.raw, d.done, p, u);
    var w :| MarkOf(w) == u && Did(p, w, d.raw, Launched(d, p, key).0.raw);
    UnreviewedIff(p, w);
  }

  lemma UnreviewedIff(p: Plan, w: Work)
    requires Fails !in CallsOf(p, w) && (w.SeamWork? ==> !p.clustering.Broken?)
    ensures !Reviewed(p, w) <==>
      || (exists c :: c in CallsOf(p, w) && (c.Refused? || Silent(c)))
      || (w.SeamWork? && ProposesNothing(p))
    ensures !Reviewed(p, w) && !w.SeamWork? ==> YieldOf(p, w) == []
  {
    hide FindingsOfAll, FoundBy;
    match w
    case FileWork(f) =>
      UnheardFindsNothing(p.world(f).panel);
      assert p.world(f).panel in CallsOf(p, w);
    case SeamWork =>
      assert CallsOf(p, w) == [] <==> ProposesNothing(p);
      assert CallsOf(p, w) != [] ==> CallsOf(p, w)[0] in CallsOf(p, w);
    case RepoWork =>
      UnheardFindsNothing(p.repo.panel);
      assert p.repo.panel in CallsOf(p, w);
  }

  /** Of a file pass that is not cut off, on a terminated DONE: the files it finishes without a review are exactly those it
      put to the panel whose call was refused or silent. */
  lemma FilePassUnreviewedIff(s: Progress, p: Plan, f: string)
    requires p.wave > 0 && s.alive && FilePassed(s, p).alive && s.done.tail.Ended?
    ensures var t := FilePassed(s, p);
      s.starts <= t.starts &&
      (f in DoneSet(t.done) && f !in DoneSet(s.done) && !Reviewed(p, FileWork(f))
       <==> f in UnitsOf(t.starts[|s.starts|..]) && (p.world(f).panel.Refused? || Silent(p.world(f).panel)))
  {
    FilePassRecords(s, p);
    var todo := Remaining(p.files, DoneSet(s.done));
    InRemaining(p.files, DoneSet(s.done));
    WavesMarks(s, todo, p.wave, p.budget, p.est, p.world, false, f);
    hide Waves, Rows, UnitsOf, Put, Remaining, Advances, Delivered;
    assert p.world(f).panel in CallsOf(p, FileWork(f));
  }

  lemma {:induction false} UnheardAppendNothing(units: seq<string>, world: World)
    requires forall u :: u in units ==> !Heard(world(u).panel)
    ensures FoundIn(units, world) == []
  {
    if units != [] {
      UnheardFindsNothing(world(units[0]).panel);
      UnheardAppendNothing(units[1..], world);
    }
  }

  /** When no call is heard, such a pass appends nothing to RAW, and yet finishes every file it put to the panel. */
  lemma UnheardPassFinishes(s: Progress, p: Plan)
    requires p.wave > 0 && s.alive && FilePassed(s, p).alive && s.done.tail.Ended?
    requires forall u :: !Heard(p.world(u).panel)
    ensures var t := FilePassed(s, p);
      && s.starts <= t.starts && t.raw == s.raw
      && forall f :: f in UnitsOf(t.starts[|s.starts|..]) ==> f in DoneSet(t.done)
  {
    FilePassRecords(s, p);
    var put := UnitsOf(FilePassed(s, p).starts[|s.starts|..]);
    UnheardAppendNothing(put, p.world);
    AppendNone(s.raw);
    hide FilePassed, Heard, Rows, UnitsOf;
  }

  lemma {:induction false} ReadableGrows<T>(lines: seq<Line<T>>, more: seq<Line<T>>)
    requires lines <= more
    ensures forall row :: row in Readable(lines) ==> row in Readable(more)
    decreases |more|
  {
    if lines == more {
    } else {
      assert lines <= more[..|more| - 1];
      ReadableGrows(lines, more[..|more| - 1]);
    }
  }

  /** A unit on a terminated line of DONE, reviewed or not, is never taken up again. */
  lemma FinishedForever(d: Disk, plans: seq<Plan>, key: Finding -> string, files: seq<string>, u: string)
    requires u in Readable(d.done.lines)
    ensures u in DoneSet(Campaign(d, plans, key).done) && u !in Remaining(files, DoneSet(Campaign(d, plans, key).done))
  {
    hide Campaign, Remaining, Readable;
    CampaignGrows(d, plans, key);
    ReadableGrows(d.done.lines, Campaign(d, plans, key).done.lines);
    InRemaining(files, DoneSet(Campaign(d, plans, key).done));
  }

  // ---------------------------------------------------------------- a seam pass that the budget stops

  /** Every cluster to be reviewed fits the budget in its turn, counted from zero. */
  predicate AllClustersFit(p: Plan) {
    !p.clustering.Broken? && AllInTurn(Reviewable(ClustersOf(p.clustering), p.files), p.files, 0.0, p.budget, p.est)
  }

  /** Whatever earlier launches reviewed: a launch of the seam pass finishes it exactly when all its clusters fit, and are
      survived, from the first one on. */
  lemma SeamFinishesIff(raw: Log<Finding>, done: Log<string>, p: Plan)
    requires p.phase.SeamPhase? && SEAM !in DoneSet(done)
    ensures !AllClustersFit(p) ==> Gathered(raw, done, p).done == done
    ensures done.tail.Ended? ==> (SEAM in DoneSet(Gathered(raw, done, p).done) <==>
      AllClustersFit(p) && (p.seamMark.Written? || p.seamMark.UnendedWrite?))
  {
    hide AllInTurn, Reviewable, ReviewClusters, Rows, Wrote;
    var s0 := Progress(raw, done, 0.0, true, []);
    if !p.clustering.Broken? {
      ClustersFinishIff(s0, ClustersOf(p.clustering), p.files, p.budget, p.est);
      ClustersMarks(s0, ClustersOf(p.clustering), p.files, p.budget, p.est, false);
      WroteRows(done, SEAM, p.seamMark);
    }
  }

  /** "A resume finishes the remaining clusters" fails: a seam pass stopped by the budget is stopped by it in every launch
      with the same clusters and bills. */
  lemma {:induction false} SeamNeverFinishes(d: Disk, p: Plan, n: nat, key: Finding -> string)
    requires p.phase.SeamPhase? && SEAM !in DoneSet(d.done) && !AllClustersFit(p)
    ensures Campaign(d, seq(n, _ => p), key).done == d.done
  {
    hide Gathered, AllClustersFit, Launched;
    if n > 0 {
      var plans := seq(n, _ => p);
      assert plans[..n - 1] == seq(n - 1, _ => p);
      SeamNeverFinishes(d, p, n - 1, key);
      var before := Campaign(d, plans[..n - 1], key);
      LaunchedFiles(before, p, key);
      SeamFinishesIff(before.raw, before.done, p);
    }
  }

  // ---------------------------------------------------------------- starting over

  /** What `--fresh` manages to unlink before it ends: each failure is swallowed, and the process may end in between. */
  datatype Gone = Gone(raw: bool, done: bool, verified: bool)

  function Discarded(d: Disk, gone: Gone): Disk {
    Disk(if gone.raw then Empty() else d.raw, if gone.done then Empty() else d.done,
         if gone.verified then Empty() else d.verified)
  }

  /** Some launch's work for the unit is all in RAW. */
  ghost predicate Covered(plans: seq<Plan>, raw: Log<Finding>, u: string) {
    exists i: nat, w :: i < |plans| && MarkOf(w) == u && Held(raw, YieldOf(plans[i], w))
  }

  ghost predicate Held(raw: Log<Finding>, findings: seq<Finding>) {
    exists at: Log<Finding> :: AppendAll(at, findings).lines <= raw.lines
  }

  lemma HeldAt(raw: Log<Finding>, at: Log<Finding>, findings: seq<Finding>)
    requires AppendAll(at, findings).lines <= raw.lines
    ensures Held(raw, findings)
  {
  }

  lemma EmptyHolds(findings: seq<Finding>)
    ensures Held(Empty(), findings) <==> findings == []
  {
    if findings == [] {
      AppendNone(Empty());
      assert AppendAll(Empty<Finding>(), findings).lines <= Empty<Finding>().lines;
    } else if at: Log<Finding> :| AppendAll(at, findings).lines <= Empty<Finding>().lines {
      AppendAllLonger(at, findings);
      assert false;
    }
  }

  /** A finished unit's findings are lost by `--fresh` exactly when RAW went and DONE did not (and there were any). */
  lemma FreshLosesIff(plans: seq<Plan>, key: Finding -> string, gone: Gone, u: string)
    requires u in DoneSet(Campaign(START, plans, key).done)
    ensures var after := Discarded(Campaign(START, plans, key), gone);
      u in DoneSet(after.done) && !Covered(plans, after.raw, u)
      <==> gone.raw && !gone.done && forall i: nat, w :: i < |plans| && MarkOf(w) == u ==> YieldOf(plans[i], w) != []
  {
    hide Campaign, YieldOf, Held, AppendAll;
    var d := Campaign(START, plans, key);
    NothingLost(plans, key, u);
    var i: nat, w :| i < |plans| && MarkOf(w) == u && DidIn(plans, key, i, w);
    var at := DidIsHeld(plans, key, i, w);
    assert Held(d.raw, YieldOf(plans[i], w)) by { HeldAt(d.raw, at, YieldOf(plans[i], w)); }
    if gone.raw {
      forall findings
        ensures Held(Empty(), findings) <==> findings == []
      {
        EmptyHolds(findings);
      }
    }
  }
}
