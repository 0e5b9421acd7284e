/** What one launch of the panel review does to its files: what each pass writes before it marks a unit, wherever it ends. */
module PanelPasses {
  import opened AppendFile
  import opened PanelReview

  // ---------------------------------------------------------------- what was written stays

  /** Between `before` and `after` the findings were appended, all of them, and to a clean file if `before` was clean. */
  ghost predicate Delivered(before: Log<Finding>, after: Log<Finding>, findings: seq<Finding>) {
    exists at: Log<Finding> ::
      before.lines <= at.lines && (Clean(before) ==> Clean(at)) && AppendAll(at, findings).lines <= after.lines
  }

  /** Findings delivered to a clean file are read back, whatever is appended or torn afterwards. */
  lemma DeliveredRead(before: Log<Finding>, after: Log<Finding>, findings: seq<Finding>)
    requires Delivered(before, after, findings) && Clean(before)
    ensures forall f :: f in findings ==> f in Read(after)
  {
    var at: Log<Finding> :|
      before.lines <= at.lines && (Clean(before) ==> Clean(at)) && AppendAll(at, findings).lines <= after.lines;
    AppendAllClean(at, findings);
    var now := AppendAll(at, findings);
    assert Read(now) == UpToJunk(now.lines);
    hide Read, AppendAll, UpToJunk;
    UpToJunkGrows(now.lines, after.lines);
    ReadBegins(after);
    forall f | f in findings
      ensures f in Read(after)
    {
      assert f in Read(at) + findings;
      assert f in Read(now) && Read(now) <= Read(after);
    }
  }

  lemma DeliveredWithin(first: Log<Finding>, before: Log<Finding>, after: Log<Finding>, last: Log<Finding>,
                        findings: seq<Finding>)
    requires Delivered(before, after, findings)
    requires first.lines <= before.lines && (Clean(first) ==> Clean(before)) && after.lines <= last.lines
    ensures Delivered(first, last, findings)
  {
    hide AppendAll, Clean;
    var at: Log<Finding> :|
      before.lines <= at.lines && (Clean(before) ==> Clean(at)) && AppendAll(at, findings).lines <= after.lines;
    assert first.lines <= at.lines && AppendAll(at, findings).lines <= last.lines;
  }

  // ---------------------------------------------------------------- one unit, one pass

  /** `untorn`: no write to RAW ends inside a line. */
  ghost predicate Advances(s: Progress, t: Progress, untorn: bool) {
    Grows(s.raw, t.raw) && ((t.alive || untorn) && Clean(s.raw) ==> Clean(t.raw))
  }

  lemma AdvancesOn(s: Progress, mid: Progress, t: Progress, untorn: bool)
    requires Advances(s, mid, untorn) && Advances(mid, t, untorn) && (t.alive ==> mid.alive)
    ensures Advances(s, t, untorn)
  {
    hide Grows, Clean;
    GrowsOn(s.raw, mid.raw, t.raw);
  }

  lemma ConsumeAdvances(s: Progress, turn: Turn, untorn: bool)
    requires untorn ==> turn.partial.Unwritten?
    ensures var t := Consume(s, turn);
      && Advances(s, t, untorn) && t.done == s.done && t.starts == s.starts
      && (t.alive ==> !turn.panel.Fails? && t.raw == AppendAll(s.raw, FindingsOf(turn.panel)))
  {
    GrowsByCut(s.raw, FindingsOf(turn.panel), turn.whole, turn.partial);
    hide Clean, UpToJunk, AppendAll;
  }

  /** If a mark appears, it is of `unit`, the call did not fail, and its findings were appended just before. */
  ghost predicate MarksOnly(s: Progress, t: Progress, u: string, unit: bool, findings: seq<Finding>) {
    u in Rows(t.done) && u !in Rows(s.done) ==> unit && Delivered(s.raw, t.raw, findings)
  }

  /** A call whose findings were all appended has delivered them. */
  lemma AppendedIsDelivered(log: Log<Finding>, findings: seq<Finding>)
    ensures Delivered(log, AppendAll(log, findings), findings)
  {
    hide AppendAll, Clean;
    var after := AppendAll(log, findings);
    assert log.lines <= log.lines && AppendAll(log, findings).lines <= after.lines;
  }

  /** A unit newly on DONE had its findings appended just before. */
  lemma UnitMarks(s: Progress, unit: string, turn: Turn, untorn: bool, u: string)
    requires untorn ==> turn.partial.Unwritten?
    ensures var t := ReviewUnit(s, unit, turn);
      && Advances(s, t, untorn) && t.starts == s.starts && s.done.lines <= t.done.lines
      && MarksOnly(s, t, u, u == unit && !turn.panel.Fails?, FindingsOf(turn.panel))
  {
    hide Consume, Wrote, Clean, AppendAll, Delivered, Grows, Rows;
    ConsumeAdvances(s, turn, untorn);
    AppendedIsDelivered(s.raw, FindingsOf(turn.panel));
    WroteRows(s.done, unit, turn.mark);
  }

  lemma {:induction false} ReviewAllMarks(s: Progress, batch: seq<string>, world: World, untorn: bool, u: string)
    requires untorn ==> forall v :: v in batch ==> world(v).partial.Unwritten?
    ensures var t := ReviewAll(s, batch, world);
      && Advances(s, t, untorn) && t.starts == s.starts && s.done.lines <= t.done.lines && (t.alive ==> s.alive)
      && MarksOnly(s, t, u, u in batch && !world(u).panel.Fails?, FindingsOf(world(u).panel))
    decreases |batch|
  {
    hide ReviewUnit, Clean, Rows, Delivered, Grows;
    if s.alive && batch != [] {
      var s1, t := ReviewUnit(s, batch[0], world(batch[0])), ReviewAll(s, batch, world);
      UnitMarks(s, batch[0], world(batch[0]), untorn, u);
      ReviewAllMarks(s1, batch[1..], world, untorn, u);
      AdvancesOn(s, s1, t, untorn);
      LaterMark(s, s1, t, u, u in batch && !world(u).panel.Fails?, FindingsOf(world(u).panel), untorn);
    } else {
      GrowsNot(s.raw);
    }
  }

  /** A mark of either of two stretches is a mark of the whole. */
  lemma LaterMark(s: Progress, mid: Progress, t: Progress, u: string, unit: bool, findings: seq<Finding>, untorn: bool)
    requires Advances(s, mid, untorn) && Advances(mid, t, untorn) && (mid.alive || t.done == mid.done)
    requires MarksOnly(s, mid, u, unit, findings) && MarksOnly(mid, t, u, unit, findings)
    ensures MarksOnly(s, t, u, unit, findings)
  {
    hide Clean, Rows, Delivered, UpToJunk;
    if u in Rows(t.done) && u !in Rows(s.done) {
      if u in Rows(mid.done) {
        DeliveredWithin(s.raw, s.raw, mid.raw, t.raw, findings);
      } else {
        DeliveredWithin(s.raw, mid.raw, t.raw, t.raw, findings);
      }
    }
  }

  lemma {:induction false} WavesMarks(s: Progress, todo: seq<string>, wave: nat, budget: real, est: Estimate, world: World,
                                      untorn: bool, u: string)
    requires wave > 0 && (untorn ==> forall v :: world(v).partial.Unwritten?)
    ensures var t := Waves(s, todo, wave, budget, est, world);
      && Advances(s, t, untorn) && s.done.lines <= t.done.lines && (t.alive ==> s.alive)
      && MarksOnly(s, t, u, u in todo && !world(u).panel.Fails?, FindingsOf(world(u).panel))
    decreases |todo|
  {
    hide ReviewAll, Clean, Rows, Delivered, Grows, EstimateOf, FileStart;
    GrowsNot(s.raw);
    var batch := todo[..Width(todo, wave)];
    if s.alive && todo != [] && s.spent + EstimateOf(batch, est) <= budget {
      var s0 := s.(starts := s.starts + [FileStart(batch, est, world)]);
      var s1, t := ReviewAll(s0, batch, world), Waves(s, todo, wave, budget, est, world);
      ReviewAllMarks(s0, batch, world, untorn, u);
      WavesMarks(s1, todo[|batch|..], wave, budget, est, world, untorn, u);
      AdvancesOn(s, s1, t, untorn);
      LaterMark(s, s1, t, u, u in todo && !world(u).panel.Fails?, FindingsOf(world(u).panel), untorn);
    }
  }

  /** The clusters that the seam pass reviews. */
  function Reviewable(clusters: seq<Cluster>, files: seq<string>): seq<Cluster> {
    if clusters == [] then [] else
    (if |Members(clusters[0].files, files)| < 2 then [] else [clusters[0]]) + Reviewable(clusters[1..], files)
  }

  function FindingsOfAll(clusters: seq<Cluster>): seq<Finding> {
    if clusters == [] then [] else FindingsOf(clusters[0].turn.panel) + FindingsOfAll(clusters[1..])
  }

  /** When all clusters have been gone through, each reviewable one was put to the panel, none failed, and RAW has all their
      findings. */
  lemma {:induction false} ClustersMarks(s: Progress, clusters: seq<Cluster>, files: seq<string>, budget: real, est: Estimate,
                                         untorn: bool)
    requires untorn ==> forall c :: c in clusters ==> c.turn.partial.Unwritten?
    ensures var (t, all) := ReviewClusters(s, clusters, files, budget, est);
      var reviewable := Reviewable(clusters, files);
      && Advances(s, t, untorn) && t.done == s.done && (t.alive || all ==> s.alive)
      && (all ==> t.alive && t.raw == AppendAll(s.raw, FindingsOfAll(reviewable))
                  && |t.starts| == |s.starts| + |reviewable| && forall c :: c in reviewable ==> !c.turn.panel.Fails?)
    decreases |clusters|
  {
    hide Consume, Clean, Grows, AppendAll, EstimateOf, Members, CallStart;
    GrowsNot(s.raw);
    AppendNone(s.raw);
    if s.alive && clusters != [] {
      var c, members := clusters[0], Members(clusters[0].files, files);
      var (t, all) := ReviewClusters(s, clusters, files, budget, est);
      if |members| < 2 {
        assert Reviewable(clusters, files) == Reviewable(clusters[1..], files);
        assert ReviewClusters(s, clusters, files, budget, est) == ReviewClusters(s, clusters[1..], files, budget, est);
        ClustersMarks(s, clusters[1..], files, budget, est, untorn);
      } else if s.spent + EstimateOf(members, est) <= budget {
        var s0 := s.(starts := s.starts + [CallStart(members, EstimateOf(members, est), c.turn.panel)]);
        var s1 := Consume(s0, c.turn);
        ConsumeAdvances(s0, c.turn, untorn);
        ClustersMarks(s1, clusters[1..], files, budget, est, untorn);
        AdvancesOn(s, s1, t, untorn);
        AppendAllJoin(s.raw, FindingsOf(c.turn.panel), FindingsOfAll(Reviewable(clusters[1..], files)));
      }
    }
  }

  function BillsOf(clusters: seq<Cluster>): real {
    if clusters == [] then 0.0 else CostOf(clusters[0].turn.panel) + BillsOf(clusters[1..])
  }

  /** The launch does not end in the call or in the writing of its findings. */
  predicate Survives(turn: Turn) {
    !turn.panel.Fails? && turn.whole >= |FindingsOf(turn.panel)|
  }

  /** The k-th cluster fits what is left when the ones before it have been billed, and the launch survives it. */
  predicate InTurn(clusters: seq<Cluster>, files: seq<string>, spent: real, budget: real, est: Estimate, k: nat)
    requires k < |clusters|
  {
    spent + BillsOf(clusters[..k]) + EstimateOf(Members(clusters[k].files, files), est) <= budget && Survives(clusters[k].turn)
  }

  predicate AllInTurn(clusters: seq<Cluster>, files: seq<string>, spent: real, budget: real, est: Estimate) {
    forall k: nat :: k < |clusters| ==> InTurn(clusters, files, spent, budget, est, k)
  }

  lemma InTurnNext(clusters: seq<Cluster>, files: seq<string>, spent: real, budget: real, est: Estimate, k: nat)
    requires 0 < k < |clusters|
    ensures InTurn(clusters, files, spent, budget, est, k)
      <==> InTurn(clusters[1..], files, spent + CostOf(clusters[0].turn.panel), budget, est, k - 1)
  {
    assert clusters[..k][1..] == clusters[1..][..k - 1];
  }

  lemma AllInTurnNext(clusters: seq<Cluster>, files: seq<string>, spent: real, budget: real, est: Estimate)
    requires clusters != []
    ensures AllInTurn(clusters, files, spent, budget, est)
      <==> InTurn(clusters, files, spent, budget, est, 0)
           && AllInTurn(clusters[1..], files, spent + CostOf(clusters[0].turn.panel), budget, est)
  {
    hide InTurn;
    var spent1 := spent + CostOf(clusters[0].turn.panel);
    forall k: nat | 0 < k < |clusters|
      ensures InTurn(clusters, files, spent, budget, est, k) <==> InTurn(clusters[1..], files, spent1, budget, est, k - 1)
    {
      InTurnNext(clusters, files, spent, budget, est, k);
    }
    if AllInTurn(clusters[1..], files, spent1, budget, est) {
      forall k: nat | 0 < k < |clusters|
        ensures InTurn(clusters, files, spent, budget, est, k)
      {
        assert InTurn(clusters[1..], files, spent1, budget, est, k - 1);
      }
    }
    if AllInTurn(clusters, files, spent, budget, est) {
      forall k: nat | k < |clusters[1..]|
        ensures InTurn(clusters[1..], files, spent1, budget, est, k)
      {
        assert InTurn(clusters, files, spent, budget, est, k + 1);
      }
    }
  }

  /** All clusters are gone through exactly when each reviewable one comes in its turn. */
  lemma {:induction false} ClustersFinishIff(s: Progress, clusters: seq<Cluster>, files: seq<string>, budget: real, est: Estimate)
    requires s.alive
    ensures ReviewClusters(s, clusters, files, budget, est).1
      <==> AllInTurn(Reviewable(clusters, files), files, s.spent, budget, est)
    decreases |clusters|
  {
    hide AllInTurn, EstimateOf, Members, PutRaw;
    if clusters == [] {
      NoneInTurn(files, s.spent, budget, est);
    } else {
      var c, members := clusters[0], Members(clusters[0].files, files);
      if |members| < 2 {
        ClustersFinishIff(s, clusters[1..], files, budget, est);
        assert Reviewable(clusters, files) == Reviewable(clusters[1..], files);
      } else {
        var reviewable := Reviewable(clusters, files);
        assert reviewable[0] == c && reviewable[1..] == Reviewable(clusters[1..], files);
        AllInTurnNext(reviewable, files, s.spent, budget, est);
        assert reviewable[..0] == [];
        if s.spent + EstimateOf(members, est) <= budget {
          var s1 := Consume(s.(starts := s.starts + [CallStart(members, EstimateOf(members, est), c.turn.panel)]), c.turn);
          ConsumeSurvives(s.(starts := s.starts + [CallStart(members, EstimateOf(members, est), c.turn.panel)]), c.turn);
          if s1.alive {
            ClustersFinishIff(s1, clusters[1..], files, budget, est);
          }
        }
      }
    }
  }

  lemma NoneInTurn(files: seq<string>, spent: real, budget: real, est: Estimate)
    ensures AllInTurn([], files, spent, budget, est)
  {
  }

  lemma ConsumeSurvives(s: Progress, turn: Turn)
    ensures Consume(s, turn).alive <==> Survives(turn)
    ensures Consume(s, turn).spent == s.spent + CostOf(turn.panel)
  {
  }

  lemma AppendNone(log: Log<Finding>)
    ensures AppendAll(log, []) == log
  {
  }

  // ---------------------------------------------------------------- one launch

  /** What a mark on DONE stands for: the review of a file, of the clusters, of the repository. */
  datatype Work = FileWork(file: string) | SeamWork | RepoWork

  function MarkOf(w: Work): string {
    match w
    case FileWork(f) => f
    case SeamWork => SEAM
    case RepoWork => REPO
  }

  /** The panel calls of the work, with what they came to in this launch. */
  function CallsOf(p: Plan, w: Work): seq<Panel> {
    match w
    case FileWork(f) => [p.world(f).panel]
    case SeamWork =>
      var reviewable := Reviewable(ClustersOf(p.clustering), p.files);
      seq(|reviewable|, i requires 0 <= i < |reviewable| => reviewable[i].turn.panel)
    case RepoWork => [p.repo.panel]
  }

  /** What those calls found. */
  function YieldOf(p: Plan, w: Work): seq<Finding> {
    match w
    case FileWork(f) => FindingsOf(p.world(f).panel)
    case SeamWork => FindingsOfAll(Reviewable(ClustersOf(p.clustering), p.files))
    case RepoWork => FindingsOf(p.repo.panel)
  }

  predicate InPhase(p: Plan, w: Work) {
    p.phase.All? ||
    match w
    case FileWork(_) => p.phase.FilePhase?
    case SeamWork => p.phase.SeamPhase?
    case RepoWork => p.phase.RepoPhase?
  }

  /** The launch did the work: it belongs to its phase, none of its calls failed, and all they found was appended. */
  ghost predicate Did(p: Plan, w: Work, before: Log<Finding>, after: Log<Finding>) {
    && InPhase(p, w) && (w.FileWork? ==> w.file in p.files) && (w.SeamWork? ==> !p.clustering.Broken?)
    && Fails !in CallsOf(p, w) && Delivered(before, after, YieldOf(p, w))
  }

  /** No write of the launch to RAW ends inside a line. */
  ghost predicate Untorn(p: Plan) {
    && (forall u :: p.world(u).partial.Unwritten?)
    && (forall c :: c in ClustersOf(p.clustering) ==> c.turn.partial.Unwritten?)
    && p.repo.partial.Unwritten?
  }

  /** Every mark that appears is of work the launch did. */
  ghost predicate MarksWork(p: Plan, s: Progress, t: Progress, u: string) {
    u in Rows(t.done) && u !in Rows(s.done) ==> exists w :: MarkOf(w) == u && Did(p, w, s.raw, t.raw)
  }

  lemma {:induction false} InRemaining(files: seq<string>, finished: set<string>)
    ensures forall f :: f in Remaining(files, finished) <==> f in files && f !in finished
  {
    if files != [] {
      InRemaining(files[..|files| - 1], finished);
      assert files == files[..|files| - 1] + [files[|files| - 1]];
    }
  }

  lemma FilePassMarks(s: Progress, p: Plan, u: string)
    requires InPhase(p, FileWork(u)) && s.alive
    ensures var t := FilePassed(s, p);
      Advances(s, t, Untorn(p)) && s.done.lines <= t.done.lines && MarksWork(p, s, t, u)
  {
    hide Waves, Clean, Grows, Rows, Delivered, Remaining;
    GrowsNot(s.raw);
    if p.wave > 0 {
      var todo := Remaining(p.files, DoneSet(s.done));
      InRemaining(p.files, DoneSet(s.done));
      WavesMarks(s, todo, p.wave, p.budget, p.est, p.world, Untorn(p), u);
      var t := FilePassed(s, p);
      if u in Rows(t.done) && u !in Rows(s.done) {
        assert MarkOf(FileWork(u)) == u && Did(p, FileWork(u), s.raw, t.raw);
      }
    }
  }

  lemma SeamPassMarks(s: Progress, p: Plan, u: string)
    requires InPhase(p, SeamWork) && s.alive
    ensures var t := SeamPassed(s, p);
      Advances(s, t, Untorn(p)) && s.done.lines <= t.done.lines && MarksWork(p, s, t, u)
  {
    hide ReviewClusters, Clean, Grows, Rows, Delivered, AppendAll, Reviewable, FindingsOfAll, Wrote;
    GrowsNot(s.raw);
    if SEAM !in DoneSet(s.done) && !p.clustering.Broken? {
      var (s1, all) := ReviewClusters(s, ClustersOf(p.clustering), p.files, p.budget, p.est);
      ClustersMarks(s, ClustersOf(p.clustering), p.files, p.budget, p.est, Untorn(p));
      WroteRows(s1.done, SEAM, p.seamMark);
      var t := SeamPassed(s, p);
      if u in Rows(t.done) && u !in Rows(s.done) {
        AppendedIsDelivered(s.raw, YieldOf(p, SeamWork));
        assert MarkOf(SeamWork) == u && Did(p, SeamWork, s.raw, t.raw);
      }
    }
  }

  lemma RepoPassMarks(s: Progress, p: Plan, u: string)
    requires InPhase(p, RepoWork) && s.alive
    ensures var t := RepoPassed(s, p);
      Advances(s, t, Untorn(p)) && s.done.lines <= t.done.lines && MarksWork(p, s, t, u)
  {
    hide ReviewUnit, Clean, Grows, Rows, Delivered;
    GrowsNot(s.raw);
    if REPO !in DoneSet(s.done) && s.spent + p.repoEstimate <= p.budget {
      var s0 := s.(starts := s.starts + [CallStart([REPO], p.repoEstimate, p.repo.panel)]);
      UnitMarks(s0, REPO, p.repo, Untorn(p), u);
      var t := RepoPassed(s, p);
      if u in Rows(t.done) && u !in Rows(s.done) {
        assert MarkOf(RepoWork) == u && Did(p, RepoWork, s.raw, t.raw);
      }
    }
  }

  lemma DidWithin(p: Plan, w: Work, first: Log<Finding>, before: Log<Finding>, after: Log<Finding>, last: Log<Finding>)
    requires Did(p, w, before, after)
    requires first.lines <= before.lines && (Clean(first) ==> Clean(before)) && after.lines <= last.lines
    ensures Did(p, w, first, last)
  {
    hide Delivered, Clean;
    DeliveredWithin(first, before, after, last, YieldOf(p, w));
  }

  lemma NextPass(p: Plan, s: Progress, mid: Progress, t: Progress, u: string)
    requires mid.alive && Advances(s, mid, Untorn(p)) && Advances(mid, t, Untorn(p))
    requires MarksWork(p, s, mid, u) && MarksWork(p, mid, t, u)
    ensures Advances(s, t, Untorn(p)) && MarksWork(p, s, t, u)
  {
    hide Did, Rows, Clean, Untorn, UpToJunk;
    AdvancesOn(s, mid, t, Untorn(p));
    if u in Rows(t.done) && u !in Rows(s.done) {
      if u in Rows(mid.done) {
        var w :| MarkOf(w) == u && Did(p, w, s.raw, mid.raw);
        DidWithin(p, w, s.raw, s.raw, mid.raw, t.raw);
      } else {
        var w :| MarkOf(w) == u && Did(p, w, mid.raw, t.raw);
        DidWithin(p, w, s.raw, mid.raw, t.raw, t.raw);
      }
    }
  }

  /** Wherever a launch ends, every unit it marked is work whose calls did not fail and whose findings it appended before. */
  lemma GatheredMarks(raw: Log<Finding>, done: Log<string>, p: Plan, u: string)
    ensures var s, t := Progress(raw, done, 0.0, true, []), Gathered(raw, done, p);
      Advances(s, t, Untorn(p)) && done.lines <= t.done.lines && MarksWork(p, s, t, u)
  {
    hide FilePassed, SeamPassed, RepoPassed, Clean, Grows, Rows, Did, Untorn;
    var s0 := Progress(raw, done, 0.0, true, []);
    var s1 := if p.phase.FilePhase? || p.phase.All? then FilePassed(s0, p) else s0;
    GrowsNot(raw);
    if p.phase.FilePhase? || p.phase.All? {
      FilePassMarks(s0, p, u);
    }
    assert Advances(s0, s1, Untorn(p)) && MarksWork(p, s0, s1, u) && done.lines <= s1.done.lines;
    var s2 := if s1.alive && (p.phase.SeamPhase? || p.phase.All?) then SeamPassed(s1, p) else s1;
    if s1.alive && (p.phase.SeamPhase? || p.phase.All?) {
      SeamPassMarks(s1, p, u);
      NextPass(p, s0, s1, s2, u);
    }
    assert Advances(s0, s2, Untorn(p)) && MarksWork(p, s0, s2, u) && done.lines <= s2.done.lines;
    if s2.alive && (p.phase.RepoPhase? || p.phase.All?) {
      RepoPassMarks(s2, p, u);
      NextPass(p, s0, s2, RepoPassed(s2, p), u);
    }
  }

  // ---------------------------------------------------------------- a file pass that is not cut off

  function FoundIn(units: seq<string>, world: World): seq<Finding> {
    if units == [] then [] else FindingsOf(world(units[0]).panel) + FoundIn(units[1..], world)
  }

  function UnitsOf(starts: seq<Start>): seq<string> {
    if starts == [] then [] else starts[0].units + UnitsOf(starts[1..])
  }

  /** The units were put to the panel, and everything about them is recorded. */
  ghost predicate Put(s: Progress, t: Progress, units: seq<string>, world: World) {
    && t.raw == AppendAll(s.raw, FoundIn(units, world))
    && t.done == AppendAll(s.done, units)
    && t.spent == s.spent + BilledOf(units, world)
  }

  lemma {:induction false} FoundJoin(a: seq<string>, b: seq<string>, world: World)
    ensures FoundIn(a + b, world) == FoundIn(a, world) + FoundIn(b, world)
    ensures BilledOf(a + b, world) == BilledOf(a, world) + BilledOf(b, world)
  {
    if a == [] {
      assert a + b == b;
    } else {
      assert (a + b)[1..] == a[1..] + b;
      FoundJoin(a[1..], b, world);
    }
  }

  lemma PutMore(s: Progress, mid: Progress, t: Progress, a: seq<string>, b: seq<string>, world: World)
    requires Put(s, mid, a, world) && Put(mid, t, b, world)
    ensures Put(s, t, a + b, world)
  {
    AppendAllJoin(s.raw, FoundIn(a, world), FoundIn(b, world));
    AppendAllJoin(s.done, a, b);
    hide AppendAll;
    FoundJoin(a, b, world);
  }

  lemma UnitPut(s: Progress, unit: string, world: World)
    requires ReviewUnit(s, unit, world(unit)).alive
    ensures Put(s, ReviewUnit(s, unit, world(unit)), [unit], world)
  {
    assert [unit][..0] == [] && [unit][1..] == [];
    assert FoundIn([], world) == [] && BilledOf([], world) == 0.0;
    assert FoundIn([unit], world) == FindingsOf(world(unit).panel);
    assert AppendAll(s.done, [unit]) == Append(s.done, unit);
    hide AppendAll;
  }

  lemma {:induction false} ReviewAllPut(s: Progress, batch: seq<string>, world: World)
    requires s.alive && ReviewAll(s, batch, world).alive
    ensures Put(s, ReviewAll(s, batch, world), batch, world)
    decreases |batch|
  {
    if batch != [] {
      hide ReviewUnit, Put;
      var s1 := ReviewUnit(s, batch[0], world(batch[0]));
      UnitPut(s, batch[0], world);
      ReviewAllPut(s1, batch[1..], world);
      PutMore(s, s1, ReviewAll(s, batch, world), [batch[0]], batch[1..], world);
      assert [batch[0]] + batch[1..] == batch;
    }
  }

  lemma UnitsOfMore(most: seq<Start>, last: Start)
    ensures UnitsOf([last] + most) == last.units + UnitsOf(most)
  {
  }

  /** A first wave put to the panel, then more of the list. */
  lemma PutThen(s: Progress, s1: Progress, t: Progress, start: Start, todo: seq<string>, world: World)
    requires start.units <= todo && s1.starts == s.starts + [start] && s1.starts <= t.starts
    requires var later := UnitsOf(t.starts[|s1.starts|..]); later <= todo[|start.units|..] && Put(s1, t, later, world)
    requires Put(s, s1, start.units, world)
    ensures s.starts <= t.starts &&
      var put, later := UnitsOf(t.starts[|s.starts|..]), UnitsOf(t.starts[|s1.starts|..]);
      && put == start.units + later && put <= todo && Put(s, t, put, world)
      && todo[|put|..] == todo[|start.units|..][|later|..]
  {
    hide Put, UnitsOf;
    var later := UnitsOf(t.starts[|s1.starts|..]);
    assert t.starts[|s.starts|..] == [start] + t.starts[|s1.starts|..];
    UnitsOfMore(t.starts[|s1.starts|..], start);
    PutMore(s, s1, t, start.units, later, world);
    assert todo == start.units + todo[|start.units|..];
  }

  /** Waves that are not cut off record everything about a prefix of the list, and stop before a wave only if its estimate
      does not fit. */
  lemma {:induction false} WavesPut(s: Progress, todo: seq<string>, wave: nat, budget: real, est: Estimate, world: World)
    requires wave > 0 && Waves(s, todo, wave, budget, est, world).alive && s.alive
    ensures var t := Waves(s, todo, wave, budget, est, world);
      s.starts <= t.starts &&
      var put := UnitsOf(t.starts[|s.starts|..]);
      && put <= todo && Put(s, t, put, world)
      && (put == todo || t.spent + EstimateOf(todo[|put|..][..Width(todo[|put|..], wave)], est) > budget)
    decreases |todo|
  {
    hide ReviewAll, Put, EstimateOf, UnitsOf, Rows;
    var t := Waves(s, todo, wave, budget, est, world);
    var batch := todo[..Width(todo, wave)];
    if todo == [] || s.spent + EstimateOf(batch, est) > budget {
      NothingPut(s, world);
      assert t == s && s.starts[|s.starts|..] == [] && todo[0..] == todo;
    } else {
      var s0 := s.(starts := s.starts + [FileStart(batch, est, world)]);
      var s1 := ReviewAll(s0, batch, world);
      ReviewAllMarks(s0, batch, world, false, "");
      ReviewAllPut(s0, batch, world);
      WavesPut(s1, todo[|batch|..], wave, budget, est, world);
      SamePut(s, s0, s1, batch, world);
      PutThen(s, s1, t, FileStart(batch, est, world), todo, world);
    }
  }

  lemma NothingPut(s: Progress, world: World)
    ensures UnitsOf([]) == [] && Put(s, s, [], world)
  {
  }

  lemma SamePut(s: Progress, s0: Progress, t: Progress, units: seq<string>, world: World)
    requires s0 == s.(starts := s0.starts) && Put(s0, t, units, world)
    ensures Put(s, t, units, world)
  {
    hide AppendAll;
  }

  lemma {:induction false} RowsAppendAll(log: Log<string>, rows: seq<string>)
    requires log.tail.Ended?
    ensures AppendAll(log, rows).tail.Ended? && Rows(AppendAll(log, rows)) == Rows(log) + rows
  {
    if rows == [] {
      assert Rows(log) + rows == Rows(log);
    } else {
      var n := |rows| - 1;
      RowsAppendAll(log, rows[..n]);
      RowsAppend(AppendAll(log, rows[..n]), rows[n]);
      hide Rows;
      assert rows == rows[..n] + [rows[n]];
      assert Rows(log) + rows == Rows(log) + rows[..n] + [rows[n]];
    }
  }

  /** A file pass that is not cut off: RAW gets exactly the findings of the files put to the panel, DONE exactly their marks,
      refused or not; they are a prefix of the unfinished ones, all of them unless the next wave does not fit. */
  lemma FilePassRecords(s: Progress, p: Plan)
    requires p.wave > 0 && s.alive && FilePassed(s, p).alive
    ensures var t := FilePassed(s, p);
      s.starts <= t.starts &&
      var todo, put := Remaining(p.files, DoneSet(s.done)), UnitsOf(t.starts[|s.starts|..]);
      && put <= todo && Put(s, t, put, p.world)
      && (put == todo || t.spent + EstimateOf(todo[|put|..][..Width(todo[|put|..], p.wave)], p.est) > p.budget)
      && (s.done.tail.Ended? ==> forall f :: f in DoneSet(t.done) <==> f in DoneSet(s.done) || f in put)
  {
    hide Waves, AppendAll, Rows, EstimateOf, UnitsOf, FoundIn, BilledOf, Remaining, Width;
    WavesPut(s, Remaining(p.files, DoneSet(s.done)), p.wave, p.budget, p.est, p.world);
    if s.done.tail.Ended? {
      RowsAppendAll(s.done, UnitsOf(FilePassed(s, p).starts[|s.starts|..]));
    }
  }

  // ---------------------------------------------------------------- every vendor's findings, in order

  function Concat(parts: seq<seq<Finding>>): seq<Finding> {
    if parts == [] then [] else parts[0] + Concat(parts[1..])
  }

  /** What each vendor adds to a call, in order. */
  function PartsOf(c: Panel): seq<seq<Finding>> {
    if c.Returned? then
      seq(|c.replies|, i requires 0 <= i < |c.replies| => if c.replies[i].Parsed? then c.replies[i].findings else [])
    else []
  }

  function AllParts(calls: seq<Panel>): seq<seq<Finding>> {
    if calls == [] then [] else PartsOf(calls[0]) + AllParts(calls[1..])
  }

  lemma {:induction false} ConcatJoin(a: seq<seq<Finding>>, b: seq<seq<Finding>>)
    ensures Concat(a + b) == Concat(a) + Concat(b)
  {
    if a == [] {
      assert a + b == b;
    } else {
      assert (a + b)[1..] == a[1..] + b;
      ConcatJoin(a[1..], b);
    }
  }

  lemma {:induction false} FoundInOrder(replies: seq<Reply>, cost: real)
    ensures FoundBy(replies) == Concat(PartsOf(Returned(replies, cost)))
  {
    if replies != [] {
      var most, last := replies[..|replies| - 1], replies[|replies| - 1];
      var part := if last.Parsed? then last.findings else [];
      FoundInOrder(most, cost);
      assert PartsOf(Returned(replies, cost)) == PartsOf(Returned(most, cost)) + [part];
      ConcatJoin(PartsOf(Returned(most, cost)), [part]);
      assert [part][1..] == [] && Concat([part]) == part + [];
    }
  }

  lemma CallInOrder(c: Panel)
    ensures FindingsOf(c) == Concat(PartsOf(c))
  {
    if c.Returned? {
      FoundInOrder(c.replies, c.cost);
    }
  }

  lemma {:induction false} ClustersInOrder(clusters: seq<Cluster>, calls: seq<Panel>)
    requires |calls| == |clusters| && forall i :: 0 <= i < |calls| ==> calls[i] == clusters[i].turn.panel
    ensures FindingsOfAll(clusters) == Concat(AllParts(calls))
  {
    if clusters != [] {
      hide PartsOf, FindingsOf;
      CallInOrder(calls[0]);
      ClustersInOrder(clusters[1..], calls[1..]);
      ConcatJoin(PartsOf(calls[0]), AllParts(calls[1..]));
    }
  }

  /** What a work's calls found is what each vendor of each call answered, vendor by vendor, and nothing else. */
  lemma YieldInOrder(p: Plan, w: Work)
    ensures YieldOf(p, w) == Concat(AllParts(CallsOf(p, w)))
  {
    hide PartsOf, FindingsOf, FindingsOfAll, Reviewable;
    match w
    case FileWork(f) =>
      CallInOrder(p.world(f).panel);
      OneCall(p.world(f).panel);
    case SeamWork => ClustersInOrder(Reviewable(ClustersOf(p.clustering), p.files), CallsOf(p, w));
    case RepoWork =>
      CallInOrder(p.repo.panel);
      OneCall(p.repo.panel);
  }

  lemma OneCall(c: Panel)
    ensures AllParts([c]) == PartsOf(c)
  {
    assert [c][1..] == [];
  }

  lemma {:induction false} ConcatHas(parts: seq<seq<Finding>>, i: nat, f: Finding)
    requires i < |parts| && f in parts[i]
    ensures f in Concat(parts)
  {
    if i > 0 {
      ConcatHas(parts[1..], i - 1, f);
    }
  }

  lemma {:induction false} AllPartsHas(calls: seq<Panel>, c: Panel, found: seq<Finding>)
    requires c in calls && found in PartsOf(c)
    ensures found in AllParts(calls)
  {
    if c != calls[0] {
      assert c in calls[1..];
      AllPartsHas(calls[1..], c, found);
    }
  }

  /** No vendor's finding is missing. */
  lemma YieldHas(p: Plan, w: Work, c: Panel, r: Reply, f: Finding)
    requires c in CallsOf(p, w) && c.Returned? && r in c.replies && r.Parsed? && f in r.findings
    ensures f in YieldOf(p, w)
  {
    hide CallsOf, YieldOf;
    var i :| 0 <= i < |c.replies| && c.replies[i] == r;
    assert PartsOf(c)[i] == r.findings;
    AllPartsHas(CallsOf(p, w), c, r.findings);
    var k :| 0 <= k < |AllParts(CallsOf(p, w))| && AllParts(CallsOf(p, w))[k] == r.findings;
    ConcatHas(AllParts(CallsOf(p, w)), k, f);
    YieldInOrder(p, w);
  }

  // ---------------------------------------------------------------- which clusters are reviewed

  /** The places of a cluster's list that name a known file. */
  function Known(names: seq<string>, files: seq<string>): set<int> {
    set i | 0 <= i < |names| && names[i] in files
  }

  /** A cluster's members are the known names, as often as they are named. */
  lemma {:induction false} MembersAre(names: seq<string>, files: seq<string>)
    ensures |Members(names, files)| == |Known(names, files)|
    ensures forall f :: f in Members(names, files) <==> f in names && f in files
  {
    if names != [] {
      var n := |names| - 1;
      MembersAre(names[..n], files);
      assert names == names[..n] + [names[n]];
      assert Known(names, files) == Known(names[..n], files) + (if names[n] in files then {n} else {});
    }
  }

  /** The clusters that are reviewed are those that name known files at two places at least. */
  lemma {:induction false} ReviewableAre(clusters: seq<Cluster>, files: seq<string>)
    ensures forall c :: c in Reviewable(clusters, files) <==> c in clusters && |Known(c.files, files)| >= 2
  {
    if clusters != [] {
      hide Members, Known;
      MembersAre(clusters[0].files, files);
      ReviewableAre(clusters[1..], files);
      assert clusters == [clusters[0]] + clusters[1..];
    }
  }
}
