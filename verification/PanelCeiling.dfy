/** When `--budget` of the panel review is a ceiling whatever its calls bill: only if nothing can be put to the panel. */
module PanelCeiling {
  import opened AppendFile
  import opened PanelBudget
  import opened PanelReview

  /** Everything the calls of a launch's passes may come to. */
  datatype Calls = Calls(world: World, clustering: Clustering, seamMark: Write, repo: Turn)

  function With(p: Plan, c: Calls): Plan {
    p.(world := c.world, clustering := c.clustering, seamMark := c.seamMark, repo := c.repo)
  }

  /** The first wave of the unfinished files fits the budget. */
  predicate WaveFits(done: Log<string>, p: Plan) {
    p.wave > 0 &&
    var todo := Remaining(p.files, DoneSet(done));
    todo != [] && EstimateOf(todo[..Width(todo, p.wave)], p.est) <= p.budget
  }

  /** The clustering call can propose a cluster that fits the budget. */
  ghost predicate ClusterFits(p: Plan) {
    exists names: seq<string> :: FitsAlone(p, Members(names, p.files))
  }

  predicate FitsAlone(p: Plan, members: seq<string>) {
    |members| >= 2 && EstimateOf(members, p.est) <= p.budget
  }

  ghost predicate SeamFits(done: Log<string>, p: Plan) {
    SEAM !in DoneSet(done) && ClusterFits(p)
  }

  /** The repository's call fits; `afterSeam`: the mark of the seam pass may swallow an unterminated last mark. */
  predicate RepoFits(done: Log<string>, p: Plan, afterSeam: bool) {
    && p.repoEstimate <= p.budget
    && if afterSeam && SEAM !in DoneSet(done) then REPO !in Readable(done.lines) else REPO !in DoneSet(done)
  }

  /** Something of the phase can be put to the panel. */
  ghost predicate CanStart(done: Log<string>, p: Plan) {
    match p.phase
    case FilePhase => WaveFits(done, p)
    case SeamPhase => SeamFits(done, p)
    case RepoPhase => RepoFits(done, p, false)
    case All => p.wave != 0 && (WaveFits(done, p) || SeamFits(done, p) || RepoFits(done, p, true))
  }

  // ---------------------------------------------------------------- nothing can start

  lemma FileIdle(s: Progress, p: Plan)
    requires s.alive && s.spent == 0.0 && (p.wave == 0 || !WaveFits(s.done, p))
    ensures FilePassed(s, p) == s.(alive := p.wave != 0)
  {
    hide EstimateOf, Remaining;
  }

  lemma {:induction false} ClustersIdle(s: Progress, clusters: seq<Cluster>, p: Plan)
    requires s.alive && s.spent == 0.0 && !ClusterFits(p)
    ensures ReviewClusters(s, clusters, p.files, p.budget, p.est).0 == s
    decreases |clusters|
  {
    if clusters != [] {
      hide EstimateOf, Members;
      assert !FitsAlone(p, Members(clusters[0].files, p.files));
      ClustersIdle(s, clusters[1..], p);
    }
  }

  lemma SeamIdle(s: Progress, p: Plan)
    requires s.alive && s.spent == 0.0 && !SeamFits(s.done, p)
    ensures var t := SeamPassed(s, p);
      && t.starts == s.starts && t.spent == s.spent
      && (t.done == s.done || (SEAM !in DoneSet(s.done) && t.done == Wrote(s.done, SEAM, p.seamMark)))
  {
    hide ReviewClusters, ClusterFits, Rows, Wrote;
    if SEAM !in DoneSet(s.done) {
      ClustersIdle(s, ClustersOf(p.clustering), p);
    }
  }

  lemma RepoIdle(s: Progress, p: Plan)
    requires s.spent == 0.0 && (REPO in DoneSet(s.done) || p.repoEstimate > p.budget)
    ensures RepoPassed(s, p) == s
  {
  }

  /** A terminated mark is not swallowed. */
  lemma KeepsReadable(done: Log<string>, write: Write)
    requires REPO in Readable(done.lines)
    ensures REPO in Rows(Wrote(done, SEAM, write)) && REPO in Rows(done)
  {
    RowsAppend(done, SEAM);
  }

  lemma Idle(raw: Log<Finding>, done: Log<string>, p: Plan)
    requires !CanStart(done, p)
    ensures Gathered(raw, done, p).starts == []
  {
    hide FilePassed, SeamPassed, RepoPassed, WaveFits, ClusterFits, Rows, Wrote;
    var s0 := Progress(raw, done, 0.0, true, []);
    if p.phase.FilePhase? || (p.phase.All? && p.wave == 0) {
      FileIdle(s0, p);
    } else if p.phase.SeamPhase? {
      SeamIdle(s0, p);
    } else if p.phase.RepoPhase? {
      RepoIdle(s0, p);
    } else {
      FileIdle(s0, p);
      SeamIdle(s0, p);
      var s2 := SeamPassed(s0, p);
      if p.repoEstimate <= p.budget && SEAM !in DoneSet(done) {
        KeepsReadable(done, p.seamMark);
      }
      RepoIdle(s2, p);
    }
  }

  // ---------------------------------------------------------------- something can start

  /** A call that returns nothing and bills one dollar more than the budget; the process ends before its mark. */
  function Dear(budget: real): Turn {
    Turn(Returned([], budget + 1.0), 0, Unwritten, Unwritten)
  }

  lemma {:induction false} DearBill(batch: seq<string>, budget: real)
    requires batch != [] && budget >= 0.0
    ensures BilledOf(batch, _ => Dear(budget)) > budget
  {
    if |batch| > 1 {
      DearBill(batch[1..], budget);
    }
  }

  lemma DearWave(s: Progress, p: Plan)
    requires s.alive && s.spent == 0.0 && s.starts == [] && p.budget >= 0.0 && WaveFits(s.done, p)
    requires p.world == (_ => Dear(p.budget))
    ensures var t := FilePassed(s, p); !t.alive && Billed(t.starts) > p.budget
  {
    hide BilledOf, EstimateOf, Excess, Remaining;
    var todo := Remaining(p.files, DoneSet(s.done));
    var batch := todo[..Width(todo, p.wave)];
    var start := FileStart(batch, p.est, p.world);
    var s0 := s.(starts := s.starts + [start]);
    DearBill(batch, p.budget);
    var s1 := ReviewUnit(s0, batch[0], p.world(batch[0]));
    assert !s1.alive && s1.starts == [start];
    assert ReviewAll(s0, batch, p.world) == s1;
    assert Waves(s, todo, p.wave, p.budget, p.est, p.world) == Waves(s1, todo[|batch|..], p.wave, p.budget, p.est, p.world);
    assert Waves(s1, todo[|batch|..], p.wave, p.budget, p.est, p.world) == s1;
    assert [start][..0] == [];
  }

  lemma DearCluster(s: Progress, p: Plan, names: seq<string>)
    requires s.alive && s.spent == 0.0 && s.starts == [] && p.budget >= 0.0 && SEAM !in DoneSet(s.done)
    requires FitsAlone(p, Members(names, p.files))
    requires p.clustering == Proposed([Cluster(names, Dear(p.budget))]) && p.seamMark == Unwritten
    ensures var t := SeamPassed(s, p); !t.alive && Billed(t.starts) > p.budget
  {
    hide EstimateOf, Members, Rows;
    var clusters, members := p.clustering.clusters, Members(names, p.files);
    var start := CallStart(members, EstimateOf(members, p.est), Dear(p.budget).panel);
    var s1 := Consume(s.(starts := s.starts + [start]), Dear(p.budget));
    assert s1.alive && s1.starts == [start];
    assert clusters[1..] == [];
    assert ReviewClusters(s1, [], p.files, p.budget, p.est) == (s1, true);
    assert ReviewClusters(s, clusters, p.files, p.budget, p.est) == (s1, true);
    assert [start][..0] == [];
  }

  lemma DearRepo(s: Progress, p: Plan)
    requires s.alive && s.spent == 0.0 && s.starts == [] && p.budget >= 0.0 && p.repo == Dear(p.budget)
    requires REPO !in DoneSet(s.done) && p.repoEstimate <= p.budget
    ensures Billed(RepoPassed(s, p).starts) > p.budget
  {
    hide Rows;
    var start := CallStart([REPO], p.repoEstimate, p.repo.panel);
    assert RepoPassed(s, p).starts == [start];
    assert [start][..0] == [];
  }

  /** A clustering call that is refused, and a mark written whole: the way to the repository pass is free. */
  lemma RepoReached(s: Progress, p: Plan)
    requires s.alive && s.spent == 0.0 && RepoFits(s.done, p, true) && p.clustering == NotAllowed && p.seamMark == Written
    ensures var t := SeamPassed(s, p);
      t.alive && t.spent == 0.0 && t.starts == s.starts && REPO !in DoneSet(t.done)
  {
    RowsAppend(s.done, SEAM);
    hide Rows, Append;
  }

  lemma Overrun(raw: Log<Finding>, done: Log<string>, p: Plan) returns (c: Calls)
    requires p.budget >= 0.0 && CanStart(done, p)
    ensures Billed(Gathered(raw, done, With(p, c)).starts) > p.budget
  {
    hide FilePassed, SeamPassed, RepoPassed, EstimateOf, Rows, Billed;
    var s0 := Progress(raw, done, 0.0, true, []);
    var dear := Dear(p.budget);
    c := Calls(_ => dear, NotAllowed, Written, dear);
    if (p.phase.FilePhase? || p.phase.All?) && WaveFits(done, p) {
      SameWave(done, p, c);
      DearWave(s0, With(p, c));
    } else {
      SameWave(done, p, c);
      if p.phase.All? {
        FileIdle(s0, With(p, c));
      }
      if (p.phase.SeamPhase? || p.phase.All?) && SeamFits(done, p) {
        var names: seq<string> :| FitsAlone(p, Members(names, p.files));
        c := c.(clustering := Proposed([Cluster(names, dear)]), seamMark := Unwritten);
        SameWave(done, p, c);
        if p.phase.All? {
          FileIdle(s0, With(p, c));
        }
        DearCluster(s0, With(p, c), names);
      } else {
        if p.phase.All? {
          RepoReached(s0, With(p, c));
          DearRepo(SeamPassed(s0, With(p, c)), With(p, c));
        } else {
          DearRepo(s0, With(p, c));
        }
      }
    }
  }

  /** What fits does not depend on what the calls come to. */
  lemma SameWave(done: Log<string>, p: Plan, c: Calls)
    ensures WaveFits(done, With(p, c)) <==> WaveFits(done, p)
    ensures CanStart(done, With(p, c)) <==> CanStart(done, p)
  {
    hide EstimateOf, Rows, Remaining;
    assert forall members :: FitsAlone(With(p, c), members) <==> FitsAlone(p, members);
  }

  /** In any phase, `--budget` is a ceiling for whatever the calls may bill exactly when no first batch of the phase fits it. */
  lemma CeilingIff(raw: Log<Finding>, done: Log<string>, p: Plan)
    requires p.budget >= 0.0
    ensures (forall c :: Billed(Gathered(raw, done, With(p, c)).starts) <= p.budget) <==> !CanStart(done, p)
  {
    hide Gathered, CanStart;
    if CanStart(done, p) {
      var c := Overrun(raw, done, p);
    } else {
      forall c
        ensures Billed(Gathered(raw, done, With(p, c)).starts) <= p.budget
      {
        SameWave(done, p, c);
        Idle(raw, done, With(p, c));
      }
    }
  }

  // ---------------------------------------------------------------- which clusters can fit

  lemma {:induction false} MembersKnown(names: seq<string>, files: seq<string>)
    ensures forall f :: f in Members(names, files) ==> f in files
  {
    if names != [] {
      MembersKnown(names[..|names| - 1], files);
    }
  }

  lemma TwoEstimates(members: seq<string>, est: Estimate)
    requires |members| >= 2 && forall u :: est(u) >= 0.0
    ensures est(members[0]) + est(members[1]) <= EstimateOf(members, est)
  {
    EstimateNotNegative(members[2..], est, _ => Dear(0.0));
    assert members[1..][1..] == members[2..];
  }

  /** A cluster can fit exactly when some file fits twice: the code accepts a file named twice. */
  lemma ClusterFitsIff(p: Plan)
    requires Priced(p)
    ensures ClusterFits(p) <==> exists f :: f in p.files && p.est(f) + p.est(f) <= p.budget
  {
    if ClusterFits(p) {
      var names: seq<string> :| FitsAlone(p, Members(names, p.files));
      var members := Members(names, p.files);
      MembersKnown(names, p.files);
      TwoEstimates(members, p.est);
      var f := if p.est(members[0]) <= p.est(members[1]) then members[0] else members[1];
      assert f in members && p.est(f) + p.est(f) <= p.budget;
    }
    if f :| f in p.files && p.est(f) + p.est(f) <= p.budget {
      assert [f, f][..1] == [f] && [f][..0] == [] && [f, f][1..] == [f] && [f][1..] == [];
      assert Members([f], p.files) == [f];
      assert Members([f, f], p.files) == [f, f];
      assert EstimateOf([f], p.est) == p.est(f);
      assert FitsAlone(p, Members([f, f], p.files));
    }
  }
}
