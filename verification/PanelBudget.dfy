/** The budget of one launch of the panel review. */
module PanelBudget {
  import opened AppendFile
  import opened PanelPasses
  import opened PanelReview

  /** What the batches put to the panel bill, whether or not the launch lives to add it up. */
  function Billed(starts: seq<Start>): real {
    if starts == [] then 0.0 else Billed(starts[..|starts| - 1]) + starts[|starts| - 1].bill
  }

  ghost predicate IsWave(p: Plan, start: Start) {
    && start == FileStart(start.units, p.est, p.world)
    && 0 < |start.units| <= p.wave && forall f :: f in start.units ==> f in p.files
  }

  ghost predicate IsCluster(p: Plan, start: Start) {
    exists c :: c in ClustersOf(p.clustering) &&
      start == CallStart(Members(c.files, p.files), EstimateOf(Members(c.files, p.files), p.est), c.turn.panel)
  }

  /** The batch is a wave, a proposed cluster or the repository, with its estimate and its bill in this launch. */
  ghost predicate Tied(p: Plan, start: Start) {
    IsWave(p, start) || IsCluster(p, start) || start == CallStart([REPO], p.repoEstimate, p.repo.panel)
  }

  /** No estimate is negative. */
  ghost predicate Priced(p: Plan) {
    p.repoEstimate >= 0.0 && forall u :: p.est(u) >= 0.0
  }

  /** Each batch was started when what had been billed before it, and its estimate, fitted the budget; `spent` is what was
      billed, and when the launch ends in a batch at most the estimate and the excess of that batch more than before it. */
  ghost predicate InBudget(s: Progress, p: Plan) {
    && (forall i: nat :: i < |s.starts| ==>
         Tied(p, s.starts[i]) && Billed(s.starts[..i]) + s.starts[i].estimate <= p.budget)
    && (s.alive ==> s.spent == Billed(s.starts))
    && (if s.starts == [] then s.spent == 0.0 else
        var n := |s.starts| - 1;
        s.spent <= Billed(s.starts[..n]) + s.starts[n].estimate + s.starts[n].excess)
  }

  /** A batch's figures add up over its units: each unit's estimate, its call's cost if it came back, and what that is more than
      the estimate. */
  lemma {:induction false} FiguresAdd(a: seq<string>, b: seq<string>, est: Estimate, world: World)
    ensures EstimateOf(a + b, est) == EstimateOf(a, est) + EstimateOf(b, est)
    ensures BilledOf(a + b, world) == BilledOf(a, world) + BilledOf(b, world)
    ensures Excess(a + b, est, world) == Excess(a, est, world) + Excess(b, est, world)
  {
    if a == [] {
      assert a + b == b;
    } else {
      assert (a + b)[1..] == a[1..] + b;
      FiguresAdd(a[1..], b, est, world);
    }
  }

  lemma FiguresOf(u: string, est: Estimate, world: World)
    ensures var cost := if world(u).panel.Returned? then world(u).panel.cost else 0.0;
      && EstimateOf([u], est) == est(u) && BilledOf([u], world) == cost
      && Excess([u], est, world) == (if cost >= est(u) then cost - est(u) else 0.0)
    ensures EstimateOf([], est) == 0.0 && BilledOf([], world) == 0.0 && Excess([], est, world) == 0.0
  {
    assert [u][1..] == [];
  }

  /** So do the bills of the batches. */
  lemma {:induction false} BilledAdds(a: seq<Start>, b: seq<Start>)
    ensures Billed(a + b) == Billed(a) + Billed(b)
    decreases |b|
  {
    if b == [] {
      assert a + b == a;
    } else {
      assert (a + b)[..|a + b| - 1] == a + b[..|b| - 1];
      BilledAdds(a, b[..|b| - 1]);
    }
  }

  /** A cluster or repository batch is one call. */
  lemma CallFigures(units: seq<string>, estimate: real, panel: Panel)
    ensures var start, cost := CallStart(units, estimate, panel), if panel.Returned? then panel.cost else 0.0;
      start.units == units && start.estimate == estimate && start.bill == cost
      && start.excess == (if cost >= estimate then cost - estimate else 0.0)
  {
  }

  lemma {:induction false} BilledBound(batch: seq<string>, est: Estimate, world: World)
    ensures BilledOf(batch, world) <= EstimateOf(batch, est) + Excess(batch, est, world)
  {
    if batch != [] {
      BilledBound(batch[1..], est, world);
    }
  }

  /** A batch bills at most its estimate and its excess. */
  lemma StartBound(p: Plan, start: Start)
    requires Tied(p, start)
    ensures start.bill <= start.estimate + start.excess
  {
    if IsWave(p, start) {
      BilledBound(start.units, p.est, p.world);
    }
  }

  lemma {:induction false} EstimateNotNegative(batch: seq<string>, est: Estimate, world: World)
    requires forall u :: est(u) >= 0.0
    ensures EstimateOf(batch, est) >= 0.0 && Excess(batch, est, world) >= 0.0
  {
    if batch != [] {
      EstimateNotNegative(batch[1..], est, world);
    }
  }

  lemma ConsumeSpends(s: Progress, turn: Turn)
    ensures Consume(s, turn).spent == s.spent + CostOf(turn.panel) && Consume(s, turn).starts == s.starts
  {
  }

  /** However far a wave gets, `spent` grows by at most its estimate and its excess. */
  lemma {:induction false} ReviewAllSpends(s: Progress, batch: seq<string>, est: Estimate, world: World)
    requires s.alive && forall u :: est(u) >= 0.0
    ensures var t := ReviewAll(s, batch, world);
      && t.starts == s.starts && (t.alive ==> t.spent == s.spent + BilledOf(batch, world))
      && t.spent <= s.spent + EstimateOf(batch, est) + Excess(batch, est, world)
    decreases |batch|
  {
    if batch != [] {
      hide Consume;
      ConsumeSpends(s, world(batch[0]));
      var s1 := ReviewUnit(s, batch[0], world(batch[0]));
      EstimateNotNegative(batch[1..], est, world);
      if s1.alive {
        ReviewAllSpends(s1, batch[1..], est, world);
      }
    }
  }

  /** A batch that fits the budget is put to the panel. */
  lemma NextStart(s: Progress, t: Progress, p: Plan, start: Start)
    requires InBudget(s, p) && s.alive && Tied(p, start) && s.spent + start.estimate <= p.budget
    requires t.starts == s.starts + [start] && (t.alive ==> t.spent == s.spent + start.bill)
    requires t.spent <= s.spent + start.estimate + start.excess
    ensures InBudget(t, p)
  {
    hide Tied;
    var n := |s.starts|;
    assert t.starts[..n] == s.starts;
    forall i: nat | i < |t.starts|
      ensures Tied(p, t.starts[i]) && Billed(t.starts[..i]) + t.starts[i].estimate <= p.budget
    {
      if i < n {
        assert t.starts[..i] == s.starts[..i] && t.starts[i] == s.starts[i];
      }
    }
  }

  lemma {:induction false} WavesInBudget(s: Progress, todo: seq<string>, p: Plan)
    requires p.wave > 0 && Priced(p) && InBudget(s, p) && forall f :: f in todo ==> f in p.files
    ensures InBudget(Waves(s, todo, p.wave, p.budget, p.est, p.world), p)
    decreases |todo|
  {
    var batch := todo[..Width(todo, p.wave)];
    if s.alive && todo != [] && s.spent + EstimateOf(batch, p.est) <= p.budget {
      hide ReviewAll, InBudget, EstimateOf, BilledOf, Excess;
      var start := FileStart(batch, p.est, p.world);
      var s0 := s.(starts := s.starts + [start]);
      ReviewAllSpends(s0, batch, p.est, p.world);
      assert Tied(p, start) by { assert IsWave(p, start); }
      NextStart(s, ReviewAll(s0, batch, p.world), p, start);
      WavesInBudget(ReviewAll(s0, batch, p.world), todo[|batch|..], p);
    }
  }

  lemma {:induction false} ClustersInBudget(s: Progress, clusters: seq<Cluster>, p: Plan)
    requires InBudget(s, p) && forall c :: c in clusters ==> c in ClustersOf(p.clustering)
    ensures InBudget(ReviewClusters(s, clusters, p.files, p.budget, p.est).0, p)
    decreases |clusters|
  {
    hide Consume, InBudget, EstimateOf, Members;
    if s.alive && clusters != [] {
      var c, members := clusters[0], Members(clusters[0].files, p.files);
      if |members| < 2 {
        ClustersInBudget(s, clusters[1..], p);
      } else if s.spent + EstimateOf(members, p.est) <= p.budget {
        var start := CallStart(members, EstimateOf(members, p.est), c.turn.panel);
        var s0 := s.(starts := s.starts + [start]);
        ConsumeSpends(s0, c.turn);
        assert c in ClustersOf(p.clustering) && Tied(p, start);
        NextStart(s, Consume(s0, c.turn), p, start);
        ClustersInBudget(Consume(s0, c.turn), clusters[1..], p);
      }
    }
  }

  lemma SameMoney(s: Progress, t: Progress, p: Plan)
    requires InBudget(s, p) && t.starts == s.starts && t.spent == s.spent && (t.alive ==> s.alive)
    ensures InBudget(t, p)
  {
  }

  lemma FilePassInBudget(s: Progress, p: Plan)
    requires Priced(p) && InBudget(s, p)
    ensures InBudget(FilePassed(s, p), p)
  {
    hide InBudget, Waves, Remaining;
    if p.wave > 0 {
      InRemaining(p.files, DoneSet(s.done));
      WavesInBudget(s, Remaining(p.files, DoneSet(s.done)), p);
    } else {
      SameMoney(s, FilePassed(s, p), p);
    }
  }

  lemma SeamPassInBudget(s: Progress, p: Plan)
    requires InBudget(s, p)
    ensures InBudget(SeamPassed(s, p), p)
  {
    hide InBudget, ReviewClusters;
    ClustersInBudget(s, ClustersOf(p.clustering), p);
    if SEAM !in DoneSet(s.done) {
      if p.clustering.Broken? {
        SameMoney(s, SeamPassed(s, p), p);
      } else {
        var (s1, all) := ReviewClusters(s, ClustersOf(p.clustering), p.files, p.budget, p.est);
        if all {
          ClustersMarks(s, ClustersOf(p.clustering), p.files, p.budget, p.est, false);
          SameMoney(s1, SeamPassed(s, p), p);
        }
      }
    }
  }

  lemma RepoPassInBudget(s: Progress, p: Plan)
    requires InBudget(s, p) && s.alive
    ensures InBudget(RepoPassed(s, p), p)
  {
    hide InBudget, Consume;
    if REPO !in DoneSet(s.done) && s.spent + p.repoEstimate <= p.budget {
      var start := CallStart([REPO], p.repoEstimate, p.repo.panel);
      ConsumeSpends(s.(starts := s.starts + [start]), p.repo);
      NextStart(s, RepoPassed(s, p), p, start);
    }
  }

  /** Every launch, wherever it ends, starts each of its batches inside the budget. */
  lemma StartsInside(raw: Log<Finding>, done: Log<string>, p: Plan)
    requires Priced(p)
    ensures InBudget(Gathered(raw, done, p), p)
  {
    hide FilePassed, SeamPassed, RepoPassed, Tied;
    var s0 := Progress(raw, done, 0.0, true, []);
    assert InBudget(s0, p);
    hide InBudget;
    var s1 := if p.phase.FilePhase? || p.phase.All? then FilePassed(s0, p) else s0;
    FilePassInBudget(s0, p);
    var s2 := if s1.alive && (p.phase.SeamPhase? || p.phase.All?) then SeamPassed(s1, p) else s1;
    SeamPassInBudget(s1, p);
    if s2.alive {
      RepoPassInBudget(s2, p);
    }
  }

  /** Money beyond the budget is what the calls of the last batch billed over their estimates, at most. */
  lemma OverrunIsOneBatch(raw: Log<Finding>, done: Log<string>, p: Plan)
    requires Priced(p)
    ensures var t := Gathered(raw, done, p);
      if t.starts == [] then t.spent == 0.0 else
      var last := t.starts[|t.starts| - 1];
      Tied(p, last) && Billed(t.starts) <= p.budget + last.excess && t.spent <= p.budget + last.excess
  {
    hide Gathered, Tied;
    StartsInside(raw, done, p);
    var t := Gathered(raw, done, p);
    if t.starts != [] {
      StartBound(p, t.starts[|t.starts| - 1]);
    }
  }

  /** No panel call bills more than it was estimated. */
  ghost predicate Honest(p: Plan) {
    && (forall u :: CostOf(p.world(u).panel) <= p.est(u))
    && (forall c :: c in ClustersOf(p.clustering) ==> CostOf(c.turn.panel) <= EstimateOf(Members(c.files, p.files), p.est))
    && CostOf(p.repo.panel) <= p.repoEstimate
  }

  lemma {:induction false} HonestBatch(batch: seq<string>, est: Estimate, world: World)
    requires forall u :: CostOf(world(u).panel) <= est(u)
    ensures Excess(batch, est, world) == 0.0
  {
    if batch != [] {
      HonestBatch(batch[1..], est, world);
    }
  }

  /** Then neither the panel's bills nor `spent` pass the budget, wherever the launch ends. */
  lemma HonestLaunchFits(raw: Log<Finding>, done: Log<string>, p: Plan)
    requires Priced(p) && Honest(p) && p.budget >= 0.0
    ensures var t := Gathered(raw, done, p);
      Billed(t.starts) <= p.budget && t.spent <= p.budget
  {
    hide Gathered, EstimateOf, Members;
    OverrunIsOneBatch(raw, done, p);
    var t := Gathered(raw, done, p);
    if t.starts != [] {
      var last := t.starts[|t.starts| - 1];
      if IsWave(p, last) {
        HonestBatch(last.units, p.est, p.world);
      }
    }
  }
}
