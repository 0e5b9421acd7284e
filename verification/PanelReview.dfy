/** The resumable panel review (`panel_review.py`): findings appended to one file as they are produced, finished
    units recorded in a second, verdicts in a third, all under a budget per launch.

    The panel's answers, the estimates, the judge's answers and the moments they are filed, and the point where a
    launch is cut off are arbitrary inputs.  A launch may end at any exception and inside any write. */
module PanelReview {
  import opened AppendFile
  import opened Options
  import opened Ordering

  datatype Finding = Finding(axis: string, file: string, vendor: string, line: Option<int>, severity: string, issue: string)

  /** What one vendor makes of a panel call: no OK result, an answer that does not parse, or its findings. */
  datatype Reply = NotOk | Unparsable | Parsed(findings: seq<Finding>)

  /** One panel call: refused by the budget gate, ended by an exception, or returned with what the vendors made of it,
      which may be nothing. */
  datatype Panel = Refused | Fails | Returned(replies: seq<Reply>, cost: real)

  /** A unit's panel call, how far the writing of its findings gets, and how the writing of its mark ends. */
  datatype Turn = Turn(panel: Panel, whole: nat, partial: Write, mark: Write)

  type Estimate = string -> real
  type World = string -> Turn

  const SEAM := "__seam__"
  const REPO := "__repo__"

  /** The findings of all vendors, in order. */
  function FoundBy(replies: seq<Reply>): seq<Finding> {
    if replies == [] then [] else
    var last := replies[|replies| - 1];
    FoundBy(replies[..|replies| - 1]) + (if last.Parsed? then last.findings else [])
  }

  function FindingsOf(p: Panel): seq<Finding> {
    if p.Returned? then FoundBy(p.replies) else []
  }

  function CostOf(p: Panel): real {
    if p.Returned? then p.cost else 0.0
  }

  /** The units recorded as finished (`_done_set`). */
  function DoneSet(done: Log<string>): set<string> {
    set u | u in Rows(done)
  }

  /** The units of a list that are not finished, in order. */
  function Remaining(files: seq<string>, finished: set<string>): seq<string> {
    if files == [] then [] else
    Remaining(files[..|files| - 1], finished) + (if files[|files| - 1] in finished then [] else [files[|files| - 1]])
  }

  // ---------------------------------------------------------------- money

  function EstimateOf(batch: seq<string>, est: Estimate): real {
    if batch == [] then 0.0 else est(batch[0]) + EstimateOf(batch[1..], est)
  }

  function BilledOf(batch: seq<string>, world: World): real {
    if batch == [] then 0.0 else CostOf(world(batch[0]).panel) + BilledOf(batch[1..], world)
  }

  function Over(cost: real, estimate: real): real {
    if cost > estimate then cost - estimate else 0.0
  }

  /** By how much calls of the batch bill over their estimates. */
  function Excess(batch: seq<string>, est: Estimate, world: World): real {
    if batch == [] then 0.0 else Over(CostOf(world(batch[0]).panel), est(batch[0])) + Excess(batch[1..], est, world)
  }

  /** A batch put to the panel: its units, its estimate, what its calls bill, and by how much they bill over. */
  datatype Start = Start(units: seq<string>, estimate: real, bill: real, excess: real)

  function FileStart(batch: seq<string>, est: Estimate, world: World): Start {
    Start(batch, EstimateOf(batch, est), BilledOf(batch, world), Excess(batch, est, world))
  }

  function CallStart(units: seq<string>, estimate: real, panel: Panel): Start {
    Start(units, estimate, CostOf(panel), Over(CostOf(panel), estimate))
  }

  // ---------------------------------------------------------------- one launch's gathering, as functions

  /** Where a launch stands: its files, `spent`, whether it still runs, and the batches it has put to the panel. */
  datatype Progress = Progress(raw: Log<Finding>, done: Log<string>, spent: real, alive: bool, starts: seq<Start>)

  function PutRaw(s: Progress, findings: seq<Finding>, whole: nat, partial: Write): Progress {
    s.(raw := AppendCut(s.raw, findings, whole, partial), alive := whole >= |findings|)
  }

  function PutMark(s: Progress, unit: string, write: Write): Progress {
    s.(done := Wrote(s.done, unit, write), alive := write.Written?)
  }

  /** The result of one panel call is consumed: its bill, then its findings. */
  function Consume(s: Progress, turn: Turn): Progress {
    if turn.panel.Fails? then s.(alive := false) else
    PutRaw(s.(spent := s.spent + CostOf(turn.panel)), FindingsOf(turn.panel), turn.whole, turn.partial)
  }

  /** Bill, findings, mark, in this order. */
  function ReviewUnit(s: Progress, unit: string, turn: Turn): Progress {
    var s1 := Consume(s, turn);
    if s1.alive then PutMark(s1, unit, turn.mark) else s1
  }

  /** The results of a batch, in order. */
  function ReviewAll(s: Progress, batch: seq<string>, world: World): Progress
    decreases |batch|
  {
    if !s.alive || batch == [] then s else ReviewAll(ReviewUnit(s, batch[0], world(batch[0])), batch[1..], world)
  }

  function Width(todo: seq<string>, wave: nat): nat {
    if wave < |todo| then wave else |todo|
  }

  /** Waves while they fit the budget. */
  function Waves(s: Progress, todo: seq<string>, wave: nat, budget: real, est: Estimate, world: World): Progress
    requires wave > 0
    decreases |todo|
  {
    if !s.alive || todo == [] then s else
    var batch := todo[..Width(todo, wave)];
    if s.spent + EstimateOf(batch, est) > budget then s else
    Waves(ReviewAll(s.(starts := s.starts + [FileStart(batch, est, world)]), batch, world), todo[|batch|..], wave, budget, est, world)
  }

  /** A cluster the model proposed, and its panel call. */
  datatype Cluster = Cluster(files: seq<string>, turn: Turn)

  /** The clustering call: ended by an exception, refused by the budget gate, or answered (an unusable answer proposes
      nothing). */
  datatype Clustering = Broken | NotAllowed | Proposed(clusters: seq<Cluster>)

  function ClustersOf(c: Clustering): seq<Cluster> {
    if c.Proposed? then c.clusters else []
  }

  function Members(names: seq<string>, files: seq<string>): seq<string> {
    if names == [] then [] else
    Members(names[..|names| - 1], files) + (if names[|names| - 1] in files then [names[|names| - 1]] else [])
  }

  /** Clusters while they fit the budget; true when all have been gone through. */
  function ReviewClusters(s: Progress, clusters: seq<Cluster>, files: seq<string>, budget: real, est: Estimate): (Progress, bool)
    decreases |clusters|
  {
    if !s.alive then (s, false) else if clusters == [] then (s, true) else
    var members := Members(clusters[0].files, files);
    if |members| < 2 then ReviewClusters(s, clusters[1..], files, budget, est) else
    var estimate := EstimateOf(members, est);
    if s.spent + estimate > budget then (s, false) else
    var start := CallStart(members, estimate, clusters[0].turn.panel);
    ReviewClusters(Consume(s.(starts := s.starts + [start]), clusters[0].turn), clusters[1..], files, budget, est)
  }

  // ---------------------------------------------------------------- one launch

  datatype Phase = FilePhase | SeamPhase | RepoPhase | All

  /** What asking the judge about one finding comes to: no usable answer, or a verdict. */
  datatype Judgement = Unsure | Says(holds: bool)

  /** The arguments of a launch and everything the world does in it.  The verdict on the i-th finding asked about is filed
      at the moment `when(i)`; `filed` and `partial` say how far the filing gets. */
  datatype Plan = Plan(phase: Phase, files: seq<string>, wave: int, budget: real, est: Estimate, world: World,
                       clustering: Clustering, seamMark: Write, repo: Turn, repoEstimate: real,
                       judge: nat -> Judgement, when: nat -> real, filed: nat, partial: Write)

  function FilePassed(s: Progress, p: Plan): Progress {
    if p.wave == 0 then s.(alive := false) else
    if p.wave < 0 then s else Waves(s, Remaining(p.files, DoneSet(s.done)), p.wave, p.budget, p.est, p.world)
  }

  function SeamPassed(s: Progress, p: Plan): Progress {
    if SEAM in DoneSet(s.done) then s else
    if p.clustering.Broken? then s.(alive := false) else
    var (s1, all) := ReviewClusters(s, ClustersOf(p.clustering), p.files, p.budget, p.est);
    if all then PutMark(s1, SEAM, p.seamMark) else s1
  }

  function RepoPassed(s: Progress, p: Plan): Progress {
    if REPO in DoneSet(s.done) || s.spent + p.repoEstimate > p.budget then s else
    ReviewUnit(s.(starts := s.starts + [CallStart([REPO], p.repoEstimate, p.repo.panel)]), REPO, p.repo)
  }

  /** The passes of the phase, one after the other, from what the earlier launches left; `spent` starts at zero. */
  function Gathered(raw: Log<Finding>, done: Log<string>, p: Plan): Progress {
    var s0 := Progress(raw, done, 0.0, true, []);
    var s1 := if p.phase.FilePhase? || p.phase.All? then FilePassed(s0, p) else s0;
    var s2 := if s1.alive && (p.phase.SeamPhase? || p.phase.All?) then SeamPassed(s1, p) else s1;
    if s2.alive && (p.phase.RepoPhase? || p.phase.All?) then RepoPassed(s2, p) else s2
  }

  /** Nothing of the phase is left to gather. */
  predicate Complete(phase: Phase, files: seq<string>, finished: set<string>) {
    && (phase.FilePhase? || phase.All? ==> forall f :: f in files ==> f in finished)
    && (phase.SeamPhase? || phase.All? ==> SEAM in finished)
    && (phase.RepoPhase? || phase.All? ==> REPO in finished)
  }

  // ---------------------------------------------------------------- verdicts

  datatype Verdict = Verdict(key: string, holds: bool)

  /** A reported finding: confirmed, or still unchecked. */
  datatype Checked = Checked(finding: Finding, holds: Option<bool>)

  /** The verdicts on file; a later line for the same key wins. */
  function Decided(rows: seq<Verdict>): map<string, bool> {
    if rows == [] then map[] else
    var last := rows[|rows| - 1];
    Decided(rows[..|rows| - 1])[last.key := last.holds]
  }

  function Undecided(findings: seq<Finding>, key: Finding -> string, onFile: map<string, bool>): seq<Finding> {
    if findings == [] then [] else
    var last := findings[|findings| - 1];
    Undecided(findings[..|findings| - 1], key, onFile) + (if key(last) in onFile then [] else [last])
  }

  function Opinion(j: Judgement): Option<bool> {
    if j.Says? then Some(j.holds) else None
  }

  /** The verdict of each key after the judgements of `todo`, collected in list order; of two findings with one key the later. */
  function Verdicts(onFile: map<string, bool>, todo: seq<Finding>, key: Finding -> string, judge: nat -> Judgement)
    : map<string, Option<bool>>
  {
    if todo == [] then map k | k in onFile :: Some(onFile[k]) else
    var n := |todo| - 1;
    Verdicts(onFile, todo[..n], key, judge)[key(todo[n]) := Opinion(judge(n))]
  }

  /** The answered ones among the first n questions, in list order. */
  function Usable(n: nat, judge: nat -> Judgement): (r: seq<nat>)
    ensures forall i: nat :: i in r <==> i < n && judge(i).Says?
    ensures forall i, j :: 0 <= i < j < |r| ==> r[i] != r[j]
  {
    if n == 0 then [] else Usable(n - 1, judge) + (if judge(n - 1).Says? then [n - 1] else [])
  }

  function Sooner(when: nat -> real): (nat, nat) -> bool {
    (i: nat, j: nat) => when(i) < when(j)
  }

  lemma SoonerOrder(when: nat -> real)
    ensures StrictWeak(Sooner(when))
  {
  }

  /** The order in which the workers file their verdicts. */
  function FilingOrder(n: nat, judge: nat -> Judgement, when: nat -> real): (r: seq<nat>)
    ensures multiset(r) == multiset(Usable(n, judge))
    ensures forall i: nat :: i in r <==> i < n && judge(i).Says?
  {
    SoonerOrder(when);
    SameElements(SortBy(Sooner(when), Usable(n, judge)), Usable(n, judge));
    SortBy(Sooner(when), Usable(n, judge))
  }

  function LinesFor(order: seq<nat>, todo: seq<Finding>, key: Finding -> string, judge: nat -> Judgement): seq<Verdict>
    requires forall i: nat :: i in order ==> i < |todo| && judge(i).Says?
  {
    seq(|order|, i requires 0 <= i < |order| => assert order[i] in order; Verdict(key(todo[order[i]]), judge(order[i]).holds))
  }

  /** The lines a verification files, in the order of filing. */
  function NewVerdicts(todo: seq<Finding>, key: Finding -> string, judge: nat -> Judgement, when: nat -> real): seq<Verdict> {
    LinesFor(FilingOrder(|todo|, judge, when), todo, key, judge)
  }

  function Surviving(findings: seq<Finding>, key: Finding -> string, verdicts: map<string, Option<bool>>): seq<Checked> {
    if findings == [] then [] else
    var last := findings[|findings| - 1];
    var v := if key(last) in verdicts then verdicts[key(last)] else None;
    Surviving(findings[..|findings| - 1], key, verdicts) + (if v == Some(false) then [] else [Checked(last, v)])
  }

  // ---------------------------------------------------------------- any number of launches

  /** The three files. */
  datatype Disk = Disk(raw: Log<Finding>, done: Log<string>, verified: Log<Verdict>)

  const START := Disk(Empty(), Empty(), Empty())

  datatype Result = Paused | Cut | Reported(confirmed: seq<Checked>)

  /** The verification of what can be read back: the file afterwards, and the report unless the launch ends in it. */
  function Verified(verified: Log<Verdict>, findings: seq<Finding>, p: Plan, key: Finding -> string): (Log<Verdict>, Result) {
    var onFile := Decided(Read(verified));
    var todo := Undecided(findings, key, onFile);
    var lines := NewVerdicts(todo, key, p.judge, p.when);
    (AppendCut(verified, lines, p.filed, p.partial),
     if p.filed < |lines| then Cut else Reported(Surviving(findings, key, Verdicts(onFile, todo, key, p.judge))))
  }

  function Launched(d: Disk, p: Plan, key: Finding -> string): (Disk, Result) {
    var g := Gathered(d.raw, d.done, p);
    if !g.alive then (Disk(g.raw, g.done, d.verified), Cut) else
    if !Complete(p.phase, p.files, DoneSet(g.done)) then (Disk(g.raw, g.done, d.verified), Paused) else
    var (verified, result) := Verified(d.verified, Read(g.raw), p, key);
    (Disk(g.raw, g.done, verified), result)
  }

  function Campaign(d: Disk, plans: seq<Plan>, key: Finding -> string): Disk {
    if plans == [] then d else Launched(Campaign(d, plans[..|plans| - 1], key), plans[|plans| - 1], key).0
  }

  // ---------------------------------------------------------------- the program

  class Review {
    var raw: Log<Finding>
    var done: Log<string>
    var verified: Log<Verdict>
    var spent: real
    ghost var alive: bool
    ghost var starts: seq<Start>

    constructor ()
      ensures State() == Progress(Empty(), Empty(), 0.0, true, []) && verified == Empty()
    {
      raw, done, verified, spent := Empty(), Empty(), Empty(), 0.0;
      alive, starts := true, [];
    }

    ghost function State(): Progress
      reads this
    {
      Progress(raw, done, spent, alive, starts)
    }

    ghost function OnDisk(): Disk
      reads this
    {
      Disk(raw, done, verified)
    }

    /** `_append_raw`; false when the launch ends in it.  What survives can all be read back exactly when RAW was clean. */
    method AppendRaw(findings: seq<Finding>, whole: nat, partial: Write) returns (survived: bool)
      modifies this`raw, this`alive
      ensures State() == PutRaw(old(State()), findings, whole, partial)
      ensures survived == alive && Grows(old(raw), raw)
      ensures survived ==> (Read(raw) == Read(old(raw)) + findings <==> findings == [] || Clean(old(raw)))
    {
      hide Grows, Clean, Read;
      GrowsByCut(raw, findings, whole, partial);
      ReadableIffClean(raw, findings);
      for i := 0 to |findings|
        invariant raw == AppendAll(old(raw), findings[..i]) && i <= whole
      {
        if i == whole {
          raw := Wrote(raw, findings[i], partial);
          alive := false;
          return false;
        }
        assert findings[..i + 1][..i] == findings[..i];
        raw := Append(raw, findings[i]);
      }
      assert findings[..|findings|] == findings;
      alive := true;
      survived := true;
    }

    /** `_mark_done`; false when the launch ends in it.  Behind a newline the unit is finished exactly if at most the newline
        of its mark is missing. */
    method MarkDone(unit: string, write: Write) returns (survived: bool)
      modifies this`done, this`alive
      ensures State() == PutMark(old(State()), unit, write)
      ensures survived == alive && DoneSet(done) <= DoneSet(old(done)) + {unit}
      ensures old(done).tail.Ended? ==> DoneSet(old(done)) <= DoneSet(done)
      ensures old(done).tail.Ended? ==>
        (unit in DoneSet(done) <==> write.Written? || write.UnendedWrite? || unit in DoneSet(old(done)))
    {
      WroteRows(done, unit, write);
      if done.tail.Ended? {
        WroteKeeps(done, unit, write);
      }
      done := Wrote(done, unit, write);
      survived := write.Written?;
      alive := survived;
    }

    /** The bill and the findings of one panel call. */
    method Take(turn: Turn) returns (survived: bool)
      modifies this`raw, this`spent, this`alive
      ensures State() == Consume(old(State()), turn)
      ensures survived == alive
    {
      if turn.panel.Fails? {
        alive := false;
        return false;
      }
      spent := spent + CostOf(turn.panel);
      var findings := [];
      if turn.panel.Returned? {
        findings := Gather(turn.panel.replies);
      }
      survived := AppendRaw(findings, turn.whole, turn.partial);
    }

    /** One file of a wave: its bill, its findings, its mark, in this order. */
    method Unit(unit: string, turn: Turn) returns (survived: bool)
      modifies this`raw, this`done, this`spent, this`alive
      ensures State() == ReviewUnit(old(State()), unit, turn)
      ensures survived == alive
    {
      hide Consume, PutMark;
      survived := Take(turn);
      if survived {
        survived := MarkDone(unit, turn.mark);
      }
    }

    /** The results of one wave, consumed in order; the calls themselves ran beforehand. */
    method Wave(batch: seq<string>, world: World) returns (survived: bool)
      requires alive
      modifies this`raw, this`done, this`spent, this`alive
      ensures State() == ReviewAll(old(State()), batch, world)
      ensures survived == alive
    {
      hide ReviewUnit;
      for i := 0 to |batch|
        invariant alive && ReviewAll(State(), batch[i..], world) == ReviewAll(old(State()), batch, world)
      {
        assert batch[i..][1..] == batch[i + 1..];
        survived := Unit(batch[i], world(batch[i]));
        if !survived {
          return;
        }
      }
      survived := true;
    }

    /** `file_pass`: the files not yet finished, in waves, each wave only if its estimate fits what is left. */
    method FilePass(p: Plan) returns (survived: bool)
      requires alive
      modifies this`raw, this`done, this`spent, this`alive, this`starts
      ensures State() == FilePassed(old(State()), p)
      ensures survived == alive
    {
      hide ReviewAll, EstimateOf, FileStart, Remaining;
      var todo := Todo(p.files);
      if p.wave <= 0 {
        alive := p.wave < 0;
        return p.wave < 0;
      }
      var w := 0;
      while w < |todo|
        invariant w <= |todo| && alive
        invariant Waves(State(), todo[w..], p.wave, p.budget, p.est, p.world)
          == Waves(old(State()), todo, p.wave, p.budget, p.est, p.world)
        decreases |todo| - w
      {
        var end := if w + p.wave < |todo| then w + p.wave else |todo|;
        var batch := todo[w..end];
        assert batch == todo[w..][..Width(todo[w..], p.wave)] && todo[w..][|batch|..] == todo[end..];
        var estimate := SumEstimates(batch, p.est);
        if spent + estimate > p.budget {
          return true;
        }
        starts := starts + [FileStart(batch, p.est, p.world)];
        survived := Wave(batch, p.world);
        if !survived {
          return;
        }
        w := end;
      }
      survived := true;
    }

    /** The files that `DONE` does not list. */
    method Todo(files: seq<string>) returns (todo: seq<string>)
      ensures todo == Remaining(files, DoneSet(done))
    {
      var finished := DoneSet(done);
      todo := [];
      for i := 0 to |files|
        invariant todo == Remaining(files[..i], finished)
      {
        assert files[..i + 1][..i] == files[..i];
        if files[i] !in finished {
          todo := todo + [files[i]];
        }
      }
      assert files[..|files|] == files;
    }

    /** `seam_pass`: each proposed cluster of at least two known files is reviewed together; the sentinel goes last, so a
        pass stopped by the budget is taken up again. */
    method SeamPass(p: Plan) returns (survived: bool)
      requires alive
      modifies this`raw, this`done, this`spent, this`alive, this`starts
      ensures State() == SeamPassed(old(State()), p)
      ensures survived == alive
    {
      hide Consume, EstimateOf, Members, PutMark;
      if SEAM in DoneSet(done) {
        return true;
      }
      if p.clustering.Broken? {
        alive := false;
        return false;
      }
      var clusters := ClustersOf(p.clustering);
      for i := 0 to |clusters|
        invariant alive && done == old(done)
        invariant ReviewClusters(State(), clusters[i..], p.files, p.budget, p.est)
          == ReviewClusters(old(State()), clusters, p.files, p.budget, p.est)
      {
        assert clusters[i..][1..] == clusters[i + 1..];
        var members := Members(clusters[i].files, p.files);
        if |members| < 2 {
          continue;
        }
        var estimate := SumEstimates(members, p.est);
        if spent + estimate > p.budget {
          return true;
        }
        starts := starts + [CallStart(members, estimate, clusters[i].turn.panel)];
        survived := Take(clusters[i].turn);
        if !survived {
          return;
        }
      }
      survived := MarkDone(SEAM, p.seamMark);
    }

    /** `repo_pass`. */
    method RepoPass(p: Plan) returns (survived: bool)
      requires alive
      modifies this`raw, this`done, this`spent, this`alive, this`starts
      ensures State() == RepoPassed(old(State()), p)
      ensures survived == alive
    {
      hide ReviewUnit;
      if REPO in DoneSet(done) || spent + p.repoEstimate > p.budget {
        return true;
      }
      starts := starts + [CallStart([REPO], p.repoEstimate, p.repo.panel)];
      survived := Unit(REPO, p.repo);
    }

    /** `main`: the passes of the phase, then, only if every unit of the phase is on `DONE`, verification of all that is
        read back. */
    method Launch(p: Plan, key: Finding -> string) returns (r: Result)
      modifies this
      ensures (OnDisk(), r) == Launched(old(OnDisk()), p, key)
      ensures State() == Gathered(old(raw), old(done), p)
    {
      hide FilePassed, SeamPassed, RepoPassed, Complete, Verified, Read;
      spent, alive, starts := 0.0, true, [];
      var survived := true;
      if p.phase.FilePhase? || p.phase.All? {
        survived := FilePass(p);
      }
      if survived && (p.phase.SeamPhase? || p.phase.All?) {
        survived := SeamPass(p);
      }
      if survived && (p.phase.RepoPhase? || p.phase.All?) {
        survived := RepoPass(p);
      }
      if !survived {
        return Cut;
      }
      if !Complete(p.phase, p.files, DoneSet(done)) {
        return Paused;
      }
      var findings := ReadRows(raw);
      r := Verify(findings, p, key);
    }

    /** `verify`: every finding without a verdict on file is judged once, each verdict is filed when its worker is done, and
        the findings whose verdict is false are dropped. */
    method Verify(findings: seq<Finding>, p: Plan, key: Finding -> string) returns (r: Result)
      modifies this`verified
      ensures (verified, r) == Verified(old(verified), findings, p, key)
    {
      hide Decided, Undecided, Read, AppendCut, NewVerdicts, Verdicts, Surviving;
      var onFile := LoadVerdicts();
      var todo := Unchecked(findings, key, onFile);
      var survived := FileVerdicts(todo, p, key);
      if !survived {
        return Cut;
      }
      var verdicts := Collect(onFile, todo, key, p.judge);
      var confirmed := Confirm(findings, key, verdicts);
      r := Reported(confirmed);
    }

    /** The workers' appends, each under the lock; false when the launch ends in one. */
    method FileVerdicts(todo: seq<Finding>, p: Plan, key: Finding -> string) returns (survived: bool)
      modifies this`verified
      ensures var lines := NewVerdicts(todo, key, p.judge, p.when);
        verified == AppendCut(old(verified), lines, p.filed, p.partial) && survived == (p.filed >= |lines|)
    {
      var lines := NewVerdicts(todo, key, p.judge, p.when);
      for i := 0 to |lines|
        invariant verified == AppendAll(old(verified), lines[..i]) && i <= p.filed
      {
        if p.filed == i {
          verified := Wrote(verified, lines[i], p.partial);
          return false;
        }
        assert lines[..i + 1][..i] == lines[..i];
        verified := Append(verified, lines[i]);
      }
      assert lines[..|lines|] == lines;
      survived := true;
    }

    /** `_load_verdicts`. */
    method LoadVerdicts() returns (onFile: map<string, bool>)
      ensures onFile == Decided(Read(verified))
    {
      var rows := ReadRows(verified);
      onFile := map[];
      for i := 0 to |rows|
        invariant onFile == Decided(rows[..i])
      {
        assert rows[..i + 1][..i] == rows[..i];
        onFile := onFile[rows[i].key := rows[i].holds];
      }
      assert rows[..|rows|] == rows;
    }
  }

  /** What the vendors that answered found; the others add nothing. */
  method Gather(replies: seq<Reply>) returns (findings: seq<Finding>)
    ensures findings == FoundBy(replies)
  {
    findings := [];
    for i := 0 to |replies|
      invariant findings == FoundBy(replies[..i])
    {
      assert replies[..i + 1][..i] == replies[..i];
      match replies[i] {
        case NotOk =>
        case Unparsable =>
        case Parsed(found) => findings := findings + found;
      }
    }
    assert replies[..|replies|] == replies;
  }

  method Unchecked(findings: seq<Finding>, key: Finding -> string, onFile: map<string, bool>) returns (todo: seq<Finding>)
    ensures todo == Undecided(findings, key, onFile)
  {
    todo := [];
    for i := 0 to |findings|
      invariant todo == Undecided(findings[..i], key, onFile)
    {
      assert findings[..i + 1][..i] == findings[..i];
      if key(findings[i]) !in onFile {
        todo := todo + [findings[i]];
      }
    }
    assert findings[..|findings|] == findings;
  }

  /** The results of the pool, taken in list order. */
  method Collect(onFile: map<string, bool>, todo: seq<Finding>, key: Finding -> string, judge: nat -> Judgement)
    returns (verdicts: map<string, Option<bool>>)
    ensures verdicts == Verdicts(onFile, todo, key, judge)
  {
    verdicts := map k | k in onFile :: Some(onFile[k]);
    for i := 0 to |todo|
      invariant verdicts == Verdicts(onFile, todo[..i], key, judge)
    {
      assert todo[..i + 1][..i] == todo[..i];
      verdicts := verdicts[key(todo[i]) := Opinion(judge(i))];
    }
    assert todo[..|todo|] == todo;
  }

  /** The reporting loop: refuted findings are skipped, the others kept in order with their verdicts. */
  method Confirm(findings: seq<Finding>, key: Finding -> string, verdicts: map<string, Option<bool>>)
    returns (confirmed: seq<Checked>)
    ensures confirmed == Surviving(findings, key, verdicts)
  {
    confirmed := [];
    for i := 0 to |findings|
      invariant confirmed == Surviving(findings[..i], key, verdicts)
    {
      assert findings[..i + 1][..i] == findings[..i];
      var v := if key(findings[i]) in verdicts then verdicts[key(findings[i])] else None;
      if v == Some(false) {
        continue;
      }
      confirmed := confirmed + [Checked(findings[i], v)];
    }
    assert findings[..|findings|] == findings;
  }

  method SumEstimates(batch: seq<string>, est: Estimate) returns (sum: real)
    ensures sum == EstimateOf(batch, est)
  {
    sum := 0.0;
    for i := 0 to |batch|
      invariant sum + EstimateOf(batch[i..], est) == EstimateOf(batch, est)
    {
      assert batch[i..][1..] == batch[i + 1..];
      sum := sum + est(batch[i]);
    }
  }
}
