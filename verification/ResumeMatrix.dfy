/** The resumable paid matrix (`run_matrix`): an append-only checkpoint file that every run reads first and
    extends by one line after each paid call.

    A run may be cut off anywhere: before a call, while a call is in flight, or while a line is being
    written, when the file keeps nothing of the line, a torn part of it, or all of it but the newline.  What the
    outside world does in a run is its `world`: one turn for each call, of any content. */
module ResumeMatrix {
  import opened AppendFile
  import opened Options

  /** One paid unit of the matrix: a phase and, except for best-value, a model. */
  datatype Unit = Main(spec: string) | Bound(spec: string) | BestValue

  datatype Outcome = Answered | Deadline | Error | Raised

  datatype Row = Meta | Result(unit: Unit, outcome: Outcome, cost: real)

  /** What the provider call hands back: `error` is empty on success. */
  datatype Reply = Reply(error: string, errorType: string, cost: real)

  /** Classified by structure only. */
  function OutcomeOf(r: Reply): Outcome {
    if r.error == "" then Answered else
    if r.errorType == "_CallDeadline" then Deadline else
    if r.errorType == "raised" then Raised else Error
  }

  predicate Succeeded(r: Row) {
    r.Result? && (r.outcome.Answered? || r.outcome.Deadline?)
  }

  // ---------------------------------------------------------------- the checkpoint file

  predicate IsDone(rows: seq<Row>, u: Unit) {
    exists r :: r in rows && Succeeded(r) && r.unit == u
  }

  /** Units with a successful row, and every row of the file. */
  method Done(log: Log<Row>) returns (seen: set<Unit>, prior: seq<Row>)
    ensures prior == Rows(log)
    ensures forall u :: u in seen <==> IsDone(prior, u)
  {
    seen, prior := {}, [];
    for i := 0 to |log.lines|
      invariant prior == Readable(log.lines[..i])
      invariant forall u :: u in seen <==> IsDone(prior, u)
    {
      assert log.lines[..i + 1][..i] == log.lines[..i];
      if log.lines[i].Whole? {
        var row := log.lines[i].row;
        DoneAppend(prior, row);
        prior := prior + [row];
        if Succeeded(row) {
          seen := seen + {row.unit};
        }
      }
    }
    assert log.lines[..|log.lines|] == log.lines;
    if log.tail.Unended? {
      DoneAppend(prior, log.tail.row);
      prior := prior + [log.tail.row];
      if Succeeded(log.tail.row) {
        seen := seen + {log.tail.row.unit};
      }
    }
  }

  lemma DoneAppend(rows: seq<Row>, row: Row)
    ensures forall u :: IsDone(rows + [row], u) <==> IsDone(rows, u) || (Succeeded(row) && row.unit == u)
  {
  }

  // ---------------------------------------------------------------- one run, as a function

  /** What happens to the next call: a reply whose row is then written in some way, a refusal by the spend gate
      before the provider is reached, or the end of the process while the call is in flight. */
  datatype Turn = Replies(reply: Reply, write: Write) | Refuses | Dies

  /** Where a run stands.  `called`, `cutOff`, `appended` and `tears` are history over all runs: provider calls placed,
      calls whose row never reached the file, rows whose append returned, and writes cut off part way. */
  datatype Progress = Progress(log: Log<Row>, world: seq<Turn>, alive: bool, results: seq<Row>,
                               called: seq<Unit>, cutOff: seq<Unit>, appended: seq<Row>, tears: nat)

  const START := Progress(Empty(), [], true, [], [], [], [], 0)

  function Sink(s: Progress, row: Row, write: Write): Progress {
    match write
    case Written => s.(log := Append(s.log, row), appended := s.appended + [row])
    case Unwritten => s.(alive := false, cutOff := s.cutOff + (if row.Result? then [row.unit] else []))
    case TornWrite => s.(alive := false, log := Tear(s.log), tears := s.tears + 1)
    case UnendedWrite => s.(alive := false, log := AllButNewline(s.log, row), tears := s.tears + 1)
  }

  /** One unit: call, record in memory, append.  A run whose world is used up has been killed. */
  function Attempt(s: Progress, u: Unit): Progress {
    if s.world == [] then s.(alive := false) else
    var s1 := s.(world := s.world[1..]);
    match s.world[0]
    case Refuses => s1.(alive := false)
    case Dies => s1.(alive := false, called := s.called + [u], cutOff := s.cutOff + [u])
    case Replies(reply, write) =>
      var row := Result(u, OutcomeOf(reply), reply.cost);
      Sink(s1.(called := s.called + [u], results := s.results + [row]), row, write)
  }

  function Serve(s: Progress, todo: seq<Unit>): Progress
    decreases |todo|
  {
    if !s.alive || todo == [] then s else Serve(Attempt(s, todo[0]), todo[1..])
  }

  /** The units a run takes up, in order. */
  function Todo(units: seq<Unit>, rows: seq<Row>): seq<Unit> {
    if units == [] then [] else
    (if IsDone(rows, units[0]) then [] else [units[0]]) + Todo(units[1..], rows)
  }

  function Mains(targets: seq<string>): seq<Unit> {
    seq(|targets|, i requires 0 <= i < |targets| => Main(targets[i]))
  }

  function Bounds(targets: seq<string>): seq<Unit> {
    seq(|targets|, i requires 0 <= i < |targets| => Bound(targets[i]))
  }

  function Units(targets: seq<string>): seq<Unit> {
    Mains(targets) + Bounds(targets) + (if targets == [] then [] else [BestValue])
  }

  function Opened(s: Progress, metaWrite: Write): Progress {
    var s0 := s.(alive := true, results := []);
    if Rows(s.log) == [] then Sink(s0, Meta, metaWrite) else s0
  }

  /** One run from the state the earlier runs left.  Without a target the best-value call has no model to ask for,
      and a run that still needs it ends in an exception. */
  function Session(s: Progress, targets: seq<string>, metaWrite: Write): Progress {
    var s1 := Serve(Opened(s, metaWrite), Todo(Units(targets), Rows(s.log)));
    if targets == [] && !IsDone(Rows(s.log), BestValue) then s1.(alive := false) else s1
  }

  /** Any number of runs, each with its own targets and its own world. */
  datatype Plan = Plan(targets: seq<string>, metaWrite: Write, world: seq<Turn>)

  function Campaign(s: Progress, plans: seq<Plan>): Progress
    decreases |plans|
  {
    if plans == [] then s else
    Campaign(Session(s.(world := plans[0].world), plans[0].targets, plans[0].metaWrite), plans[1..])
  }

  // ---------------------------------------------------------------- what a run reports

  datatype Phase = MainPhase | BoundPhase | BestPhase

  function PhaseOf(u: Unit): Phase {
    match u case Main(_) => MainPhase case Bound(_) => BoundPhase case BestValue => BestPhase
  }

  /** The rows of a phase whose unit is done according to `all`. */
  function Seeds(rows: seq<Row>, all: seq<Row>, phase: Phase): seq<Row> {
    if rows == [] then [] else
    var last := rows[|rows| - 1];
    Seeds(rows[..|rows| - 1], all, phase)
      + (if last.Result? && PhaseOf(last.unit) == phase && IsDone(all, last.unit) then [last] else [])
  }

  /** Rows of one phase, in order. */
  function OfPhase(rows: seq<Row>, phase: Phase): seq<Row> {
    if rows == [] then [] else
    var last := rows[|rows| - 1];
    OfPhase(rows[..|rows| - 1], phase) + (if last.Result? && PhaseOf(last.unit) == phase then [last] else [])
  }

  // ---------------------------------------------------------------- the run itself

  datatype Results = Results(main: seq<Row>, bound: seq<Row>, best: Option<Row>)

  function LastOf(rows: seq<Row>): Option<Row> {
    if rows == [] then None else Some(rows[|rows| - 1])
  }

  /** What a run reports: the seeded rows of each phase, then its own. */
  function Report(prior: seq<Row>, own: seq<Row>): Results {
    Results(Seeds(prior, prior, MainPhase) + OfPhase(own, MainPhase),
            Seeds(prior, prior, BoundPhase) + OfPhase(own, BoundPhase),
            LastOf(Seeds(prior, prior, BestPhase) + OfPhase(own, BestPhase)))
  }

  lemma TodoNext(units: seq<Unit>, k: nat, rows: seq<Row>)
    requires k < |units|
    ensures Todo(units[k..], rows) == (if IsDone(rows, units[k]) then [] else [units[k]]) + Todo(units[k + 1..], rows)
  {
    assert units[k..][1..] == units[k + 1..];
  }

  class Matrix {
    var log: Log<Row>
    var world: seq<Turn>
    ghost var alive: bool
    ghost var results: seq<Row>
    ghost var called: seq<Unit>
    ghost var cutOff: seq<Unit>
    ghost var appended: seq<Row>
    ghost var tears: nat

    constructor ()
      ensures State() == START
    {
      log, world, alive, results := Empty<Row>(), [], true, [];
      called, cutOff, appended, tears := [], [], [], 0;
    }

    ghost function State(): Progress
      reads this
    {
      Progress(log, world, alive, results, called, cutOff, appended, tears)
    }

    /** `_sink`; false when the process ends in it. */
    method SinkRow(row: Row, write: Write) returns (survived: bool)
      requires alive
      modifies this
      ensures State() == Sink(old(State()), row, write)
      ensures survived == alive && results == old(results)
    {
      match write {
        case Written =>
          log := Append(log, row);
          appended := appended + [row];
          return true;
        case Unwritten =>
          cutOff := cutOff + (if row.Result? then [row.unit] else []);
        case TornWrite =>
          log := Tear(log);
          tears := tears + 1;
        case UnendedWrite =>
          log := AllButNewline(log, row);
          tears := tears + 1;
      }
      alive := false;
      return false;
    }

    /** One provider call and its row; nothing when the run ends in it. */
    method Call(u: Unit) returns (row: Option<Row>)
      requires alive
      modifies this
      ensures State() == Attempt(old(State()), u)
      ensures row.Some? <==> alive
      ensures row.Some? ==> row.value.Result? && row.value.unit == u && results == old(results) + [row.value]
    {
      if world == [] {
        alive := false;
        return None;
      }
      var turn := world[0];
      world := world[1..];
      match turn {
        case Refuses =>
          alive := false;
          return None;
        case Dies =>
          called, cutOff, alive := called + [u], cutOff + [u], false;
          return None;
        case Replies(reply, write) =>
          called := called + [u];
          var r := Result(u, OutcomeOf(reply), reply.cost);
          results := results + [r];
          var survived := SinkRow(r, write);
          return if survived then Some(r) else None;
      }
    }

    /** An empty file gets its header first. */
    method Open(prior: seq<Row>, metaWrite: Write) returns (survived: bool)
      requires prior == Rows(log)
      modifies this
      ensures State() == Opened(old(State()), metaWrite)
      ensures survived == alive && results == []
    {
      alive, results := true, [];
      survived := true;
      if prior == [] {
        survived := SinkRow(Meta, metaWrite);
      }
    }

    /** One pass over the targets: a unit that is done is skipped, any other is called.  Nothing when the run ends in it. */
    method Pass(units: seq<Unit>, seen: set<Unit>, ghost prior: seq<Row>) returns (rows: Option<seq<Row>>)
      requires alive && forall u :: u in seen <==> IsDone(prior, u)
      modifies this
      ensures State() == Serve(old(State()), Todo(units, prior))
      ensures rows.Some? <==> alive
      ensures rows.Some? ==> results == old(results) + rows.value && RowsOf(rows.value, units)
    {
      hide Attempt, IsDone;
      var own := [];
      for i := 0 to |units|
        invariant alive && results == old(results) + own && RowsOf(own, units)
        invariant Serve(State(), Todo(units[i..], prior)) == Serve(old(State()), Todo(units, prior))
      {
        TodoNext(units, i, prior);
        if units[i] in seen {
          assert Todo(units[i..], prior) == Todo(units[i + 1..], prior);
          continue;
        }
        ghost var before := State();
        var row := Call(units[i]);
        assert Todo(units[i..], prior)[1..] == Todo(units[i + 1..], prior);
        assert Serve(before, Todo(units[i..], prior)) == Serve(State(), Todo(units[i + 1..], prior));
        if row.None? {
          return None;
        }
        own := own + [row.value];
      }
      return Some(own);
    }

    /** `run_matrix`: read the file, then the main pass, the bound-proof pass and the best-value call, each row
        appended as soon as its call returns.  No results when the run does not reach its end. */
    method RunMatrix(targets: seq<string>, metaWrite: Write) returns (r: Option<Results>)
      modifies this
      ensures State() == Session(old(State()), targets, metaWrite)
      ensures r.Some? <==> alive
      ensures r.Some? ==> r.value == Report(Rows(old(log)), results)
    {
      hide Attempt, Opened, IsDone, Rows, Seeds, Serve, Todo, OfPhase, Mains, Bounds, Units, Last, Report;
      var seen, prior := Done(log);
      var main, bound, best := SeedResults(seen, prior);
      var started := Open(prior, metaWrite);
      if !started {
        ServeDead(State(), Todo(Units(targets), prior));
        return None;
      }
      SessionSplit(State(), targets, prior);
      var ran := Pass(Mains(targets), seen, prior);
      if ran.None? {
        ServeDead(State(), Todo(Bounds(targets), prior));
        ServeDead(State(), Todo(Last(targets), prior));
        return None;
      }
      ghost var mains := ran.value;
      main := main + ran.value;
      ran := Pass(Bounds(targets), seen, prior);
      if ran.None? {
        ServeDead(State(), Todo(Last(targets), prior));
        return None;
      }
      ghost var bounds := ran.value;
      bound := bound + ran.value;
      ghost var last := [];
      if BestValue !in seen {
        if targets == [] {
          TodoLast(targets, prior);
          ServeNothing(State());
          alive := false;
          return None;
        }
        TodoLast(targets, prior);
        ServeOne(State(), BestValue);
        var row := Call(BestValue);
        if row.None? {
          return None;
        }
        last := [row.value];
        best := row;
      } else {
        TodoLast(targets, prior);
        ServeNothing(State());
      }
      ReportSplit(prior, mains, bounds, last, targets);
      assert results == mains + bounds + last;
      return Some(Results(main, bound, best));
    }
  }

  ghost predicate RowsOf(rows: seq<Row>, units: seq<Unit>) {
    forall r :: r in rows ==> r.Result? && r.unit in units
  }

  function Last(targets: seq<string>): seq<Unit> {
    if targets == [] then [] else [BestValue]
  }

  lemma ServeDead(s: Progress, todo: seq<Unit>)
    requires !s.alive
    ensures Serve(s, todo) == s
  {
  }

  lemma ServeNothing(s: Progress)
    ensures Serve(s, []) == s
  {
  }

  lemma ServeOne(s: Progress, u: Unit)
    requires s.alive
    ensures Serve(s, [u]) == Attempt(s, u)
  {
    assert [u][1..] == [];
  }

  lemma TodoLast(targets: seq<string>, rows: seq<Row>)
    ensures Todo(Last(targets), rows) == if targets == [] || IsDone(rows, BestValue) then [] else [BestValue]
  {
    if targets != [] {
      assert Last(targets)[1..] == [];
    }
  }

  lemma {:induction false} TodoAppend(a: seq<Unit>, b: seq<Unit>, rows: seq<Row>)
    ensures Todo(a + b, rows) == Todo(a, rows) + Todo(b, rows)
  {
    if a == [] {
      assert a + b == b;
    } else {
      assert (a + b)[1..] == a[1..] + b;
      TodoAppend(a[1..], b, rows);
    }
  }

  lemma {:induction false} ServeAppend(s: Progress, a: seq<Unit>, b: seq<Unit>)
    ensures Serve(s, a + b) == Serve(Serve(s, a), b)
    decreases |a|
  {
    if a == [] {
      assert a + b == b;
    } else if s.alive {
      assert (a + b)[1..] == a[1..] + b;
      ServeAppend(Attempt(s, a[0]), a[1..], b);
    }
  }

  /** The three passes of a run one after the other. */
  lemma SessionSplit(s: Progress, targets: seq<string>, prior: seq<Row>)
    ensures Serve(s, Todo(Units(targets), prior))
      == Serve(Serve(Serve(s, Todo(Mains(targets), prior)), Todo(Bounds(targets), prior)), Todo(Last(targets), prior))
  {
    hide Attempt, IsDone, Todo, Serve;
    assert Units(targets) == Mains(targets) + Bounds(targets) + Last(targets);
    TodoAppend(Mains(targets) + Bounds(targets), Last(targets), prior);
    TodoAppend(Mains(targets), Bounds(targets), prior);
    ServeAppend(s, Todo(Mains(targets), prior) + Todo(Bounds(targets), prior), Todo(Last(targets), prior));
    ServeAppend(s, Todo(Mains(targets), prior), Todo(Bounds(targets), prior));
  }

  lemma {:induction false} OfPhaseConcat(a: seq<Row>, b: seq<Row>, phase: Phase)
    ensures OfPhase(a + b, phase) == OfPhase(a, phase) + OfPhase(b, phase)
    decreases |b|
  {
    if b == [] {
      assert a + b == a;
    } else {
      assert (a + b)[..|a + b| - 1] == a + b[..|b| - 1];
      OfPhaseConcat(a, b[..|b| - 1], phase);
    }
  }

  lemma {:induction false} OfPhaseAll(rows: seq<Row>, own: Phase, phase: Phase)
    requires forall r :: r in rows ==> r.Result? && PhaseOf(r.unit) == own
    ensures OfPhase(rows, phase) == if phase == own then rows else []
  {
    if rows != [] {
      assert rows == rows[..|rows| - 1] + [rows[|rows| - 1]];
      OfPhaseAll(rows[..|rows| - 1], own, phase);
    }
  }

  lemma PhaseSplit(mains: seq<Row>, bounds: seq<Row>, last: seq<Row>, phase: Phase)
    requires forall r :: r in mains ==> r.Result? && PhaseOf(r.unit) == MainPhase
    requires forall r :: r in bounds ==> r.Result? && PhaseOf(r.unit) == BoundPhase
    requires forall r :: r in last ==> r.Result? && PhaseOf(r.unit) == BestPhase
    ensures OfPhase(mains + bounds + last, phase)
      == match phase case MainPhase => mains case BoundPhase => bounds case BestPhase => last
  {
    hide OfPhase;
    OfPhaseConcat(mains + bounds, last, phase);
    OfPhaseConcat(mains, bounds, phase);
    OfPhaseAll(mains, MainPhase, phase);
    OfPhaseAll(bounds, BoundPhase, phase);
    OfPhaseAll(last, BestPhase, phase);
    assert mains + [] + [] == mains && [] + bounds + [] == bounds && [] + [] + last == last;
  }

  lemma ReportSplit(prior: seq<Row>, mains: seq<Row>, bounds: seq<Row>, last: seq<Row>, targets: seq<string>)
    requires RowsOf(mains, Mains(targets)) && RowsOf(bounds, Bounds(targets))
    requires |last| <= 1 && forall r :: r in last ==> r.Result? && r.unit == BestValue
    ensures var seeds := Seeds(prior, prior, BestPhase);
      Report(prior, mains + bounds + last) == Results(Seeds(prior, prior, MainPhase) + mains,
        Seeds(prior, prior, BoundPhase) + bounds, if last == [] then LastOf(seeds) else Some(last[0]))
  {
    hide Seeds, OfPhase;
    PhaseSplit(mains, bounds, last, MainPhase);
    PhaseSplit(mains, bounds, last, BoundPhase);
    PhaseSplit(mains, bounds, last, BestPhase);
  }

  /** The seeding loop: every prior row whose unit is done, by phase; of best-value the last. */
  method SeedResults(seen: set<Unit>, prior: seq<Row>) returns (main: seq<Row>, bound: seq<Row>, best: Option<Row>)
    requires forall u :: u in seen <==> IsDone(prior, u)
    ensures main == Seeds(prior, prior, MainPhase) && bound == Seeds(prior, prior, BoundPhase)
    ensures best == LastOf(Seeds(prior, prior, BestPhase))
  {
    main, bound, best := [], [], None;
    for i := 0 to |prior|
      invariant main == Seeds(prior[..i], prior, MainPhase) && bound == Seeds(prior[..i], prior, BoundPhase)
      invariant best == LastOf(Seeds(prior[..i], prior, BestPhase))
    {
      hide IsDone;
      assert prior[..i + 1][..i] == prior[..i];
      if prior[i].Result? && prior[i].unit in seen {
        match prior[i].unit {
          case Main(_) => main := main + [prior[i]];
          case Bound(_) => bound := bound + [prior[i]];
          case BestValue => best := Some(prior[i]);
        }
      }
    }
    assert prior[..|prior|] == prior;
  }
}
