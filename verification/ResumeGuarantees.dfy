/** What the resumable matrix guarantees over any sequence of runs, each cut off anywhere: how often a unit is paid for,
    when a success is final, and what a resumed run reports. */
module ResumeGuarantees {
  import opened AppendFile
  import opened Ordering
  import opened ResumeMatrix

  // ---------------------------------------------------------------- what every run keeps

  /** No row of a unit follows a successful row of it: at most one success, and it is the last word. */
  ghost predicate Final(rows: seq<Row>) {
    forall i, j :: 0 <= i < j < |rows| && rows[i].Result? && rows[j].Result? && rows[i].unit == rows[j].unit
      ==> !Succeeded(rows[i])
  }

  /** Rows of a unit. */
  function Tally(rows: seq<Row>, u: Unit): nat {
    if rows == [] then 0 else
    Tally(rows[..|rows| - 1], u) + (if rows[|rows| - 1].Result? && rows[|rows| - 1].unit == u then 1 else 0)
  }

  /** Rows the next append can still destroy: its own, and an unterminated one. */
  function Debt(tail: Tail<Row>): nat {
    match tail case Ended => 0 case Torn => 1 case Unended(_) => 2
  }

  /** The books of a unit: every call is a row, a cut-off call, or a loss charged to a torn write. */
  ghost predicate Accounts(s: Progress, u: Unit) {
    && multiset(s.called)[u] + Debt(s.log.tail) <= Tally(Rows(s.log), u) + multiset(s.cutOff)[u] + 2 * s.tears
    && multiset(s.called)[u] >= Tally(Rows(s.log), u) + multiset(s.cutOff)[u]
  }

  ghost predicate Inv(s: Progress) {
    && Final(Rows(s.log))
    && (forall u :: Accounts(s, u))
    && (s.tears == 0 ==> s.log.tail.Ended? && Rows(s.log) == s.appended)
  }

  lemma TallyAppend(rows: seq<Row>, row: Row, u: Unit)
    ensures Tally(rows + [row], u) == Tally(rows, u) + (if row.Result? && row.unit == u then 1 else 0)
  {
  }

  lemma FinalAppend(rows: seq<Row>, row: Row)
    requires Final(rows) && (row.Result? ==> !IsDone(rows, row.unit))
    ensures Final(rows + [row])
  {
  }

  lemma FinalPrefix(rows: seq<Row>, n: nat)
    requires Final(rows) && n <= |rows|
    ensures Final(rows[..n])
  {
  }

  /** Neither a torn write nor an append adds a done unit other than the written row's. */
  ghost predicate Narrow(before: seq<Row>, after: seq<Row>, row: Row) {
    forall u :: IsDone(after, u) ==> IsDone(before, u) || (row.Result? && row.unit == u)
  }

  /** How the readable rows change in each way a write can end. */
  ghost predicate RowsMove(log: Log<Row>, row: Row, after: seq<Row>) {
    || after == Rows(log)
    || after == Rows(log) + [row]
    || (log.tail.Unended? && after == Readable(log.lines))
  }

  lemma SinkRows(s: Progress, row: Row, write: Write)
    ensures RowsMove(s.log, row, Rows(Sink(s, row, write).log))
  {
  }

  lemma MoveKeeps(log: Log<Row>, row: Row, after: seq<Row>)
    requires Final(Rows(log)) && RowsMove(log, row, after) && (row.Result? ==> !IsDone(Rows(log), row.unit))
    ensures Final(after) && Narrow(Rows(log), after, row)
  {
    FinalAppend(Rows(log), row);
    DoneAppend(Rows(log), row);
    if log.tail.Unended? {
      assert Readable(log.lines) == Rows(log)[..|Rows(log)| - 1];
      FinalPrefix(Rows(log), |Rows(log)| - 1);
      DoneAppend(Readable(log.lines), log.tail.row);
    }
  }

  /** The books balance again once the row of a call just placed has been written somehow. */
  lemma SinkAccounts(s: Progress, row: Row, write: Write, u: Unit)
    requires row.Result? ==>
      && multiset(s.called)[u] + Debt(s.log.tail) <= Tally(Rows(s.log), u) + multiset(s.cutOff)[u] + 2 * s.tears
           + (if row.unit == u then 1 else 0)
      && multiset(s.called)[u] >= Tally(Rows(s.log), u) + multiset(s.cutOff)[u] + (if row.unit == u then 1 else 0)
    requires row.Meta? ==> Accounts(s, u)
    ensures Accounts(Sink(s, row, write), u)
  {
    hide Rows, Tally, Append, Tear, AllButNewline;
    WrittenTally(s.log, row, u);
    match write
    case Written =>
    case Unwritten =>
      if row.Result? {
        CountAppend(s.cutOff, row.unit, u);
      } else {
        assert s.cutOff + [] == s.cutOff;
      }
    case TornWrite =>
    case UnendedWrite =>
  }

  /** What each way of ending a write makes of the rows of a unit. */
  lemma WrittenTally(log: Log<Row>, row: Row, u: Unit)
    ensures var own, ended := if row.Result? && row.unit == u then 1 else 0, log.tail.Ended?;
      var tally, kept := Tally(Rows(log), u), Tally(Readable(log.lines), u);
      && (ended ==> kept == tally) && kept <= tally <= kept + (if log.tail.Unended? then 1 else 0)
      && Tally(Rows(Append(log, row)), u) == (if ended then tally + own else kept) && Append(log, row).tail.Ended?
      && Tally(Rows(AllButNewline(log, row)), u) == (if ended then tally + own else kept)
      && AllButNewline(log, row).tail == (if ended then Unended(row) else Torn)
      && Tally(Rows(Tear(log)), u) == kept && Tear(log).tail.Torn?
  {
    RowsAppend(log, row);
    TallyAppend(Rows(log), row, u);
    if log.tail.Unended? {
      TallyAppend(Readable(log.lines), log.tail.row, u);
    }
    hide Tally;
  }

  lemma CountAppend(units: seq<Unit>, last: Unit, u: Unit)
    ensures multiset(units + [last])[u] == multiset(units)[u] + (if last == u then 1 else 0)
  {
  }

  lemma SinkKeeps(s: Progress, s1: Progress, row: Row, write: Write)
    requires Inv(s) && (row.Result? ==> !IsDone(Rows(s.log), row.unit))
    requires s1 == s.(world := s1.world, alive := s1.alive, results := s1.results,
                      called := s.called + (if row.Result? then [row.unit] else []))
    ensures Inv(Sink(s1, row, write)) && Narrow(Rows(s.log), Rows(Sink(s1, row, write).log), row)
  {
    hide Tally, Final, Rows, Readable, IsDone;
    SinkRows(s1, row, write);
    MoveKeeps(s.log, row, Rows(Sink(s1, row, write).log));
    RowsAppend(s.log, row);
    forall u
      ensures Accounts(Sink(s1, row, write), u)
    {
      assert Accounts(s, u);
      SinkAccounts(s1, row, write, u);
    }
  }

  lemma SameBooks(s: Progress, s1: Progress)
    requires Inv(s)
    requires s1.log == s.log && s1.appended == s.appended && s1.tears == s.tears
    requires (s1.called == s.called && s1.cutOff == s.cutOff)
      || (exists u :: s1.called == s.called + [u] && s1.cutOff == s.cutOff + [u])
    ensures Inv(s1)
  {
    hide Final;
    forall v
      ensures Accounts(s1, v)
    {
      assert Accounts(s, v);
    }
  }

  lemma AttemptKeeps(s: Progress, u: Unit)
    requires Inv(s) && !IsDone(Rows(s.log), u)
    ensures Inv(Attempt(s, u))
    ensures Narrow(Rows(s.log), Rows(Attempt(s, u).log), Result(u, Answered, 0.0))
  {
    hide Inv, IsDone, Rows, Sink;
    if s.world != [] && s.world[0].Replies? {
      var row := Result(u, OutcomeOf(s.world[0].reply), s.world[0].reply.cost);
      SinkKeeps(s, s.(world := s.world[1..], called := s.called + [u], results := s.results + [row]), row, s.world[0].write);
    } else {
      SameBooks(s, Attempt(s, u));
    }
  }

  lemma {:induction false} ServeKeeps(s: Progress, todo: seq<Unit>)
    requires Inv(s) && Distinct(todo) && forall u :: u in todo ==> !IsDone(Rows(s.log), u)
    ensures Inv(Serve(s, todo))
    decreases |todo|
  {
    if s.alive && todo != [] {
      hide Inv, Attempt, IsDone;
      AttemptKeeps(s, todo[0]);
      forall u | u in todo[1..]
        ensures !IsDone(Rows(Attempt(s, todo[0]).log), u)
      {
        assert u != todo[0];
      }
      ServeKeeps(Attempt(s, todo[0]), todo[1..]);
    }
  }

  lemma {:induction false} TodoDistinct(units: seq<Unit>, rows: seq<Row>)
    requires Distinct(units)
    ensures Distinct(Todo(units, rows))
    ensures forall u :: u in Todo(units, rows) <==> u in units && !IsDone(rows, u)
  {
    if units != [] {
      hide IsDone;
      TodoDistinct(units[1..], rows);
      assert units == [units[0]] + units[1..];
      assert units[0] !in units[1..];
    }
  }

  lemma UnitsDistinct(targets: seq<string>)
    requires Distinct(targets)
    ensures Distinct(Units(targets))
  {
  }

  lemma OpenedKeeps(s: Progress, metaWrite: Write)
    requires Inv(s)
    ensures Inv(Opened(s, metaWrite))
    ensures forall u :: IsDone(Rows(Opened(s, metaWrite).log), u) ==> IsDone(Rows(s.log), u)
  {
    var s0 := s.(alive := true, results := []);
    forall u
      ensures Accounts(s0, u)
    {
      assert Accounts(s, u);
    }
    if Rows(s.log) == [] {
      assert s0.called + [] == s0.called;
      SinkKeeps(s0, s0, Meta, metaWrite);
    }
  }

  /** Every run keeps the invariant, whatever happens to it. */
  lemma SessionKeeps(s: Progress, targets: seq<string>, metaWrite: Write)
    requires Inv(s) && Distinct(targets)
    ensures Inv(Session(s, targets, metaWrite))
  {
    OpenedKeeps(s, metaWrite);
    UnitsDistinct(targets);
    TodoDistinct(Units(targets), Rows(s.log));
    ServeKeeps(Opened(s, metaWrite), Todo(Units(targets), Rows(s.log)));
    var s1 := Serve(Opened(s, metaWrite), Todo(Units(targets), Rows(s.log)));
    forall u
      ensures Accounts(s1.(alive := false), u)
    {
      assert Accounts(s1, u);
    }
  }

  lemma {:induction false} CampaignKeeps(s: Progress, plans: seq<Plan>)
    requires Inv(s) && forall p :: p in plans ==> Distinct(p.targets)
    ensures Inv(Campaign(s, plans))
    decreases |plans|
  {
    if plans != [] {
      var s0 := s.(world := plans[0].world);
      assert Inv(s0) by {
        assert forall u :: Accounts(s, u) ==> Accounts(s0, u);
      }
      hide Inv, Session;
      SessionKeeps(s0, plans[0].targets, plans[0].metaWrite);
      CampaignKeeps(Session(s0, plans[0].targets, plans[0].metaWrite), plans[1..]);
    }
  }

  // ---------------------------------------------------------------- how often a unit is called

  function Failures(rows: seq<Row>, u: Unit): nat {
    if rows == [] then 0 else
    var last := rows[|rows| - 1];
    Failures(rows[..|rows| - 1], u) + (if last.Result? && last.unit == u && !Succeeded(last) then 1 else 0)
  }

  lemma {:induction false} TallySplit(rows: seq<Row>, u: Unit)
    requires Final(rows)
    ensures Tally(rows, u) == Failures(rows, u) + (if IsDone(rows, u) then 1 else 0)
  {
    if rows != [] {
      var most, last := rows[..|rows| - 1], rows[|rows| - 1];
      TallySplit(most, u);
      DoneAppend(most, last);
      assert rows == most + [last];
    }
  }

  lemma StartKeeps()
    ensures Inv(START)
  {
  }

  /** Over any runs: a unit is called at most once more than its failed rows and its cut-off calls, plus two for each
      torn write; without torn writes the count is exact, and nothing appended is ever lost. */
  lemma CallsAccounted(plans: seq<Plan>, u: Unit)
    requires forall p :: p in plans ==> Distinct(p.targets)
    ensures var s := Campaign(START, plans);
      var recorded := Failures(Rows(s.log), u) + (if IsDone(Rows(s.log), u) then 1 else 0);
      && recorded + multiset(s.cutOff)[u] <= multiset(s.called)[u] <= recorded + multiset(s.cutOff)[u] + 2 * s.tears
      && (s.tears == 0 ==> Rows(s.log) == s.appended)
  {
    StartKeeps();
    CampaignKeeps(START, plans);
    var s := Campaign(START, plans);
    TallySplit(Rows(s.log), u);
    assert Accounts(s, u);
  }

  /** Over any runs: at most one successful row of a unit, and no row of it afterwards. */
  lemma SuccessIsFinal(plans: seq<Plan>)
    requires forall p :: p in plans ==> Distinct(p.targets)
    ensures Final(Rows(Campaign(START, plans).log))
  {
    StartKeeps();
    CampaignKeeps(START, plans);
  }

  // ---------------------------------------------------------------- which units are called

  const OK := Reply("", "", 1.0)

  /** The calls of a run are the head of its to-do list, in order. */
  lemma {:induction false} ServeCalls(s: Progress, todo: seq<Unit>)
    ensures var n := |Serve(s, todo).called| - |s.called|;
      0 <= n <= |todo| && Serve(s, todo).called == s.called + todo[..n]
    decreases |todo|
  {
    if s.alive && todo != [] {
      var s1 := Attempt(s, todo[0]);
      ServeCalls(s1, todo[1..]);
      var n := |Serve(s, todo).called| - |s.called|;
      if s1.called == s.called {
        assert !s1.alive && n == 0;
        assert s.called + todo[..0] == s.called;
      } else {
        assert s1.called == s.called + [todo[0]];
        assert todo[..n] == [todo[0]] + todo[1..][..n - 1];
      }
    }
  }

  lemma OpenedCalls(s: Progress, metaWrite: Write)
    ensures Opened(s, metaWrite).called == s.called
  {
  }

  /** The calls of one run. */
  ghost function CallsIn(s: Progress, targets: seq<string>, metaWrite: Write): (calls: seq<Unit>)
    ensures Session(s, targets, metaWrite).called == s.called + calls
    ensures calls <= Todo(Units(targets), Rows(s.log))
  {
    SessionCalled(s, targets, metaWrite);
    Session(s, targets, metaWrite).called[|s.called|..]
  }

  lemma SessionCalled(s: Progress, targets: seq<string>, metaWrite: Write)
    ensures var called, todo := Session(s, targets, metaWrite).called, Todo(Units(targets), Rows(s.log));
      s.called <= called && called[|s.called|..] <= todo
  {
    hide Opened, Serve, Todo, Units, Rows, IsDone;
    OpenedCalls(s, metaWrite);
    ServeCalls(Opened(s, metaWrite), Todo(Units(targets), Rows(s.log)));
  }

  /** A run calls each unit at most once, and none that the file it read has a success for. */
  lemma SessionCalls(s: Progress, targets: seq<string>, metaWrite: Write)
    requires Distinct(targets)
    ensures var calls := CallsIn(s, targets, metaWrite);
      Distinct(calls) && forall u :: u in calls ==> u in Units(targets) && !IsDone(Rows(s.log), u)
  {
    hide IsDone, Session, Units, CallsIn;
    UnitsDistinct(targets);
    TodoDistinct(Units(targets), Rows(s.log));
  }

  /** A run whose calls all answer makes every call of its to-do list. */
  lemma {:induction false} ServeAnswered(s: Progress, todo: seq<Unit>)
    requires s.alive && |s.world| == |todo| && forall t :: t in s.world ==> t == Replies(OK, Written)
    ensures Serve(s, todo).called == s.called + todo
    decreases |todo|
  {
    if todo == [] {
      assert s.called + todo == s.called;
    } else {
      var s1 := Attempt(s, todo[0]);
      assert s.world[0] in s.world && forall t :: t in s.world[1..] ==> t in s.world;
      assert s1.alive && s1.called == s.called + [todo[0]];
      ServeAnswered(s1, todo[1..]);
      assert s.called + [todo[0]] + todo[1..] == s.called + todo;
    }
  }

  lemma OpenedWorld(s: Progress, world: seq<Turn>)
    ensures var s0 := Opened(s.(world := world), Written);
      s0.world == world && s0.alive && s0.called == s.called
  {
  }

  /** Whatever happens in it, a run makes no call twice exactly when its to-do list has no unit twice. */
  lemma CallsDistinctIff(s: Progress, targets: seq<string>)
    ensures (forall world :: Distinct(CallsIn(s.(world := world), targets, Written)))
      <==> Distinct(Todo(Units(targets), Rows(s.log)))
  {
    hide Opened, Todo, Units, IsDone, Serve;
    var todo := Todo(Units(targets), Rows(s.log));
    if forall world :: Distinct(CallsIn(s.(world := world), targets, Written)) {
      var world := seq(|todo|, _ => Replies(OK, Written));
      OpenedWorld(s, world);
      ServeAnswered(Opened(s.(world := world), Written), todo);
      assert Session(s.(world := world), targets, Written).called == s.called + todo;
      assert CallsIn(s.(world := world), targets, Written) == todo;
    }
  }

  lemma {:induction false} TodoSkips(units: seq<Unit>, rows: seq<Row>)
    ensures forall u :: u in Todo(units, rows) ==> !IsDone(rows, u)
  {
    if units != [] {
      TodoSkips(units[1..], rows);
    }
  }

  lemma {:induction false} ReadableGrows(lines: seq<Line<Row>>, more: seq<Line<Row>>, u: Unit)
    requires lines <= more && IsDone(Readable(lines), u)
    ensures IsDone(Readable(more), u)
    decreases |more|
  {
    if lines != more {
      assert lines <= more[..|more| - 1];
      ReadableGrows(lines, more[..|more| - 1], u);
      if more[|more| - 1].Whole? {
        DoneAppend(Readable(more[..|more| - 1]), more[|more| - 1].row);
      }
    } else {
      assert lines == more;
    }
  }

  lemma {:induction false} ServeExtends(s: Progress, todo: seq<Unit>)
    ensures s.log.lines <= Serve(s, todo).log.lines
    decreases |todo|
  {
    if s.alive && todo != [] {
      ServeExtends(Attempt(s, todo[0]), todo[1..]);
    }
  }

  lemma DoneInRows(log: Log<Row>, u: Unit)
    requires IsDone(Readable(log.lines), u)
    ensures IsDone(Rows(log), u)
  {
    if log.tail.Unended? {
      DoneAppend(Readable(log.lines), log.tail.row);
    }
  }

  lemma SessionSkips(s: Progress, targets: seq<string>, metaWrite: Write, u: Unit)
    requires IsDone(Readable(s.log.lines), u)
    ensures multiset(Session(s, targets, metaWrite).called)[u] == multiset(s.called)[u]
    ensures IsDone(Readable(Session(s, targets, metaWrite).log.lines), u)
  {
    DoneInRows(s.log, u);
    TodoSkips(Units(targets), Rows(s.log));
    var todo := Todo(Units(targets), Rows(s.log));
    ServeExtends(Opened(s, metaWrite), todo);
    ReadableGrows(s.log.lines, Session(s, targets, metaWrite).log.lines, u);
    hide IsDone, Readable;
    ServeCalls(Opened(s, metaWrite), todo);
    OpenedCalls(s, metaWrite);
    var n := |Serve(Opened(s, metaWrite), todo).called| - |s.called|;
    assert u !in todo[..n];
  }

  /** A success on a terminated line is never paid again: not in any later run, whatever is torn later on. */
  lemma {:induction false} SettledForever(s: Progress, plans: seq<Plan>, u: Unit)
    requires IsDone(Readable(s.log.lines), u)
    ensures multiset(Campaign(s, plans).called)[u] == multiset(s.called)[u]
    decreases |plans|
  {
    if plans != [] {
      hide IsDone, Session;
      var s0 := s.(world := plans[0].world);
      SessionSkips(s0, plans[0].targets, plans[0].metaWrite, u);
      SettledForever(Session(s0, plans[0].targets, plans[0].metaWrite), plans[1..], u);
    }
  }

  /** The append of a success settles the unit exactly when the file ended in a newline (or the unit was settled). */
  lemma AppendSettlesIff(log: Log<Row>, row: Row)
    requires Succeeded(row)
    ensures IsDone(Readable(Append(log, row).lines), row.unit) <==> log.tail.Ended? || IsDone(Readable(log.lines), row.unit)
  {
    var lines := Append(log, row).lines;
    assert lines[..|lines| - 1] == log.lines;
    DoneAppend(Readable(log.lines), row);
  }

  // ---------------------------------------------------------------- which replies finish a unit

  lemma {:induction false} TodoIs(units: seq<Unit>, rows: seq<Row>)
    ensures forall u :: u in Todo(units, rows) <==> u in units && !IsDone(rows, u)
  {
    if units != [] {
      hide IsDone;
      TodoIs(units[1..], rows);
      assert units == [units[0]] + units[1..];
    }
  }

  /** A call of a unit on the to-do list, answered and written whole behind a newline: afterwards the unit is off the to-do
      list exactly if the reply has no error or is the call's deadline; every other unit stays as it was. */
  lemma ReplyFinishesIff(s: Progress, u: Unit, reply: Reply, units: seq<Unit>, v: Unit)
    requires s.alive && s.world != [] && s.world[0] == Replies(reply, Written) && s.log.tail.Ended?
    requires u in Todo(units, Rows(s.log)) && v in units
    ensures var before, after := Todo(units, Rows(s.log)), Todo(units, Rows(Attempt(s, u).log));
      v in after <==> v in before && !(v == u && (reply.error == "" || reply.errorType == "_CallDeadline"))
  {
    var row := Result(u, OutcomeOf(reply), reply.cost);
    RowsAppend(s.log, row);
    DoneAppend(Rows(s.log), row);
    hide IsDone;
    TodoIs(units, Rows(s.log));
    TodoIs(units, Rows(Attempt(s, u).log));
  }

  /** What the row on file tells about the reply. */
  lemma RowOfReply(s: Progress, u: Unit, reply: Reply)
    requires s.alive && s.world != [] && s.world[0] == Replies(reply, Written) && s.log.tail.Ended?
    ensures exists r ::
      && Rows(Attempt(s, u).log) == Rows(s.log) + [r] && r.Result? && r.unit == u && r.cost == reply.cost
      && (r.outcome.Answered? <==> reply.error == "")
      && (r.outcome.Deadline? <==> reply.error != "" && reply.errorType == "_CallDeadline")
      && (r.outcome.Raised? <==> reply.error != "" && reply.errorType == "raised")
  {
    var row := Result(u, OutcomeOf(reply), reply.cost);
    RowsAppend(s.log, row);
  }

  /** Over any later runs, whatever they do or tear: a unit whose call came back without an error, or with its deadline, and
      whose row ended in a newline, is never called again. */
  lemma FinishedNeverCalledAgain(s: Progress, u: Unit, reply: Reply, later: Progress, plans: seq<Plan>)
    requires s.alive && s.world != [] && s.world[0] == Replies(reply, Written) && s.log.tail.Ended?
    requires reply.error == "" || reply.errorType == "_CallDeadline"
    requires Attempt(s, u).log.lines <= later.log.lines
    ensures multiset(Campaign(later, plans).called)[u] == multiset(later.called)[u]
  {
    var row := Result(u, OutcomeOf(reply), reply.cost);
    AppendSettlesIff(s.log, row);
    assert Attempt(s, u).log == Append(s.log, row);
    hide IsDone, Rows, Readable, Attempt;
    ReadableGrows(Append(s.log, row).lines, later.log.lines, u);
    SettledForever(later, plans, u);
  }

  /** What the history counts: each write cut off inside a line once, each call whose row never reached the file, each append
      that returned. */
  lemma SinkCounts(s: Progress, row: Row, write: Write)
    ensures var t := Sink(s, row, write);
      && t.tears == s.tears + (if write.TornWrite? || write.UnendedWrite? then 1 else 0)
      && t.cutOff == s.cutOff + (if write.Unwritten? && row.Result? then [row.unit] else [])
      && t.appended == s.appended + (if write.Written? then [row] else [])
      && (t.alive <==> s.alive && write.Written?)
  {
    assert s.cutOff + [] == s.cutOff && s.appended + [] == s.appended;
  }

  /** A run without any target ends in an exception exactly if the best-value call has not succeeded before (or its header
      could not be written): there is no model to ask. */
  lemma NoTargets(s: Progress, metaWrite: Write)
    ensures Session(s, [], metaWrite).alive <==>
      && (exists r :: r in Rows(s.log) && r.Result? && r.unit == BestValue && (r.outcome.Answered? || r.outcome.Deadline?))
      && (Rows(s.log) == [] ==> metaWrite.Written?)
    ensures Session(s, [], metaWrite).called == s.called
  {
    hide Rows;
    assert Units([]) == [];
    assert Todo([], Rows(s.log)) == [];
    assert Serve(Opened(s, metaWrite), []) == Opened(s, metaWrite);
    assert (exists r :: r in Rows(s.log) && Succeeded(r) && r.unit == BestValue) <==> IsDone(Rows(s.log), BestValue);
  }

  // ---------------------------------------------------------------- a torn line costs the next success

  lemma {:induction false} TodoAll(units: seq<Unit>, rows: seq<Row>)
    requires forall u :: !IsDone(rows, u)
    ensures Todo(units, rows) == units
  {
    if units != [] {
      TodoAll(units[1..], rows);
    }
  }

  /** A run that gets one turn and is then killed, on a file that holds no result yet. */
  lemma OneTurn(s: Progress, t: Turn, w: Write)
    requires Rows(s.log) == [Meta] && s.world == [t]
    ensures Session(s, ["a"], w) == Attempt(s.(alive := true, results := []), Main("a")).(alive := false)
  {
    var units := Units(["a"]);
    assert units == [Main("a"), Bound("a"), BestValue];
    var rest := [Bound("a"), BestValue];
    TodoAll(units, [Meta]);
    var s0 := s.(alive := true, results := []);
    var s1 := Attempt(s0, Main("a"));
    assert units[1..] == rest;
    assert Serve(s0, units) == Serve(s1, rest);
    assert s1.world == [];
    if s1.alive {
      assert Attempt(s1, rest[0]) == s1.(alive := false);
      assert Serve(s1, rest) == s1.(alive := false);
    }
  }

  /** Falsifies "a rerun never re-pays": after a torn write, the next run's answered row is swallowed by the torn line,
      and the run after that pays for the same unit again. */
  lemma TornLineRepays()
    ensures
      var torn := Log([Whole(Meta)], Torn);
      var s := Progress(torn, [Replies(OK, Written)], true, [], [Main("a")], [], [Meta], 1);
      var s1 := Session(s, ["a"], Written);
      var s2 := Session(s1.(world := [Replies(OK, Written)]), ["a"], Written);
      && Tear(Append(Empty<Row>(), Meta)) == torn
      && Result(Main("a"), Answered, 1.0) in s1.appended && !IsDone(Rows(s1.log), Main("a"))
      && s2.called == s1.called + [Main("a")]
  {
    var s := Progress(Log([Whole(Meta)], Torn), [Replies(OK, Written)], true, [], [Main("a")], [], [Meta], 1);
    assert [Whole(Meta)][..0] == [];
    assert Readable([Whole(Meta)]) == [Meta];
    OneTurn(s, Replies(OK, Written), Written);
    var s1 := Session(s, ["a"], Written);
    var row := Result(Main("a"), Answered, 1.0);
    RowsAppend(s.log, row);
    assert s1.log == Append(s.log, row) && s1.appended == [Meta, row];
    OneTurn(s1.(world := [Replies(OK, Written)]), Replies(OK, Written), Written);
  }

  // ---------------------------------------------------------------- what is paid for and reported

  /** The units of a matrix: a main call for each target, then a bound call for each, then best-value, if there is a target. */
  lemma UnitsAre(targets: seq<string>)
    ensures |Units(targets)| == if targets == [] then 0 else 2 * |targets| + 1
    ensures forall i :: 0 <= i < |targets| ==>
      Units(targets)[i] == Main(targets[i]) && Units(targets)[|targets| + i] == Bound(targets[i])
    ensures targets != [] ==> Units(targets)[2 * |targets|] == BestValue
  {
  }

  lemma {:induction false} OfPhaseIs(rows: seq<Row>, phase: Phase)
    ensures forall r :: r in OfPhase(rows, phase) <==> r in rows && r.Result? && PhaseOf(r.unit) == phase
  {
    if rows != [] {
      OfPhaseIs(rows[..|rows| - 1], phase);
      assert rows == rows[..|rows| - 1] + [rows[|rows| - 1]];
    }
  }

  /** What a run reports: by phase the earlier rows of finished units and its own rows, and for best-value its own row if it
      made the call. */
  lemma ReportTells(prior: seq<Row>, own: seq<Row>, r: Row)
    ensures var report := Report(prior, own);
      && (r in report.main <==> r.Result? && r.unit.Main? && ((r in prior && IsDone(prior, r.unit)) || r in own))
      && (r in report.bound <==> r.Result? && r.unit.Bound? && ((r in prior && IsDone(prior, r.unit)) || r in own))
      && (report.best.Some? && report.best.value == r ==> r.Result? && r.unit.BestValue? && ((r in prior && IsDone(prior, r.unit)) || r in own))
      && ((exists b :: b in own && b.Result? && b.unit.BestValue?) ==> report.best.Some? && report.best.value in own)
  {
    hide IsDone;
    SeedsAre(prior, prior, MainPhase);
    SeedsAre(prior, prior, BoundPhase);
    SeedsAre(prior, prior, BestPhase);
    OfPhaseIs(own, MainPhase);
    OfPhaseIs(own, BoundPhase);
    OfPhaseIs(own, BestPhase);
    hide Seeds, OfPhase;
    var seeds, mine := Seeds(prior, prior, BestPhase), OfPhase(own, BestPhase);
    if b :| b in own && b.Result? && b.unit.BestValue? {
      assert b in mine;
      assert (seeds + mine)[|seeds + mine| - 1] == mine[|mine| - 1] && mine[|mine| - 1] in mine;
    }
    if seeds + mine != [] {
      assert (seeds + mine)[|seeds + mine| - 1] in seeds + mine;
    }
  }

  // ---------------------------------------------------------------- a run that reaches its end

  /** One row for each unit, in the same order. */
  ghost predicate RowsFor(rows: seq<Row>, units: seq<Unit>) {
    |rows| == |units| && forall i :: 0 <= i < |rows| ==> rows[i].Result? && rows[i].unit == units[i]
  }

  lemma AttemptCompletes(s: Progress, u: Unit) returns (row: Row)
    requires s.log.tail.Ended? && Attempt(s, u).alive
    ensures row.Result? && row.unit == u && Attempt(s, u).log.tail.Ended?
    ensures Attempt(s, u).results == s.results + [row] && Rows(Attempt(s, u).log) == Rows(s.log) + [row]
  {
    row := Result(u, OutcomeOf(s.world[0].reply), s.world[0].reply.cost);
    hide Rows;
    RowsAppend(s.log, row);
  }

  lemma ServeStep(s: Progress, todo: seq<Unit>)
    requires todo != [] && Serve(s, todo).alive
    ensures Serve(s, todo) == Serve(Attempt(s, todo[0]), todo[1..]) && Attempt(s, todo[0]).alive
  {
    hide Attempt;
  }

  /** An uncut run on a file that ends in a newline adds exactly its results, one for each unit of its to-do list in order. */
  lemma {:induction false} ServeCompletes(s: Progress, todo: seq<Unit>) returns (added: seq<Row>)
    requires s.log.tail.Ended? && Serve(s, todo).alive
    ensures Serve(s, todo).log.tail.Ended? && Serve(s, todo).results == s.results + added
    ensures Rows(Serve(s, todo).log) == Rows(s.log) + added && RowsFor(added, todo)
    decreases |todo|
  {
    if todo == [] {
      added := [];
    } else {
      hide Attempt, Rows, Serve;
      ServeStep(s, todo);
      var row := AttemptCompletes(s, todo[0]);
      var rest := ServeCompletes(Attempt(s, todo[0]), todo[1..]);
      added := [row] + rest;
      Reassociate(s.results, row, rest);
      Reassociate(Rows(s.log), row, rest);
    }
  }

  lemma Reassociate(a: seq<Row>, row: Row, rest: seq<Row>)
    ensures a + [row] + rest == a + ([row] + rest)
  {
  }

  /** After such a run the file holds, behind what it held, the header if it was empty and the run's results, and
      every unit of the targets is done or among them. */
  lemma SessionCompletes(s: Progress, targets: seq<string>, metaWrite: Write)
    requires s.log.tail.Ended? && Session(s, targets, metaWrite).alive
    ensures var s1 := Session(s, targets, metaWrite);
      && Rows(s1.log) == Rows(s.log) + (if Rows(s.log) == [] then [Meta] else []) + s1.results
      && RowsFor(s1.results, Todo(Units(targets), Rows(s.log)))
      && forall u :: u in Units(targets) ==> IsDone(Rows(s.log), u) || u in Todo(Units(targets), Rows(s.log))
  {
    var s0 := Opened(s, metaWrite);
    var todo := Todo(Units(targets), Rows(s.log));
    assert Serve(s0, todo).alive;
    assert s0.alive && s0.log.tail.Ended? && s0.results == [];
    RowsAppend(s.log, Meta);
    hide IsDone, Opened, Todo, Units;
    var added := ServeCompletes(s0, todo);
    assert Serve(s0, todo).results == added;
    TodoCovers(Units(targets), Rows(s.log));
  }

  lemma {:induction false} TodoCovers(units: seq<Unit>, rows: seq<Row>)
    ensures forall u :: u in units ==> IsDone(rows, u) || u in Todo(units, rows)
  {
    if units != [] {
      hide IsDone;
      TodoCovers(units[1..], rows);
      assert units == [units[0]] + units[1..];
    }
  }

  // ---------------------------------------------------------------- what a resumed run is seeded with

  lemma {:induction false} SeedsAre(rows: seq<Row>, all: seq<Row>, phase: Phase)
    ensures forall r ::
      r in Seeds(rows, all, phase) <==> r in rows && r.Result? && PhaseOf(r.unit) == phase && IsDone(all, r.unit)
  {
    if rows != [] {
      hide IsDone;
      SeedsAre(rows[..|rows| - 1], all, phase);
      assert rows == rows[..|rows| - 1] + [rows[|rows| - 1]];
    }
  }

  lemma {:induction false} NoFailures(rows: seq<Row>, u: Unit)
    ensures Failures(rows, u) == 0 <==> forall r :: r in rows && r.Result? && r.unit == u ==> Succeeded(r)
  {
    if rows != [] {
      NoFailures(rows[..|rows| - 1], u);
      assert rows == rows[..|rows| - 1] + [rows[|rows| - 1]];
    }
  }

  /** "Seed only the successful prior rows" holds exactly when no unit of the phase that is done has failed before. */
  lemma SeedsSuccessfulIff(rows: seq<Row>, phase: Phase)
    ensures (forall r :: r in Seeds(rows, rows, phase) ==> Succeeded(r))
      <==> (forall u :: PhaseOf(u) == phase && IsDone(rows, u) ==> Failures(rows, u) == 0)
  {
    hide IsDone, Seeds, Failures, Succeeded;
    SeedsAre(rows, rows, phase);
    forall u
      ensures Failures(rows, u) == 0 <==> forall r :: r in rows && r.Result? && r.unit == u ==> Succeeded(r)
    {
      NoFailures(rows, u);
    }
  }

  /** Every row that can be read was there before or is a result of this run. */
  lemma {:induction false} ServeRows(s: Progress, todo: seq<Unit>, r: Row)
    ensures s.results <= Serve(s, todo).results
    ensures r in Rows(Serve(s, todo).log) ==> r in Rows(s.log) || r in Serve(s, todo).results
    decreases |todo|
  {
    hide Rows;
    if s.alive && todo != [] {
      AttemptRows(s, todo[0], r);
      ServeRows(Attempt(s, todo[0]), todo[1..], r);
    }
  }

  lemma AttemptRows(s: Progress, u: Unit, r: Row)
    ensures s.results <= Attempt(s, u).results
    ensures r in Rows(Attempt(s, u).log) ==> r in Rows(s.log) || r in Attempt(s, u).results
  {
    hide Rows, Sink;
    if s.world != [] && s.world[0].Replies? {
      var row := Result(u, OutcomeOf(s.world[0].reply), s.world[0].reply.cost);
      var s1 := s.(world := s.world[1..], called := s.called + [u], results := s.results + [row]);
      SinkMore(s1, row, s.world[0].write, r);
    }
  }

  lemma SinkMore(s: Progress, row: Row, write: Write, r: Row)
    ensures Sink(s, row, write).results == s.results
    ensures r in Rows(Sink(s, row, write).log) ==> r in Rows(s.log) || r == row
  {
    RowsAppend(s.log, row);
  }

  lemma SessionRows(s: Progress, targets: seq<string>, metaWrite: Write, r: Row)
    requires r.Result? && r in Rows(Session(s, targets, metaWrite).log)
    ensures r in Rows(s.log) || r in Session(s, targets, metaWrite).results
  {
    hide Rows, Serve, Todo, Sink;
    SinkMore(s.(alive := true, results := []), Meta, metaWrite, r);
    ServeRows(Opened(s, metaWrite), Todo(Units(targets), Rows(s.log)), r);
  }

  /** The i-th of the runs. */
  ghost function RunAt(s: Progress, plans: seq<Plan>, i: nat): Progress
    requires i < |plans|
  {
    var p, before := plans[i], Campaign(s, plans[..i]);
    Session(before.(world := p.world), p.targets, p.metaWrite)
  }

  lemma RunAtNext(s: Progress, plans: seq<Plan>, i: nat)
    requires i + 1 < |plans|
    ensures var s1 := Session(s.(world := plans[0].world), plans[0].targets, plans[0].metaWrite);
      RunAt(s, plans, i + 1) == RunAt(s1, plans[1..], i)
  {
    assert plans[..i + 1][1..] == plans[1..][..i];
  }

  /** Every result on file came from a call of one of the runs. */
  lemma {:induction false} RowsAreResults(s: Progress, plans: seq<Plan>, r: Row)
    requires r.Result? && r in Rows(Campaign(s, plans).log)
    ensures r in Rows(s.log) || exists i: nat :: i < |plans| && r in RunAt(s, plans, i).results
    decreases |plans|
  {
    hide Session, Rows;
    if plans != [] {
      var s0 := s.(world := plans[0].world);
      var s1 := Session(s0, plans[0].targets, plans[0].metaWrite);
      RowsAreResults(s1, plans[1..], r);
      if r in Rows(s1.log) {
        SessionRows(s0, plans[0].targets, plans[0].metaWrite, r);
        assert plans[..0] == [] && RunAt(s, plans, 0) == s1;
      } else {
        var i: nat :| i < |plans| - 1 && r in RunAt(s1, plans[1..], i).results;
        RunAtNext(s, plans, i);
        assert r in RunAt(s, plans, i + 1).results;
      }
    }
  }

  lemma {:induction false} ServeResults(s: Progress, todo: seq<Unit>)
    requires forall r :: r in s.results ==> r.Result?
    ensures forall r :: r in Serve(s, todo).results ==> r.Result?
    decreases |todo|
  {
    if s.alive && todo != [] {
      assert forall r :: r in Attempt(s, todo[0]).results ==> r.Result?;
      hide Attempt;
      ServeResults(Attempt(s, todo[0]), todo[1..]);
    }
  }

  lemma RunResults(s: Progress, plans: seq<Plan>, i: nat)
    requires i < |plans|
    ensures forall r :: r in RunAt(s, plans, i).results ==> r.Result?
  {
    hide Campaign, Serve, Todo, Units, Rows, IsDone;
    var p, before := plans[i], Campaign(s, plans[..i]);
    ServeResults(Opened(before.(world := p.world), p.metaWrite), Todo(Units(p.targets), Rows(before.log)));
  }

  /** Which failures of any of the runs the next run is seeded with: exactly those whose row can still be read and whose
      unit is done by now. */
  lemma FailedSeedIff(plans: seq<Plan>, i: nat, r: Row)
    requires i < |plans| && r in RunAt(START, plans, i).results && !Succeeded(r)
    ensures r.Result?
    ensures var rows := Rows(Campaign(START, plans).log);
      r in Seeds(rows, rows, PhaseOf(r.unit)) <==> r in rows && IsDone(rows, r.unit)
  {
    hide IsDone, Seeds, Campaign, RunAt, Rows;
    RunResults(START, plans, i);
    var rows := Rows(Campaign(START, plans).log);
    SeedsAre(rows, rows, PhaseOf(r.unit));
  }

  /** And every seeded row is a result of one of the runs. */
  lemma SeedsAreResults(plans: seq<Plan>, phase: Phase, r: Row)
    requires var rows := Rows(Campaign(START, plans).log); r in Seeds(rows, rows, phase)
    ensures exists i: nat :: i < |plans| && r in RunAt(START, plans, i).results
  {
    hide IsDone, Seeds, Campaign, RunAt, Rows;
    var rows := Rows(Campaign(START, plans).log);
    SeedsAre(rows, rows, phase);
    StartIsEmpty();
    RowsAreResults(START, plans, r);
  }

  lemma StartIsEmpty()
    ensures Rows(START.log) == []
  {
  }

  /** Falsifies it otherwise: a model that failed once and answered on the next run is reported with both rows. */
  lemma FailedRowSeeded()
    ensures var failed, answered := Result(Main("a"), Raised, 0.0), Result(Main("a"), Answered, 1.0);
      var rows := [Meta, failed, answered];
      Final(rows) && Seeds(rows, rows, MainPhase) == [failed, answered]
  {
    var failed, answered := Result(Main("a"), Raised, 0.0), Result(Main("a"), Answered, 1.0);
    var rows := [Meta, failed, answered];
    assert answered in rows && IsDone(rows, Main("a"));
    assert rows[..2] == [Meta, failed] && [Meta, failed][..1] == [Meta] && [Meta][..0] == [];
    assert Seeds([Meta], rows, MainPhase) == [];
    assert Seeds([Meta, failed], rows, MainPhase) == [failed];
  }

  /** The best-value slot keeps the last seeded row; that one is always the success. */
  lemma BestSeedSucceeded(rows: seq<Row>)
    requires Final(rows)
    ensures var seeds := Seeds(rows, rows, BestPhase);
      (seeds != [] <==> IsDone(rows, BestValue)) && (seeds != [] ==> Succeeded(seeds[|seeds| - 1]))
  {
    SeedsAre(rows, rows, BestPhase);
    var seeds := Seeds(rows, rows, BestPhase);
    if IsDone(rows, BestValue) {
      var r :| r in rows && Succeeded(r) && r.unit == BestValue;
      assert r in seeds;
      LastSeed(rows, rows, r);
    }
    if seeds != [] {
      assert seeds[0] in seeds;
    }
  }

  lemma {:induction false} LastSeed(rows: seq<Row>, all: seq<Row>, r: Row)
    requires Final(rows) && r in rows && Succeeded(r) && r.unit == BestValue && IsDone(all, BestValue)
    ensures var seeds := Seeds(rows, all, BestPhase); seeds != [] && seeds[|seeds| - 1] == r
  {
    var most, last := rows[..|rows| - 1], rows[|rows| - 1];
    assert rows == most + [last];
    if r in most {
      var i :| 0 <= i < |most| && most[i] == r;
      assert rows[i] == r;
      assert !(last.Result? && last.unit == BestValue);
      FinalPrefix(rows, |rows| - 1);
      LastSeed(most, all, r);
    }
  }
}
