/** What the ledger's offline replacement guarantees over every run of the protocol: to the original file, to other
    clients, and to whoever reads its outcome. */
module ReclaimGuarantees {
  import opened LedgerReclaim
  import opened Options

  // ---------------------------------------------------------------- every run

  lemma StepConstants(s: State, e: Event)
    requires Inv(s) && Enabled(s, e)
    ensures var t := Step(s, e);
      t.ledger == s.ledger && t.execute == s.execute && t.vacuum == s.vacuum && t.mode == s.mode
  {
    hide Enabled, Step, Inv;
    if e.Freeze? {
      FreezeConstants(s, e);
    } else if BeforeFreeze(e) {
      EarlyConstants(s, e);
    } else {
      LateConstants(s, e);
    }
  }

  lemma FreezeConstants(s: State, e: Event)
    requires Inv(s) && Enabled(s, e) && e.Freeze?
    ensures var t := Step(s, e);
      t.ledger == s.ledger && t.execute == s.execute && t.vacuum == s.vacuum && t.mode == s.mode
  {
  }

  predicate BeforeFreeze(e: Event) {
    e.Inspect? || e.Lock? || e.CheckUnderLock? || e.MakeDirectory? || e.Detach? || e.Compact? || e.Verify? || e.MatchMode?
  }

  lemma EarlyConstants(s: State, e: Event)
    requires Enabled(s, e) && BeforeFreeze(e)
    ensures var t := Step(s, e);
      t.ledger == s.ledger && t.execute == s.execute && t.vacuum == s.vacuum && t.mode == s.mode
  {
    hide Rename, Parity;
  }

  lemma LateConstants(s: State, e: Event)
    requires Enabled(s, e) && !e.Freeze? && !BeforeFreeze(e)
    ensures var t := Step(s, e);
      t.ledger == s.ledger && t.execute == s.execute && t.vacuum == s.vacuum && t.mode == s.mode
  {
    hide Rename, Parity;
  }

  lemma {:induction false} RunInv(s: State, events: seq<Event>, t: State)
    requires Inv(s) && Run(s, events, t)
    ensures Inv(t) && t.ledger == s.ledger && t.execute == s.execute && t.vacuum == s.vacuum && t.mode == s.mode
    decreases |events|
  {
    hide Enabled, Step, Inv;
    if events != [] {
      StepInv(s, events[0]);
      StepConstants(s, events[0]);
      RunInv(Step(s, events[0]), events[1..], t);
    }
  }

  /** At every reachable state, crashes included, the ledger file is at exactly one of the source and the
      backup path; at the backup path its content is the one the lock sealed, and no client can change it. */
  lemma OriginalSurvives(s: State, events: seq<Event>, t: State)
    requires Init(s) && Run(s, events, t)
    ensures At(t, Source, s.ledger) <==> !At(t, Original, s.ledger)
    ensures s.ledger in t.files
    ensures t.lock || At(t, Original, s.ledger) ==> t.files[s.ledger].content == t.sealed
    ensures At(t, Original, s.ledger) ==> s.ledger !in t.handles && t.files[s.ledger].mode.writers == {}
  {
    InitInv(s);
    RunInv(s, events, t);
  }

  /** No step makes a named file unnamed: what a rename moves it keeps, and nothing is overwritten. */
  lemma NothingOverwritten(s: State, e: Event, p: Path)
    requires Inv(s) && Enabled(s, e) && p in s.names
    ensures var t := Step(s, e);
      || At(t, p, s.names[p])
      || (p == Source && e.MoveOriginal? && At(t, Original, s.names[p]) && Original !in s.names)
      || (p == Compacted && e.Install? && At(t, Source, s.names[p]) && Source !in s.names)
  {
    hide Inv, Parity;
  }

  ghost predicate Named(s: State, inode: Inode) {
    exists p :: At(s, p, inode)
  }

  lemma {:induction false} EveryFileKept(s: State, events: seq<Event>, t: State, inode: Inode)
    requires Inv(s) && Run(s, events, t) && Named(s, inode)
    ensures Named(t, inode)
    decreases |events|
  {
    hide Enabled, Step, Inv;
    if events != [] {
      var p :| At(s, p, inode);
      NothingOverwritten(s, events[0], p);
      StepInv(s, events[0]);
      EveryFileKept(Step(s, events[0]), events[1..], t, inode);
    }
  }

  /** What can appear at the source path: a client's own new file on a free path, or the copy once it has
      passed every check, with the ledger's permissions. */
  lemma OnlyVerifiedAppears(s: State, e: Event)
    requires Inv(s) && Enabled(s, e)
    requires var t := Step(s, e); Source in t.names && !At(s, Source, t.names[Source])
    ensures Source !in s.names
    ensures var t := Step(s, e);
      || (e.ClientCreates? && At(t, Source, e.inode))
      || (e.Install? && At(t, Source, s.copy) && t.files[s.copy].mode == s.mode
          && t.files[s.copy].content.sound && t.files[s.copy].content.rows == s.sealed.rows
          && (s.vacuum.Some? ==> t.files[s.copy].content.autoVacuum == s.vacuum.value))
  {
  }

  /** The check of the copy passes exactly for a sound copy with the sealed row count of every table, and the vacuum mode if one
      was asked for; otherwise the run is refused with nothing moved. */
  lemma VerifiedIff(s: State)
    requires Enabled(s, Verify)
    ensures var t, c := Step(s, Verify), s.files[s.copy].content;
      && (t.stage == Verified <==>
           c.sound && c.rows == s.sealed.rows && (s.vacuum.Some? ==> c.autoVacuum == s.vacuum.value))
      && (t.stage != Verified ==> t == s.(stage := Refused, lock := false))
  {
  }

  /** The integrity check of the ledger under the lock was passed. */
  predicate PastCheck(s: State) {
    s.installed.Some? || !(s.stage.Started? || s.stage.Inspected? || s.stage.Locked? || s.stage.Refused? || s.stage.DryRun?
      || s.stage.Crashed? || s.stage.Failing?)
  }

  lemma CheckedStep(s: State, e: Event)
    requires StageTells(s) && Enabled(s, e) && (PastCheck(s) ==> s.sealed.sound)
    ensures PastCheck(Step(s, e)) ==> Step(s, e).sealed.sound
  {
    hide Rename, Parity;
  }

  lemma {:induction false} CheckedRun(s: State, events: seq<Event>, t: State)
    requires Inv(s) && Run(s, events, t) && (PastCheck(s) ==> s.sealed.sound)
    ensures PastCheck(t) ==> t.sealed.sound
    decreases |events|
  {
    hide Inv, Enabled, Step, PastCheck, StageTells;
    if events != [] {
      InvTells(s);
      CheckedStep(s, events[0]);
      StepInv(s, events[0]);
      CheckedRun(Step(s, events[0]), events[1..], t);
    }
  }

  /** Over every run: whatever was installed is a sound copy of a sound ledger, with as many rows in every table, and with the
      vacuum mode that was asked for. */
  lemma InstalledIsWhole(s: State, events: seq<Event>, t: State)
    requires Init(s) && Run(s, events, t) && t.installed.Some?
    ensures t.sealed.sound && t.installed.value.sound && t.installed.value.rows == t.sealed.rows
    ensures s.vacuum.Some? ==> t.installed.value.autoVacuum == s.vacuum.value
  {
    InitInv(s);
    RunInv(s, events, t);
    CheckedRun(s, events, t);
  }

  /** A run that ends in success has installed a verified copy and kept the sealed original. */
  lemma SuccessMeans(s: State, events: seq<Event>, t: State)
    requires Init(s) && Run(s, events, t) && t.stage == Done
    ensures At(t, Source, t.copy) && t.installed.Some? && t.installed.value.sound
    ensures t.installed.value.rows == t.sealed.rows && (s.vacuum.Some? ==> t.installed.value.autoVacuum == s.vacuum.value)
    ensures At(t, Original, s.ledger) && s.ledger in t.files && t.files[s.ledger].content == t.sealed
  {
    InitInv(s);
    RunInv(s, events, t);
  }

  /** A refused run leaves the ledger either in place with its permissions, or kept at the backup path. */
  lemma RefusalRestores(s: State, events: seq<Event>, t: State)
    requires Init(s) && Run(s, events, t) && t.stage == Refused
    ensures s.ledger in t.files
    ensures if At(t, Source, s.ledger) then t.files[s.ledger].mode == s.files[s.ledger].mode
      else At(t, Original, s.ledger) && t.files[s.ledger].content == t.sealed
  {
    InitInv(s);
    RunInv(s, events, t);
  }

  /** A crash is different: the ledger stays read-only in place exactly when it strikes after the freeze and
      before the move, and there was a permission to withdraw. */
  lemma CrashLeavesReadOnlyIff(s: State)
    requires Inv(s) && Enabled(s, Crash)
    ensures var t := Step(s, Crash);
      At(t, Source, s.ledger) && t.files[s.ledger].mode != s.mode <==>
      s.stage in {Frozen, Scanned, Failing} && At(s, Source, s.ledger) && s.mode.writers != {}
  {
  }

  /** A client that creates the source path between the two renames keeps its file: the install is refused. */
  lemma GapClientKeepsFile(s: State, ok: bool)
    requires Inv(s) && s.stage == MoveSynced && Source in s.names
    ensures var t := Step(s, Install(ok));
      t.stage == Failing && t.names == s.names && t.files == s.files && At(t, Original, s.ledger)
  {
  }

  predicate ByClient(e: Event) {
    e.ClientOpens? || e.ClientCloses? || e.ClientWrites? || e.ClientCreates?
  }

  /** Without `execute`, no step of the reclaim changes any file, name or permission. */
  lemma {:induction false} DryRunChangesNothing(s: State, events: seq<Event>, t: State)
    requires !s.execute && s.stage in {Started, Inspected, DryRun, Refused, Crashed} && Run(s, events, t)
    requires forall e :: e in events ==> !ByClient(e)
    ensures t.names == s.names && t.files == s.files && t.handles == s.handles
    decreases |events|
  {
    if events != [] {
      assert events[0] in events;
      DryRunChangesNothing(Step(s, events[0]), events[1..], t);
    }
  }

  // ---------------------------------------------------------------- how the stages follow each other

  /** The step of the reclaim fails. */
  predicate Fails(s: State, e: Event) {
    match e
    case Inspect(ok) => !ok
    case Lock(ok) => !ok
    case CheckUnderLock(ok) => !ok
    case MakeDirectory(ok) => !ok
    case Detach(ok) => !ok
    case Compact(ok, _, _) => !ok
    case MatchMode(ok) => !ok
    case Freeze(ok) => !ok
    case Scan(ok, attached) => !ok || attached
    case MoveOriginal(ok) => !ok || Source !in s.names || Original in s.names
    case SyncMove(ok) => !ok
    case Install(ok) => !ok || Compacted !in s.names || Source in s.names
    case SyncInstall(ok) => !ok
    case Optimize(ok) => !ok
    case _ => false
  }

  /** A failing step ends the run at once up to the freeze and after the install is complete, and leads to the recovery in
      between; a client found by the final scan, a taken name and a missing file fail their steps. */
  lemma FailureStops(s: State, e: Event)
    requires Enabled(s, e) && Fails(s, e)
    ensures Step(s, e).stage ==
      if e.Scan? || e.MoveOriginal? || e.SyncMove? || e.Install? || e.SyncInstall? then Failing else Refused
    ensures Step(s, e).names == s.names || (e.Compact? && Step(s, e).names == s.names[Compacted := e.inode])
  {
  }

  /** The stage each step starts from, and the one it leads to if it does not fail. */
  lemma SuccessAdvances(s: State, e: Event)
    requires Enabled(s, e) && !Fails(s, e)
    ensures e.Inspect? ==> s.stage == Started && Step(s, e).stage == Inspected
    ensures e.Lock? ==> s.stage == Inspected && s.execute && Step(s, e).stage == Locked
    ensures e.CheckUnderLock? ==> s.stage == Locked && s.sealed.sound && Step(s, e).stage == Checked
    ensures e.MakeDirectory? ==> s.stage == Checked && Step(s, e).stage == Prepared
    ensures e.Detach? ==> s.stage == Prepared && Step(s, e).stage == Detached
    ensures e.Compact? ==> s.stage == Detached && Step(s, e).stage == Copied
    ensures e.MatchMode? ==> s.stage == Verified && Step(s, e).stage == Matched
    ensures e.Freeze? ==> s.stage == Matched && Step(s, e).stage == Frozen
    ensures e.Scan? ==> s.stage == Frozen && s.ledger !in s.handles && Step(s, e).stage == Scanned
    ensures e.MoveOriginal? ==> s.stage == Scanned && Step(s, e).stage == Moved
    ensures e.SyncMove? ==> s.stage == Moved && Step(s, e).stage == MoveSynced
    ensures e.Install? ==> s.stage == MoveSynced && Step(s, e).stage == Installed
    ensures e.SyncInstall? ==> s.stage == Installed && Step(s, e).stage == InstallSynced
    ensures e.Optimize? ==> s.stage == Restored && Step(s, e).stage == Done
  {
  }

  /** The end of a dry run, of the recovery, and of the installation. */
  lemma FinishEnds(s: State)
    requires s.ledger in s.files
    ensures Enabled(s, Finish) <==>
      (s.stage == Inspected && !s.execute) || s.stage == Failing || s.stage == InstallSynced
    ensures s.stage == Inspected && !s.execute ==> Step(s, Finish).stage == DryRun
    ensures s.stage == Failing ==> Step(s, Finish).stage == Refused
    ensures s.stage == InstallSynced ==> Step(s, Finish).stage == Restored
  {
  }

  /** What other clients may do at any moment: open a ledger with some write permission, write any content through a handle
      unless that file is locked, and create the source when the name is free. */
  lemma ClientsMay(s: State, inode: Inode, content: Content, file: File)
    ensures Enabled(s, ClientOpens) <==>
      Source in s.names && s.names[Source] in s.files && exists who :: who in s.files[s.names[Source]].mode.writers
    ensures Enabled(s, ClientWrites(inode, content)) <==> inode in s.handles && inode in s.files && (!s.lock || inode != s.ledger)
    ensures Enabled(s, ClientCreates(inode, file)) <==> Source !in s.names && inode !in s.files
    ensures Enabled(s, ClientCloses(inode))
    ensures Enabled(s, Crash) <==> s.stage != Done && s.stage != Refused && s.stage != DryRun && s.stage != Crashed
  {
  }

  // ---------------------------------------------------------------- runs that exist

  const PLAIN := Content(map["calls" := 3], true, 0, 0)

  function Fresh(): State {
    State(map[Source := 1], map[1 := File(PLAIN, Mode({User}, 0))], {}, Started, false, true, None, 1,
          Mode({User}, 0), PLAIN, 0, None)
  }

  lemma {:induction false} RunThen(s: State, events: seq<Event>, t: State, e: Event)
    requires Run(s, events, t) && Enabled(t, e)
    ensures Run(s, events + [e], Step(t, e))
    decreases |events|
  {
    if events == [] {
      assert [e][1..] == [];
      assert Run(Step(s, e), [], Step(s, e));
    } else {
      assert (events + [e])[1..] == events[1..] + [e];
      RunThen(Step(s, events[0]), events[1..], t, e);
    }
  }

  lemma Then(s: State, events: seq<Event>, t: State, e: Event) returns (events': seq<Event>, t': State)
    requires Run(s, events, t) && Enabled(t, e)
    ensures Run(s, events', t') && t' == Step(t, e) && events' == events + [e]
  {
    RunThen(s, events, t, e);
    events', t' := events + [e], Step(t, e);
  }

  lemma ReachDetached() returns (events: seq<Event>, t: State)
    ensures Init(Fresh()) && Run(Fresh(), events, t)
    ensures t == Fresh().(stage := Detached, lock := true)
  {
    hide Run;
    RunNone(Fresh());
    events, t := Then(Fresh(), [], Fresh(), Inspect(true));
    events, t := Then(Fresh(), events, t, Lock(true));
    events, t := Then(Fresh(), events, t, CheckUnderLock(true));
    events, t := Then(Fresh(), events, t, MakeDirectory(true));
    events, t := Then(Fresh(), events, t, Detach(true));
  }

  lemma RunNone(s: State)
    ensures Run(s, [], s)
  {
  }

  function FrozenState(): State {
    Fresh().(stage := Frozen, lock := true, copy := 2, names := map[Source := 1, Compacted := 2],
             files := map[1 := File(PLAIN, Mode({}, 0)), 2 := File(PLAIN, Mode({User}, 0))])
  }

  lemma ReachFrozen() returns (events: seq<Event>, t: State)
    ensures Init(Fresh()) && Run(Fresh(), events, t) && t == FrozenState()
  {
    hide Run;
    events, t := ReachDetached();
    events, t := Then(Fresh(), events, t, Compact(true, 2, File(PLAIN, Mode({}, 0))));
    events, t := Then(Fresh(), events, t, Verify);
    events, t := Then(Fresh(), events, t, MatchMode(true));
    events, t := Then(Fresh(), events, t, Freeze(true));
  }

  /** Such a crash is reachable: restoring the permissions is not crash-safe. */
  lemma CrashCanLeaveReadOnly()
    ensures exists s, events, t ::
      Init(s) && Run(s, events, t) && t.stage == Crashed && At(t, Source, s.ledger)
      && s.ledger in t.files && t.files[s.ledger].mode != s.files[s.ledger].mode
  {
    hide Run;
    var events, t := ReachFrozen();
    events, t := Then(Fresh(), events, t, Crash);
    assert User in Fresh().files[1].mode.writers;
    assert Init(Fresh()) && Run(Fresh(), events, t) && At(t, Source, 1) && t.files[1].mode != Fresh().files[1].mode;
  }

  lemma ReachMoved() returns (events: seq<Event>, t: State)
    ensures Init(Fresh()) && Run(Fresh(), events, t)
    ensures t == FrozenState().(stage := MoveSynced, names := map[Original := 1, Compacted := 2])
  {
    hide Run;
    events, t := ReachFrozen();
    events, t := Then(Fresh(), events, t, Scan(true, false));
    events, t := Then(Fresh(), events, t, MoveOriginal(true));
    assert t.names == map[Original := 1, Compacted := 2];
    events, t := Then(Fresh(), events, t, SyncMove(true));
  }

  // ---------------------------------------------------------------- what a refusal means

  /** A step that fails although the copy has been installed: a sync of the install, or the work on the new ledger. */
  predicate FailsLate(e: Event) {
    e == SyncInstall(false) || e == Optimize(false)
  }

  predicate FailedInstalled(s: State) {
    s.installed.Some? && (s.stage.Failing? || s.stage.Refused?)
  }

  /** By its stage it is clear whether the copy is installed, except after a failure. */
  predicate StageTells(s: State) {
    || s.stage.Failing? || s.stage.Refused? || s.stage.Crashed?
    || (s.installed.Some? <==> s.stage.Installed? || s.stage.InstallSynced? || s.stage.Restored? || s.stage.Done?)
  }

  lemma InvTells(s: State)
    requires Inv(s)
    ensures StageTells(s)
  {
  }

  lemma LateStep(s: State, e: Event)
    requires StageTells(s) && Enabled(s, e) && Step(s, e).stage != Crashed
    ensures FailedInstalled(Step(s, e)) <==> FailedInstalled(s) || FailsLate(e)
  {
    hide Enabled, Step;
    if e.SyncInstall? || e.Finish? || e.Optimize? || e.Crash? {
      LastSteps(s, e);
    } else if e.Install? {
      InstallStep(s, e);
    } else {
      OnlyInstallInstalls(s, e);
      OtherStep(s, e);
    }
  }

  lemma InstallStep(s: State, e: Event)
    requires e.Install? && StageTells(s) && Enabled(s, e)
    ensures !FailsLate(e) && (FailedInstalled(Step(s, e)) <==> FailedInstalled(s))
  {
    hide Rename, Parity;
  }

  lemma LastSteps(s: State, e: Event)
    requires e.SyncInstall? || e.Finish? || e.Optimize? || e.Crash?
    requires StageTells(s) && Enabled(s, e) && Step(s, e).stage != Crashed
    ensures FailedInstalled(Step(s, e)) <==> FailedInstalled(s) || FailsLate(e)
  {
    hide Rename, Parity;
  }

  lemma OnlyInstallInstalls(s: State, e: Event)
    requires Enabled(s, e)
    ensures Step(s, e).installed == s.installed || (e.Install? && Step(s, e).installed.Some? && Step(s, e).stage.Installed?)
  {
    hide Rename, Parity;
  }

  lemma OtherStep(s: State, e: Event)
    requires Enabled(s, e) && !e.Install? && !e.SyncInstall? && !e.Finish? && !e.Optimize? && !e.Crash?
    ensures Step(s, e).stage == s.stage || !(s.stage.Installed? || s.stage.InstallSynced? || s.stage.Restored? || s.stage.Failing?)
    ensures Step(s, e).stage == s.stage || !(s.stage.Refused? || s.stage.Done? || s.stage.Crashed?)
  {
    hide Rename, Parity;
  }

  lemma {:induction false} CrashedStays(s: State, events: seq<Event>, t: State)
    requires s.stage == Crashed && Run(s, events, t)
    ensures t.stage == Crashed
    decreases |events|
  {
    if events != [] {
      CrashedStays(Step(s, events[0]), events[1..], t);
    }
  }

  lemma {:induction false} LateRun(s: State, events: seq<Event>, t: State)
    requires Inv(s) && Run(s, events, t) && t.stage != Crashed
    ensures FailedInstalled(t) <==> FailedInstalled(s) || exists e :: e in events && FailsLate(e)
    decreases |events|
  {
    hide Inv, Enabled, Step, FailsLate, FailedInstalled, StageTells;
    if events != [] {
      var e, mid := events[0], Step(s, events[0]);
      if mid.stage == Crashed {
        CrashedStays(mid, events[1..], t);
      }
      StepInv(s, e);
      InvTells(s);
      LateStep(s, e);
      LateRun(mid, events[1..], t);
      assert forall x :: x in events <==> x == e || x in events[1..];
    }
  }

  /** "Refused" does not mean "not installed": the copy is installed exactly when a step failed after the install. */
  lemma RefusedInstalledIff(s: State, events: seq<Event>, t: State)
    requires Init(s) && Run(s, events, t) && t.stage == Refused
    ensures t.installed.Some? <==> SyncInstall(false) in events || Optimize(false) in events
    ensures t.installed.Some? ==> At(t, Source, t.copy) && At(t, Original, s.ledger)
  {
    hide Inv, Run, Init, At, Parity, FailsLate;
    InitInv(s);
    RunInv(s, events, t);
    LateRun(s, events, t);
    assert !FailedInstalled(s) by { InitPlain(s); }
    LateEvents(events);
    if t.installed.Some? {
      InstalledMeans(t);
    }
  }

  lemma InitPlain(s: State)
    requires Init(s)
    ensures s.installed.None?
  {
  }

  lemma LateEvents(events: seq<Event>)
    ensures (exists e :: e in events && FailsLate(e)) <==> SyncInstall(false) in events || Optimize(false) in events
  {
    assert FailsLate(SyncInstall(false)) && FailsLate(Optimize(false));
  }

  lemma InstalledMeans(s: State)
    requires Inv(s) && s.installed.Some?
    ensures At(s, Source, s.copy) && Parity(s, s.installed.value) && At(s, Original, s.ledger)
  {
  }

  lemma ReachInstalled() returns (events: seq<Event>, t: State)
    ensures Init(Fresh()) && Run(Fresh(), events, t)
    ensures t == FrozenState().(stage := Installed, names := map[Original := 1, Source := 2], installed := Some(PLAIN))
  {
    hide Run;
    events, t := ReachMoved();
    hide Init;
    events, t := Then(Fresh(), events, t, Install(true));
    assert t.names == map[Original := 1, Source := 2];
  }

  /** Both kinds of such runs exist. */
  lemma RefusedAfterInstall(late: Event) returns (events: seq<Event>, t: State)
    requires FailsLate(late)
    ensures Init(Fresh()) && Run(Fresh(), events, t) && t.stage == Refused && t.installed.Some? && late in events
  {
    hide Run, Init;
    events, t := ReachInstalled();
    events, t := Then(Fresh(), events, t, SyncInstall(late.Optimize?));
    events, t := Then(Fresh(), events, t, Finish);
    if late.Optimize? {
      events, t := Then(Fresh(), events, t, Optimize(false));
    }
  }
}
