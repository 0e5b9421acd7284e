/** The offline replacement of the ledger by its compacted copy (`reclaim_ledger`), as a protocol.

    One process runs the steps in order; a step may fail, the process may crash after any step,
    and other clients act in between: they open the ledger, write through handles they hold, and
    create the ledger's path when it is free.  The operating system and SQLite are taken at their
    contracts: the rename never overwrites, an exclusive lock keeps other writers out of the locked
    file, a file without write permission cannot be opened for writing, and the client scan finds
    every writable handle on the source. */
module LedgerReclaim {
  import opened Options

  type Inode = nat

  /** A ledger's content: row counts per table, the verdict of the integrity check, the vacuum mode, and the rest. */
  datatype Content = Content(rows: map<string, nat>, sound: bool, autoVacuum: nat, rest: nat)

  datatype Who = User | Group | Others

  datatype Mode = Mode(writers: set<Who>, rest: nat) {
    function ReadOnly(): Mode {
      Mode({}, rest)
    }
  }

  datatype File = File(content: Content, mode: Mode)

  /** The three paths of the protocol, and every other file of the system. */
  datatype Path = Source | Original | Compacted | Other(name: string)

  datatype Stage =
    | Started
    | Inspected
    | Locked
    | Checked
    | Prepared
    | Detached
    | Copied
    | Verified
    | Matched
    | Frozen
    | Scanned
    | Moved
    | MoveSynced
    | Installed
    | InstallSynced
    | Restored
    | Failing
    | Done
    | Refused
    | DryRun
    | Crashed

  datatype State = State(
    names: map<Path, Inode>,
    files: map<Inode, File>,
    handles: set<Inode>,         // files some other client holds open for writing
    stage: Stage,
    lock: bool,                  // the retained exclusive lock on the ledger file
    execute: bool,
    vacuum: Option<nat>,         // the requested vacuum mode
    ledger: Inode,               // the file found at the source path
    mode: Mode,                  // its permissions before the freeze
    sealed: Content,             // its content when the lock was taken
    copy: Inode,                 // the compacted copy
    installed: Option<Content>)  // the copy's content when it was installed

  /** The steps of the reclaim (with their possible failures), then those of its surroundings. */
  datatype Event =
    | Inspect(ok: bool)
    | Lock(ok: bool)
    | CheckUnderLock(ok: bool)
    | MakeDirectory(ok: bool)
    | Detach(ok: bool)
    | Compact(ok: bool, inode: Inode, file: File)
    | Verify
    | MatchMode(ok: bool)
    | Freeze(ok: bool)
    | Scan(ok: bool, attached: bool)
    | MoveOriginal(ok: bool)
    | SyncMove(ok: bool)
    | Install(ok: bool)
    | SyncInstall(ok: bool)
    | Finish
    | Optimize(ok: bool)
    | ClientOpens
    | ClientCloses(inode: Inode)
    | ClientWrites(inode: Inode, content: Content)
    | ClientCreates(inode: Inode, file: File)
    | Crash

  /** The checks a copy must pass before it may be installed: integrity, per-table row counts, vacuum mode. */
  predicate Parity(s: State, c: Content) {
    c.sound && c.rows == s.sealed.rows && (s.vacuum.Some? ==> c.autoVacuum == s.vacuum.value)
  }

  predicate Terminal(stage: Stage) {
    stage in {Done, Refused, DryRun, Crashed}
  }

  predicate Enabled(s: State, e: Event) {
    match e
    case Inspect(_) => s.stage == Started
    case Lock(_) => s.stage == Inspected && s.execute && s.ledger in s.files
    case CheckUnderLock(ok) => s.stage == Locked && (ok ==> s.sealed.sound)
    case MakeDirectory(_) => s.stage == Checked
    case Detach(_) => s.stage == Prepared
    case Compact(_, inode, _) => s.stage == Detached && inode !in s.files && Compacted !in s.names
    case Verify => s.stage == Copied && s.copy in s.files
    case MatchMode(_) => s.stage == Verified && s.copy in s.files && s.ledger in s.files
    case Freeze(_) => s.stage == Matched && s.ledger in s.files
    case Scan(ok, attached) => s.stage == Frozen && (ok && s.ledger in s.handles ==> attached)
    case MoveOriginal(_) => s.stage == Scanned
    case SyncMove(_) => s.stage == Moved
    case Install(_) => s.stage == MoveSynced && s.copy in s.files
    case SyncInstall(_) => s.stage == Installed
    case Finish => (s.stage == Inspected && !s.execute) || ((s.stage == Failing || s.stage == InstallSynced) && s.ledger in s.files)
    case Optimize(_) => s.stage == Restored
    case ClientOpens => Source in s.names && s.names[Source] in s.files && s.files[s.names[Source]].mode.writers != {}
    case ClientCloses(_) => true
    case ClientWrites(inode, _) => inode in s.handles && inode in s.files && !(s.lock && inode == s.ledger)
    case ClientCreates(inode, _) => Source !in s.names && inode !in s.files
    case Crash => !Terminal(s.stage)
  }

  /** The rename that refuses to overwrite; a missing file cannot be renamed. */
  function Rename(names: map<Path, Inode>, from: Path, to: Path): Option<map<Path, Inode>> {
    if from in names && to !in names then Some((names - {from})[to := names[from]]) else None
  }

  /** A failure before the freeze: the connection closes and the lock goes. */
  function Abort(s: State): State {
    s.(stage := Refused, lock := false)
  }

  function Step(s: State, e: Event): State
    requires Enabled(s, e)
  {
    match e
    case Inspect(ok) => s.(stage := if ok then Inspected else Refused)
    case Lock(ok) =>
      if ok then s.(stage := Locked, lock := true, sealed := s.files[s.ledger].content) else Abort(s)
    case CheckUnderLock(ok) => if ok then s.(stage := Checked) else Abort(s)
    case MakeDirectory(ok) => if ok then s.(stage := Prepared) else Abort(s)
    case Detach(ok) => if ok then s.(stage := Detached) else Abort(s)
    case Compact(ok, inode, file) =>
      var t := s.(names := s.names[Compacted := inode], files := s.files[inode := file], copy := inode);
      if ok then t.(stage := Copied) else Abort(t)
    case Verify => if Parity(s, s.files[s.copy].content) then s.(stage := Verified) else Abort(s)
    case MatchMode(ok) =>
      var t := s.(files := s.files[s.copy := s.files[s.copy].(mode := s.files[s.ledger].mode)]);
      if ok then t.(stage := Matched) else Abort(t)
    case Freeze(ok) =>
      if !ok then Abort(s) else
      var f := s.files[s.ledger];
      s.(stage := Frozen, mode := f.mode, files := s.files[s.ledger := f.(mode := f.mode.ReadOnly())])
    case Scan(ok, attached) => s.(stage := if ok && !attached then Scanned else Failing)
    case MoveOriginal(ok) =>
      var renamed := Rename(s.names, Source, Original);
      if ok && renamed.Some? then s.(stage := Moved, names := renamed.value) else s.(stage := Failing)
    case SyncMove(ok) => s.(stage := if ok then MoveSynced else Failing)
    case Install(ok) =>
      var renamed := Rename(s.names, Compacted, Source);
      if ok && renamed.Some? then
        s.(stage := Installed, names := renamed.value, installed := Some(s.files[s.copy].content))
      else s.(stage := Failing)
    case SyncInstall(ok) => s.(stage := if ok then InstallSynced else Failing)
    case Finish =>
      if s.stage == Inspected then s.(stage := DryRun) else
      var restored :=
        if Source in s.names && s.names[Source] == s.ledger
        then s.files[s.ledger := s.files[s.ledger].(mode := s.mode)] else s.files;
      s.(stage := if s.stage == InstallSynced then Restored else Refused, lock := false, files := restored)
    case Optimize(ok) => s.(stage := if ok then Done else Refused)
    case ClientOpens => s.(handles := s.handles + {s.names[Source]})
    case ClientCloses(inode) => s.(handles := s.handles - {inode})
    case ClientWrites(inode, content) => s.(files := s.files[inode := s.files[inode].(content := content)])
    case ClientCreates(inode, file) =>
      s.(names := s.names[Source := inode], files := s.files[inode := file], handles := s.handles + {inode})
    case Crash => s.(stage := Crashed, lock := false)
  }

  /** A finite run: each event enabled where it happens. */
  ghost predicate Run(s: State, events: seq<Event>, t: State)
    decreases |events|
  {
    if events == [] then s == t else
    Enabled(s, events[0]) && Run(Step(s, events[0]), events[1..], t)
  }

  ghost predicate WellNamed(s: State) {
    && (forall p :: p in s.names ==> s.names[p] in s.files)
    && (forall p, q :: p in s.names && q in s.names && s.names[p] == s.names[q] ==> p == q)
    && s.ledger in s.files
  }

  predicate At(s: State, p: Path, inode: Inode) {
    p in s.names && s.names[p] == inode
  }

  /** The reclaim begins: an unaliased ledger at the source path, unique names for what it will create. */
  ghost predicate Init(s: State) {
    && WellNamed(s)
    && s.stage == Started && !s.lock && s.installed.None?
    && At(s, Source, s.ledger) && Original !in s.names && Compacted !in s.names
    && s.handles <= s.files.Keys
    && s.mode == s.files[s.ledger].mode
  }

  // ---------------------------------------------------------------- the invariant

  predicate Early(stage: Stage) {
    stage in {Started, Inspected, Locked, Checked, Prepared, Detached, Copied, Verified, Matched, DryRun}
  }

  predicate HoldsLock(stage: Stage) {
    stage in {Locked, Checked, Prepared, Detached, Copied, Verified, Matched, Frozen, Scanned, Moved, MoveSynced,
              Installed, InstallSynced, Failing}
  }

  predicate HasCopy(stage: Stage) {
    stage in {Copied, Verified, Matched, Frozen, Scanned, Moved, MoveSynced}
  }

  predicate CopyChecked(stage: Stage) {
    stage in {Verified, Matched, Frozen, Scanned, Moved, MoveSynced}
  }

  /** Where the ledger file is, stage by stage. */
  ghost predicate Placed(s: State) {
    && (At(s, Source, s.ledger) || At(s, Original, s.ledger))
    && (Early(s.stage) || s.stage == Frozen || s.stage == Scanned ==> At(s, Source, s.ledger) && Original !in s.names)
    && (s.stage in {Moved, MoveSynced, Installed, InstallSynced, Restored, Done} ==> At(s, Original, s.ledger))
    && (s.stage in {Installed, InstallSynced, Restored, Done} ==> At(s, Source, s.copy))
  }

  /** The ledger file once it is moved away or locked: its content is the sealed one, and nobody can change it. */
  ghost predicate Sealed(s: State)
    requires s.ledger in s.files
  {
    && s.lock == HoldsLock(s.stage)
    && (s.lock || At(s, Original, s.ledger) ==> s.files[s.ledger].content == s.sealed)
    && (s.stage == Scanned || At(s, Original, s.ledger) ==>
          s.ledger !in s.handles && s.files[s.ledger].mode.writers == {})
  }

  /** The ledger file's permissions. */
  ghost predicate Permitted(s: State)
    requires s.ledger in s.files
  {
    && (s.stage in {Frozen, Scanned, Failing} || At(s, Original, s.ledger) ==> s.files[s.ledger].mode == s.mode.ReadOnly())
    && (Early(s.stage) || (s.stage == Refused && At(s, Source, s.ledger)) ==> s.files[s.ledger].mode == s.mode)
    && (s.files[s.ledger].mode == s.mode || s.files[s.ledger].mode == s.mode.ReadOnly())
  }

  /** The compacted copy, private until it is installed, and what reaches the source path. */
  ghost predicate CopyGood(s: State) {
    && (s.installed.None? && Compacted in s.names ==> At(s, Compacted, s.copy) && s.copy !in s.handles && s.copy != s.ledger)
    && (HasCopy(s.stage) ==> At(s, Compacted, s.copy) && s.installed.None?)
    && (CopyChecked(s.stage) ==> s.copy in s.files && Parity(s, s.files[s.copy].content))
    && (s.stage in {Matched, Frozen, Scanned, Moved, MoveSynced} ==> s.copy in s.files && s.files[s.copy].mode == s.mode)
    && (s.installed.Some? ==> Parity(s, s.installed.value) && At(s, Source, s.copy) && Compacted !in s.names && s.copy != s.ledger)
    && (s.installed.Some? <==> s.stage in {Installed, InstallSynced, Restored, Done} || (s.installed.Some? && s.stage in {Failing, Refused, Crashed}))
    && (s.stage in {Started, Inspected, Locked, Checked, Prepared, Detached, DryRun} ==> Compacted !in s.names)
  }

  ghost predicate Inv(s: State) {
    WellNamed(s) && s.handles <= s.files.Keys && Placed(s) && Sealed(s) && Permitted(s) && CopyGood(s)
  }

  lemma InitInv(s: State)
    requires Init(s)
    ensures Inv(s)
  {
  }

  lemma ChecksKeepInv(s: State, e: Event)
    requires Inv(s) && Enabled(s, e) && (e.Inspect? || e.Lock? || e.CheckUnderLock? || e.MakeDirectory? || e.Detach?)
    ensures Inv(Step(s, e))
  {
  }

  lemma JudgementsKeepInv(s: State, e: Event)
    requires Inv(s) && Enabled(s, e) && (e.Verify? || e.Scan?)
    ensures Inv(Step(s, e))
  {
  }

  lemma SyncsKeepInv(s: State, e: Event)
    requires Inv(s) && Enabled(s, e) && (e.SyncMove? || e.SyncInstall?)
    ensures Inv(Step(s, e))
  {
  }

  lemma CrashKeepsInv(s: State)
    requires Inv(s) && Enabled(s, Crash)
    ensures Inv(Step(s, Crash))
  {
  }

  lemma HandlesKeepInv(s: State, e: Event)
    requires Inv(s) && Enabled(s, e) && (e.ClientOpens? || e.ClientCloses?)
    ensures Inv(Step(s, e))
  {
  }

  lemma CompactKeepsInv(s: State, e: Event)
    requires Inv(s) && Enabled(s, e) && (e.Compact?)
    ensures Inv(Step(s, e))
  {
  }

  lemma MatchKeepsInv(s: State, e: Event)
    requires Inv(s) && Enabled(s, e) && (e.MatchMode?)
    ensures Inv(Step(s, e))
  {
  }

  lemma FreezeKeepsInv(s: State, e: Event)
    requires Inv(s) && Enabled(s, e) && (e.Freeze?)
    ensures Inv(Step(s, e))
  {
  }

  lemma MoveKeepsInv(s: State, e: Event)
    requires Inv(s) && Enabled(s, e) && (e.MoveOriginal?)
    ensures Inv(Step(s, e))
  {
  }

  lemma InstallKeepsInv(s: State, e: Event)
    requires Inv(s) && Enabled(s, e) && (e.Install?)
    ensures Inv(Step(s, e))
  {
  }

  lemma FinishKeepsInv(s: State, e: Event)
    requires Inv(s) && Enabled(s, e) && (e.Finish?)
    ensures Inv(Step(s, e))
  {
  }

  lemma OptimizeKeepsInv(s: State, e: Event)
    requires Inv(s) && Enabled(s, e) && (e.Optimize?)
    ensures Inv(Step(s, e))
  {
  }

  lemma WriteKeepsInv(s: State, e: Event)
    requires Inv(s) && Enabled(s, e) && (e.ClientWrites?)
    ensures Inv(Step(s, e))
  {
  }

  lemma CreateKeepsInv(s: State, e: Event)
    requires Inv(s) && Enabled(s, e) && (e.ClientCreates?)
    ensures Inv(Step(s, e))
  {
  }

  /** Every step of the reclaim and of its surroundings keeps the invariant. */
  lemma StepInv(s: State, e: Event)
    requires Inv(s) && Enabled(s, e)
    ensures Inv(Step(s, e))
  {
    hide Inv, Enabled, Step;
    match e
    case Inspect(_) => ChecksKeepInv(s, e);
    case Lock(_) => ChecksKeepInv(s, e);
    case CheckUnderLock(_) => ChecksKeepInv(s, e);
    case MakeDirectory(_) => ChecksKeepInv(s, e);
    case Detach(_) => ChecksKeepInv(s, e);
    case Compact(_, _, _) => CompactKeepsInv(s, e);
    case Verify => JudgementsKeepInv(s, e);
    case MatchMode(_) => MatchKeepsInv(s, e);
    case Freeze(_) => FreezeKeepsInv(s, e);
    case Scan(_, _) => JudgementsKeepInv(s, e);
    case MoveOriginal(_) => MoveKeepsInv(s, e);
    case SyncMove(_) => SyncsKeepInv(s, e);
    case Install(_) => InstallKeepsInv(s, e);
    case SyncInstall(_) => SyncsKeepInv(s, e);
    case Finish => FinishKeepsInv(s, e);
    case Optimize(_) => OptimizeKeepsInv(s, e);
    case ClientOpens => HandlesKeepInv(s, e);
    case ClientCloses(_) => HandlesKeepInv(s, e);
    case ClientWrites(_, _) => WriteKeepsInv(s, e);
    case ClientCreates(_, _) => CreateKeepsInv(s, e);
    case Crash => CrashKeepsInv(s);
  }
}
