/** Installing and removing the spawn gate's hook in the editor's settings file (`install_agent_gate`). */
module GateSettings {
  import opened Options

  const HOOK_SUFFIX := "agent-spawn-gate --pretooluse-hook"
  const GATE_MATCHER := "Agent|Task"

  /** A hook: its command, empty if it has none, and whatever else it carries. */
  datatype Hook = Hook(command: string, rest: map<string, string>)

  /** A matcher group: its hooks, and its other fields, which go along untouched. */
  datatype Group = Group(fields: map<string, string>, hooks: seq<Hook>)

  /** The `hooks` object: the groups of the PreToolUse event, absent or present, and all other events. */
  datatype Hooks = Hooks(preToolUse: Option<seq<Group>>, others: map<string, string>)

  datatype Settings = Settings(hooks: Option<Hooks>, others: map<string, string>)

  predicate EndsWith(s: string, suffix: string) {
    |s| >= |suffix| && s[|s| - |suffix|..] == suffix
  }

  predicate Managed(h: Hook) {
    EndsWith(h.command, HOOK_SUFFIX)
  }

  function GroupsOf(s: Settings): seq<Group> {
    if s.hooks.Some? && s.hooks.value.preToolUse.Some? then s.hooks.value.preToolUse.value else []
  }

  function OtherEvents(s: Settings): map<string, string> {
    if s.hooks.Some? then s.hooks.value.others else map[]
  }

  predicate Found(groups: seq<Group>) {
    exists g, h :: g in groups && h in g.hooks && Managed(h)
  }

  // ---------------------------------------------------------------- what is to happen

  function Unmanaged(hooks: seq<Hook>): seq<Hook> {
    if hooks == [] then [] else
    (if Managed(hooks[0]) then [] else [hooks[0]]) + Unmanaged(hooks[1..])
  }

  /** The groups without the managed hooks, and without the groups that leaves empty. */
  function Stripped(groups: seq<Group>): seq<Group> {
    if groups == [] then [] else
    var kept := Unmanaged(groups[0].hooks);
    (if kept == [] then [] else [groups[0].(hooks := kept)]) + Stripped(groups[1..])
  }

  /** The settings with these groups, leaving out an empty event list and an empty `hooks`. */
  function With(s: Settings, groups: seq<Group>): Settings {
    if groups != [] then s.(hooks := Some(Hooks(Some(groups), OtherEvents(s)))) else
    if OtherEvents(s) != map[] then s.(hooks := Some(Hooks(None, OtherEvents(s)))) else s.(hooks := None)
  }

  /** No empty group, no empty event list, no empty `hooks`. */
  predicate Normal(s: Settings) {
    && (forall g :: g in GroupsOf(s) ==> g.hooks != [])
    && (s.hooks.Some? ==>
         && (s.hooks.value.preToolUse.Some? ==> s.hooks.value.preToolUse.value != [])
         && (s.hooks.value.preToolUse.None? ==> s.hooks.value.others != map[]))
  }

  function GateHook(binary: string): Hook {
    Hook("env SPENDGUARD_NO_AUTOINSTALL=1 " + binary + " " + HOOK_SUFFIX, map["type" := "command", "timeout" := "30"])
  }

  function GateGroup(binary: string): Group {
    Group(map["matcher" := GATE_MATCHER], [GateHook(binary)])
  }

  function Installed(s: Settings, binary: string): Settings {
    if Found(GroupsOf(s)) then s else s.(hooks := Some(Hooks(Some(GroupsOf(s) + [GateGroup(binary)]), OtherEvents(s))))
  }

  function Uninstalled(s: Settings): Settings {
    if Found(GroupsOf(s)) then With(s, Stripped(GroupsOf(s))) else s
  }

  /** Every hook with the fields of its group, in order. */
  function Flat(groups: seq<Group>): seq<(map<string, string>, Hook)> {
    if groups == [] then [] else FlatGroup(groups[0].fields, groups[0].hooks) + Flat(groups[1..])
  }

  function FlatGroup(fields: map<string, string>, hooks: seq<Hook>): seq<(map<string, string>, Hook)> {
    if hooks == [] then [] else [(fields, hooks[0])] + FlatGroup(fields, hooks[1..])
  }

  function Foreign(flat: seq<(map<string, string>, Hook)>): seq<(map<string, string>, Hook)> {
    if flat == [] then [] else (if Managed(flat[0].1) then [] else [flat[0]]) + Foreign(flat[1..])
  }

  // ---------------------------------------------------------------- the operation

  datatype File = Missing | Unparsable(text: string) | Parsed(settings: Settings)

  datatype Action = InstalledNow | UninstalledNow | AlreadyInstalled | AlreadyAbsent | Refused

  class SettingsFile {
    var file: File
    var backup: Option<File>

    constructor (file: File)
      ensures this.file == file && backup.None?
    {
      this.file, backup := file, None;
    }

    /** Before a changed write, the file is copied aside. */
    method Write(s: Settings)
      modifies this
      ensures file == Parsed(s) && backup == if old(file).Missing? then old(backup) else Some(old(file))
    {
      if !file.Missing? {
        backup := Some(file);
      }
      file := Parsed(s);
    }

    method InstallAgentGate(uninstall: bool, binary: string) returns (action: Action)
      modifies this
      ensures action.Refused? <==> old(file).Unparsable?
      ensures !action.Refused? ==>
        var s := if old(file).Parsed? then old(file).settings else Settings(None, map[]);
        && (action.AlreadyInstalled? <==> !uninstall && Found(GroupsOf(s)))
        && (action.AlreadyAbsent? <==> uninstall && !Found(GroupsOf(s)))
        && (action.InstalledNow? || action.UninstalledNow? ==>
             && file == Parsed(if uninstall then Uninstalled(s) else Installed(s, binary))
             && backup == if old(file).Missing? then old(backup) else Some(old(file)))
      ensures action.Refused? || action.AlreadyInstalled? || action.AlreadyAbsent? ==> file == old(file) && backup == old(backup)
    {
      if file.Unparsable? {
        return Refused;
      }
      var s := if file.Parsed? then file.settings else Settings(None, map[]);
      var groups := GroupsOf(s);
      var found := FindManaged(groups);
      if uninstall {
        var revised := Strip(groups);
        if !found {
          return AlreadyAbsent;
        }
        Write(With(s, revised));
        return UninstalledNow;
      }
      if found {
        return AlreadyInstalled;
      }
      Write(s.(hooks := Some(Hooks(Some(groups + [GateGroup(binary)]), OtherEvents(s)))));
      return InstalledNow;
    }
  }

  method FindManaged(groups: seq<Group>) returns (found: bool)
    ensures found == Found(groups)
  {
    for i := 0 to |groups|
      invariant !Found(groups[..i])
    {
      assert groups[..i + 1] == groups[..i] + [groups[i]];
      for j := 0 to |groups[i].hooks|
        invariant forall h :: h in groups[i].hooks[..j] ==> !Managed(h)
      {
        if Managed(groups[i].hooks[j]) {
          assert groups[i] in groups && groups[i].hooks[j] in groups[i].hooks;
          return true;
        }
      }
    }
    assert groups[..|groups|] == groups;
    return false;
  }

  /** The removal loop: each group with its foreign hooks, if it has any. */
  method Strip(groups: seq<Group>) returns (revised: seq<Group>)
    ensures revised == Stripped(groups)
  {
    revised := [];
    for i := 0 to |groups|
      invariant revised + Stripped(groups[i..]) == Stripped(groups)
    {
      var kept := KeepForeign(groups[i].hooks);
      assert groups[i..][1..] == groups[i + 1..];
      if kept != [] {
        revised := revised + [groups[i].(hooks := kept)];
      }
    }
  }

  method KeepForeign(hooks: seq<Hook>) returns (kept: seq<Hook>)
    ensures kept == Unmanaged(hooks)
  {
    kept := [];
    for i := 0 to |hooks|
      invariant kept + Unmanaged(hooks[i..]) == Unmanaged(hooks)
    {
      assert hooks[i..][1..] == hooks[i + 1..];
      if !Managed(hooks[i]) {
        kept := kept + [hooks[i]];
      }
    }
  }

  // ---------------------------------------------------------------- what it promises

  lemma GateHookManaged(binary: string)
    ensures Managed(GateHook(binary))
  {
  }

  /** After installing the gate is there, every hook that was there still is, in order, and installing again changes nothing. */
  lemma InstallIsIdempotent(s: Settings, binary: string, other: string)
    ensures var after := Installed(s, binary);
      && Found(GroupsOf(after)) && Installed(after, other) == after
      && GroupsOf(s) <= GroupsOf(after) && OtherEvents(after) == OtherEvents(s) && after.others == s.others
  {
    if !Found(GroupsOf(s)) {
      GateHookManaged(binary);
      var after := Installed(s, binary);
      assert GateGroup(binary) in GroupsOf(after) && GateHook(binary) in GateGroup(binary).hooks;
    }
  }

  lemma {:induction false} FlatForeign(fields: map<string, string>, hooks: seq<Hook>)
    ensures Foreign(FlatGroup(fields, hooks)) == FlatGroup(fields, Unmanaged(hooks))
  {
    if hooks != [] {
      FlatForeign(fields, hooks[1..]);
      assert FlatGroup(fields, hooks)[1..] == FlatGroup(fields, hooks[1..]);
      if !Managed(hooks[0]) {
        assert Unmanaged(hooks)[1..] == Unmanaged(hooks[1..]);
      } else {
        assert Unmanaged(hooks) == Unmanaged(hooks[1..]);
        assert Foreign(FlatGroup(fields, hooks)) == Foreign(FlatGroup(fields, hooks[1..]));
      }
    }
  }

  lemma {:induction false} ForeignAppend(a: seq<(map<string, string>, Hook)>, b: seq<(map<string, string>, Hook)>)
    ensures Foreign(a + b) == Foreign(a) + Foreign(b)
  {
    if a == [] {
      assert a + b == b;
    } else {
      assert (a + b)[1..] == a[1..] + b;
      ForeignAppend(a[1..], b);
    }
  }

  lemma {:induction false} StrippedFlat(groups: seq<Group>)
    ensures Flat(Stripped(groups)) == Foreign(Flat(groups))
  {
    if groups != [] {
      StrippedFlat(groups[1..]);
      FlatForeign(groups[0].fields, groups[0].hooks);
      ForeignAppend(FlatGroup(groups[0].fields, groups[0].hooks), Flat(groups[1..]));
      var kept := Unmanaged(groups[0].hooks);
      if kept != [] {
        assert Stripped(groups)[1..] == Stripped(groups[1..]);
      } else {
        assert Stripped(groups) == Stripped(groups[1..]);
        assert Foreign(FlatGroup(groups[0].fields, groups[0].hooks)) == [];
        assert [] + Flat(Stripped(groups[1..])) == Flat(Stripped(groups[1..]));
      }
    }
  }

  lemma {:induction false} UnmanagedClean(hooks: seq<Hook>)
    ensures forall h :: h in Unmanaged(hooks) ==> !Managed(h)
    ensures (forall h :: h in hooks ==> !Managed(h)) ==> Unmanaged(hooks) == hooks
  {
    if hooks != [] {
      UnmanagedClean(hooks[1..]);
      assert hooks == [hooks[0]] + hooks[1..];
    }
  }

  lemma {:induction false} StrippedClean(groups: seq<Group>)
    ensures !Found(Stripped(groups))
    ensures forall g :: g in Stripped(groups) ==> g.hooks != []
  {
    if groups != [] {
      StrippedClean(groups[1..]);
      UnmanagedClean(groups[0].hooks);
      var kept := Unmanaged(groups[0].hooks);
      forall g | g in Stripped(groups)
        ensures g.hooks != [] && forall h :: h in g.hooks ==> !Managed(h)
      {
        if g in Stripped(groups[1..]) {
          assert forall h :: h in g.hooks ==> !Managed(h);
        }
      }
    }
  }

  lemma {:induction false} NoManagedFlat(groups: seq<Group>)
    requires !Found(groups)
    ensures Foreign(Flat(groups)) == Flat(groups)
  {
    if groups != [] {
      assert groups == [groups[0]] + groups[1..];
      NoManagedFlat(groups[1..]);
      UnmanagedClean(groups[0].hooks);
      FlatForeign(groups[0].fields, groups[0].hooks);
      ForeignAppend(FlatGroup(groups[0].fields, groups[0].hooks), Flat(groups[1..]));
    }
  }

  /** For any settings, uninstalling removes exactly the managed hooks: every other hook stays, in order and under its
      group's fields, as do all other events and settings. */
  lemma UninstallRemovesExactly(s: Settings)
    ensures var after := Uninstalled(s);
      && Flat(GroupsOf(after)) == Foreign(Flat(GroupsOf(s))) && !Found(GroupsOf(after))
      && OtherEvents(after) == OtherEvents(s) && after.others == s.others
  {
    hide Flat, Foreign, Stripped, Found;
    StrippedFlat(GroupsOf(s));
    StrippedClean(GroupsOf(s));
    if !Found(GroupsOf(s)) {
      NoManagedFlat(GroupsOf(s));
    }
  }

  /** Uninstalling what was there is in normal form; when nothing was there the settings are left as they are, normal or not. */
  lemma UninstallNormalIff(s: Settings)
    ensures Normal(Uninstalled(s)) <==> Found(GroupsOf(s)) || Normal(s)
  {
    StrippedClean(GroupsOf(s));
  }

  lemma {:induction false} StrippedAppend(a: seq<Group>, b: seq<Group>)
    ensures Stripped(a + b) == Stripped(a) + Stripped(b)
  {
    if a == [] {
      assert a + b == b;
    } else {
      assert (a + b)[1..] == a[1..] + b;
      StrippedAppend(a[1..], b);
    }
  }

  /** Uninstalling after installing gives the normal form of the settings without managed hooks, whatever they were. */
  lemma RoundTrip(s: Settings, binary: string)
    ensures Uninstalled(Installed(s, binary)) == With(s, Stripped(GroupsOf(s)))
  {
    InstallIsIdempotent(s, binary, binary);
    if !Found(GroupsOf(s)) {
      GateStripped(GroupsOf(s), binary);
      hide Stripped, Found;
    }
  }

  lemma GateStripped(groups: seq<Group>, binary: string)
    ensures Stripped(groups + [GateGroup(binary)]) == Stripped(groups)
  {
    GateHookManaged(binary);
    var gate := GateGroup(binary);
    StrippedAppend(groups, [gate]);
    assert gate.hooks[1..] == [] && [gate][1..] == [];
    assert Unmanaged(gate.hooks) == [];
    assert Stripped([gate]) == [];
    assert Stripped(groups) + [] == Stripped(groups);
  }

  lemma {:induction false} StrippedNothing(groups: seq<Group>)
    requires !Found(groups) && forall g :: g in groups ==> g.hooks != []
    ensures Stripped(groups) == groups
  {
    if groups != [] {
      assert groups == [groups[0]] + groups[1..];
      StrippedNothing(groups[1..]);
      UnmanagedClean(groups[0].hooks);
    }
  }

  /** Settings in normal form without the gate come back exactly. */
  lemma RoundTripExact(s: Settings, binary: string)
    requires !Found(GroupsOf(s))
    ensures Uninstalled(Installed(s, binary)) == s <==> Normal(s)
  {
    RoundTrip(s, binary);
    StrippedClean(GroupsOf(s));
    if Normal(s) {
      StrippedNothing(GroupsOf(s));
    }
  }

  // ---------------------------------------------------------------- in the terms of the settings file

  /** The managed hooks are those whose command ends in the gate's own. */
  lemma ManagedIff(h: Hook)
    ensures Managed(h) <==> exists before: string :: h.command == before + "agent-spawn-gate --pretooluse-hook"
  {
    var n := |h.command| - |HOOK_SUFFIX|;
    if Managed(h) {
      assert h.command == h.command[..n] + HOOK_SUFFIX;
    }
    if before: string :| h.command == before + HOOK_SUFFIX {
      assert h.command[|before|..] == HOOK_SUFFIX;
    }
  }

  /** The list of all hooks goes through the groups in order, and through the hooks of each in order. */
  lemma {:induction false} FlatJoin(a: seq<Group>, b: seq<Group>)
    ensures Flat(a + b) == Flat(a) + Flat(b)
  {
    if a == [] {
      assert a + b == b;
    } else {
      assert (a + b)[1..] == a[1..] + b;
      FlatJoin(a[1..], b);
    }
  }

  lemma {:induction false} FlatGroupIs(fields: map<string, string>, hooks: seq<Hook>)
    ensures |FlatGroup(fields, hooks)| == |hooks|
    ensures forall i :: 0 <= i < |hooks| ==> FlatGroup(fields, hooks)[i] == (fields, hooks[i])
  {
    if hooks != [] {
      FlatGroupIs(fields, hooks[1..]);
      forall i | 0 < i < |hooks|
        ensures FlatGroup(fields, hooks)[i] == (fields, hooks[i])
      {
        assert FlatGroup(fields, hooks)[i] == FlatGroup(fields, hooks[1..])[i - 1];
      }
    }
  }

  lemma FlatOne(g: Group)
    ensures |Flat([g])| == |g.hooks| && forall i :: 0 <= i < |g.hooks| ==> Flat([g])[i] == (g.fields, g.hooks[i])
  {
    assert [g][1..] == [];
    assert Flat([g]) == FlatGroup(g.fields, g.hooks) + [];
    FlatGroupIs(g.fields, g.hooks);
  }

  ghost predicate HasHook(groups: seq<Group>, fields: map<string, string>, h: Hook) {
    exists g :: g in groups && g.fields == fields && h in g.hooks
  }

  lemma {:induction false} FlatHas(groups: seq<Group>)
    ensures forall fields, h :: (fields, h) in Flat(groups) <==> HasHook(groups, fields, h)
  {
    if groups != [] {
      FlatHas(groups[1..]);
      FlatGroupIs(groups[0].fields, groups[0].hooks);
      assert groups == [groups[0]] + groups[1..];
      hide Flat, FlatGroup;
      FlatStep(groups);
      forall fields, h
        ensures (fields, h) in Flat(groups) <==> HasHook(groups, fields, h)
      {
        assert HasHook(groups, fields, h) <==> (groups[0].fields == fields && h in groups[0].hooks) || HasHook(groups[1..], fields, h);
        InGroup(groups[0].fields, groups[0].hooks, fields, h);
      }
    }
  }

  lemma FlatStep(groups: seq<Group>)
    requires groups != []
    ensures Flat(groups) == FlatGroup(groups[0].fields, groups[0].hooks) + Flat(groups[1..])
  {
  }

  lemma InGroup(own: map<string, string>, hooks: seq<Hook>, fields: map<string, string>, h: Hook)
    ensures (fields, h) in FlatGroup(own, hooks) <==> own == fields && h in hooks
  {
    FlatGroupIs(own, hooks);
    if h in hooks {
      var i :| 0 <= i < |hooks| && hooks[i] == h;
      assert FlatGroup(own, hooks)[i] == (own, h);
    }
  }

  lemma {:induction false} ForeignHas(flat: seq<(map<string, string>, Hook)>)
    ensures forall x :: x in Foreign(flat) <==> x in flat && !Managed(x.1)
  {
    if flat != [] {
      ForeignHas(flat[1..]);
      assert flat == [flat[0]] + flat[1..];
    }
  }

  /** After uninstalling, a hook is there exactly if it was there before, in a group with the same fields, and its command does
      not end in the gate's own. */
  lemma UninstalledHooks(s: Settings, fields: map<string, string>, h: Hook)
    ensures HasHook(GroupsOf(Uninstalled(s)), fields, h) <==>
      HasHook(GroupsOf(s), fields, h) && !exists before: string :: h.command == before + "agent-spawn-gate --pretooluse-hook"
  {
    hide Flat, Foreign, Uninstalled, HasHook, Managed;
    UninstallRemovesExactly(s);
    FlatHas(GroupsOf(s));
    FlatHas(GroupsOf(Uninstalled(s)));
    ForeignHas(Flat(GroupsOf(s)));
    ManagedIff(h);
    assert (fields, h) in Flat(GroupsOf(Uninstalled(s))) <==> (fields, h) in Flat(GroupsOf(s)) && !Managed((fields, h).1);
  }

  /** What installing adds, if no hook with the gate's command is there: one last group for the two tools, with one command. */
  lemma InstalledGroup(s: Settings, binary: string)
    ensures var before, after := GroupsOf(s), GroupsOf(Installed(s, binary));
      var gate := Hook("env SPENDGUARD_NO_AUTOINSTALL=1 " + binary + " agent-spawn-gate --pretooluse-hook",
                       map["type" := "command", "timeout" := "30"]);
      after == if exists g, h, start: string :: g in before && h in g.hooks && h.command == start + "agent-spawn-gate --pretooluse-hook"
               then before else before + [Group(map["matcher" := "Agent|Task"], [gate])]
  {
    FoundIff(GroupsOf(s));
    GateCommand(binary);
    hide Found;
  }

  lemma FoundIff(groups: seq<Group>)
    ensures Found(groups) <==>
      exists g, h, start: string :: g in groups && h in g.hooks && h.command == start + "agent-spawn-gate --pretooluse-hook"
  {
    forall h: Hook
      ensures Managed(h) <==> exists start: string :: h.command == start + "agent-spawn-gate --pretooluse-hook"
    {
      ManagedIff(h);
    }
    hide Managed;
  }

  lemma GateCommand(binary: string)
    ensures GateHook(binary).command == "env SPENDGUARD_NO_AUTOINSTALL=1 " + binary + " agent-spawn-gate --pretooluse-hook"
  {
    assert " " + HOOK_SUFFIX == " agent-spawn-gate --pretooluse-hook";
    assert "env SPENDGUARD_NO_AUTOINSTALL=1 " + binary + " " + HOOK_SUFFIX
      == "env SPENDGUARD_NO_AUTOINSTALL=1 " + binary + (" " + HOOK_SUFFIX);
  }
}
