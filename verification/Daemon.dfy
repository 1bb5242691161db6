/** What the daemon's services share: the state devmgr owns, the calls that leave the process, and a
    trace of everything they do. */
module Daemon {
  import opened Models
  import opened DeviceKeys
  import opened StateStores
  import SnapshotStore
  import opened Guard

  // ---------------------------------------------------------------- the trace

  datatype DriverCall =
    | Bind(path: string, driver: string)
    | Unbind(path: string)
    | LoadModule(name: string)
    | UnloadModule(name: string)

  datatype ItemAction = ReApplyDisable | ReEnable | ModprobeWrite | ModprobeRemove

  datatype ItemStatus = ItemOk | GuardRefused | ItemFailed | DeviceAbsent

  // One convergence step of a restore, as its outcome reports it.
  datatype Item = Item(subject: string, action: ItemAction, status: ItemStatus)

  // Who is acting: a verb of the bus interface, or enforcement on its own account.
  datatype Actor = Verb | Enforcement

  // What a call of the guard or of a driver is about.
  datatype Target = OfPath(path: string) | OfModule(name: string)

  // A put that succeeds may be a dedupe; whether its id then reads is SnapshotReadsIff.
  datatype Event =
    | Began(actor: Actor, payload: SnapshotPayload)
    | Granted
    | Denied
    | PutSucceeded(captured: SnapshotPayload, id: string)
    | PutFailed
    | ProbeFailed
    | Judged(path: string, facts: CriticalityFacts, verdict: GuardVerdict)
    | ModuleJudged(name: string, facts: CriticalityFacts, unload: ModuleUnloadFacts, verdict: GuardVerdict)
    | SetEnabled(path: string, enabled: bool, hint: string, ok: bool)
    | DriverCalled(call: DriverCall, ok: bool)
    | EntriesChanged(before: Entries, after: Entries)
    | FileWritten(name: string)
    | FileRemoved(name: string)
    | Reported(item: Item)

  type Trace = seq<Event>

  // A change of hardware, loaded modules, the entry list or the modprobe files.
  predicate IsMutation(e: Event) {
    e.SetEnabled? || e.DriverCalled? || e.EntriesChanged? || e.FileWritten? || e.FileRemoved?
  }

  // ---------------------------------------------------------------- the environment

  /** Everything the services cannot see coming. Each answer is chosen for the moment of the call,
      which is the length of the trace. */
  datatype Env = Env(
    authority: nat -> Result<bool>,
    probe: nat -> Result<CriticalityFacts>,
    enumerate: nat -> Result<seq<Device>>,
    canonical: string -> Result<string>,
    isDirectory: (nat, string) -> bool,
    sysfs: (nat, string) -> Device,
    controller: nat -> Result<Option<string>>,
    drivers: nat -> Result<()>,
    loaded: nat -> Result<Option<(seq<string>, int)>>,
    devicesUsing: nat -> Result<seq<string>>,
    saves: nat -> Written,
    writes: nat -> Written,
    removes: nat -> bool,
    disk: nat -> SnapshotStore.Disk,
    now: nat -> int)

  // The modprobe files are all regular files of the directory, devmgr's own and others.
  datatype World = World(state: State, modprobe: map<string, string>, dir: SnapshotStore.Directory, trace: Trace)

  function Now(w: World): nat {
    |w.trace|
  }

  function Do(w: World, e: Event): World {
    w.(trace := w.trace + [e])
  }

  // ---------------------------------------------------------------- what devmgr owns

  predicate EndsWith(s: string, suffix: string) {
    |suffix| <= |s| && s[|s| - |suffix|..] == suffix
  }

  predicate IsDevmgrOwned(fileName: string) {
    "devmgr-" <= fileName && EndsWith(fileName, ".conf")
  }

  /** devmgr's own files are those with its prefix and the ending of a modprobe file. */
  lemma OwnedIff(fileName: string)
    ensures IsDevmgrOwned(fileName) <==> exists middle :: fileName == "devmgr-" + middle + ".conf"
  {
    if IsDevmgrOwned(fileName) {
      var n := |fileName| - 5;
      assert fileName[n..] == ".conf" && fileName[..7] == "devmgr-";
      assert n >= 7 by {
        assert forall i :: n <= i < |fileName| ==> fileName[i] == ".conf"[i - n];
        assert fileName[n] == '.';
        assert forall i :: 0 <= i < 7 ==> fileName[i] == "devmgr-"[i];
      }
      assert fileName == "devmgr-" + fileName[7..n] + ".conf";
    }
    if middle :| fileName == "devmgr-" + middle + ".conf" {
      assert fileName[..7] == "devmgr-" && fileName[|fileName| - 5..] == ".conf";
    }
  }

  function Owned(modprobe: map<string, string>): map<string, string> {
    map name | name in modprobe && IsDevmgrOwned(name) :: modprobe[name]
  }

  function Unowned(modprobe: map<string, string>): map<string, string> {
    map name | name in modprobe && !IsDevmgrOwned(name) :: modprobe[name]
  }

  function Capture(w: World): SnapshotPayload {
    SnapshotPayload(w.state.entries, Owned(w.modprobe))
  }

  // ---------------------------------------------------------------- calls

  function SaveEntries(w: World, entries: Entries, env: Env): (World, Result<()>) {
    var (state, r) := Save(w.state, entries, env.saves(Now(w)));
    (Do(w, EntriesChanged(w.state.entries, entries)).(state := state), r)
  }

  function UpdateEntry(w: World, key: DeviceKey, change: Change, env: Env): (World, Result<()>) {
    if HasKey(w.state.entries, key) then SaveEntries(w, Updated(w.state.entries, key, change), env)
    else (w, Failure(NotFound))
  }

  function CallSetEnabled(w: World, path: string, enabled: bool, hint: string, env: Env)
    : (World, Result<Option<string>>)
  {
    var r := env.controller(Now(w));
    (Do(w, SetEnabled(path, enabled, hint, r.Success?)), r)
  }

  function CallDriver(w: World, call: DriverCall, env: Env): (World, Result<()>) {
    var r := env.drivers(Now(w));
    (Do(w, DriverCalled(call, r.Success?)), r)
  }

  function Judge(w: World, path: string, env: Env): (World, Result<GuardVerdict>) {
    match env.probe(Now(w))
    case Failure(code) => (Do(w, ProbeFailed), Failure(code))
    case Success(facts) =>
      var verdict := EvaluateDisable(facts, path);
      (Do(w, Judged(path, facts, verdict)), Success(verdict))
  }

  // SnapshotService::create
  function TakeSnapshot(hash: SnapshotStore.Hash, w: World, trigger: SnapshotTrigger, reason: SnapshotReason, env: Env)
    : (World, Result<string>)
  {
    var payload := Capture(w);
    var (dir, r) := SnapshotStore.Put(hash, w.dir, payload, trigger, reason, env.now(Now(w)), env.disk(Now(w)));
    (Do(w, if r.Success? then PutSucceeded(payload, r.value) else PutFailed).(dir := dir), r)
  }

  // ---------------------------------------------------------------- finding the device of an entry

  function Enumerated(w: World, env: Env): seq<Device> {
    var r := env.enumerate(Now(w));
    if r.Success? then r.value else []
  }

  // A device read from its sysfs attributes.
  function FromSysfs(w: World, path: string, env: Env): Device {
    env.sysfs(Now(w), path).(sysfsPath := path)
  }

  function FirstFor(e: Entry, all: seq<Device>): Option<Device> {
    if all == [] then None
    else if IsFor(e, all[0]) then Some(all[0])
    else FirstFor(e, all[1..])
  }

  // The enumerated device of an entry, or what is at its stored path; None if it is absent.
  function DeviceOf(w: World, e: Entry, all: seq<Device>, env: Env): Option<Device> {
    var found := FirstFor(e, all);
    if found.Some? then found
    else if e.lastSysfsPath == "" || !env.isDirectory(Now(w), e.lastSysfsPath) then None
    else Some(FromSysfs(w, e.lastSysfsPath, env))
  }

  // ---------------------------------------------------------------- re-applying one disable

  datatype ReApplied = AlreadyThere | NotProbed | Suspended | NotSuspended | CallFailed | Applied

  predicate NeedsApply(entry: Entry, device: Device) {
    if entry.mechanism == "authorized" then device.status != Disabled else device.boundDriver.Some?
  }

  function NotePath(w: World, entry: Entry, device: Device, env: Env): World {
    if entry.lastSysfsPath != device.sysfsPath then UpdateEntry(w, entry.key, MovePath(device.sysfsPath), env).0 else w
  }

  function NoteResumed(w: World, entry: Entry, env: Env): World {
    if entry.guardSuspended then UpdateEntry(w, entry.key, Suspend(false), env).0 else w
  }

  /** The steps that restore and enforcement share: skip what is already disabled, ask the guard,
      disable, and bring the entry up to date. */
  function ReApply(w: World, entry: Entry, device: Device, env: Env): (World, ReApplied) {
    if !NeedsApply(entry, device) then (w, AlreadyThere)
    else
      var (asked, answer) := Judge(w, device.sysfsPath, env);
      match answer
      case Failure(_) => (asked, NotProbed)
      case Success(Refused(_)) =>
        var (noted, saved) := UpdateEntry(asked, entry.key, Suspend(true), env);
        (noted, if saved.Success? then Suspended else NotSuspended)
      case Success(Allowed) =>
        var (called, applied) := CallSetEnabled(asked, device.sysfsPath, false, "", env);
        if applied.Failure? then (called, CallFailed)
        else (NoteResumed(NotePath(called, entry, device, env), entry, env), Applied)
  }

  // ---------------------------------------------------------------- what a trace must show

  // Every disable and every unload since `start` comes after an allowing verdict of the guard on the same
  // path or module, with none of them in between.
  ghost predicate Guarded(trace: Trace, start: nat) {
    forall k :: start <= k < |trace| && IsRemoval(trace[k]) ==> JudgedBefore(trace, start, k)
  }

  predicate IsDisable(e: Event) {
    (e.SetEnabled? && !e.enabled) || (e.DriverCalled? && e.call.Unbind?)
  }

  predicate IsRemoval(e: Event) {
    IsDisable(e) || (e.DriverCalled? && e.call.UnloadModule?)
  }

  function DisabledPath(e: Event): string
    requires IsDisable(e)
  {
    if e.SetEnabled? then e.path else e.call.path
  }

  function TargetOf(e: Event): Target
    requires IsRemoval(e)
  {
    if IsDisable(e) then OfPath(DisabledPath(e)) else OfModule(e.call.name)
  }

  ghost predicate JudgedBefore(trace: Trace, start: nat, k: nat)
    requires k < |trace| && IsRemoval(trace[k])
  {
    IsCleared(trace, start, k, TargetOf(trace[k]))
  }

  // Between `start` and n the guard allowed this target, and nothing was removed after that.
  ghost predicate IsCleared(trace: Trace, start: nat, n: nat, target: Target) {
    exists j :: start <= j < n <= |trace| && IsAllowance(trace[j], target) && NoRemoval(trace, j, n)
  }

  ghost predicate NoRemoval(trace: Trace, start: nat, end: nat) {
    forall k :: start <= k < end && k < |trace| ==> !IsRemoval(trace[k])
  }

  lemma ClearedStays(before: Trace, after: Trace, start: nat, n: nat, target: Target)
    requires before <= after && IsCleared(before, start, n, target)
    ensures IsCleared(after, start, n, target)
  {
    var j :| start <= j < n <= |before| && IsAllowance(before[j], target) && NoRemoval(before, j, n);
    assert IsAllowance(after[j], target) && NoRemoval(after, j, n);
  }

  lemma StillCleared(trace: Trace, start: nat, n: nat, later: nat, target: Target)
    requires IsCleared(trace, start, n, target) && n <= later <= |trace| && NoRemoval(trace, n, later)
    ensures IsCleared(trace, start, later, target)
  {
    var j :| start <= j < n && IsAllowance(trace[j], target) && NoRemoval(trace, j, n);
    assert NoRemoval(trace, j, later);
  }

  predicate IsAllowance(e: Event, target: Target) {
    match target
    case OfPath(path) =>
      e.Judged? && e.path == path && e.verdict == Allowed && EvaluateDisable(e.facts, path) == Allowed
    case OfModule(name) =>
      e.ModuleJudged? && e.name == name && e.verdict == Allowed && ModuleVerdict(e.facts, e.unload) == Allowed
  }

  lemma PrefixChains(a: Trace, b: Trace, c: Trace)
    requires a <= b && b <= c
    ensures a <= c
  {
    assert c[..|a|] == c[..|b|][..|a|];
  }

  lemma DoAppends(w: World, e: Event)
    ensures w.trace <= Do(w, e).trace
  {
  }

  // One more event keeps a trace guarded unless it is a removal that nobody judged.
  lemma GuardedDo(w: World, start: nat, e: Event)
    requires Guarded(w.trace, start)
    requires IsRemoval(e) ==> IsCleared(w.trace, start, |w.trace|, TargetOf(e))
    ensures Guarded(Do(w, e).trace, start)
  {
    var trace := Do(w, e).trace;
    forall k | start <= k < |trace| && IsRemoval(trace[k])
      ensures JudgedBefore(trace, start, k)
    {
      if k < |w.trace| {
        assert JudgedBefore(w.trace, start, k);
      }
      ClearedStays(w.trace, trace, start, k, TargetOf(trace[k]));
    }
  }

  ghost predicate NoMutation(trace: Trace, start: nat, end: nat) {
    forall k :: start <= k < end && k < |trace| ==> !IsMutation(trace[k])
  }

  // What a step between two worlds keeps: the trace grows, stays guarded, and shows if the entries,
  // state.json or the modprobe files have changed.
  ghost predicate Keeps(w: World, after: World, start: nat) {
    && w.trace <= after.trace && NoBeginning(after.trace, |w.trace|)
    && (Guarded(w.trace, start) ==> Guarded(after.trace, start))
    && (NoMutation(after.trace, |w.trace|, |after.trace|) ==> after.state == w.state && after.modprobe == w.modprobe)
  }

  ghost predicate NoBeginning(trace: Trace, start: nat) {
    forall k :: start <= k < |trace| ==> !trace[k].Began?
  }

  lemma KeepsChains(a: World, b: World, c: World, start: nat)
    requires Keeps(a, b, start) && Keeps(b, c, start)
    ensures Keeps(a, c, start)
  {
    PrefixChains(a.trace, b.trace, c.trace);
    forall k | 0 <= k < |b.trace|
      ensures c.trace[k] == b.trace[k]
    {
      assert c.trace[k] == c.trace[..|b.trace|][k];
    }
  }

  // One event that removes nothing, and is a change if the world it leads to differs.
  lemma QuietKeeps(w: World, e: Event, after: World, start: nat)
    requires after.trace == w.trace + [e] && !IsRemoval(e) && !e.Began?
    requires IsMutation(e) || (after.state == w.state && after.modprobe == w.modprobe)
    ensures Keeps(w, after, start)
  {
    if Guarded(w.trace, start) {
      GuardedDo(w, start, e);
    }
    assert after.trace[|w.trace|] == e;
  }

  // A removal of something that was judged.
  lemma RemovalKeeps(w: World, e: Event, after: World, start: nat)
    requires after.trace == w.trace + [e] && IsRemoval(e)
    requires IsCleared(w.trace, start, |w.trace|, TargetOf(e))
    ensures Keeps(w, after, start)
  {
    if Guarded(w.trace, start) {
      GuardedDo(w, start, e);
    }
    assert after.trace[|w.trace|] == e;
  }

  // ---------------------------------------------------------------- re-applying keeps what it must

  // The entries change at most in what enforcement keeps current; all else stays.
  ghost predicate Touches(w: World, after: World) {
    SimilarLists(w.state.entries, after.state.entries) && after.modprobe == w.modprobe && after.dir == w.dir
  }

  lemma TouchesChains(a: World, b: World, c: World)
    requires Touches(a, b) && Touches(b, c)
    ensures Touches(a, c)
  {
    SimilarChains(a.state.entries, b.state.entries, c.state.entries);
  }

  lemma UpdateEntryTouches(w: World, key: DeviceKey, change: Change, env: Env, start: nat)
    ensures var after := UpdateEntry(w, key, change, env).0; Touches(w, after) && Keeps(w, after, start)
  {
    UpdatedIsSimilar(w.state.entries, key, change);
    hide Updated, Guarded;
    if HasKey(w.state.entries, key) {
      QuietKeeps(w, EntriesChanged(w.state.entries, Updated(w.state.entries, key, change)),
                 UpdateEntry(w, key, change, env).0, start);
    }
  }

  lemma CallAfterAllowed(w: World, path: string, env: Env, start: nat)
    requires start <= |w.trace|
    ensures var (asked, answer) := Judge(w, path, env);
      && Touches(w, asked) && Keeps(w, asked, start)
      && (answer == Success(Allowed) ==> Keeps(asked, CallSetEnabled(asked, path, false, "", env).0, start))
  {
    var (asked, answer) := Judge(w, path, env);
    QuietKeeps(w, asked.trace[|w.trace|], asked, start);
    if answer == Success(Allowed) {
      assert IsAllowance(asked.trace[|w.trace|], OfPath(path)) && NoRemoval(asked.trace, |w.trace|, |asked.trace|);
      RemovalKeeps(asked, SetEnabled(path, false, "", env.controller(Now(asked)).Success?),
                   CallSetEnabled(asked, path, false, "", env).0, start);
    }
  }

  lemma ReApplyTouches(w: World, entry: Entry, device: Device, env: Env, start: nat)
    requires start <= |w.trace|
    ensures var after := ReApply(w, entry, device, env).0; Touches(w, after) && Keeps(w, after, start)
  {
    hide Judge, UpdateEntry, Keeps, SimilarLists;
    SameTouches(w, start);
    if NeedsApply(entry, device) {
      var (asked, answer) := Judge(w, device.sysfsPath, env);
      CallAfterAllowed(w, device.sysfsPath, env, start);
      match answer
      case Failure(_) =>
      case Success(Refused(_)) =>
        UpdateEntryTouches(asked, entry.key, Suspend(true), env, start);
        Chain3(w, asked, UpdateEntry(asked, entry.key, Suspend(true), env).0, start);
      case Success(Allowed) =>
        var (called, applied) := CallSetEnabled(asked, device.sysfsPath, false, "", env);
        SameTouches(asked, start);
        assert Touches(asked, called);
        Chain3(w, asked, called, start);
        if applied.Success? {
          NotesTouch(called, entry, device, env, start);
          Chain3(w, called, NoteResumed(NotePath(called, entry, device, env), entry, env), start);
        }
    }
  }

  lemma SameTouches(w: World, start: nat)
    ensures Touches(w, w) && Keeps(w, w, start)
  {
  }

  lemma Chain3(a: World, b: World, c: World, start: nat)
    requires Touches(a, b) && Keeps(a, b, start) && Touches(b, c) && Keeps(b, c, start)
    ensures Touches(a, c) && Keeps(a, c, start)
  {
    TouchesChains(a, b, c);
    KeepsChains(a, b, c, start);
  }

  lemma NotesTouch(w: World, entry: Entry, device: Device, env: Env, start: nat)
    ensures var after := NoteResumed(NotePath(w, entry, device, env), entry, env);
      Touches(w, after) && Keeps(w, after, start)
  {
    hide UpdateEntry, Touches, Keeps;
    var moved := NotePath(w, entry, device, env);
    SameTouches(w, start);
    UpdateEntryTouches(w, entry.key, MovePath(device.sysfsPath), env, start);
    SameTouches(moved, start);
    UpdateEntryTouches(moved, entry.key, Suspend(false), env, start);
    Chain3(w, moved, NoteResumed(moved, entry, env), start);
  }

  lemma UpdateEntryLooksUp(w: World, key: DeviceKey, change: Change, env: Env, other: DeviceKey)
    ensures var after := UpdateEntry(w, key, change, env).0;
      Lookup(after.state.entries, other)
      == if other == key && Lookup(w.state.entries, key).Some?
         then Some(Altered(change, Lookup(w.state.entries, key).value)) else Lookup(w.state.entries, other)
  {
    LookupHas(w.state.entries, key);
    UpdateLooksUp(w.state.entries, key, change, other);
  }

  /** What a re-apply leaves of its entry: after a disable the path is the device's and the entry is
      not suspended; after a refusal it is suspended; otherwise, and for every other key, nothing
      has changed. */
  lemma ReApplyRecords(w: World, entry: Entry, device: Device, env: Env, other: DeviceKey)
    requires Lookup(w.state.entries, entry.key) == Some(entry)
    ensures var (after, r) := ReApply(w, entry, device, env);
      Lookup(after.state.entries, other)
      == if other != entry.key then Lookup(w.state.entries, other)
         else match r
              case Applied => Some(entry.(lastSysfsPath := device.sysfsPath, guardSuspended := false))
              case Suspended => Some(entry.(guardSuspended := true))
              case NotSuspended => Some(entry.(guardSuspended := true))
              case _ => Some(entry)
  {
    hide UpdateEntry, EvaluateDisable;
    if NeedsApply(entry, device) {
      var (asked, answer) := Judge(w, device.sysfsPath, env);
      UpdateEntryLooksUp(asked, entry.key, Suspend(true), env, other);
      var called := CallSetEnabled(asked, device.sysfsPath, false, "", env).0;
      var moved := NotePath(called, entry, device, env);
      UpdateEntryLooksUp(called, entry.key, MovePath(device.sysfsPath), env, other);
      UpdateEntryLooksUp(called, entry.key, MovePath(device.sysfsPath), env, entry.key);
      UpdateEntryLooksUp(moved, entry.key, Suspend(false), env, other);
    }
  }

  // ---------------------------------------------------------------- the running daemon

  /** The stores and the outside, as the services use them. */
  class Host {
    const store: SnapshotStore.JsonSnapshotStore
    const state: StateStore
    var modprobe: map<string, string>
    var trace: Trace

    constructor (store: SnapshotStore.JsonSnapshotStore, state: StateStore, modprobe: map<string, string>)
      ensures this.store == store && this.state == state
      ensures W() == World(state.Value(), modprobe, store.Dir(), [])
    {
      this.store, this.state, this.modprobe, trace := store, state, modprobe, [];
    }

    ghost function W(): World
      reads this, state, store
    {
      World(state.Value(), modprobe, store.Dir(), trace)
    }

    method Note(e: Event)
      modifies this`trace
      ensures W() == Do(old(W()), e)
    {
      trace := trace + [e];
    }

    method CapturePayload() returns (payload: SnapshotPayload)
      ensures payload == Capture(W())
    {
      var files := map[];
      var names := modprobe.Keys;
      while names != {}
        invariant names <= modprobe.Keys
        invariant files == map name | name in modprobe && IsDevmgrOwned(name) && name !in names :: modprobe[name]
        decreases names
      {
        var name :| name in names;
        if IsDevmgrOwned(name) {
          files := files[name := modprobe[name]];
        }
        names := names - {name};
      }
      payload := SnapshotPayload(state.entries, files);
    }

    method Snapshot(trigger: SnapshotTrigger, reason: SnapshotReason, env: Env) returns (r: Result<string>)
      modifies this`trace, store
      ensures (W(), r) == TakeSnapshot(store.hash, old(W()), trigger, reason, env)
    {
      hide SnapshotStore.Put;
      var payload := CapturePayload();
      r := store.PutPayload(payload, trigger, reason, env.now(|trace|), env.disk(|trace|));
      Note(if r.Success? then PutSucceeded(payload, r.value) else PutFailed);
    }

    method CallController(path: string, enabled: bool, hint: string, env: Env) returns (r: Result<Option<string>>)
      modifies this`trace
      ensures (W(), r) == CallSetEnabled(old(W()), path, enabled, hint, env)
    {
      r := env.controller(|trace|);
      Note(SetEnabled(path, enabled, hint, r.Success?));
    }

    method AskGuard(path: string, env: Env) returns (r: Result<GuardVerdict>)
      modifies this`trace
      ensures (W(), r) == Judge(old(W()), path, env)
    {
      var facts := env.probe(|trace|);
      if facts.Failure? {
        Note(ProbeFailed);
        return Failure(facts.code);
      }
      var verdict := EvaluateDisable(facts.value, path);
      Note(Judged(path, facts.value, verdict));
      r := Success(verdict);
    }

    method Update(key: DeviceKey, change: Change, env: Env) returns (r: Result<()>)
      modifies this`trace, state
      ensures (W(), r) == UpdateEntry(old(W()), key, change, env)
    {
      var before := state.entries;
      r := state.UpdateFirst(key, change, env.saves(|trace|));
      if HasKey(before, key) {
        Note(EntriesChanged(before, state.entries));
      }
    }

    method FindDevice(e: Entry, all: seq<Device>, env: Env) returns (r: Option<Device>)
      ensures r == DeviceOf(W(), e, all, env)
    {
      for i := 0 to |all|
        invariant FirstFor(e, all) == FirstFor(e, all[i..])
      {
        if IsFor(e, all[i]) {
          return Some(all[i]);
        }
        assert all[i..][1..] == all[i + 1..];
      }
      if e.lastSysfsPath == "" || !env.isDirectory(|trace|, e.lastSysfsPath) {
        return None;
      }
      r := Some(env.sysfs(|trace|, e.lastSysfsPath).(sysfsPath := e.lastSysfsPath));
    }

    method ReApplyEntry(entry: Entry, device: Device, env: Env) returns (r: ReApplied)
      modifies this`trace, state
      ensures (W(), r) == ReApply(old(W()), entry, device, env)
    {
      hide Updated, EvaluateDisable;
      if !NeedsApply(entry, device) {
        return AlreadyThere;
      }
      var answer := AskGuard(device.sysfsPath, env);
      if answer.Failure? {
        return NotProbed;
      }
      if answer.value.Refused? {
        var saved := Update(entry.key, Suspend(true), env);
        return if saved.Success? then Suspended else NotSuspended;
      }
      var applied := CallController(device.sysfsPath, false, "", env);
      if applied.Failure? {
        return CallFailed;
      }
      BringUpToDate(entry, device, env);
      r := Applied;
    }

    method BringUpToDate(entry: Entry, device: Device, env: Env)
      modifies this`trace, state
      ensures W() == NoteResumed(NotePath(old(W()), entry, device, env), entry, env)
    {
      hide UpdateEntry;
      if entry.lastSysfsPath != device.sysfsPath {
        var _ := Update(entry.key, MovePath(device.sysfsPath), env);
      }
      if entry.guardSuspended {
        var _ := Update(entry.key, Suspend(false), env);
      }
    }
  }
}
