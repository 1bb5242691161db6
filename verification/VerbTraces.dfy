/** What a device, module or driver verb does, read off its trace: which calls it makes, in which
    order, and what its failure code tells (daemon/src/request_processor.cpp). */
module VerbTraces {
  import opened Models
  import opened Validation
  import opened DeviceKeys
  import opened StateStores
  import SnapshotStore
  import opened Guard
  import opened Daemon
  import opened SnapshotServices
  import opened RequestProcessors

  // ---------------------------------------------------------------- the parts of a trace

  // The verb began with event n, and at that moment the guard allowed the path.
  ghost predicate AllowedAt(trace: Trace, at: nat, path: string, env: Env) {
    && at < |trace| && env.probe(at).Success?
    && trace[at] == Judged(path, env.probe(at).value, Allowed)
    && EvaluateDisable(env.probe(at).value, path) == Allowed
  }

  ghost predicate ModuleAllowedAt(trace: Trace, at: nat, name: string, env: Env) {
    && at < |trace| && env.probe(at).Success?
    && env.loaded(at).Success? && env.loaded(at).value.Some? && env.devicesUsing(at).Success?
    && var unload := ModuleUnloadFacts(env.loaded(at).value.value.0, env.loaded(at).value.value.1,
                                       env.devicesUsing(at).value);
       && trace[at] == ModuleJudged(name, env.probe(at).value, unload, Allowed)
       && ModuleVerdict(env.probe(at).value, unload) == Allowed
  }

  // Authorization and the snapshot before the change, taken under this verb and subject.
  ghost predicate LicensedAt(hash: Hash, w: World, after: World, at: nat, verb: string, subject: string, env: Env) {
    && at + 1 < |after.trace| && after.trace[at] == Granted && env.authority(at) == Success(true)
    && var (dir, r) := SnapshotStore.Put(hash, w.dir, Capture(w), Auto, SnapshotReason(verb, subject),
                                         env.now(at + 1), env.disk(at + 1));
       r.Success? && after.dir == dir && after.trace[at + 1] == PutSucceeded(Capture(w), r.value)
  }

  ghost predicate Begins(w: World, after: World) {
    && |w.trace| < |after.trace| && after.trace[..|w.trace|] == w.trace
    && after.trace[|w.trace|] == Began(Verb, Capture(w))
  }

  lemma LicenseIs(hash: Hash, w: World, start: World, verb: string, subject: string, env: Env)
    requires start.state == w.state && start.modprobe == w.modprobe && start.dir == w.dir
    ensures var (licensed, r) := License(hash, start, verb, subject, env);
      && licensed.state == w.state && licensed.modprobe == w.modprobe && start.trace <= licensed.trace
      && (r.Success? ==>
            |licensed.trace| == |start.trace| + 2 && LicensedAt(hash, w, licensed, |start.trace|, verb, subject, env))
  {
    hide SnapshotStore.Put, Owned;
  }

  // What was licensed stays so when events follow and the store is left alone.
  lemma LicenseStays(hash: Hash, w: World, licensed: World, after: World, at: nat, verb: string, subject: string,
                     env: Env)
    requires LicensedAt(hash, w, licensed, at, verb, subject, env)
    requires licensed.trace <= after.trace && after.dir == licensed.dir
    ensures LicensedAt(hash, w, after, at, verb, subject, env)
  {
    hide SnapshotStore.Put, Capture;
    assert forall k :: 0 <= k < |licensed.trace| ==> after.trace[k] == licensed.trace[k];
  }

  predicate IsGuarded(action: Action) {
    match action
    case Disable(_) => true
    case Enable(_) => false
    case Call(call) => call.Unbind? || call.UnloadModule?
  }

  // The guard's answer to a guarded action.
  ghost predicate ClearedAt(trace: Trace, at: nat, action: Action, env: Env) {
    match action
    case Disable(path) => AllowedAt(trace, at, path, env)
    case Call(Unbind(path)) => AllowedAt(trace, at, path, env)
    case Call(UnloadModule(name)) => ModuleAllowedAt(trace, at, name, env)
    case _ => true
  }

  ghost predicate Unchanged(w: World, after: World) {
    after.state == w.state && after.modprobe == w.modprobe && after.dir == w.dir
  }

  lemma GuardIs(w: World, action: Action, env: Env)
    ensures var (guarded, r) := GuardFor(w, action, env);
      && Unchanged(w, guarded) && w.trace <= guarded.trace
      && (r.Success? ==>
            && |guarded.trace| == |w.trace| + (if IsGuarded(action) then 1 else 0)
            && ClearedAt(guarded.trace, |w.trace|, action, env))
  {
    hide EvaluateDisable, ModuleVerdict;
  }

  lemma ClearedLater(before: Trace, after: Trace, at: nat, action: Action, env: Env)
    requires before <= after && at <= |before| && ClearedAt(before, at, action, env)
    ensures ClearedAt(after, at, action, env)
  {
    hide EvaluateDisable, ModuleVerdict;
    if IsGuarded(action) {
      assert at < |before| && after[at] == after[..|before|][at];
    }
  }

  // Everything before the act of a verb that succeeds.
  ghost predicate Prepared(hash: Hash, w: World, licensed: World, action: Action, env: Env) {
    var at := |w.trace| + if IsGuarded(action) then 2 else 1;
    && Begins(w, licensed) && licensed.state == w.state && licensed.modprobe == w.modprobe
    && ClearedAt(licensed.trace, |w.trace| + 1, action, env)
    && LicensedAt(hash, w, licensed, at, VerbOf(action), SubjectOf(action), env)
    && |licensed.trace| == at + 2
  }

  lemma PerformPrepares(hash: Hash, w: World, action: Action, env: Env) returns (licensed: World)
    requires Perform(hash, Begin(w, Verb), action, env).1.Success?
    ensures Prepared(hash, w, licensed, action, env)
    ensures Perform(hash, Begin(w, Verb), action, env) == Act(licensed, action, env)
  {
    hide License, GuardFor, Act, LicensedAt, ClearedAt, Capture;
    var begun := Begin(w, Verb);
    GuardIs(begun, action, env);
    var guarded := GuardFor(begun, action, env).0;
    LicenseIs(hash, w, guarded, VerbOf(action), SubjectOf(action), env);
    licensed := License(hash, guarded, VerbOf(action), SubjectOf(action), env).0;
    ClearedLater(guarded.trace, licensed.trace, |w.trace| + 1, action, env);
    PrefixChains(begun.trace, guarded.trace, licensed.trace);
    BegunBegins(w, licensed);
  }

  lemma BegunBegins(w: World, after: World)
    requires Begin(w, Verb).trace <= after.trace
    ensures Begins(w, after)
  {
    hide Capture;
    var begun := Begin(w, Verb);
    assert after.trace[|w.trace|] == after.trace[..|begun.trace|][|w.trace|];
    assert after.trace[..|w.trace|] == after.trace[..|begun.trace|][..|w.trace|];
  }

  lemma BeginsLater(w: World, licensed: World, after: World)
    requires Begins(w, licensed) && licensed.trace <= after.trace
    ensures Begins(w, after)
  {
    hide Capture;
    assert after.trace[|w.trace|] == after.trace[..|licensed.trace|][|w.trace|];
    assert after.trace[..|w.trace|] == after.trace[..|licensed.trace|][..|w.trace|];
  }

  // ---------------------------------------------------------------- the driver verbs

  // A whole trace: beginning, verdict if there is one, license, and then one call of a driver.
  ghost predicate CallsDriver(hash: Hash, w: World, after: World, at: nat, verb: string, subject: string,
                              call: DriverCall, env: Env) {
    && Begins(w, after) && after.state == w.state && after.modprobe == w.modprobe
    && LicensedAt(hash, w, after, at, verb, subject, env)
    && |after.trace| == at + 3 && after.trace[at + 2] == DriverCalled(call, true) && env.drivers(at + 2).Success?
  }

  lemma DriverTrace(hash: Hash, w: World, call: DriverCall, env: Env)
    requires Perform(hash, Begin(w, Verb), Call(call), env).1.Success?
    ensures var after := Perform(hash, Begin(w, Verb), Call(call), env).0;
      var at := |w.trace| + if IsGuarded(Call(call)) then 2 else 1;
      && CallsDriver(hash, w, after, at, VerbOf(Call(call)), SubjectOf(Call(call)), call, env)
      && ClearedAt(after.trace, |w.trace| + 1, Call(call), env)
  {
    hide Perform, LicensedAt, ClearedAt, Begins;
    var licensed := PerformPrepares(hash, w, Call(call), env);
    var after := CallDriver(licensed, call, env).0;
    var at := |w.trace| + if IsGuarded(Call(call)) then 2 else 1;
    LicenseStays(hash, w, licensed, after, at, VerbOf(Call(call)), SubjectOf(Call(call)), env);
    ClearedLater(licensed.trace, after.trace, |w.trace| + 1, Call(call), env);
    BeginsLater(w, licensed, after);
  }

  /** A module or driver verb that succeeds has made exactly one call, the one that was asked for, on
      the name or the contained path it was asked about, after the guard's consent where one is
      needed, the authorization and the snapshot, in this order, and has changed nothing else. */
  lemma DriverVerbCalls(hash: Hash, w: World, request: Request, env: Env)
    requires !request.SetDeviceEnabled? && Process(hash, w, request, env).1.Success?
    ensures var after, n := Process(hash, w, request, env).0, |w.trace|;
      match request
      case LoadModuleFor(_, name) =>
        CallsDriver(hash, w, after, n + 1, "LoadModule", name, LoadModule(name), env)
      case UnloadModuleFor(_, name) =>
        && ModuleAllowedAt(after.trace, n + 1, name, env)
        && CallsDriver(hash, w, after, n + 2, "UnloadModule", name, UnloadModule(name), env)
      case BindDriverFor(_, path, driver) =>
        && env.canonical(path).Success?
        && var canonical := env.canonical(path).value;
           CallsDriver(hash, w, after, n + 1, "BindDriver", canonical, Bind(canonical, driver), env)
      case UnbindDriverFor(_, path) =>
        && env.canonical(path).Success?
        && var canonical := env.canonical(path).value;
           && AllowedAt(after.trace, n + 1, canonical, env)
           && CallsDriver(hash, w, after, n + 2, "UnbindDriver", canonical, Unbind(canonical), env)
  {
    hide Perform, CallsDriver, ValidCaller, ValidName, ValidPath, AllowedAt, ModuleAllowedAt;
    DriverTrace(hash, w, Requested(request, env).value.call, env);
  }

  // ---------------------------------------------------------------- enable and disable

  // The first enumerated device at the path gives the key, or else its sysfs attributes do.
  ghost predicate KeyedBy(key: DeviceKey, path: string, all: seq<Device>, read: Device) {
    if NoneAt(all, path) then key == MakeDeviceKey(read.(sysfsPath := path))
    else exists i :: IsFirstAt(all, i, path) && key == MakeKeyAmong(all[i], all)
  }

  ghost predicate NoneAt(all: seq<Device>, path: string) {
    forall i :: 0 <= i < |all| ==> all[i].sysfsPath != path
  }

  ghost predicate IsFirstAt(all: seq<Device>, i: int, path: string) {
    0 <= i < |all| && all[i].sysfsPath == path && NoneAt(all[..i], path)
  }

  lemma {:induction false} AtPathIs(all: seq<Device>, path: string)
    ensures AtPath(all, path).None? ==> NoneAt(all, path)
    ensures AtPath(all, path).Some? ==> exists i :: IsFirstAt(all, i, path) && all[i] == AtPath(all, path).value
  {
    if all != [] && all[0].sysfsPath == path {
      assert IsFirstAt(all, 0, path);
    } else if all != [] {
      AtPathIs(all[1..], path);
      if AtPath(all[1..], path).Some? {
        var i :| IsFirstAt(all[1..], i, path) && all[1..][i] == AtPath(all[1..], path).value;
        assert all[..i + 1] == [all[0]] + all[1..][..i];
        assert IsFirstAt(all, i + 1, path);
      } else {
        assert all == [all[0]] + all[1..];
      }
    }
  }

  lemma KeyForIs(w: World, path: string, all: seq<Device>, env: Env)
    ensures KeyedBy(KeyFor(w, path, all, env), path, all, env.sysfs(Now(w), path))
  {
    hide MakeKeyAmong, AtPath;
    AtPathIs(all, path);
    if AtPath(all, path).Some? {
      var i :| IsFirstAt(all, i, path) && all[i] == AtPath(all, path).value;
      assert !NoneAt(all, path);
    }
  }

  // The list after a disable: one entry has the key, and it says how to undo the disable.
  ghost predicate Lists(before: Entries, after: Entries, key: DeviceKey, path: string, applied: Option<string>,
                        now: int) {
    && (exists i :: 0 <= i < |after| &&
          after[i] == DisabledDeviceEntry(key, if applied.Some? then "unbind" else "authorized",
                                          SnapshotStore.OrElse(applied, ""), path, now, false))
    && (forall other :: other != key ==> Lookup(after, other) == Lookup(before, other))
  }

  ghost predicate ArePresent(all: seq<Device>, at: nat, env: Env) {
    match env.enumerate(at)
    case Success(found) => all == found
    case Failure(_) => all == []
  }

  // The entry that a disable of this path, called at this moment, adds or replaces.
  ghost predicate ListsDevice(before: Entries, after: Entries, path: string, at: nat, env: Env) {
    env.controller(at).Success? &&
    exists key, all ::
      && ArePresent(all, at, env) && KeyedBy(key, path, all, env.sysfs(at, path))
      && Lists(before, after, key, path, env.controller(at).value, env.now(at + 1))
  }

  lemma UpsertLists(before: Entries, key: DeviceKey, path: string, applied: Option<string>, now: int)
    ensures Lists(before, Upserted(before, DisabledEntry(key, path, applied, now)), key, path, applied, now)
  {
    var e := DisabledEntry(key, path, applied, now);
    var after := Upserted(before, e);
    UpsertLooksUp(before, e, key);
    LookupHas(after, key);
    hide Upserted, Lookup;
    forall other | other != key
      ensures Lookup(after, other) == Lookup(before, other)
    {
      UpsertLooksUp(before, e, other);
    }
  }

  /** A disable that succeeds has made exactly one call, the disable of the contained path, after the
      guard's consent to that path, the authorization and the snapshot; the device is then on the
      list, in memory and in the file, under the key that identifies it. */
  lemma DisableVerbCalls(hash: Hash, w: World, caller: string, path: string, env: Env)
    requires Process(hash, w, SetDeviceEnabled(caller, path, false), env).1.Success?
    ensures env.canonical(path).Success?
    ensures var after, canonical := Process(hash, w, SetDeviceEnabled(caller, path, false), env).0,
                                    env.canonical(path).value;
      var n, t := |w.trace|, after.trace;
      && |t| == n + 6 && Begins(w, after) && after.modprobe == w.modprobe
      && AllowedAt(t, n + 1, canonical, env)
      && LicensedAt(hash, w, after, n + 2, "SetDeviceEnabled", canonical, env)
      && t[n + 4] == SetEnabled(canonical, false, "", true) && env.controller(n + 4).Success?
      && t[n + 5] == EntriesChanged(w.state.entries, after.state.entries)
      && after.state.file == Holding(after.state.entries)
      && ListsDevice(w.state.entries, after.state.entries, canonical, n + 4, env)
  {
    hide Perform, LicensedAt, Begins, ApplyDisable, KeyFor, ListsDevice, AllowedAt;
    var canonical := env.canonical(path).value;
    var licensed := PerformPrepares(hash, w, Disable(canonical), env);
    DisableActs(licensed, canonical, env);
    var after := ApplyDisable(licensed, canonical, env).0;
    LicenseStays(hash, w, licensed, after, |w.trace| + 2, "SetDeviceEnabled", canonical, env);
    ClearedLater(licensed.trace, after.trace, |w.trace| + 1, Disable(canonical), env);
    BeginsLater(w, licensed, after);
  }

  lemma DisableActs(w: World, path: string, env: Env)
    requires ApplyDisable(w, path, env).1.Success?
    ensures var after, t := ApplyDisable(w, path, env).0, |w.trace|;
      && after.dir == w.dir && after.modprobe == w.modprobe && env.controller(t).Success?
      && after.trace == w.trace + [SetEnabled(path, false, "", true),
                                   EntriesChanged(w.state.entries, after.state.entries)]
      && after.state.file == Holding(after.state.entries)
      && ListsDevice(w.state.entries, after.state.entries, path, t, env)
  {
    hide Upserted, KeyFor, Lists, KeyedBy;
    var t, all := |w.trace|, Enumerated(w, env);
    var key := KeyFor(w, path, all, env);
    KeyForIs(w, path, all, env);
    UpsertLists(w.state.entries, key, path, env.controller(t).value, env.now(t + 1));
  }

  // Entry k is the first that names the path, or whose key fits what sysfs shows there at this moment.
  ghost predicate IsFirstEntry(entries: Entries, k: int, path: string, at: nat, env: Env) {
    0 <= k < |entries| && Concerns(entries[k], path, at, env) && NoneConcerns(entries[..k], path, at, env)
  }

  ghost predicate NoneConcerns(entries: Entries, path: string, at: nat, env: Env) {
    forall i :: 0 <= i < |entries| ==> !Concerns(entries[i], path, at, env)
  }

  ghost predicate Concerns(e: Entry, path: string, at: nat, env: Env) {
    || e.lastSysfsPath == path
    || (env.isDirectory(at, path) && MatchesDevice(e.key, env.sysfs(at, path).(sysfsPath := path)))
  }

  lemma {:induction false} EntryOfIs(w: World, entries: Entries, path: string, env: Env)
    ensures var found := EntryOf(entries, path, Probed(w, path, env));
      && (found.None? ==> NoneConcerns(entries, path, |w.trace|, env))
      && (found.Some? ==> exists k :: IsFirstEntry(entries, k, path, |w.trace|, env) && entries[k] == found.value)
  {
    hide MatchesDevice;
    var probed := Probed(w, path, env);
    if entries != [] && IsEntryOf(entries[0], path, probed) {
      assert IsFirstEntry(entries, 0, path, |w.trace|, env);
    } else if entries != [] {
      EntryOfIs(w, entries[1..], path, env);
      if EntryOf(entries[1..], path, probed).Some? {
        var k :| IsFirstEntry(entries[1..], k, path, |w.trace|, env)
              && entries[1..][k] == EntryOf(entries[1..], path, probed).value;
        assert entries[..k + 1] == [entries[0]] + entries[1..][..k];
        assert IsFirstEntry(entries, k + 1, path, |w.trace|, env);
      } else {
        assert entries == [entries[0]] + entries[1..];
      }
    }
  }

  // The events of an enable, from moment `at`: the entry goes first, then the driver it names comes back.
  ghost predicate Unlists(before: Entries, after: World, path: string, at: nat, env: Env) {
    if NoneConcerns(before, path, at, env)
    then |after.trace| == at + 1 && after.state.entries == before && after.trace[at] == SetEnabled(path, true, "", true)
    else exists k :: IsFirstEntry(before, k, path, at, env) && UnlistsEntry(before, after, before[k], path, at)
  }

  ghost predicate UnlistsEntry(before: Entries, after: World, e: Entry, path: string, at: nat) {
    && |after.trace| == at + 2 && after.trace[at] == EntriesChanged(before, after.state.entries)
    && (forall x :: x in after.state.entries <==> x in before && x.key != e.key)
    && after.state.file == Holding(after.state.entries)
    && after.trace[at + 1] == SetEnabled(path, true, e.lastDriver, true)
  }

  lemma EnableActs(w: World, path: string, env: Env)
    requires ApplyEnable(w, path, env).1.Success?
    ensures var after := ApplyEnable(w, path, env).0;
      && after.dir == w.dir && after.modprobe == w.modprobe && w.trace <= after.trace
      && Unlists(w.state.entries, after, path, |w.trace|, env)
  {
    hide EntryOf, Probed, Erased, Concerns;
    var after, at := ApplyEnable(w, path, env).0, |w.trace|;
    EntryOfIs(w, w.state.entries, path, env);
    var found := EntryOf(w.state.entries, path, Probed(w, path, env));
    if found.Some? {
      EraseKeys(w.state.entries, found.value.key);
      var k :| IsFirstEntry(w.state.entries, k, path, at, env) && w.state.entries[k] == found.value;
      assert UnlistsEntry(w.state.entries, after, w.state.entries[k], path, at);
      assert !NoneConcerns(w.state.entries, path, at, env);
    }
  }

  /** An enable that succeeds has made exactly one call, the enable of the contained path, after the
      authorization and the snapshot and without asking the guard. The first entry that concerns the
      device has gone before that, with every entry of its key, and the call names its driver. */
  lemma EnableVerbCalls(hash: Hash, w: World, caller: string, path: string, env: Env)
    requires Process(hash, w, SetDeviceEnabled(caller, path, true), env).1.Success?
    ensures env.canonical(path).Success?
    ensures var after, canonical := Process(hash, w, SetDeviceEnabled(caller, path, true), env).0,
                                    env.canonical(path).value;
      && Begins(w, after) && after.modprobe == w.modprobe
      && LicensedAt(hash, w, after, |w.trace| + 1, "SetDeviceEnabled", canonical, env)
      && Unlists(w.state.entries, after, canonical, |w.trace| + 3, env)
  {
    hide Perform, LicensedAt, Begins, ApplyEnable, Unlists;
    var canonical := env.canonical(path).value;
    var licensed := PerformPrepares(hash, w, Enable(canonical), env);
    EnableActs(licensed, canonical, env);
    var after := ApplyEnable(licensed, canonical, env).0;
    LicenseStays(hash, w, licensed, after, |w.trace| + 1, "SetDeviceEnabled", canonical, env);
    BeginsLater(w, licensed, after);
  }

  // ---------------------------------------------------------------- verbs that fail

  ghost predicate WellFormed(request: Request) {
    && ValidCaller(request.caller)
    && match request
       case SetDeviceEnabled(_, path, _) => ValidPath(path)
       case LoadModuleFor(_, name) => ValidName(name)
       case UnloadModuleFor(_, name) => ValidName(name)
       case BindDriverFor(_, path, driver) => ValidPath(path) && ValidName(driver)
       case UnbindDriverFor(_, path) => ValidPath(path)
  }

  // The path resolves inside the sysfs root, if the request has one.
  ghost predicate Contained(request: Request, env: Env) {
    request.LoadModuleFor? || request.UnloadModuleFor? || env.canonical(request.path).Success?
  }

  /** A request with a malformed argument, or with a path outside the sysfs root, ends with the code
      that says so, without a call, a question to the guard or to the authority, or a snapshot. */
  lemma RejectedVerbDoesNothing(hash: Hash, w: World, request: Request, env: Env)
    requires !WellFormed(request) || !Contained(request, env)
    ensures var (after, r) := Process(hash, w, request, env);
      && after == w.(trace := w.trace + [Began(Verb, Capture(w))])
      && r == Failure(if WellFormed(request) then env.canonical(request.path).code else InvalidArgs)
  {
    hide Perform, ValidCaller, ValidName, ValidPath;
  }

  // What the last event of a failed verb, at this moment, says of the code.
  ghost predicate Explains(last: Event, at: nat, code: ErrorCode, env: Env) {
    match last
    case Began(_, _) => UnloadFactsFail(at + 1, code, env)
    case ProbeFailed => env.probe(at) == Failure(code)
    case Judged(_, _, verdict) => verdict.Refused? && code == Conflict
    case ModuleJudged(_, _, _, verdict) => verdict.Refused? && code == Conflict
    case Denied => env.authority(at) == Failure(code) || (env.authority(at) == Success(false) && code == Permission)
    case PutFailed => code == Io
    case SetEnabled(_, _, _, ok) => !ok && env.controller(at) == Failure(code)
    case DriverCalled(_, ok) => !ok && env.drivers(at) == Failure(code)
    case EntriesChanged(_, _) => code == Io && !env.saves(at).Done?
    case _ => false
  }

  // The driver manager could not say what an unload would hit.
  ghost predicate UnloadFactsFail(at: nat, code: ErrorCode, env: Env) {
    match env.loaded(at)
    case Failure(c) => code == c
    case Success(None) => code == NotFound
    case Success(Some(_)) => env.devicesUsing(at) == Failure(code)
  }

  ghost predicate Ends(w: World, after: World, code: ErrorCode, env: Env) {
    |w.trace| < |after.trace| && Explains(after.trace[|after.trace| - 1], |after.trace| - 1, code, env)
  }

  ghost predicate EndsPast(w: World, after: World, code: ErrorCode, env: Env) {
    Ends(w, after, code, env) && !after.trace[|after.trace| - 1].Began?
  }

  lemma GuardExplains(w: World, action: Action, env: Env)
    requires GuardFor(w, action, env).1.Failure?
    ensures var (guarded, r) := GuardFor(w, action, env);
      && Unchanged(w, guarded)
      && (EndsPast(w, guarded, r.code, env) ||
          (guarded == w && action.Call? && action.call.UnloadModule? && UnloadFactsFail(|w.trace|, r.code, env)))
  {
    hide EvaluateDisable, ModuleVerdict;
  }

  lemma LicenseExplains(hash: Hash, w: World, verb: string, subject: string, env: Env)
    requires License(hash, w, verb, subject, env).1.Failure?
    ensures var (licensed, r) := License(hash, w, verb, subject, env);
      EndsPast(w, licensed, r.code, env) && licensed.state == w.state && licensed.modprobe == w.modprobe
  {
    hide SnapshotStore.Put, Capture;
  }

  lemma ActExplains(w: World, action: Action, env: Env)
    requires Act(w, action, env).1.Failure?
    ensures var (after, r) := Act(w, action, env);
      EndsPast(w, after, r.code, env) && after.modprobe == w.modprobe && (after.state == w.state || !action.Call?)
  {
    hide KeyFor, Upserted, Erased, EntryOf, Probed;
  }

  /** The code of a verb that fails after its arguments were accepted is told by its last event: the
      probe's, the authority's, the controller's or the drivers' own code, Conflict after a refusal of
      the guard, Permission after a denial, Io after a snapshot or a save that failed. */
  lemma FailureIsExplained(hash: Hash, w: World, request: Request, env: Env)
    requires WellFormed(request) && Contained(request, env) && Process(hash, w, request, env).1.Failure?
    ensures var (after, r) := Process(hash, w, request, env);
      && Ends(w, after, r.code, env)
      && (after.trace[|after.trace| - 1].Began? ==> request.UnloadModuleFor? && |after.trace| == |w.trace| + 1)
      && after.modprobe == w.modprobe && (after.state == w.state || request.SetDeviceEnabled?)
  {
    hide ValidCaller, ValidName, ValidPath, GuardFor, License, Act, Explains, Capture;
    var begun, action := Begin(w, Verb), Requested(request, env).value;
    var (guarded, allowed) := GuardFor(begun, action, env);
    if allowed.Failure? {
      GuardExplains(begun, action, env);
      BeganExplains(w, begun, allowed.code, env);
      EndsLater(w, begun, guarded, allowed.code, env);
    } else {
      GuardIs(begun, action, env);
      var (licensed, license) := License(hash, guarded, VerbOf(action), SubjectOf(action), env);
      if license.Failure? {
        LicenseExplains(hash, guarded, VerbOf(action), SubjectOf(action), env);
        EndsLater(w, guarded, licensed, license.code, env);
      } else {
        LicenseIs(hash, w, guarded, VerbOf(action), SubjectOf(action), env);
        ActExplains(licensed, action, env);
        var (after, r) := Act(licensed, action, env);
        EndsLater(w, licensed, after, r.code, env);
      }
    }
  }

  lemma BeganExplains(w: World, begun: World, code: ErrorCode, env: Env)
    requires begun == Begin(w, Verb)
    ensures UnloadFactsFail(|begun.trace|, code, env) ==> Ends(w, begun, code, env)
  {
    hide UnloadFactsFail, Capture;
  }

  lemma EndsLater(w: World, v: World, after: World, code: ErrorCode, env: Env)
    requires |w.trace| <= |v.trace|
    ensures EndsPast(v, after, code, env) ==> EndsPast(w, after, code, env)
  {
  }

  // ---------------------------------------------------------------- the snapshot verbs

  // The beginning and what the authority answered, with nothing else changed.
  ghost predicate Asked(w: World, asked: World, answer: Event) {
    asked == w.(trace := w.trace + [Began(Verb, Capture(w)), answer])
  }

  /** A snapshot verb that is malformed or not authorized ends there; one that is granted takes a
      manual snapshot under its label, restores, or removes, and answers what that answered. */
  lemma SnapshotVerbDoes(hash: Hash, w: World, request: SnapshotRequest, env: Env)
    ensures var (after, r) := ProcessSnapshot(hash, w, request, env);
      var n := |w.trace|;
      if !ValidCaller(request.caller) || (request.SnapshotCreate? && !ValidLabel(request.text))
         || (!request.SnapshotCreate? && !ValidSnapshotId(request.id))
      then after == w.(trace := w.trace + [Began(Verb, Capture(w))]) && r == Failure(InvalidArgs)
      else match env.authority(n + 1)
           case Failure(code) => Asked(w, after, Denied) && r == Failure(code)
           case Success(false) => Asked(w, after, Denied) && r == Failure(Permission)
           case Success(true) => exists asked :: Asked(w, asked, Granted) && Acted(hash, asked, request, env, after, r)
  {
    hide Capture, ValidCaller, ValidLabel, ValidSnapshotId, Restore, SnapshotStore.Put, SnapshotStore.Remove;
    var begun := Begin(w, Verb);
    if IsValid(request) && env.authority(|w.trace| + 1) == Success(true) {
      var asked := Authorize(begun, env).0;
      assert Asked(w, asked, Granted);
      ActsAs(hash, asked, request, env);
    }
  }

  ghost predicate Acted(hash: Hash, w: World, request: SnapshotRequest, env: Env, after: World, r: Result<()>) {
    match request
    case SnapshotCreate(_, text) =>
      var (dir, id) := SnapshotStore.Put(hash, w.dir, Capture(w), Manual, SnapshotReason("", text), env.now(|w.trace|),
                                         env.disk(|w.trace|));
      && after.state == w.state && after.modprobe == w.modprobe && after.dir == dir && SameAnswer(id, r)
      && after.trace == w.trace + [if id.Success? then PutSucceeded(Capture(w), id.value) else PutFailed]
    case SnapshotRestore(_, id) => after == Restore(hash, w, id, env).0 && SameAnswer(Restore(hash, w, id, env).1, r)
    case SnapshotDelete(_, id) =>
      after == w.(dir := SnapshotStore.Remove(hash, w.dir, id, env.disk(|w.trace|)).0) &&
      r == SnapshotStore.Remove(hash, w.dir, id, env.disk(|w.trace|)).1
  }

  ghost predicate SameAnswer<T>(answer: Result<T>, r: Result<()>) {
    match answer
    case Success(_) => r.Success?
    case Failure(code) => r == Failure(code)
  }

  lemma ActsAs(hash: Hash, w: World, request: SnapshotRequest, env: Env)
    ensures var (after, r) := ActOnSnapshots(hash, w, request, env); Acted(hash, w, request, env, after, r)
  {
    hide Capture, Restore, SnapshotStore.Put, SnapshotStore.Remove;
  }
}
