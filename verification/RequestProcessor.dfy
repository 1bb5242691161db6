/** The verbs of the bus interface: validate, guard, authorize, snapshot, act
    (daemon/src/request_processor.cpp). */
module RequestProcessors {
  import opened Models
  import opened Validation
  import opened DeviceKeys
  import opened StateStores
  import SnapshotStore
  import opened Guard
  import opened Daemon
  import opened SnapshotServices

  // ---------------------------------------------------------------- the steps of a verb

  function Begin(w: World, actor: Actor): World {
    Do(w, Began(actor, Capture(w)))
  }

  function Authorize(w: World, env: Env): (World, Result<()>) {
    match env.authority(Now(w))
    case Failure(code) => (Do(w, Denied), Failure(code))
    case Success(allowed) =>
      if allowed then (Do(w, Granted), Success(())) else (Do(w, Denied), Failure(Permission))
  }

  function SnapshotBefore(hash: Hash, w: World, verb: string, subject: string, env: Env): (World, Result<()>) {
    var (taken, r) := TakeSnapshot(hash, w, Auto, SnapshotReason(verb, subject), env);
    (taken, if r.Success? then Success(()) else Failure(Io))
  }

  // Authorization and then the snapshot: what must precede every change.
  function License(hash: Hash, w: World, verb: string, subject: string, env: Env): (World, Result<()>) {
    var (asked, granted) := Authorize(w, env);
    if granted.Failure? then (asked, granted) else SnapshotBefore(hash, asked, verb, subject, env)
  }

  function GuardDisable(w: World, path: string, env: Env): (World, Result<()>) {
    var (asked, answer) := Judge(w, path, env);
    match answer
    case Failure(code) => (asked, Failure(code))
    case Success(Refused(_)) => (asked, Failure(Conflict))
    case Success(Allowed) => (asked, Success(()))
  }

  // What the driver manager knows of a loaded module and the devices bound to it.
  function UnloadFacts(w: World, name: string, env: Env): Result<ModuleUnloadFacts> {
    match env.loaded(Now(w))
    case Failure(code) => Failure(code)
    case Success(None) => Failure(NotFound)
    case Success(Some(found)) =>
      match env.devicesUsing(Now(w))
      case Failure(code) => Failure(code)
      case Success(affected) => Success(ModuleUnloadFacts(found.0, found.1, affected))
  }

  function JudgeModule(w: World, name: string, unload: ModuleUnloadFacts, env: Env): (World, Result<()>) {
    match env.probe(Now(w))
    case Failure(code) => (Do(w, ProbeFailed), Failure(code))
    case Success(facts) =>
      var verdict := ModuleVerdict(facts, unload);
      (Do(w, ModuleJudged(name, facts, unload, verdict)), if verdict.Allowed? then Success(()) else Failure(Conflict))
  }

  function GuardModuleUnload(w: World, name: string, env: Env): (World, Result<()>) {
    match UnloadFacts(w, name, env)
    case Failure(code) => (w, Failure(code))
    case Success(unload) => JudgeModule(w, name, unload, env)
  }

  // ---------------------------------------------------------------- acting

  function KeyFor(w: World, path: string, all: seq<Device>, env: Env): DeviceKey {
    match AtPath(all, path)
    case Some(device) => MakeKeyAmong(device, all)
    case None => MakeDeviceKey(FromSysfs(w, path, env))
  }

  function AtPath(all: seq<Device>, path: string): Option<Device> {
    if all == [] then None
    else if all[0].sysfsPath == path then Some(all[0])
    else AtPath(all[1..], path)
  }

  function DisabledEntry(key: DeviceKey, path: string, applied: Option<string>, now: int): Entry {
    match applied
    case Some(driver) => DisabledDeviceEntry(key, "unbind", driver, path, now, false)
    case None => DisabledDeviceEntry(key, "authorized", "", path, now, false)
  }

  function ApplyDisable(w: World, path: string, env: Env): (World, Result<()>) {
    var key := KeyFor(w, path, Enumerated(w, env), env);
    var (called, applied) := CallSetEnabled(w, path, false, "", env);
    if applied.Failure? then (called, Failure(applied.code))
    else
      var entry := DisabledEntry(key, path, applied.value, env.now(Now(called)));
      SaveEntries(called, Upserted(called.state.entries, entry), env)
  }

  // The device at the path, if there is one to read.
  function Probed(w: World, path: string, env: Env): Option<Device> {
    if env.isDirectory(Now(w), path) then Some(FromSysfs(w, path, env)) else None
  }

  predicate IsEntryOf(e: Entry, path: string, probed: Option<Device>) {
    e.lastSysfsPath == path || (probed.Some? && MatchesDevice(e.key, probed.value))
  }

  function EntryOf(entries: Entries, path: string, probed: Option<Device>): Option<Entry> {
    if entries == [] then None
    else if IsEntryOf(entries[0], path, probed) then Some(entries[0])
    else EntryOf(entries[1..], path, probed)
  }

  function ReBind(w: World, path: string, hint: string, env: Env): (World, Result<()>) {
    var (called, applied) := CallSetEnabled(w, path, true, hint, env);
    (called, if applied.Success? then Success(()) else Failure(applied.code))
  }

  // The entry goes first, so that a failed rebind never leaves a device listed as disabled.
  function ApplyEnable(w: World, path: string, env: Env): (World, Result<()>) {
    match EntryOf(w.state.entries, path, Probed(w, path, env))
    case None => ReBind(w, path, "", env)
    case Some(e) =>
      var (erased, saved) := SaveEntries(w, Erased(w.state.entries, e.key), env);
      if saved.Failure? then (erased, saved) else ReBind(erased, path, e.lastDriver, env)
  }

  // ---------------------------------------------------------------- the verbs

  // What a verb does once it is licensed.
  datatype Action =
    | Disable(path: string)
    | Enable(path: string)
    | Call(call: DriverCall)

  function VerbOf(action: Action): string {
    match action
    case Disable(_) => "SetDeviceEnabled"
    case Enable(_) => "SetDeviceEnabled"
    case Call(Bind(_, _)) => "BindDriver"
    case Call(Unbind(_)) => "UnbindDriver"
    case Call(LoadModule(_)) => "LoadModule"
    case Call(UnloadModule(_)) => "UnloadModule"
  }

  function SubjectOf(action: Action): string {
    match action
    case Disable(path) => path
    case Enable(path) => path
    case Call(Bind(path, _)) => path
    case Call(Unbind(path)) => path
    case Call(LoadModule(name)) => name
    case Call(UnloadModule(name)) => name
  }

  function GuardFor(w: World, action: Action, env: Env): (World, Result<()>) {
    match action
    case Disable(path) => GuardDisable(w, path, env)
    case Call(Unbind(path)) => GuardDisable(w, path, env)
    case Call(UnloadModule(name)) => GuardModuleUnload(w, name, env)
    case _ => (w, Success(()))
  }

  function Act(w: World, action: Action, env: Env): (World, Result<()>) {
    match action
    case Disable(path) => ApplyDisable(w, path, env)
    case Enable(path) => ApplyEnable(w, path, env)
    case Call(call) => CallDriver(w, call, env)
  }

  datatype Request =
    | SetDeviceEnabled(caller: string, path: string, enabled: bool)
    | LoadModuleFor(caller: string, name: string)
    | UnloadModuleFor(caller: string, name: string)
    | BindDriverFor(caller: string, path: string, driver: string)
    | UnbindDriverFor(caller: string, path: string)

  // What the request asks for, once its arguments are valid and its path is contained.
  function Requested(request: Request, env: Env): Result<Action> {
    match request
    case SetDeviceEnabled(caller, path, enabled) =>
      if !ValidCaller(caller) || !ValidPath(path) then Failure(InvalidArgs)
      else
        (match env.canonical(path)
         case Failure(code) => Failure(code)
         case Success(canonical) => Success(if enabled then Enable(canonical) else Disable(canonical)))
    case LoadModuleFor(caller, name) =>
      if !ValidCaller(caller) || !ValidName(name) then Failure(InvalidArgs) else Success(Call(LoadModule(name)))
    case UnloadModuleFor(caller, name) =>
      if !ValidCaller(caller) || !ValidName(name) then Failure(InvalidArgs) else Success(Call(UnloadModule(name)))
    case BindDriverFor(caller, path, driver) =>
      if !ValidCaller(caller) || !ValidPath(path) || !ValidName(driver) then Failure(InvalidArgs)
      else
        (match env.canonical(path)
         case Failure(code) => Failure(code)
         case Success(canonical) => Success(Call(Bind(canonical, driver))))
    case UnbindDriverFor(caller, path) =>
      if !ValidCaller(caller) || !ValidPath(path) then Failure(InvalidArgs)
      else
        (match env.canonical(path)
         case Failure(code) => Failure(code)
         case Success(canonical) => Success(Call(Unbind(canonical))))
  }

  function Perform(hash: Hash, w: World, action: Action, env: Env): (World, Result<()>) {
    var (guarded, allowed) := GuardFor(w, action, env);
    if allowed.Failure? then (guarded, allowed)
    else
      var (licensed, license) := License(hash, guarded, VerbOf(action), SubjectOf(action), env);
      if license.Failure? then (licensed, license) else Act(licensed, action, env)
  }

  function Process(hash: Hash, w: World, request: Request, env: Env): (World, Result<()>) {
    match Requested(request, env)
    case Failure(code) => (Begin(w, Verb), Failure(code))
    case Success(action) => Perform(hash, Begin(w, Verb), action, env)
  }

  // ---------------------------------------------------------------- what precedes a change

  // From w to v nothing was changed.
  ghost predicate Quiet(w: World, v: World) {
    && w.trace <= v.trace && v.state == w.state && v.modprobe == w.modprobe
    && NoMutation(v.trace, |w.trace|, |v.trace|)
  }

  lemma QuietChains(a: World, b: World, c: World)
    requires Quiet(a, b) && Quiet(b, c)
    ensures Quiet(a, c)
  {
    PrefixChains(a.trace, b.trace, c.trace);
    assert forall k :: 0 <= k < |b.trace| ==> c.trace[..|b.trace|][k] == c.trace[k];
  }

  // The change at k comes after a granted authorization and a successful put of this payload, and
  // nothing was changed before that.
  ghost predicate CoveredAt(trace: Trace, start: nat, k: nat, payload: SnapshotPayload) {
    exists i, j :: start <= i < j < k && IsLicense(trace, start, i, j, payload)
  }

  ghost predicate IsLicense(trace: Trace, start: nat, i: nat, j: nat, payload: SnapshotPayload) {
    i < j < |trace| && trace[i].Granted? && IsPutOf(trace[j], payload) && NoMutation(trace, start, j)
  }

  predicate IsPutOf(e: Event, payload: SnapshotPayload) {
    e.PutSucceeded? && e.captured == payload
  }

  ghost predicate FailClosed(trace: Trace, start: nat, payload: SnapshotPayload) {
    forall k :: start <= k < |trace| && IsMutation(trace[k]) ==> CoveredAt(trace, start, k, payload)
  }

  ghost predicate IsLicensed(w: World, v: World) {
    exists i, j :: |w.trace| <= i < j && IsLicense(v.trace, |w.trace|, i, j, Capture(w))
  }

  // A world that is reached quietly, licensed there, and then changed in any way fails closed.
  lemma LicensedFailsClosed(w: World, licensed: World, after: World)
    requires Quiet(w, licensed) && IsLicensed(w, licensed) && licensed.trace <= after.trace
    ensures FailClosed(after.trace, |w.trace|, Capture(w)) && IsLicensed(w, after)
  {
    var start := |w.trace|;
    var i, j :| start <= i < j && IsLicense(licensed.trace, start, i, j, Capture(w));
    forall k | 0 <= k < |licensed.trace|
      ensures after.trace[k] == licensed.trace[k]
    {
      assert after.trace[..|licensed.trace|][k] == after.trace[k];
    }
    assert IsLicense(after.trace, start, i, j, Capture(w));
    forall k | start <= k < |after.trace| && IsMutation(after.trace[k])
      ensures CoveredAt(after.trace, start, k, Capture(w))
    {
      assert k >= |licensed.trace|;
    }
  }

  lemma QuietFailsClosed(w: World, v: World)
    requires Quiet(w, v)
    ensures FailClosed(v.trace, |w.trace|, Capture(w))
  {
  }

  lemma AuthorizeIsQuiet(w: World, env: Env, start: nat)
    ensures var (asked, granted) := Authorize(w, env);
      && Quiet(w, asked) && Keeps(w, asked, start) && asked.dir == w.dir
      && (granted.Success? ==> asked.trace == w.trace + [Granted])
  {
    QuietKeeps(w, Authorize(w, env).0.trace[|w.trace|], Authorize(w, env).0, start);
  }

  lemma TakeSnapshotIsQuiet(hash: Hash, w: World, trigger: SnapshotTrigger, reason: SnapshotReason, env: Env,
                            start: nat)
    ensures var (taken, r) := TakeSnapshot(hash, w, trigger, reason, env);
      && Quiet(w, taken) && Keeps(w, taken, start)
      && (r.Success? ==> taken.trace == w.trace + [PutSucceeded(Capture(w), r.value)])
  {
    hide SnapshotStore.Put, Capture;
    var taken := TakeSnapshot(hash, w, trigger, reason, env).0;
    QuietKeeps(w, taken.trace[|w.trace|], taken, start);
  }

  lemma LicenseLicenses(hash: Hash, w: World, verb: string, subject: string, env: Env, start: nat)
    ensures var (licensed, license) := License(hash, w, verb, subject, env);
      Quiet(w, licensed) && Keeps(w, licensed, start) && (license.Success? ==> IsLicensed(w, licensed))
  {
    hide TakeSnapshot, Guarded;
    var (asked, granted) := Authorize(w, env);
    AuthorizeIsQuiet(w, env, start);
    assert Capture(asked) == Capture(w);
    if granted.Success? {
      var (taken, r) := TakeSnapshot(hash, asked, Auto, SnapshotReason(verb, subject), env);
      TakeSnapshotIsQuiet(hash, asked, Auto, SnapshotReason(verb, subject), env, start);
      QuietChains(w, asked, taken);
      KeepsChains(w, asked, taken, start);
      if r.Success? {
        assert taken.trace == w.trace + [Granted] + [PutSucceeded(Capture(w), r.value)];
        assert IsLicense(taken.trace, |w.trace|, |w.trace|, |w.trace| + 1, Capture(w));
      }
    }
  }

  lemma GuardIsQuiet(w: World, action: Action, env: Env, start: nat)
    requires start <= |w.trace|
    ensures var (guarded, allowed) := GuardFor(w, action, env);
      && Quiet(w, guarded) && Keeps(w, guarded, start) && guarded.dir == w.dir
      && (allowed.Success? && ActsOn(action).Some? ==>
            IsCleared(guarded.trace, start, |guarded.trace|, ActsOn(action).value))
  {
    hide EvaluateDisable, ModuleVerdict, UnloadFacts;
    SameTouches(w, start);
    match ActsOn(action)
    case None =>
    case Some(OfPath(path)) =>
      var asked := Judge(w, path, env).0;
      QuietKeeps(w, asked.trace[|w.trace|], asked, start);
      JudgeAllows(w, path, env);
      assert NoRemoval(asked.trace, |w.trace|, |asked.trace|);
    case Some(OfModule(name)) =>
      var unload := UnloadFacts(w, name, env);
      if unload.Success? {
        var (asked, answer) := JudgeModule(w, name, unload.value, env);
        QuietKeeps(w, asked.trace[|w.trace|], asked, start);
        if answer.Success? {
          assert IsAllowance(asked.trace[|w.trace|], OfModule(name));
          assert NoRemoval(asked.trace, |w.trace|, |asked.trace|);
        }
      }
  }

  // What the action disables or unloads, if anything.
  function ActsOn(action: Action): Option<Target> {
    match action
    case Disable(path) => Some(OfPath(path))
    case Call(Unbind(path)) => Some(OfPath(path))
    case Call(UnloadModule(name)) => Some(OfModule(name))
    case _ => None
  }

  lemma JudgeAllows(w: World, path: string, env: Env)
    ensures var (asked, answer) := Judge(w, path, env);
      && |asked.trace| == |w.trace| + 1
      && (answer == Success(Allowed) ==> IsAllowance(asked.trace[|w.trace|], OfPath(path)))
  {
  }

  // Acting after an allowing verdict keeps the trace guarded.
  lemma ActKeeps(w: World, action: Action, env: Env, start: nat)
    requires ActsOn(action).Some? ==> IsCleared(w.trace, start, |w.trace|, ActsOn(action).value)
    ensures var after := Act(w, action, env).0;
      Keeps(w, after, start) && after.modprobe == w.modprobe && after.dir == w.dir
  {
    hide IsAllowance, Upserted, Erased, KeyFor;
    match action
    case Disable(path) =>
      var (called, applied) := CallSetEnabled(w, path, false, "", env);
      RemovalKeeps(w, SetEnabled(path, false, "", applied.Success?), called, start);
      if applied.Success? {
        var after := Act(w, action, env).0;
        QuietKeeps(called, after.trace[|called.trace|], after, start);
        KeepsChains(w, called, after, start);
      }
    case Enable(path) => EnableKeeps(w, path, env, start);
    case Call(call) =>
      var e := DriverCalled(call, env.drivers(Now(w)).Success?);
      if IsRemoval(e) {
        RemovalKeeps(w, e, CallDriver(w, call, env).0, start);
      } else {
        QuietKeeps(w, e, CallDriver(w, call, env).0, start);
      }
  }

  lemma EnableKeeps(w: World, path: string, env: Env, start: nat)
    ensures var after := ApplyEnable(w, path, env).0;
      Keeps(w, after, start) && after.modprobe == w.modprobe && after.dir == w.dir
  {
    hide Erased, Guarded;
    match EntryOf(w.state.entries, path, Probed(w, path, env))
    case None => ReBindKeeps(w, path, "", env, start);
    case Some(e) =>
      var (erased, saved) := SaveEntries(w, Erased(w.state.entries, e.key), env);
      QuietKeeps(w, EntriesChanged(w.state.entries, Erased(w.state.entries, e.key)), erased, start);
      ReBindKeeps(erased, path, e.lastDriver, env, start);
      KeepsChains(w, erased, ReBind(erased, path, e.lastDriver, env).0, start);
  }

  lemma ReBindKeeps(w: World, path: string, hint: string, env: Env, start: nat)
    ensures var after := ReBind(w, path, hint, env).0;
      Keeps(w, after, start) && after.modprobe == w.modprobe && after.dir == w.dir && after.state == w.state
  {
    QuietKeeps(w, ReBind(w, path, hint, env).0.trace[|w.trace|], ReBind(w, path, hint, env).0, start);
  }

  /** Every change that a device, module or driver verb makes comes after a granted authorization and a
      successful put of what was current; if either fails, nothing is changed. Every disable, unbind or
      unload comes after an allowing verdict on the same path or module. */
  lemma PerformFailsClosed(hash: Hash, w: World, action: Action, env: Env, start: nat)
    requires start <= |w.trace|
    ensures var (after, r) := Perform(hash, w, action, env);
      && Keeps(w, after, start) && FailClosed(after.trace, |w.trace|, Capture(w))
      && after.modprobe == w.modprobe
      && (IsLicensed(w, after) || (Quiet(w, after) && r.Failure?))
  {
    hide Act, License, GuardFor, Quiet, IsLicensed, FailClosed, Keeps;
    var (guarded, allowed) := GuardFor(w, action, env);
    GuardIsQuiet(w, action, env, start);
    if allowed.Failure? {
      QuietFailsClosed(w, guarded);
      QuietKeepsModprobe(w, guarded);
    } else {
      var (licensed, license) := License(hash, guarded, VerbOf(action), SubjectOf(action), env);
      LicenseLicenses(hash, guarded, VerbOf(action), SubjectOf(action), env, start);
      QuietChains(w, guarded, licensed);
      KeepsChains(w, guarded, licensed, start);
      QuietKeepsModprobe(w, licensed);
      if license.Failure? {
        QuietFailsClosed(w, licensed);
      } else {
        var after := Act(licensed, action, env).0;
        LicensedSooner(w, guarded, licensed);
        AllowanceStays(guarded, licensed, start, action);
        ActKeeps(licensed, action, env, start);
        KeepsChains(w, licensed, after, start);
        KeepsExtends(licensed, after, start);
        LicensedFailsClosed(w, licensed, after);
      }
    }
  }

  lemma QuietKeepsModprobe(w: World, v: World)
    requires Quiet(w, v)
    ensures v.modprobe == w.modprobe && v.state == w.state && Capture(v) == Capture(w)
  {
  }

  lemma LicensedSooner(w: World, guarded: World, licensed: World)
    requires Quiet(w, guarded) && Quiet(w, licensed) && IsLicensed(guarded, licensed)
    ensures IsLicensed(w, licensed)
  {
    var i, j :| |guarded.trace| <= i < j && IsLicense(licensed.trace, |guarded.trace|, i, j, Capture(guarded));
    assert Capture(guarded) == Capture(w);
    assert IsLicense(licensed.trace, |w.trace|, i, j, Capture(w));
  }

  lemma AllowanceStays(guarded: World, licensed: World, start: nat, action: Action)
    requires Quiet(guarded, licensed)
    ensures ActsOn(action).Some? && IsCleared(guarded.trace, start, |guarded.trace|, ActsOn(action).value) ==>
      IsCleared(licensed.trace, start, |licensed.trace|, ActsOn(action).value)
  {
    if ActsOn(action).Some? && IsCleared(guarded.trace, start, |guarded.trace|, ActsOn(action).value) {
      ClearedStays(guarded.trace, licensed.trace, start, |guarded.trace|, ActsOn(action).value);
      StillCleared(licensed.trace, start, |guarded.trace|, |licensed.trace|, ActsOn(action).value);
    }
  }

  // ---------------------------------------------------------------- refused callers

  ghost predicate WasGranted(trace: Trace, start: nat) {
    exists k :: start <= k < |trace| && trace[k].Granted?
  }

  lemma GrantStays(before: Trace, after: Trace, start: nat)
    requires before <= after && WasGranted(before, start)
    ensures WasGranted(after, start)
  {
    var k :| start <= k < |before| && before[k].Granted?;
    assert after[k].Granted?;
  }

  // A granted authorization shows in the trace, and a refused one ends the verb with the store as it was.
  lemma GrantShows(w: World, env: Env)
    ensures var (asked, granted) := Authorize(w, env);
      asked.dir == w.dir && w.trace <= asked.trace && (granted.Success? ==> WasGranted(asked.trace, |w.trace|))
  {
    var (asked, granted) := Authorize(w, env);
    if granted.Success? {
      assert asked.trace[|w.trace|].Granted?;
    }
  }

  /** A device, module or driver verb whose caller was not authorized leaves the snapshot store alone:
      it neither adds nor prunes nor moves HEAD. */
  lemma RefusedLeavesTheStore(hash: Hash, w: World, action: Action, env: Env)
    ensures var after := Perform(hash, w, action, env).0;
      WasGranted(after.trace, |w.trace|) || after.dir == w.dir
  {
    hide Act, TakeSnapshot, GuardFor, Quiet, Keeps, FailClosed, Guarded, IsCleared, Authorize, WasGranted;
    var (guarded, allowed) := GuardFor(w, action, env);
    GuardIsQuiet(w, action, env, |w.trace|);
    KeepsExtends(w, guarded, |w.trace|);
    if allowed.Success? {
      var (asked, granted) := Authorize(guarded, env);
      GrantShows(guarded, env);
      if granted.Success? {
        GrantIsSince(asked.trace, |w.trace|, |guarded.trace|);
        var reason := SnapshotReason(VerbOf(action), SubjectOf(action));
        var (taken, r) := TakeSnapshot(hash, asked, Auto, reason, env);
        TakeSnapshotIsQuiet(hash, asked, Auto, reason, env, 0);
        KeepsExtends(asked, taken, 0);
        GrantStays(asked.trace, taken.trace, |w.trace|);
        if r.Success? {
          ActExtends(taken, action, env);
          GrantStays(taken.trace, Act(taken, action, env).0.trace, |w.trace|);
        }
      }
    }
  }

  lemma GrantIsSince(trace: Trace, start: nat, later: nat)
    requires start <= later && WasGranted(trace, later)
    ensures WasGranted(trace, start)
  {
  }

  lemma ActExtends(w: World, action: Action, env: Env)
    ensures w.trace <= Act(w, action, env).0.trace
  {
    hide KeyFor, Upserted, Erased;
  }

  // ---------------------------------------------------------------- undo

  lemma SnapshotIdIsHash(hash: Hash, w: World, trigger: SnapshotTrigger, reason: SnapshotReason, env: Env)
    requires SnapshotStore.Sound(hash, w.dir) && TakeSnapshot(hash, w, trigger, reason, env).1.Success?
    ensures TakeSnapshot(hash, w, trigger, reason, env).1.value == hash(Capture(w))
  {
    hide SnapshotStore.Put, SnapshotStore.Sound, Capture;
    SnapshotStore.PutMovesHead(hash, w.dir, Capture(w), trigger, reason, env.now(Now(w)), env.disk(Now(w)));
  }

  // The world in which a successful verb took its snapshot.
  lemma SnapshotOf(hash: Hash, w: World, action: Action, env: Env) returns (asked: World)
    requires Perform(hash, w, action, env).1.Success?
    ensures Quiet(w, asked) && asked.dir == w.dir
    ensures TakeSnapshot(hash, asked, Auto, SnapshotReason(VerbOf(action), SubjectOf(action)), env).1.Success?
    ensures Perform(hash, w, action, env).0.dir
         == TakeSnapshot(hash, asked, Auto, SnapshotReason(VerbOf(action), SubjectOf(action)), env).0.dir
  {
    hide TakeSnapshot, Act, GuardFor, Quiet, Authorize;
    var (guarded, allowed) := GuardFor(w, action, env);
    GuardIsQuiet(w, action, env, |w.trace|);
    asked := Authorize(guarded, env).0;
    AuthorizeIsQuiet(guarded, env, 0);
    QuietChains(w, guarded, asked);
    var licensed := License(hash, guarded, VerbOf(action), SubjectOf(action), env).0;
    ActKeepsStore(licensed, action, env);
  }

  lemma ActKeepsStore(w: World, action: Action, env: Env)
    ensures Act(w, action, env).0.dir == w.dir
  {
    hide KeyFor, Upserted, Erased;
  }

  /** Restoring the snapshot that a successful device, module or driver verb took succeeds if its
      file operations work, and gives back the entries, up to what enforcement keeps current, and
      devmgr's own files. */
  lemma RestoreUndoesVerb(hash: Hash, w: World, action: Action, env: Env, env2: Env)
    requires SnapshotStore.Sound(hash, w.dir) && SnapshotStore.NoCollision(hash, w.dir, Capture(w))
    requires IsUndoable(hash, w)
    requires Perform(hash, w, action, env).1.Success?
    ensures var after := Perform(hash, w, action, env).0;
      var (undone, r) := Restore(hash, after, hash(Capture(w)), env2);
      && (Works(after, env2) ==> r.Success?)
      && after.modprobe == w.modprobe
      && (r.Success? ==> IsBack(w, after, undone, env2))
  {
    hide Perform, TakeSnapshot, Restore, Owned, Unowned, FilesWentWell, FailClosed, Guarded, SnapshotStore.Sound,
      SnapshotStore.NoCollision, Works, FilesWork, IsBack;
    var after := Perform(hash, w, action, env).0;
    var reason := SnapshotReason(VerbOf(action), SubjectOf(action));
    PerformFailsClosed(hash, w, action, env, 0);
    var asked := SnapshotOf(hash, w, action, env);
    assert Capture(asked) == Capture(w);
    SnapshotIdIsHash(hash, asked, Auto, reason, env);
    RestoringACapture(hash, asked, Auto, reason, env, after, env2);
    SameBack(w, asked, after, Restore(hash, after, hash(Capture(w)), env2).0, env2);
  }

  lemma SameBack(w: World, v: World, later: World, after: World, env: Env)
    requires v.state == w.state && v.modprobe == w.modprobe
    ensures IsBack(v, later, after, env) ==> IsBack(w, later, after, env)
  {
    hide FilesWork, FilesWentWell, Owned, Unowned;
  }

  // ---------------------------------------------------------------- the entry list

  /** If a verb that succeeds has changed the entries, state.json holds them. */
  lemma SuccessIsSaved(hash: Hash, w: World, action: Action, env: Env)
    requires Perform(hash, w, action, env).1.Success?
    ensures var after := Perform(hash, w, action, env).0;
      after.state.entries != w.state.entries ==> after.state.file == Holding(after.state.entries)
  {
    hide License, GuardFor, Upserted, Erased, KeyFor, Quiet, Keeps;
    var (guarded, allowed) := GuardFor(w, action, env);
    GuardIsQuiet(w, action, env, |w.trace|);
    QuietKeepsModprobe(w, guarded);
    LicenseLicenses(hash, guarded, VerbOf(action), SubjectOf(action), env, 0);
    QuietKeepsModprobe(guarded, License(hash, guarded, VerbOf(action), SubjectOf(action), env).0);
  }

  /** A successful disable lists the device: looking its key up gives an entry with the path, the
      mechanism and the driver to rebind; every other key finds what it found before. */
  lemma DisableLists(w: World, path: string, env: Env, other: DeviceKey)
    requires ApplyDisable(w, path, env).1.Success?
    ensures var after := ApplyDisable(w, path, env).0;
      var key := KeyFor(w, path, Enumerated(w, env), env);
      var listed := Lookup(after.state.entries, key);
      && listed.Some? && listed.value.lastSysfsPath == path && !listed.value.guardSuspended
      && (env.controller(Now(w)).value == None ==>
            listed.value.mechanism == "authorized" && listed.value.lastDriver == "")
      && (env.controller(Now(w)).value.Some? ==>
            listed.value.mechanism == "unbind" && listed.value.lastDriver == env.controller(Now(w)).value.value)
      && (other != key ==> Lookup(after.state.entries, other) == Lookup(w.state.entries, other))
  {
    var key := KeyFor(w, path, Enumerated(w, env), env);
    var applied := env.controller(Now(w)).value;
    var entry := DisabledEntry(key, path, applied, env.now(Now(w) + 1));
    UpsertLooksUp(w.state.entries, entry, key);
    UpsertLooksUp(w.state.entries, entry, other);
  }

  lemma {:induction false} EntryOfLast(entries: Entries, e: Entry, path: string, probed: Option<Device>)
    requires forall i :: 0 <= i < |entries| ==> !IsEntryOf(entries[i], path, probed)
    ensures EntryOf(entries + [e], path, probed) == if IsEntryOf(e, path, probed) then Some(e) else None
  {
    if entries == [] {
      assert entries + [e] == [e];
    } else {
      EntryOfLast(entries[1..], e, path, probed);
      assert (entries + [e])[1..] == entries[1..] + [e];
    }
  }

  /** Enabling a device that no entry was for before it was disabled gives the entry list back,
      and asks to rebind the driver that the disable unbound. */
  lemma EnableUndoesDisable(w: World, path: string, env: Env, env2: Env)
    requires ApplyDisable(w, path, env).1.Success?
    requires ApplyEnable(ApplyDisable(w, path, env).0, path, env2).1.Success?
    requires !HasKey(w.state.entries, KeyFor(w, path, Enumerated(w, env), env))
    requires forall i :: 0 <= i < |w.state.entries| ==>
      !IsEntryOf(w.state.entries[i], path, Probed(ApplyDisable(w, path, env).0, path, env2))
    ensures var disabled := ApplyDisable(w, path, env).0;
      var enabled := ApplyEnable(disabled, path, env2).0;
      && enabled.state.entries == w.state.entries
      && enabled.trace[|enabled.trace| - 1]
         == SetEnabled(path, true, SnapshotStore.OrElse(env.controller(Now(w)).value, ""), true)
  {
    hide KeyFor, Probed, Upserted, Erased;
    var key := KeyFor(w, path, Enumerated(w, env), env);
    var (disabled, _) := ApplyDisable(w, path, env);
    var entry := DisabledEntry(key, path, env.controller(Now(w)).value, env.now(Now(w) + 1));
    assert disabled.state.entries == Upserted(w.state.entries, entry);
    UpsertNone(w.state.entries, entry);
    EntryOfLast(w.state.entries, entry, path, Probed(disabled, path, env2));
    EraseUndoesUpsert(w.state.entries, entry);
  }

  // ---------------------------------------------------------------- the snapshot verbs

  datatype SnapshotRequest =
    | SnapshotCreate(caller: string, text: string)
    | SnapshotRestore(caller: string, id: string)
    | SnapshotDelete(caller: string, id: string)

  predicate IsValid(request: SnapshotRequest) {
    ValidCaller(request.caller)
    && if request.SnapshotCreate? then ValidLabel(request.text) else ValidSnapshotId(request.id)
  }

  function DeleteSnapshot(hash: Hash, w: World, id: string, env: Env): (World, Result<()>) {
    var (dir, r) := SnapshotStore.Remove(hash, w.dir, id, env.disk(Now(w)));
    (w.(dir := dir), r)
  }

  function Dropped<T>(r: Result<T>): Result<()> {
    if r.Success? then Success(()) else Failure(r.code)
  }

  function ActOnSnapshots(hash: Hash, w: World, request: SnapshotRequest, env: Env): (World, Result<()>) {
    match request
    case SnapshotCreate(_, text) =>
      var (taken, r) := TakeSnapshot(hash, w, Manual, SnapshotReason("", text), env);
      (taken, Dropped(r))
    case SnapshotRestore(_, id) =>
      var (after, r) := Restore(hash, w, id, env);
      (after, Dropped(r))
    case SnapshotDelete(_, id) => DeleteSnapshot(hash, w, id, env)
  }

  function ProcessSnapshot(hash: Hash, w: World, request: SnapshotRequest, env: Env): (World, Result<()>) {
    var begun := Begin(w, Verb);
    if !IsValid(request) then (begun, Failure(InvalidArgs))
    else
      var (asked, granted) := Authorize(begun, env);
      if granted.Failure? then (asked, granted) else ActOnSnapshots(hash, asked, request, env)
  }

  /** A snapshot verb, the delete among them, whose caller was not authorized leaves the store alone. */
  lemma RefusedSnapshotVerbLeavesTheStore(hash: Hash, w: World, request: SnapshotRequest, env: Env)
    ensures var after := ProcessSnapshot(hash, w, request, env).0;
      WasGranted(after.trace, |w.trace|) || after.dir == w.dir
  {
    hide ActOnSnapshots, Authorize, WasGranted, IsValid, Capture;
    var begun := Begin(w, Verb);
    if IsValid(request) {
      var (asked, granted) := Authorize(begun, env);
      GrantShows(begun, env);
      if granted.Success? {
        GrantIsSince(asked.trace, |w.trace|, |begun.trace|);
        SnapshotVerbExtends(hash, asked, request, env);
        GrantStays(asked.trace, ActOnSnapshots(hash, asked, request, env).0.trace, |w.trace|);
      }
    }
  }

  lemma SnapshotVerbExtends(hash: Hash, w: World, request: SnapshotRequest, env: Env)
    ensures w.trace <= ActOnSnapshots(hash, w, request, env).0.trace
  {
    hide SnapshotStore.Put, SnapshotStore.Remove, Restore, Capture;
    match request
    case SnapshotCreate(_, _) =>
    case SnapshotRestore(_, id) =>
      RestoreStoresFirst(hash, w, id, env, 0);
      KeepsExtends(w, Restore(hash, w, id, env).0, 0);
    case SnapshotDelete(_, _) =>
  }

  lemma SameQuiet(w: World, v: World)
    requires v.trace == w.trace && v.state == w.state && v.modprobe == w.modprobe
    ensures Quiet(w, v)
  {
  }

  lemma PrepareIsQuiet(hash: Hash, w: World, id: string, env: Env)
    ensures var (safe, r) := Prepare(hash, w, id, env);
      && Quiet(w, safe) && |safe.trace| == |w.trace| + 1
      && (r.Success? ==> IsPutOf(safe.trace[|w.trace|], Capture(w)))
  {
    hide Prepare, Capture, Guarded;
    PrepareKeeps(hash, w, id, env, 0);
  }

  // A restore that was granted is as careful as the other verbs.
  lemma RestoreFailsClosed(hash: Hash, w: World, asked: World, id: string, env: Env, start: nat)
    requires Quiet(w, asked) && |w.trace| < |asked.trace| && asked.trace[|asked.trace| - 1].Granted?
    requires start <= |asked.trace|
    ensures var after := Restore(hash, asked, id, env).0;
      Keeps(asked, after, start) && FailClosed(after.trace, |w.trace|, Capture(w))
  {
    hide Restore, Prepare, ReadSnapshot, Quiet, Keeps, FailClosed, Capture;
    RestoreStoresFirst(hash, asked, id, env, start);
    PrepareIsQuiet(hash, asked, id, env);
    var after := Restore(hash, asked, id, env).0;
    var (safe, safety) := Prepare(hash, asked, id, env);
    if ReadSnapshot(hash, asked, id, env).1.Failure? {
      SameQuiet(asked, after);
      QuietChains(w, asked, after);
      QuietFailsClosed(w, after);
    } else {
      QuietChains(w, asked, safe);
      if safety.Failure? {
        QuietFailsClosed(w, safe);
      } else {
        StoredIsLicensed(w, asked, safe);
        LicensedFailsClosed(w, safe, after);
      }
    }
  }

  lemma StoredIsLicensed(w: World, asked: World, safe: World)
    requires Quiet(w, asked) && |w.trace| < |asked.trace| && asked.trace[|asked.trace| - 1].Granted?
    requires Quiet(w, safe) && Quiet(asked, safe)
    requires |safe.trace| == |asked.trace| + 1 && IsPutOf(safe.trace[|asked.trace|], Capture(asked))
    ensures IsLicensed(w, safe)
  {
    var n := |asked.trace|;
    assert safe.trace[n - 1] == safe.trace[..n][n - 1];
    assert Capture(asked) == Capture(w);
    assert IsLicense(safe.trace, |w.trace|, n - 1, n, Capture(w));
  }

  // ---------------------------------------------------------------- the processor

  class RequestProcessor {
    const host: Host
    const snapshots: SnapshotService

    constructor (snapshots: SnapshotService)
      ensures this.snapshots == snapshots && host == snapshots.host
    {
      this.snapshots, host := snapshots, snapshots.host;
    }

    method Start()
      modifies host
      ensures host.W() == Begin(old(host.W()), Verb)
    {
      var payload := host.CapturePayload();
      host.Note(Began(Verb, payload));
    }

    method CheckAuthorized(env: Env) returns (r: Result<()>)
      modifies host
      ensures (host.W(), r) == Authorize(old(host.W()), env)
    {
      var answer := env.authority(|host.trace|);
      if answer.Success? && answer.value {
        host.Note(Granted);
        return Success(());
      }
      host.Note(Denied);
      r := Failure(if answer.Failure? then answer.code else Permission);
    }

    method TakeBefore(verb: string, subject: string, env: Env) returns (r: Result<()>)
      modifies host, host.store
      ensures (host.W(), r) == SnapshotBefore(host.store.hash, old(host.W()), verb, subject, env)
    {
      hide TakeSnapshot;
      var taken := host.Snapshot(Auto, SnapshotReason(verb, subject), env);
      r := if taken.Success? then Success(()) else Failure(Io);
    }

    method GetLicense(verb: string, subject: string, env: Env) returns (r: Result<()>)
      modifies host, host.store
      ensures (host.W(), r) == License(host.store.hash, old(host.W()), verb, subject, env)
    {
      hide SnapshotBefore, Authorize;
      r := CheckAuthorized(env);
      if r.Success? {
        r := TakeBefore(verb, subject, env);
      }
    }

    method GuardPath(path: string, env: Env) returns (r: Result<()>)
      modifies host
      ensures (host.W(), r) == GuardDisable(old(host.W()), path, env)
    {
      hide Judge;
      var answer := host.AskGuard(path, env);
      if answer.Failure? {
        return Failure(answer.code);
      }
      r := if answer.value.Allowed? then Success(()) else Failure(Conflict);
    }

    method GuardUnload(name: string, env: Env) returns (r: Result<()>)
      modifies host
      ensures (host.W(), r) == GuardModuleUnload(old(host.W()), name, env)
    {
      var loaded := env.loaded(|host.trace|);
      if loaded.Failure? {
        return Failure(loaded.code);
      }
      if loaded.value.None? {
        return Failure(NotFound);
      }
      var affected := env.devicesUsing(|host.trace|);
      if affected.Failure? {
        return Failure(affected.code);
      }
      var facts := env.probe(|host.trace|);
      if facts.Failure? {
        host.Note(ProbeFailed);
        return Failure(facts.code);
      }
      var (holders, refCount) := loaded.value.value;
      var unload := ModuleUnloadFacts(holders, refCount, affected.value);
      var verdict := EvaluateModuleUnload(facts.value, unload);
      host.Note(ModuleJudged(name, facts.value, unload, verdict));
      r := if verdict.Allowed? then Success(()) else Failure(Conflict);
    }

    method FindKey(path: string, env: Env) returns (key: DeviceKey)
      ensures key == KeyFor(host.W(), path, Enumerated(host.W(), env), env)
    {
      var enumerated := env.enumerate(|host.trace|);
      var all := if enumerated.Success? then enumerated.value else [];
      for i := 0 to |all|
        invariant AtPath(all, path) == AtPath(all[i..], path)
      {
        if all[i].sysfsPath == path {
          return MakeKeyAmong(all[i], all);
        }
        assert all[i..][1..] == all[i + 1..];
      }
      key := MakeDeviceKey(env.sysfs(|host.trace|, path).(sysfsPath := path));
    }

    method DisableDevice(path: string, env: Env) returns (r: Result<()>)
      modifies host, host.state
      ensures (host.W(), r) == ApplyDisable(old(host.W()), path, env)
    {
      hide KeyFor, Upserted;
      var key := FindKey(path, env);
      var applied := host.CallController(path, false, "", env);
      if applied.Failure? {
        return Failure(applied.code);
      }
      var entry := DisabledEntry(key, path, applied.value, env.now(|host.trace|));
      var before := host.state.entries;
      r := host.state.Upsert(entry, env.saves(|host.trace|));
      host.Note(EntriesChanged(before, host.state.entries));
    }

    method FindEntry(path: string, env: Env) returns (r: Option<Entry>)
      ensures r == EntryOf(host.state.entries, path, Probed(host.W(), path, env))
    {
      var entries := host.state.entries;
      var probed := if env.isDirectory(|host.trace|, path)
        then Some(env.sysfs(|host.trace|, path).(sysfsPath := path)) else None;
      for i := 0 to |entries|
        invariant EntryOf(entries, path, probed) == EntryOf(entries[i..], path, probed)
      {
        if IsEntryOf(entries[i], path, probed) {
          return Some(entries[i]);
        }
        assert entries[i..][1..] == entries[i + 1..];
      }
      r := None;
    }

    method EnableDevice(path: string, env: Env) returns (r: Result<()>)
      modifies host, host.state
      ensures (host.W(), r) == ApplyEnable(old(host.W()), path, env)
    {
      hide EntryOf, Probed, Erased;
      var found := FindEntry(path, env);
      var hint := "";
      if found.Some? {
        hint := found.value.lastDriver;
        var before := host.state.entries;
        r := host.state.Remove(found.value.key, env.saves(|host.trace|));
        host.Note(EntriesChanged(before, host.state.entries));
        if r.Failure? {
          return;
        }
      }
      var applied := host.CallController(path, true, hint, env);
      r := if applied.Success? then Success(()) else Failure(applied.code);
    }

    method CallDrivers(call: DriverCall, env: Env) returns (r: Result<()>)
      modifies host
      ensures (host.W(), r) == CallDriver(old(host.W()), call, env)
    {
      r := env.drivers(|host.trace|);
      host.Note(DriverCalled(call, r.Success?));
    }

    method SetDevice(caller: string, path: string, enabled: bool, env: Env) returns (r: Result<()>)
      modifies host, host.state, host.store
      ensures (host.W(), r) == Process(host.store.hash, old(host.W()), SetDeviceEnabled(caller, path, enabled), env)
    {
      hide License, GuardDisable, ApplyDisable, ApplyEnable, ValidCaller, ValidPath;
      Start();
      if !ValidCaller(caller) || !ValidPath(path) {
        return Failure(InvalidArgs);
      }
      var canonical := env.canonical(path);
      if canonical.Failure? {
        return Failure(canonical.code);
      }
      if !enabled {
        r := GuardPath(canonical.value, env);
        if r.Failure? {
          return;
        }
      }
      r := GetLicense("SetDeviceEnabled", canonical.value, env);
      if r.Failure? {
        return;
      }
      if enabled {
        r := EnableDevice(canonical.value, env);
      } else {
        r := DisableDevice(canonical.value, env);
      }
    }

    method Load(caller: string, name: string, env: Env) returns (r: Result<()>)
      modifies host, host.store
      ensures (host.W(), r) == Process(host.store.hash, old(host.W()), LoadModuleFor(caller, name), env)
    {
      hide License, ValidCaller, ValidName;
      Start();
      if !ValidCaller(caller) || !ValidName(name) {
        return Failure(InvalidArgs);
      }
      r := GetLicense("LoadModule", name, env);
      if r.Success? {
        r := CallDrivers(LoadModule(name), env);
      }
    }

    method Unload(caller: string, name: string, env: Env) returns (r: Result<()>)
      modifies host, host.store
      ensures (host.W(), r) == Process(host.store.hash, old(host.W()), UnloadModuleFor(caller, name), env)
    {
      hide License, GuardModuleUnload, ValidCaller, ValidName;
      Start();
      if !ValidCaller(caller) || !ValidName(name) {
        return Failure(InvalidArgs);
      }
      r := GuardUnload(name, env);
      if r.Failure? {
        return;
      }
      r := GetLicense("UnloadModule", name, env);
      if r.Success? {
        r := CallDrivers(UnloadModule(name), env);
      }
    }

    method BindDevice(caller: string, path: string, driver: string, env: Env) returns (r: Result<()>)
      modifies host, host.store
      ensures (host.W(), r) == Process(host.store.hash, old(host.W()), BindDriverFor(caller, path, driver), env)
    {
      hide License, ValidCaller, ValidPath, ValidName;
      Start();
      if !ValidCaller(caller) || !ValidPath(path) || !ValidName(driver) {
        return Failure(InvalidArgs);
      }
      var canonical := env.canonical(path);
      if canonical.Failure? {
        return Failure(canonical.code);
      }
      r := GetLicense("BindDriver", canonical.value, env);
      if r.Success? {
        r := CallDrivers(Bind(canonical.value, driver), env);
      }
    }

    method UnbindDevice(caller: string, path: string, env: Env) returns (r: Result<()>)
      modifies host, host.store
      ensures (host.W(), r) == Process(host.store.hash, old(host.W()), UnbindDriverFor(caller, path), env)
    {
      hide License, GuardDisable, ValidCaller, ValidPath;
      Start();
      if !ValidCaller(caller) || !ValidPath(path) {
        return Failure(InvalidArgs);
      }
      var canonical := env.canonical(path);
      if canonical.Failure? {
        return Failure(canonical.code);
      }
      r := GuardPath(canonical.value, env);
      if r.Failure? {
        return;
      }
      r := GetLicense("UnbindDriver", canonical.value, env);
      if r.Success? {
        r := CallDrivers(Unbind(canonical.value), env);
      }
    }

    method HandleSnapshot(request: SnapshotRequest, env: Env) returns (r: Result<()>)
      requires snapshots.host == host
      modifies host, host.state, host.store
      ensures (host.W(), r) == ProcessSnapshot(host.store.hash, old(host.W()), request, env)
    {
      hide Authorize, TakeSnapshot, Restore, SnapshotStore.Remove, IsValid;
      Start();
      if !IsValid(request) {
        return Failure(InvalidArgs);
      }
      r := CheckAuthorized(env);
      if r.Failure? {
        return;
      }
      match request
      case SnapshotCreate(_, text) =>
        var taken := host.Snapshot(Manual, SnapshotReason("", text), env);
        r := Dropped(taken);
      case SnapshotRestore(_, id) =>
        var restored := snapshots.RestoreSnapshot(id, env);
        r := Dropped(restored);
      case SnapshotDelete(_, id) =>
        r := host.store.RemoveSnapshot(id, env.disk(|host.trace|));
    }
  }
}
