/** Runs of the daemon: verbs, snapshot verbs and enforcement in any order, against any environment. */
module DaemonRuns {
  import opened Models
  import opened StateStores
  import SnapshotStore
  import opened SnapshotCycles
  import opened Guard
  import opened Daemon
  import opened SnapshotServices
  import opened RequestProcessors
  import opened EnforcementServices

  datatype Op =
    | Change(request: Request)
    | OnSnapshots(snapshotRequest: SnapshotRequest)
    | Plug(event: HotplugEvent)
    | SweepNow

  function Step(hash: Hash, w: World, op: Op, env: Env): World {
    match op
    case Change(request) => Process(hash, w, request, env).0
    case OnSnapshots(request) => ProcessSnapshot(hash, w, request, env).0
    case Plug(event) => OnHotplug(w, event, env)
    case SweepNow => Sweep(w, env)
  }

  function Run(hash: Hash, w: World, ops: seq<(Op, Env)>): World {
    if ops == [] then w
    else
      var last := ops[|ops| - 1];
      Step(hash, Run(hash, w, ops[..|ops| - 1]), last.0, last.1)
  }

  // ---------------------------------------------------------------- who changed what, and why it may

  // The change at k belongs to the operation that began at b: if that is a verb, then after a granted
  // authorization and a successful put of what was current when it began; and a disable or an unload comes
  // after an allowing verdict of the same operation on the same path or module.
  ghost predicate AttributedTo(trace: Trace, b: nat, k: nat)
    requires b < k < |trace|
  {
    && trace[b].Began?
    && (forall m :: b < m <= k ==> !trace[m].Began?)
    && (trace[b].actor == Verb ==> CoveredAt(trace, b + 1, k, trace[b].payload))
    && (IsRemoval(trace[k]) ==> JudgedBefore(trace, b, k))
  }

  ghost predicate Attributed(trace: Trace, k: nat) {
    exists b :: 0 <= b < k < |trace| && AttributedTo(trace, b, k)
  }

  // What one operation adds to the trace.
  ghost predicate IsSegment(w: World, after: World) {
    && |after.trace| > |w.trace| && w.trace <= after.trace
    && after.trace[|w.trace|].Began? && after.trace[|w.trace|].payload == Capture(w)
    && NoBeginning(after.trace, |w.trace| + 1) && Guarded(after.trace, |w.trace|)
    && (NoMutation(after.trace, |w.trace| + 1, |after.trace|) ==>
          after.state == w.state && after.modprobe == w.modprobe)
    && (after.trace[|w.trace|].actor == Verb ==> FailClosed(after.trace, |w.trace| + 1, Capture(w)))
  }

  lemma SegmentOf(w: World, actor: Actor, after: World)
    requires Keeps(Begin(w, actor), after, |w.trace|)
    requires actor == Verb ==> FailClosed(after.trace, |w.trace| + 1, Capture(w))
    ensures IsSegment(w, after)
  {
    hide Capture;
    var begun := Begin(w, actor);
    assert after.trace[|w.trace|] == after.trace[..|begun.trace|][|w.trace|];
    DoAppends(w, Began(actor, Capture(w)));
    PrefixChains(w.trace, begun.trace, after.trace);
  }

  lemma ProcessIsSegment(hash: Hash, w: World, request: Request, env: Env)
    ensures IsSegment(w, Process(hash, w, request, env).0)
  {
    hide Perform, Keeps, FailClosed, IsSegment, Capture, IsLicensed, Quiet;
    var begun := Begin(w, Verb);
    SameCapture(w);
    SameTouches(begun, |w.trace|);
    SameQuiet(begun, begun);
    QuietFailsClosed(begun, begun);
    match Requested(request, env)
    case Failure(_) =>
      SegmentOf(w, Verb, begun);
    case Success(action) =>
      PerformFailsClosed(hash, begun, action, env, |w.trace|);
      SegmentOf(w, Verb, Perform(hash, begun, action, env).0);
  }

  lemma SameCapture(w: World)
    ensures Capture(Begin(w, Verb)) == Capture(w) && |Begin(w, Verb).trace| == |w.trace| + 1
  {
  }

  lemma ProcessSnapshotIsSegment(hash: Hash, w: World, request: SnapshotRequest, env: Env)
    ensures IsSegment(w, ProcessSnapshot(hash, w, request, env).0)
  {
    hide ActOnSnapshots, Keeps, FailClosed, IsSegment, Quiet, Capture;
    var begun := Begin(w, Verb);
    SameCapture(w);
    SameTouches(begun, |w.trace|);
    SameQuiet(begun, begun);
    QuietFailsClosed(begun, begun);
    var (asked, granted) := Authorize(begun, env);
    AuthorizeIsQuiet(begun, env, |w.trace|);
    QuietFailsClosed(begun, asked);
    if !IsValid(request) {
      SegmentOf(w, Verb, begun);
    } else if granted.Failure? {
      SegmentOf(w, Verb, asked);
    } else {
      var after := ActOnSnapshots(hash, asked, request, env).0;
      ActOnSnapshotsFailsClosed(hash, begun, asked, request, env, |w.trace|);
      KeepsChains(begun, asked, after, |w.trace|);
      SegmentOf(w, Verb, after);
    }
  }

  lemma ActOnSnapshotsFailsClosed(hash: Hash, w: World, asked: World, request: SnapshotRequest, env: Env, start: nat)
    requires Quiet(w, asked) && asked.trace == w.trace + [Granted] && start <= |asked.trace|
    ensures var after := ActOnSnapshots(hash, asked, request, env).0;
      Keeps(asked, after, start) && FailClosed(after.trace, |w.trace|, Capture(w))
  {
    hide TakeSnapshot, Restore, DeleteSnapshot, Quiet, Keeps, FailClosed, Capture;
    match request
    case SnapshotCreate(_, text) =>
      TakeSnapshotIsQuiet(hash, asked, Manual, SnapshotReason("", text), env, start);
      var taken := TakeSnapshot(hash, asked, Manual, SnapshotReason("", text), env).0;
      QuietChains(w, asked, taken);
      QuietFailsClosed(w, taken);
    case SnapshotRestore(_, id) =>
      RestoreFailsClosed(hash, w, asked, id, env, start);
    case SnapshotDelete(_, id) =>
      DeleteIsQuiet(hash, asked, id, env, start);
      QuietChains(w, asked, DeleteSnapshot(hash, asked, id, env).0);
      QuietFailsClosed(w, DeleteSnapshot(hash, asked, id, env).0);
  }

  lemma DeleteIsQuiet(hash: Hash, w: World, id: string, env: Env, start: nat)
    ensures var after := DeleteSnapshot(hash, w, id, env).0; Quiet(w, after) && Keeps(w, after, start)
  {
    hide SnapshotStore.Remove;
  }

  lemma StepIsSegment(hash: Hash, w: World, op: Op, env: Env)
    ensures IsSegment(w, Step(hash, w, op, env))
  {
    hide Process, ProcessSnapshot, OnHotplug, Sweep, Keeps, Touches, IsSegment;
    match op
    case Change(request) => ProcessIsSegment(hash, w, request, env);
    case OnSnapshots(request) => ProcessSnapshotIsSegment(hash, w, request, env);
    case Plug(event) =>
      EnforcementOnlyTouches(w, event, env);
      SegmentOf(w, Enforcement, OnHotplug(w, event, env));
    case SweepNow =>
      EnforcementOnlyTouches(w, HotplugEvent(HotplugAction.Removed, AnyDevice()), env);
      SegmentOf(w, Enforcement, Sweep(w, env));
  }

  function AnyDevice(): Device {
    Device("", OtherBus, "", "", "", "", "", Unknown, None)
  }

  lemma CoveredStays(before: Trace, after: Trace, start: nat, k: nat, payload: SnapshotPayload)
    requires before <= after && k < |before| && CoveredAt(before, start, k, payload)
    ensures CoveredAt(after, start, k, payload)
  {
    var i, j :| start <= i < j < k && IsLicense(before, start, i, j, payload);
    assert IsLicense(after, start, i, j, payload);
  }

  lemma AttributedStays(before: Trace, after: Trace, k: nat)
    requires before <= after && Attributed(before, k)
    ensures Attributed(after, k)
  {
    hide CoveredAt, IsCleared;
    var b :| 0 <= b < k < |before| && AttributedTo(before, b, k);
    forall m | 0 <= m < |before|
      ensures after[m] == before[m]
    {
    }
    if before[b].actor == Verb {
      CoveredStays(before, after, b + 1, k, before[b].payload);
    }
    if IsRemoval(before[k]) {
      ClearedStays(before, after, b, k, TargetOf(before[k]));
    }
    assert AttributedTo(after, b, k);
  }

  lemma NewIsAttributed(w: World, after: World, k: nat)
    requires IsSegment(w, after) && |w.trace| < k < |after.trace| && IsMutation(after.trace[k])
    ensures Attributed(after.trace, k)
  {
    assert AttributedTo(after.trace, |w.trace|, k);
  }

  /** In every run, every change of hardware, modules, entries or files belongs to an operation; if that
      is a verb, the change comes after its authorization and after a successful put of what was current
      when it began; and every disable or unload comes after an allowing verdict on the same path or
      module, with none of them in between. */
  lemma {:induction false} RunsAreAttributed(hash: Hash, w: World, ops: seq<(Op, Env)>, k: nat)
    requires |w.trace| <= k < |Run(hash, w, ops).trace| && IsMutation(Run(hash, w, ops).trace[k])
    ensures Attributed(Run(hash, w, ops).trace, k)
  {
    hide Step, IsMutation, Attributed;
    if ops != [] {
      var n := |ops| - 1;
      var before := Run(hash, w, ops[..n]);
      var after := Run(hash, w, ops);
      StepIsSegment(hash, before, ops[n].0, ops[n].1);
      if k < |before.trace| {
        assert after.trace[k] == after.trace[..|before.trace|][k];
        RunsAreAttributed(hash, w, ops[..n], k);
        AttributedStays(before.trace, after.trace, k);
      } else {
        BeganIsNoMutation(after.trace[|before.trace|]);
        NewIsAttributed(before, after, k);
      }
    }
  }

  /** In every run, the entries, state.json and the modprobe files are as at the start unless the
      trace shows a change. */
  lemma {:induction false} RunsShowChanges(hash: Hash, w: World, ops: seq<(Op, Env)>)
    ensures w.trace <= Run(hash, w, ops).trace
    ensures NoMutation(Run(hash, w, ops).trace, |w.trace|, |Run(hash, w, ops).trace|) ==>
      Run(hash, w, ops).state == w.state && Run(hash, w, ops).modprobe == w.modprobe
  {
    hide Step, IsMutation, Guarded;
    if ops != [] {
      var n := |ops| - 1;
      var before, after := Run(hash, w, ops[..n]), Run(hash, w, ops);
      RunsShowChanges(hash, w, ops[..n]);
      StepIsSegment(hash, before, ops[n].0, ops[n].1);
      PrefixChains(w.trace, before.trace, after.trace);
      assert forall k :: 0 <= k < |before.trace| ==> after.trace[k] == after.trace[..|before.trace|][k];
    }
  }

  lemma BeganIsNoMutation(e: Event)
    requires e.Began?
    ensures !IsMutation(e)
  {
  }

  /** An operation in which nobody was authorized leaves the snapshot store as it was. */
  lemma StepNeedsGrant(hash: Hash, w: World, op: Op, env: Env)
    ensures WasGranted(Step(hash, w, op, env).trace, |w.trace|) || Step(hash, w, op, env).dir == w.dir
  {
    hide Perform, ProcessSnapshot, Sweep, OnHotplug, Touches, Keeps, WasGranted, Capture;
    match op
    case Change(request) =>
      var r := Requested(request, env);
      if r.Success? {
        var begun := Begin(w, Verb);
        RefusedLeavesTheStore(hash, begun, r.value, env);
        if WasGranted(Perform(hash, begun, r.value, env).0.trace, |begun.trace|) {
          GrantIsSince(Perform(hash, begun, r.value, env).0.trace, |w.trace|, |begun.trace|);
        }
      }
    case OnSnapshots(request) => RefusedSnapshotVerbLeavesTheStore(hash, w, request, env);
    case Plug(event) =>
      EnforcementOnlyTouches(w, event, env);
      TouchesStore(w, OnHotplug(w, event, env));
    case SweepNow =>
      EnforcementOnlyTouches(w, HotplugEvent(HotplugAction.Removed, AnyDevice()), env);
      TouchesStore(w, Sweep(w, env));
  }

  lemma TouchesStore(w: World, after: World)
    requires Touches(w, after)
    ensures after.dir == w.dir
  {
  }

  /** So a run in which nobody was authorized leaves it as it was, whoever called what. */
  lemma {:induction false} RunsNeedGrant(hash: Hash, w: World, ops: seq<(Op, Env)>)
    ensures WasGranted(Run(hash, w, ops).trace, |w.trace|) || Run(hash, w, ops).dir == w.dir
  {
    hide Step, WasGranted;
    if ops != [] {
      var n := |ops| - 1;
      var before, after := Run(hash, w, ops[..n]), Run(hash, w, ops);
      RunsNeedGrant(hash, w, ops[..n]);
      RunsShowChanges(hash, w, ops[..n]);
      StepNeedsGrant(hash, before, ops[n].0, ops[n].1);
      StepIsSegment(hash, before, ops[n].0, ops[n].1);
      if WasGranted(before.trace, |w.trace|) {
        GrantStays(before.trace, after.trace, |w.trace|);
      } else if WasGranted(after.trace, |before.trace|) {
        GrantIsSince(after.trace, |w.trace|, |before.trace|);
      }
    }
  }

  // ---------------------------------------------------------------- what every run keeps

  ghost predicate IsOwn(payload: SnapshotPayload) {
    OwnedNames(payload.modprobeFiles) && DistinctKeys(payload.entries)
  }

  ghost predicate StoresOwn(dir: SnapshotStore.Directory) {
    forall id :: id in dir.files && SnapshotStore.Holds(dir.files[id]) ==> IsOwn(dir.files[id].payload.value)
  }

  // The store is sound and holds only states devmgr was in; no key is listed twice.
  ghost predicate Healthy(hash: Hash, w: World) {
    SnapshotStore.Sound(hash, w.dir) && StoresOwn(w.dir) && DistinctKeys(w.state.entries)
  }

  lemma PutStoresOwn(hash: Hash, dir: SnapshotStore.Directory, payload: SnapshotPayload, trigger: SnapshotTrigger,
                     reason: SnapshotReason, now: int, disk: SnapshotStore.Disk)
    requires SnapshotStore.Sound(hash, dir) && StoresOwn(dir) && IsOwn(payload)
    ensures var after := SnapshotStore.Put(hash, dir, payload, trigger, reason, now, disk).0;
      SnapshotStore.Sound(hash, after) && StoresOwn(after)
  {
    hide SnapshotStore.Put, IsOwn, SnapshotStore.Sound;
    SnapshotStore.PutKeepsSound(hash, dir, payload, trigger, reason, now, disk);
    var after := SnapshotStore.Put(hash, dir, payload, trigger, reason, now, disk).0;
    forall id | id in after.files && SnapshotStore.Holds(after.files[id])
      ensures IsOwn(after.files[id].payload.value)
    {
      if id !in dir.files {
        SnapshotStore.PutStoresOnly(hash, dir, payload, trigger, reason, now, disk, id);
      }
    }
  }

  lemma TakeSnapshotIsHealthy(hash: Hash, w: World, trigger: SnapshotTrigger, reason: SnapshotReason, env: Env)
    requires Healthy(hash, w)
    ensures Healthy(hash, TakeSnapshot(hash, w, trigger, reason, env).0)
  {
    hide SnapshotStore.Put, StoresOwn, SnapshotStore.Sound, DistinctKeys;
    CapturedNamesAreOwned(w);
    PutStoresOwn(hash, w.dir, Capture(w), trigger, reason, env.now(Now(w)), env.disk(Now(w)));
  }

  lemma ReadIsOwn(hash: Hash, w: World, id: string, env: Env)
    requires Healthy(hash, w)
    ensures var (read, r) := ReadSnapshot(hash, w, id, env);
      read == w && (r.Success? ==> IsOwn(r.value.payload))
  {
    hide IsOwn;
    SnapshotStore.ReadOfSound(hash, w.dir, id, env.disk(Now(w)).moves);
  }

  lemma TouchedIsHealthy(hash: Hash, w: World, after: World)
    requires Healthy(hash, w) && Touches(w, after)
    ensures Healthy(hash, after)
  {
    hide SnapshotStore.Sound, StoresOwn;
    SimilarDistinct(w.state.entries, after.state.entries);
  }

  lemma RestoreIsHealthy(hash: Hash, w: World, id: string, env: Env)
    requires Healthy(hash, w)
    ensures Healthy(hash, Restore(hash, w, id, env).0)
  {
    hide TakeSnapshot, ReadSnapshot, Apply, SnapshotStore.Sound, StoresOwn, Unowned, Owned, FilesWentWell;
    ReadIsOwn(hash, w, id, env);
    var (read, snapshot) := ReadSnapshot(hash, w, id, env);
    if snapshot.Success? {
      var reason := SnapshotReason("SnapshotRestore", id);
      var (safe, safety) := TakeSnapshot(hash, w, Auto, reason, env);
      TakeSnapshotIsHealthy(hash, w, Auto, reason, env);
      TakeSnapshotCapture(hash, w, Auto, reason, env);
      if safety.Success? {
        ApplyDoes(safe, snapshot.value.payload, env, 0);
        SimilarDistinct(snapshot.value.payload.entries, Restore(hash, w, id, env).0.state.entries);
      }
    }
  }

  lemma TakeSnapshotCapture(hash: Hash, w: World, trigger: SnapshotTrigger, reason: SnapshotReason, env: Env)
    ensures var taken := TakeSnapshot(hash, w, trigger, reason, env).0;
      taken.state == w.state && taken.modprobe == w.modprobe && Capture(taken) == Capture(w)
  {
    hide SnapshotStore.Put;
  }

  lemma ActIsHealthy(hash: Hash, w: World, action: Action, env: Env)
    requires Healthy(hash, w)
    ensures Healthy(hash, Act(w, action, env).0)
  {
    hide SnapshotStore.Sound, StoresOwn, KeyFor, Upserted, Erased, DistinctKeys;
    match action
    case Disable(path) =>
      var key := KeyFor(w, path, Enumerated(w, env), env);
      var (called, applied) := CallSetEnabled(w, path, false, "", env);
      if applied.Success? {
        UpsertKeys(w.state.entries, DisabledEntry(key, path, applied.value, env.now(Now(called))));
      }
    case Enable(path) =>
      var found := EntryOf(w.state.entries, path, Probed(w, path, env));
      if found.Some? {
        EraseKeys(w.state.entries, found.value.key);
      }
    case Call(_) =>
  }

  lemma PerformIsHealthy(hash: Hash, w: World, action: Action, env: Env)
    requires Healthy(hash, w)
    ensures Healthy(hash, Perform(hash, w, action, env).0)
  {
    hide SnapshotStore.Sound, StoresOwn, DistinctKeys, Act, TakeSnapshot, GuardFor, Quiet, Keeps;
    var guarded := GuardFor(w, action, env).0;
    GuardIsQuiet(w, action, env, 0);
    QuietKeepsModprobe(w, guarded);
    var asked := Authorize(guarded, env).0;
    AuthorizeIsQuiet(guarded, env, 0);
    QuietKeepsModprobe(guarded, asked);
    var reason := SnapshotReason(VerbOf(action), SubjectOf(action));
    TakeSnapshotIsHealthy(hash, asked, Auto, reason, env);
    ActIsHealthy(hash, TakeSnapshot(hash, asked, Auto, reason, env).0, action, env);
  }

  lemma ActOnSnapshotsIsHealthy(hash: Hash, w: World, request: SnapshotRequest, env: Env)
    requires Healthy(hash, w)
    ensures Healthy(hash, ActOnSnapshots(hash, w, request, env).0)
  {
    hide TakeSnapshot, Restore, SnapshotStore.Remove, SnapshotStore.Sound, DistinctKeys;
    match request
    case SnapshotCreate(_, text) => TakeSnapshotIsHealthy(hash, w, Manual, SnapshotReason("", text), env);
    case SnapshotRestore(_, id) => RestoreIsHealthy(hash, w, id, env);
    case SnapshotDelete(_, id) =>
      SnapshotStore.RemoveKeepsSound(hash, w.dir, id, env.disk(Now(w)));
      SnapshotStore.RemoveOnlyShrinks(hash, w.dir, id, env.disk(Now(w)));
  }

  /** Every operation keeps the store sound and full of states devmgr was in, and the keys distinct. */
  lemma StepIsHealthy(hash: Hash, w: World, op: Op, env: Env)
    requires Healthy(hash, w)
    ensures Healthy(hash, Step(hash, w, op, env))
  {
    hide SnapshotStore.Sound, StoresOwn, DistinctKeys, Touches, Keeps, Perform, ActOnSnapshots, Sweep, OnHotplug, Quiet;
    match op
    case Change(request) =>
      var r := Requested(request, env);
      if r.Success? {
        PerformIsHealthy(hash, Begin(w, Verb), r.value, env);
      }
    case OnSnapshots(request) =>
      var begun := Begin(w, Verb);
      AuthorizeIsQuiet(begun, env, 0);
      QuietKeepsModprobe(begun, Authorize(begun, env).0);
      ActOnSnapshotsIsHealthy(hash, Authorize(begun, env).0, request, env);
    case Plug(event) =>
      EnforcementOnlyTouches(w, event, env);
      TouchedIsHealthy(hash, w, OnHotplug(w, event, env));
    case SweepNow =>
      EnforcementOnlyTouches(w, HotplugEvent(HotplugAction.Removed, AnyDevice()), env);
      TouchedIsHealthy(hash, w, Sweep(w, env));
  }

  /** In every run from a fresh installation the world stays healthy. */
  lemma {:induction false} RunIsHealthy(hash: Hash, modprobe: map<string, string>, ops: seq<(Op, Env)>)
    ensures Healthy(hash, Run(hash, Fresh(modprobe), ops))
  {
    hide Step, SnapshotStore.Sound;
    if ops == [] {
      SnapshotStore.RunIsSound(hash, []);
    } else {
      var n := |ops| - 1;
      RunIsHealthy(hash, modprobe, ops[..n]);
      StepIsHealthy(hash, Run(hash, Fresh(modprobe), ops[..n]), ops[n].0, ops[n].1);
    }
  }

  function Fresh(modprobe: map<string, string>): World {
    World(State([], Absent), modprobe, SnapshotStore.EMPTY, [])
  }

  /** After any run, a successful restore of any snapshot is undone by restoring the safety snapshot
      that it reports. */
  lemma RestoreIsUndone(hash: Hash, modprobe: map<string, string>, ops: seq<(Op, Env)>, id: string, env: Env, env2: Env)
    requires var w := Run(hash, Fresh(modprobe), ops);
      && SnapshotStore.NoCollision(hash, w.dir, Capture(w)) && IsUndoable(hash, w)
      && Restore(hash, w, id, env).1.Success?
    ensures var w := Run(hash, Fresh(modprobe), ops);
      var (restored, first) := Restore(hash, w, id, env);
      var (undone, second) := Restore(hash, restored, first.value.safetySnapshotId, env2);
      && (Works(restored, env2) ==> second.Success?)
      && Unowned(restored.modprobe) == Unowned(w.modprobe)
      && (second.Success? ==> IsBack(w, restored, undone, env2))
  {
    hide Run, Restore, ReadSnapshot, SnapshotStore.NoCollision, SnapshotStore.Sound, IsBack, Unowned, IsUndoable, Works;
    var w := Run(hash, Fresh(modprobe), ops);
    RunIsHealthy(hash, modprobe, ops);
    ReadIsOwn(hash, w, id, env);
    RestoreReads(hash, w, id, env);
    RestoreUndoesRestore(hash, w, id, env, env2);
  }

  // ---------------------------------------------------------------- runs that spare HEAD

  predicate IsDelete(op: Op) {
    op.OnSnapshots? && op.snapshotRequest.SnapshotDelete?
  }

  // The store is as it was, or as one put of what is current has left it.
  ghost predicate PutsAtMostOnce(hash: Hash, w: World, dir: SnapshotStore.Directory) {
    dir == w.dir || exists trigger, reason, now, disk :: IsPutResult(hash, w, dir, trigger, reason, now, disk)
  }

  predicate IsPutResult(hash: Hash, w: World, dir: SnapshotStore.Directory, trigger: SnapshotTrigger,
                        reason: SnapshotReason, now: int, disk: SnapshotStore.Disk) {
    dir == SnapshotStore.Put(hash, w.dir, Capture(w), trigger, reason, now, disk).0
  }

  lemma TakeSnapshotPuts(hash: Hash, w: World, trigger: SnapshotTrigger, reason: SnapshotReason, env: Env)
    ensures PutsAtMostOnce(hash, w, TakeSnapshot(hash, w, trigger, reason, env).0.dir)
  {
    hide SnapshotStore.Put, Capture;
    assert IsPutResult(hash, w, TakeSnapshot(hash, w, trigger, reason, env).0.dir, trigger, reason, env.now(Now(w)),
                       env.disk(Now(w)));
  }

  lemma RestorePuts(hash: Hash, w: World, id: string, env: Env)
    requires Healthy(hash, w)
    ensures PutsAtMostOnce(hash, w, Restore(hash, w, id, env).0.dir)
  {
    hide TakeSnapshot, ReadSnapshot, Apply, SnapshotStore.Sound, StoresOwn, Unowned, Owned, FilesWentWell, IsPutResult;
    ReadIsOwn(hash, w, id, env);
    var (read, snapshot) := ReadSnapshot(hash, w, id, env);
    if snapshot.Success? {
      var reason := SnapshotReason("SnapshotRestore", id);
      var (safe, safety) := TakeSnapshot(hash, w, Auto, reason, env);
      TakeSnapshotPuts(hash, w, Auto, reason, env);
      TakeSnapshotCapture(hash, w, Auto, reason, env);
      if safety.Success? {
        ApplyDoes(safe, snapshot.value.payload, env, 0);
      }
    }
  }

  lemma SameStore(hash: Hash, w: World, v: World, dir: SnapshotStore.Directory)
    requires v.dir == w.dir && Capture(v) == Capture(w) && PutsAtMostOnce(hash, v, dir)
    ensures PutsAtMostOnce(hash, w, dir)
  {
    hide SnapshotStore.Put, Capture;
    if dir != w.dir {
      var trigger, reason, now, disk :| IsPutResult(hash, v, dir, trigger, reason, now, disk);
      assert IsPutResult(hash, w, dir, trigger, reason, now, disk);
    }
  }

  lemma PerformPuts(hash: Hash, w: World, action: Action, env: Env)
    ensures PutsAtMostOnce(hash, w, Perform(hash, w, action, env).0.dir)
  {
    hide Act, TakeSnapshot, GuardFor, Quiet, Keeps, IsPutResult, Capture;
    var guarded := GuardFor(w, action, env).0;
    GuardIsQuiet(w, action, env, 0);
    QuietKeepsModprobe(w, guarded);
    var asked := Authorize(guarded, env).0;
    AuthorizeIsQuiet(guarded, env, 0);
    QuietKeepsModprobe(guarded, asked);
    var reason := SnapshotReason(VerbOf(action), SubjectOf(action));
    TakeSnapshotPuts(hash, asked, Auto, reason, env);
    ActKeepsStore(TakeSnapshot(hash, asked, Auto, reason, env).0, action, env);
    SameStore(hash, w, asked, TakeSnapshot(hash, asked, Auto, reason, env).0.dir);
  }

  lemma SnapshotsPut(hash: Hash, w: World, request: SnapshotRequest, env: Env)
    requires Healthy(hash, w) && !request.SnapshotDelete?
    ensures PutsAtMostOnce(hash, w, ActOnSnapshots(hash, w, request, env).0.dir)
  {
    hide TakeSnapshot, Restore, Healthy, PutsAtMostOnce;
    match request
    case SnapshotCreate(_, text) => TakeSnapshotPuts(hash, w, Manual, SnapshotReason("", text), env);
    case SnapshotRestore(_, id) => RestorePuts(hash, w, id, env);
  }

  /** Every operation but the delete verb leaves the store as it was, or as one put of what was
      current when it began has left it. */
  lemma StepPutsAtMostOnce(hash: Hash, w: World, op: Op, env: Env)
    requires Healthy(hash, w) && !IsDelete(op)
    ensures PutsAtMostOnce(hash, w, Step(hash, w, op, env).dir)
  {
    hide SnapshotStore.Sound, StoresOwn, DistinctKeys, Keeps, Perform, ActOnSnapshots, Sweep, OnHotplug, Quiet,
      IsPutResult, Capture;
    SameCapture(w);
    match op
    case Change(request) =>
      var r := Requested(request, env);
      if r.Success? {
        PerformPuts(hash, Begin(w, Verb), r.value, env);
        SameStore(hash, w, Begin(w, Verb), Perform(hash, Begin(w, Verb), r.value, env).0.dir);
      }
    case OnSnapshots(request) =>
      var begun := Begin(w, Verb);
      var asked := Authorize(begun, env).0;
      AuthorizeIsQuiet(begun, env, 0);
      QuietKeepsModprobe(begun, asked);
      SnapshotsPut(hash, asked, request, env);
      SameStore(hash, w, asked, ActOnSnapshots(hash, asked, request, env).0.dir);
    case Plug(event) => EnforcementOnlyTouches(w, event, env);
    case SweepNow => EnforcementOnlyTouches(w, HotplugEvent(HotplugAction.Removed, AnyDevice()), env);
  }

  /** No operation but the delete verb makes HEAD name a missing file, whatever fails on the way. */
  lemma StepKeepsHead(hash: Hash, w: World, op: Op, env: Env)
    requires Healthy(hash, w) && SnapshotStore.HeadStored(w.dir) && !IsDelete(op)
    ensures SnapshotStore.HeadStored(Step(hash, w, op, env).dir)
  {
    hide Step, SnapshotStore.Put, SnapshotStore.Sound, SnapshotStore.HeadStored, Capture;
    StepPutsAtMostOnce(hash, w, op, env);
    var dir := Step(hash, w, op, env).dir;
    if dir != w.dir {
      var trigger, reason, now, disk :| IsPutResult(hash, w, dir, trigger, reason, now, disk);
      SnapshotStore.PutKeepsHeadStored(hash, w.dir, Capture(w), trigger, reason, now, disk);
    }
  }

  // A delete that may be asked for: if it is of what HEAD names, then its parent is absent or stored.
  predicate SparesHead(dir: SnapshotStore.Directory, id: string) {
    dir.head == Some(id) && id in dir.files ==>
      SnapshotStore.IsStoredParent(dir, id, SnapshotStore.NextHead(SnapshotStore.BestEffortMeta(dir.files[id], id)))
  }

  ghost predicate DeletesSpareHead(hash: Hash, w: World, ops: seq<(Op, Env)>) {
    ops == [] ||
    var n := |ops| - 1;
    && DeletesSpareHead(hash, w, ops[..n])
    && (IsDelete(ops[n].0) ==> SparesHead(Run(hash, w, ops[..n]).dir, ops[n].0.snapshotRequest.id))
  }

  ghost predicate NoDeletes(ops: seq<(Op, Env)>) {
    forall k :: 0 <= k < |ops| ==> !IsDelete(ops[k].0)
  }

  lemma {:induction false} NoDeletesSpareHead(hash: Hash, w: World, ops: seq<(Op, Env)>)
    requires NoDeletes(ops)
    ensures DeletesSpareHead(hash, w, ops)
  {
    hide IsDelete;
    if ops != [] {
      NoDeletesSpareHead(hash, w, ops[..|ops| - 1]);
    }
  }

  /** A delete that spares HEAD, succeeding or failing anywhere, leaves HEAD absent or stored. */
  lemma DeleteKeepsHead(hash: Hash, w: World, op: Op, env: Env)
    requires Healthy(hash, w) && SnapshotStore.HeadStored(w.dir) && IsDelete(op)
    requires SparesHead(w.dir, op.snapshotRequest.id)
    ensures SnapshotStore.HeadStored(Step(hash, w, op, env).dir)
  {
    hide SnapshotStore.Remove, SnapshotStore.Sound, Restore, TakeSnapshot, Capture, SparesHead,
      SnapshotStore.HeadStored;
    var disk := env.disk(Now(Authorize(Begin(w, Verb), env).0));
    SparesHeadIs(w.dir, op.snapshotRequest.id);
    SnapshotStore.RemoveKeepsHeadStored(hash, w.dir, op.snapshotRequest.id, disk);
  }

  lemma SparesHeadIs(dir: SnapshotStore.Directory, id: string)
    ensures SparesHead(dir, id) && dir.head == Some(id) && id in dir.files ==>
      SnapshotStore.IsStoredParent(dir, id, SnapshotStore.NextHead(SnapshotStore.BestEffortMeta(dir.files[id], id)))
  {
  }

  /** In every run whose deletes each spare HEAD, HEAD is absent or names a stored file. */
  lemma {:induction false} RunKeepsHead(hash: Hash, modprobe: map<string, string>, ops: seq<(Op, Env)>)
    requires DeletesSpareHead(hash, Fresh(modprobe), ops)
    ensures SnapshotStore.HeadStored(Run(hash, Fresh(modprobe), ops).dir)
  {
    hide Step, Healthy, SparesHead, IsDelete;
    if ops != [] {
      var n := |ops| - 1;
      var before, op, env := Run(hash, Fresh(modprobe), ops[..n]), ops[n].0, ops[n].1;
      RunKeepsHead(hash, modprobe, ops[..n]);
      RunIsHealthy(hash, modprobe, ops[..n]);
      if IsDelete(op) {
        DeleteKeepsHead(hash, before, op, env);
      } else {
        StepKeepsHead(hash, before, op, env);
      }
    }
  }

  /** After any run whose deletes spare HEAD, whatever failed in it, a successful restore is undone
      outright: with working file operations, restoring its safety snapshot succeeds and gives the
      entries, up to what enforcement keeps current, and the modprobe files back. */
  lemma UndoHolds(hash: Hash, modprobe: map<string, string>, ops: seq<(Op, Env)>, id: string,
                                env: Env, env2: Env)
    requires DeletesSpareHead(hash, Fresh(modprobe), ops)
    requires var w := Run(hash, Fresh(modprobe), ops);
      && SnapshotStore.NoCollision(hash, w.dir, Capture(w)) && Restore(hash, w, id, env).1.Success?
      && Works(Restore(hash, w, id, env).0, env2)
    ensures var w := Run(hash, Fresh(modprobe), ops);
      var (restored, first) := Restore(hash, w, id, env);
      var (undone, second) := Restore(hash, restored, first.value.safetySnapshotId, env2);
      && second.Success? && IsBack(w, restored, undone, env2)
      && (FilesWork(env2) ==> undone.modprobe == w.modprobe)
  {
    hide Run, Restore, SnapshotStore.NoCollision, Unowned, Owned, FilesWork, FilesWentWell, Works, IsUndoable,
      SnapshotStore.HeadStored;
    RunKeepsHead(hash, modprobe, ops);
    StoredHeadIsUndoable(hash, Run(hash, Fresh(modprobe), ops));
    RestoreIsUndone(hash, modprobe, ops, id, env, env2);
  }

  /** And so is a successful device, module or driver verb, by restoring the snapshot it took. */
  lemma VerbUndoHolds(hash: Hash, modprobe: map<string, string>, ops: seq<(Op, Env)>, request: Request,
                                    env: Env, env2: Env)
    requires DeletesSpareHead(hash, Fresh(modprobe), ops)
    requires var w := Run(hash, Fresh(modprobe), ops);
      && SnapshotStore.NoCollision(hash, w.dir, Capture(w)) && Process(hash, w, request, env).1.Success?
      && Works(Process(hash, w, request, env).0, env2)
    ensures var w := Run(hash, Fresh(modprobe), ops);
      var after := Process(hash, w, request, env).0;
      var (undone, r) := Restore(hash, after, hash(Capture(w)), env2);
      && r.Success? && IsBack(w, after, undone, env2)
      && (FilesWork(env2) ==> undone.modprobe == w.modprobe)
  {
    hide Run, Restore, Perform, SnapshotStore.NoCollision, SnapshotStore.Sound, Unowned, Owned, Works, IsUndoable,
      SnapshotStore.HeadStored, FilesWentWell, FilesWork;
    var w := Run(hash, Fresh(modprobe), ops);
    RunIsHealthy(hash, modprobe, ops);
    RunKeepsHead(hash, modprobe, ops);
    var begun := Begin(w, Verb);
    assert Capture(begun) == Capture(w);
    StoredHeadIsUndoable(hash, begun);
    RestoreUndoesVerb(hash, begun, Requested(request, env).value, env, env2);
  }

  // ---------------------------------------------------------------- parent links

  /** A cycle of parent links can appear only in an operation that finds what is current to be the
      snapshot, without a file, at which the walk from HEAD stops. */
  lemma StepHasNoCycle(hash: Hash, w: World, op: Op, env: Env)
    requires Healthy(hash, w) && NoCycle(w.dir.files)
    requires !IsDelete(op) ==> !ClosesCycle(w.dir, hash(Capture(w)))
    ensures NoCycle(Step(hash, w, op, env).dir.files)
  {
    hide SnapshotStore.Put, SnapshotStore.Remove, SnapshotStore.Sound, NoCycle, WithNew, Capture, ClosesCycle, Healthy;
    var dir := Step(hash, w, op, env).dir;
    if IsDelete(op) {
      hide Restore, TakeSnapshot;
      var removed := SnapshotStore.RemoveOp(op.snapshotRequest.id);
      var disk := env.disk(Now(Authorize(Begin(w, Verb), env).0));
      OthersCloseNothing(hash, w.dir, removed, disk);
      assert dir == w.dir || dir == SnapshotStore.Step(hash, w.dir, removed, disk);
    } else {
      hide Step;
      StepPutsAtMostOnce(hash, w, op, env);
      if dir != w.dir {
        var trigger, reason, now, disk :| IsPutResult(hash, w, dir, trigger, reason, now, disk);
        PutClosesIff(hash, w.dir, Capture(w), trigger, reason, now);
        PutIsPart(hash, w.dir, Capture(w), trigger, reason, now, disk);
        PartHasNoCycle(dir.files, WithNew(hash, w.dir, Capture(w), trigger, reason, now));
      }
    }
  }

  // No operation of the run meets that condition.
  ghost predicate NeverCloses(hash: Hash, w: World, ops: seq<(Op, Env)>) {
    ops == [] ||
    var n := |ops| - 1;
    var before := Run(hash, w, ops[..n]);
    NeverCloses(hash, w, ops[..n]) && (!IsDelete(ops[n].0) ==> !ClosesCycle(before.dir, hash(Capture(before))))
  }

  /** In every run of the daemon without such an operation, parent links never form a cycle. */
  lemma {:induction false} RunLinksHaveNoCycle(hash: Hash, modprobe: map<string, string>, ops: seq<(Op, Env)>)
    requires NeverCloses(hash, Fresh(modprobe), ops)
    ensures NoCycle(Run(hash, Fresh(modprobe), ops).dir.files)
  {
    hide Step, Healthy, ClosesCycle;
    if ops != [] {
      var n := |ops| - 1;
      RunLinksHaveNoCycle(hash, modprobe, ops[..n]);
      RunIsHealthy(hash, modprobe, ops[..n]);
      StepHasNoCycle(hash, Run(hash, Fresh(modprobe), ops[..n]), ops[n].0, ops[n].1);
    }
  }

  // ---------------------------------------------------------------- the machine keeps working

  // The critical devices that are live as the trace grows: a disable that succeeds takes away what is
  // under its path, one that reports failure may have, other events may only bring input devices back,
  // and the probes see them as they are.
  ghost predicate Tracks(trace: Trace, live: nat -> CriticalityFacts) {
    forall k :: 0 <= k < |trace| ==> Follows(trace[k], live(k), live(k + 1))
  }

  predicate Follows(e: Event, before: CriticalityFacts, after: CriticalityFacts) {
    && (e.Judged? ==> e.facts == before)
    && if !IsDisable(e) then Regains(before, after)
       else after == LiveFacts(before, DisabledPath(e)) || (!e.ok && Regains(before, after))
  }

  predicate Regains(before: CriticalityFacts, after: CriticalityFacts) {
    && after.rootBackingPaths == before.rootBackingPaths && after.bootBackingPaths == before.bootBackingPaths
    && (forall p :: p in before.keyboardPaths ==> p in after.keyboardPaths)
    && (forall p :: p in before.pointerPaths ==> p in after.pointerPaths)
  }

  ghost predicate StaysUsable(first: CriticalityFacts, now: CriticalityFacts) {
    && now.rootBackingPaths == first.rootBackingPaths && now.bootBackingPaths == first.bootBackingPaths
    && (first.keyboardPaths != [] ==> now.keyboardPaths != [])
    && (first.pointerPaths != [] ==> now.pointerPaths != [])
  }

  lemma RegainsChains(a: CriticalityFacts, b: CriticalityFacts, c: CriticalityFacts)
    requires Regains(a, b) && Regains(b, c)
    ensures Regains(a, c)
  {
  }

  lemma {:induction false} RegainsBetween(trace: Trace, live: nat -> CriticalityFacts, j: nat, k: nat)
    requires Tracks(trace, live) && j <= k <= |trace| && NoRemoval(trace, j, k)
    ensures Regains(live(j), live(k))
    decreases k
  {
    if j < k {
      RegainsBetween(trace, live, j, k - 1);
      assert Follows(trace[k - 1], live(k - 1), live(k));
      RegainsChains(live(j), live(k - 1), live(k));
    }
  }

  // A path that was allowed when fewer input devices were live is still allowed.
  lemma StillAllowed(before: CriticalityFacts, now: CriticalityFacts, path: string)
    requires EvaluateDisable(before, path) == Allowed && Regains(before, now)
    ensures !AnyUnder(now.rootBackingPaths, path) && !AnyUnder(now.bootBackingPaths, path)
    ensures before.keyboardPaths != [] ==> !WouldRemoveAll(now.keyboardPaths, path)
    ensures before.pointerPaths != [] ==> !WouldRemoveAll(now.pointerPaths, path)
  {
    OneStays(before.keyboardPaths, now.keyboardPaths, path);
    OneStays(before.pointerPaths, now.pointerPaths, path);
  }

  lemma OneStays(before: seq<string>, now: seq<string>, path: string)
    requires forall p :: p in before ==> p in now
    ensures before != [] && !WouldRemoveAll(before, path) ==> !WouldRemoveAll(now, path)
  {
    if before != [] && !WouldRemoveAll(before, path) {
      var i :| 0 <= i < |before| && !IsUnder(before[i], path);
      assert before[i] in now;
    }
  }

  lemma DisableIsSafe(trace: Trace, live: nat -> CriticalityFacts, k: nat)
    requires Tracks(trace, live) && k < |trace| && IsDisable(trace[k])
    requires live(k + 1) == LiveFacts(live(k), DisabledPath(trace[k]))
    requires JudgedBefore(trace, 0, k) && forall m :: 0 <= m <= k ==> StaysUsable(live(0), live(m))
    ensures StaysUsable(live(0), live(k + 1))
  {
    hide EvaluateDisable, AnyUnder, WouldRemoveAll, LiveFacts, Live;
    var path := DisabledPath(trace[k]);
    var j :| 0 <= j < k && IsAllowance(trace[j], OfPath(path)) && NoRemoval(trace, j, k);
    assert Follows(trace[j], live(j), live(j + 1)) && Follows(trace[k], live(k), live(k + 1));
    RegainsBetween(trace, live, j, k);
    StillAllowed(live(j), live(k), path);
    LiveIsSafe(live(0), live(k), path);
  }

  lemma LiveIsSafe(first: CriticalityFacts, now: CriticalityFacts, path: string)
    requires StaysUsable(first, now) && !AnyUnder(now.rootBackingPaths, path) && !AnyUnder(now.bootBackingPaths, path)
    requires first.keyboardPaths != [] ==> !WouldRemoveAll(now.keyboardPaths, path)
    requires first.pointerPaths != [] ==> !WouldRemoveAll(now.pointerPaths, path)
    ensures StaysUsable(first, LiveFacts(now, path))
  {
    NoneUnder(now.rootBackingPaths, path);
    NoneUnder(now.bootBackingPaths, path);
    if first.keyboardPaths != [] {
      SomeLive(now.keyboardPaths, path);
    }
    if first.pointerPaths != [] {
      SomeLive(now.pointerPaths, path);
    }
  }

  lemma {:induction false} GuardedIsSafe(trace: Trace, live: nat -> CriticalityFacts, n: nat)
    requires Tracks(trace, live) && n <= |trace|
    requires forall k :: 0 <= k < |trace| && IsRemoval(trace[k]) ==> JudgedBefore(trace, 0, k)
    ensures forall m :: 0 <= m <= n ==> StaysUsable(live(0), live(m))
  {
    hide JudgedBefore, StaysUsable, Follows;
    if n == 0 {
      RegainsUsable(live(0), live(0), live(0));
    } else {
      GuardedIsSafe(trace, live, n - 1);
      var e := trace[n - 1];
      FollowsEither(e, live(n - 1), live(n));
      if IsDisable(e) && live(n) == LiveFacts(live(n - 1), DisabledPath(e)) {
        DisableIsSafe(trace, live, n - 1);
      } else {
        RegainsUsable(live(0), live(n - 1), live(n));
      }
    }
  }

  lemma FollowsEither(e: Event, before: CriticalityFacts, after: CriticalityFacts)
    requires Follows(e, before, after)
    ensures (IsDisable(e) && after == LiveFacts(before, DisabledPath(e))) || Regains(before, after)
  {
  }

  lemma RegainsUsable(first: CriticalityFacts, before: CriticalityFacts, now: CriticalityFacts)
    ensures StaysUsable(first, first)
    ensures StaysUsable(first, before) && Regains(before, now) ==> StaysUsable(first, now)
  {
    if StaysUsable(first, before) && Regains(before, now) {
      if before.keyboardPaths != [] {
        assert before.keyboardPaths[0] in now.keyboardPaths;
      }
      if before.pointerPaths != [] {
        assert before.pointerPaths[0] in now.pointerPaths;
      }
    }
  }

  lemma AttributedIsJudged(trace: Trace, k: nat)
    requires Attributed(trace, k) && IsRemoval(trace[k])
    ensures JudgedBefore(trace, 0, k)
  {
    var b :| 0 <= b < k < |trace| && AttributedTo(trace, b, k);
    assert JudgedBefore(trace, b, k);
  }

  /** In every run in which the criticality probes answer what is live at that moment, and in which
      nothing but a disable takes a critical device away, every device that backs the root or the boot
      filesystem stays live, and a keyboard and a pointer do if there were any. */
  lemma RunKeepsTheMachineUsable(hash: Hash, modprobe: map<string, string>, ops: seq<(Op, Env)>,
                                 live: nat -> CriticalityFacts, n: nat)
    requires Tracks(Run(hash, Fresh(modprobe), ops).trace, live) && n <= |Run(hash, Fresh(modprobe), ops).trace|
    ensures StaysUsable(live(0), live(n))
  {
    hide Run, Tracks, StaysUsable, Attributed, JudgedBefore;
    var trace := Run(hash, Fresh(modprobe), ops).trace;
    forall k | 0 <= k < |trace| && IsRemoval(trace[k])
      ensures JudgedBefore(trace, 0, k)
    {
      RunsAreAttributed(hash, Fresh(modprobe), ops, k);
      AttributedIsJudged(trace, k);
    }
    GuardedIsSafe(trace, live, |trace|);
  }
}
