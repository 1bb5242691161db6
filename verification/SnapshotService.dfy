/** Restoring a snapshot: safety snapshot, write-back, convergence of the hardware
    (daemon/src/snapshot_service.cpp). */
module SnapshotServices {
  import opened Models
  import opened DeviceKeys
  import opened StateStores
  import SnapshotStore
  import opened StringOrder
  import opened Guard
  import opened Daemon

  type Hash = SnapshotStore.Hash

  // ---------------------------------------------------------------- the modprobe files

  function RemoveFile(w: World, name: string, target: map<string, string>, env: Env): World {
    if name in target then w
    else if env.removes(Now(w)) then
      Do(Do(w, FileRemoved(name)).(modprobe := w.modprobe - {name}), Reported(Item(name, ModprobeRemove, ItemOk)))
    else Do(w, Reported(Item(name, ModprobeRemove, ItemFailed)))
  }

  function RemoveFiles(w: World, names: seq<string>, target: map<string, string>, env: Env): World {
    if names == [] then w
    else
      var n := |names| - 1;
      RemoveFile(RemoveFiles(w, names[..n], target, env), names[n], target, env)
  }

  function WriteFile(w: World, name: string, content: string, pre: map<string, string>, env: Env): World {
    if name in pre && pre[name] == content then w
    else
      var written := env.writes(Now(w));
      if written.NotDone? then Do(w, Reported(Item(name, ModprobeWrite, ItemFailed)))
      else
        Do(Do(w, FileWritten(name)).(modprobe := w.modprobe[name := content]),
           Reported(Item(name, ModprobeWrite, if written.Done? then ItemOk else ItemFailed)))
  }

  function WriteFiles(w: World, names: seq<string>, target: map<string, string>, pre: map<string, string>, env: Env)
    : World
    requires forall name :: name in names ==> name in target
  {
    if names == [] then w
    else
      var n := |names| - 1;
      assert forall name :: name in names[..n] ==> name in names;
      WriteFile(WriteFiles(w, names[..n], target, pre, env), names[n], target[names[n]], pre, env)
  }

  function WriteBack(w: World, pre: map<string, string>, target: map<string, string>, env: Env): World {
    WriteFiles(RemoveFiles(w, SortedKeys(pre.Keys), target, env), SortedKeys(target.Keys), target, pre, env)
  }

  // ---------------------------------------------------------------- the hardware

  // The path to re-enable, or nothing if the device is absent.
  function ResolvePath(w: World, e: Entry, all: seq<Device>, env: Env): string {
    match DeviceOf(w, e, all, env)
    case None => ""
    case Some(device) => device.sysfsPath
  }

  function ReEnableOne(w: World, e: Entry, all: seq<Device>, target: Entries, env: Env): World {
    if HasKey(target, e.key) then w
    else
      var path := ResolvePath(w, e, all, env);
      if path == "" then Do(w, Reported(Item(e.lastSysfsPath, ReEnable, DeviceAbsent)))
      else
        var (called, applied) := CallSetEnabled(w, path, true, e.lastDriver, env);
        Do(called, Reported(Item(path, ReEnable, if applied.Success? then ItemOk else ItemFailed)))
  }

  function ReEnableAll(w: World, entries: Entries, all: seq<Device>, target: Entries, env: Env): World {
    if entries == [] then w
    else
      var n := |entries| - 1;
      ReEnableOne(ReEnableAll(w, entries[..n], all, target, env), entries[n], all, target, env)
  }

  function StatusOf(r: ReApplied): ItemStatus {
    match r
    case AlreadyThere => ItemOk
    case NotProbed => ItemFailed
    case Suspended => GuardRefused
    case NotSuspended => ItemFailed
    case CallFailed => ItemFailed
    case Applied => ItemOk
  }

  function ReApplyOne(w: World, e: Entry, all: seq<Device>, env: Env): World {
    match DeviceOf(w, e, all, env)
    case None => Do(w, Reported(Item(e.lastSysfsPath, ReApplyDisable, DeviceAbsent)))
    case Some(device) =>
      var (after, r) := ReApply(w, e, device, env);
      Do(after, Reported(Item(device.sysfsPath, ReApplyDisable, StatusOf(r))))
  }

  function ReApplyAll(w: World, entries: Entries, all: seq<Device>, env: Env): World {
    if entries == [] then w
    else
      var n := |entries| - 1;
      ReApplyOne(ReApplyAll(w, entries[..n], all, env), entries[n], all, env)
  }

  function Converge(w: World, pre: Entries, target: Entries, env: Env): World {
    var enabled := ReEnableAll(w, pre, Enumerated(w, env), target, env);
    ReApplyAll(enabled, enabled.state.entries, Enumerated(enabled, env), env)
  }

  // ---------------------------------------------------------------- restore

  // The items of the outcome are the Reported events.
  datatype RestoreOutcome = RestoreOutcome(snapshotId: string, safetySnapshotId: string)

  function Apply(w: World, pre: SnapshotPayload, target: SnapshotPayload, env: Env): (World, Result<()>) {
    var (replaced, saved) := SaveEntries(w, target.entries, env);
    if saved.Failure? then (replaced, saved)
    else
      (Converge(WriteBack(replaced, pre.modprobeFiles, target.modprobeFiles, env), pre.entries, target.entries, env),
       saved)
  }

  function ReadSnapshot(hash: Hash, w: World, id: string, env: Env): (World, Result<SnapshotStore.Snapshot>) {
    var (dir, r) := SnapshotStore.Read(hash, w.dir, id, env.disk(Now(w)).moves);
    (w.(dir := dir), r)
  }

  function Restore(hash: Hash, w: World, id: string, env: Env): (World, Result<RestoreOutcome>) {
    var (read, snapshot) := ReadSnapshot(hash, w, id, env);
    if snapshot.Failure? then (read, Failure(snapshot.code))
    else
      var (safe, safety) := TakeSnapshot(hash, read, Auto, SnapshotReason("SnapshotRestore", id), env);
      if safety.Failure? then (safe, Failure(safety.code))
      else
        var (after, applied) := Apply(safe, Capture(read), snapshot.value.payload, env);
        (after, if applied.Success? then Success(RestoreOutcome(id, safety.value)) else Failure(applied.code))
  }

  // ---------------------------------------------------------------- write-back gives the target's files

  predicate IsFileItem(e: Event) {
    e.Reported? && (e.item.action == ModprobeWrite || e.item.action == ModprobeRemove)
  }

  // No file of the write-back was reported as failed.
  ghost predicate FilesWentWell(trace: Trace, start: nat) {
    forall k :: start <= k < |trace| && IsFileItem(trace[k]) ==> trace[k].item.status == ItemOk
  }

  lemma WentWellBefore(before: Trace, after: Trace, start: nat)
    requires before <= after
    ensures FilesWentWell(after, start) ==> FilesWentWell(before, start)
  {
    assert forall k :: 0 <= k < |before| ==> before[k] == after[..|before|][k];
  }

  ghost predicate FilesOnly(w: World, after: World, start: nat) {
    after.state == w.state && after.dir == w.dir && Keeps(w, after, start)
  }

  lemma RemoveFileDoes(w: World, name: string, target: map<string, string>, env: Env, start: nat)
    ensures var after := RemoveFile(w, name, target, env);
      && FilesOnly(w, after, start)
      && (forall n :: n != name ==> (n in after.modprobe <==> n in w.modprobe))
      && (forall n :: n in after.modprobe ==> n in w.modprobe && after.modprobe[n] == w.modprobe[n])
      && (name in target ==> after == w)
      && (name !in target && name in after.modprobe ==> !FilesWentWell(after.trace, |w.trace|))
  {
    if name !in target {
      if env.removes(Now(w)) {
        var removed := Do(w, FileRemoved(name)).(modprobe := w.modprobe - {name});
        QuietKeeps(w, FileRemoved(name), removed, start);
        QuietKeeps(removed, Reported(Item(name, ModprobeRemove, ItemOk)), RemoveFile(w, name, target, env), start);
        KeepsChains(w, removed, RemoveFile(w, name, target, env), start);
      } else {
        QuietKeeps(w, Reported(Item(name, ModprobeRemove, ItemFailed)), RemoveFile(w, name, target, env), start);
        assert IsFileItem(RemoveFile(w, name, target, env).trace[|w.trace|]);
      }
    }
  }

  lemma WentWellLater(trace: Trace, start: nat, later: nat)
    requires start <= later && FilesWentWell(trace, start)
    ensures FilesWentWell(trace, later)
  {
  }

  lemma {:induction false} RemoveFilesKeep(w: World, names: seq<string>, target: map<string, string>, env: Env,
                                           start: nat)
    ensures FilesOnly(w, RemoveFiles(w, names, target, env), start)
  {
    if names != [] {
      var n := |names| - 1;
      var before := RemoveFiles(w, names[..n], target, env);
      RemoveFilesKeep(w, names[..n], target, env, start);
      RemoveFileDoes(before, names[n], target, env, start);
      KeepsChains(w, before, RemoveFiles(w, names, target, env), start);
    }
  }

  // What the write-back of `names` has made of file x, if it went well.
  ghost predicate RemovedAt(w: World, after: World, names: seq<string>, target: map<string, string>, x: string) {
    && (x !in names || x in target ==> (x in after.modprobe <==> x in w.modprobe))
    && (x in after.modprobe ==> x in w.modprobe && after.modprobe[x] == w.modprobe[x])
    && (FilesWentWell(after.trace, |w.trace|) && x in names && x !in target ==> x !in after.modprobe)
  }

  lemma WellSplits(w: World, before: World, after: World, start: nat)
    requires Keeps(w, before, start) && Keeps(before, after, start)
    ensures FilesWentWell(after.trace, |w.trace|) ==>
      FilesWentWell(before.trace, |w.trace|) && FilesWentWell(after.trace, |before.trace|)
  {
    if FilesWentWell(after.trace, |w.trace|) {
      WentWellBefore(before.trace, after.trace, |w.trace|);
      WentWellLater(after.trace, |w.trace|, |before.trace|);
    }
  }

  lemma {:induction false} RemoveFilesAt(w: World, names: seq<string>, target: map<string, string>, env: Env, x: string)
    ensures RemovedAt(w, RemoveFiles(w, names, target, env), names, target, x)
  {
    hide RemoveFile, Keeps, FilesWentWell;
    if names != [] {
      var n := |names| - 1;
      var before := RemoveFiles(w, names[..n], target, env);
      RemoveFilesAt(w, names[..n], target, env, x);
      RemoveFilesKeep(w, names[..n], target, env, 0);
      RemoveFileDoes(before, names[n], target, env, 0);
      assert x in names <==> x in names[..n] || x == names[n];
      WellSplits(w, before, RemoveFiles(w, names, target, env), 0);
    }
  }

  lemma KeepsExtends(w: World, after: World, start: nat)
    requires Keeps(w, after, start)
    ensures w.trace <= after.trace
  {
  }

  lemma WriteFileDoes(w: World, name: string, content: string, pre: map<string, string>, env: Env, start: nat)
    ensures var after := WriteFile(w, name, content, pre, env);
      && FilesOnly(w, after, start)
      && (forall n :: n != name ==> (n in after.modprobe <==> n in w.modprobe))
      && (forall n :: n != name && n in after.modprobe ==> after.modprobe[n] == w.modprobe[n])
      && (name in pre && pre[name] == content ==> after == w)
      && (FilesWentWell(after.trace, |w.trace|) ==>
            (name in pre && pre[name] == content) || (name in after.modprobe && after.modprobe[name] == content))
  {
    if !(name in pre && pre[name] == content) {
      var written := env.writes(Now(w));
      var after := WriteFile(w, name, content, pre, env);
      if written.NotDone? {
        QuietKeeps(w, Reported(Item(name, ModprobeWrite, ItemFailed)), after, start);
        assert IsFileItem(after.trace[|w.trace|]);
      } else {
        var put := Do(w, FileWritten(name)).(modprobe := w.modprobe[name := content]);
        QuietKeeps(w, FileWritten(name), put, start);
        QuietKeeps(put, after.trace[|w.trace| + 1], after, start);
        KeepsChains(w, put, after, start);
      }
    }
  }

  lemma {:induction false} WriteFilesKeep(w: World, names: seq<string>, target: map<string, string>,
                                          pre: map<string, string>, env: Env, start: nat)
    requires forall n :: n in names ==> n in target
    ensures FilesOnly(w, WriteFiles(w, names, target, pre, env), start)
  {
    if names != [] {
      var n := |names| - 1;
      assert forall x :: x in names[..n] ==> x in names;
      var before := WriteFiles(w, names[..n], target, pre, env);
      WriteFilesKeep(w, names[..n], target, pre, env, start);
      WriteFileDoes(before, names[n], target[names[n]], pre, env, start);
      KeepsChains(w, before, WriteFiles(w, names, target, pre, env), start);
    }
  }

  predicate IsCurrent(pre: map<string, string>, target: map<string, string>, x: string) {
    x in pre && x in target && pre[x] == target[x]
  }

  ghost predicate WrittenAt(w: World, after: World, names: seq<string>, target: map<string, string>,
                            pre: map<string, string>, x: string) {
    && (x !in names || IsCurrent(pre, target, x) ==> (x in after.modprobe <==> x in w.modprobe))
    && (x in after.modprobe && (x !in names || IsCurrent(pre, target, x)) ==> after.modprobe[x] == w.modprobe[x])
    && (FilesWentWell(after.trace, |w.trace|) && x in names && !IsCurrent(pre, target, x) ==>
          x in target && x in after.modprobe && after.modprobe[x] == target[x])
  }

  lemma {:induction false} WriteFilesAt(w: World, names: seq<string>, target: map<string, string>,
                                        pre: map<string, string>, env: Env, x: string)
    requires forall n :: n in names ==> n in target
    ensures WrittenAt(w, WriteFiles(w, names, target, pre, env), names, target, pre, x)
  {
    hide WriteFile, Keeps, FilesWentWell;
    if names != [] {
      var n := |names| - 1;
      assert forall y :: y in names <==> y in names[..n] || y == names[n];
      var before := WriteFiles(w, names[..n], target, pre, env);
      WriteFilesAt(w, names[..n], target, pre, env, x);
      WriteFilesKeep(w, names[..n], target, pre, env, 0);
      WriteFileDoes(before, names[n], target[names[n]], pre, env, 0);
      WellSplits(w, before, WriteFiles(w, names, target, pre, env), 0);
    }
  }

  ghost predicate OwnedNames(files: map<string, string>) {
    forall name :: name in files ==> IsDevmgrOwned(name)
  }

  /** Writing back a payload of devmgr's own files never touches anybody else's, and unless an item
      is reported as failed, devmgr's files are then the payload's. */
  lemma WriteBackDoes(w: World, target: map<string, string>, env: Env, start: nat)
    requires OwnedNames(target)
    ensures var after := WriteBack(w, Owned(w.modprobe), target, env);
      && FilesOnly(w, after, start)
      && Unowned(after.modprobe) == Unowned(w.modprobe)
      && (FilesWentWell(after.trace, |w.trace|) ==> Owned(after.modprobe) == target)
  {
    hide WriteBack, FilesOnly, FilesWentWell, WrittenBackAt;
    var after := WriteBack(w, Owned(w.modprobe), target, env);
    WriteBackKeeps(w, target, env, start);
    forall x
      ensures WrittenBackAt(w, after, target, x)
    {
      WriteBackAt(w, target, env, x);
    }
    OthersStay(w, after, target);
    if FilesWentWell(after.trace, |w.trace|) {
      OwnAreTheTarget(w, after, target);
    }
  }

  lemma WriteBackKeeps(w: World, target: map<string, string>, env: Env, start: nat)
    ensures FilesOnly(w, WriteBack(w, Owned(w.modprobe), target, env), start)
  {
    var pre := Owned(w.modprobe);
    var names, targets := SortedKeys(pre.Keys), SortedKeys(target.Keys);
    var removed := RemoveFiles(w, names, target, env);
    RemoveFilesKeep(w, names, target, env, start);
    WriteFilesKeep(removed, targets, target, pre, env, start);
    KeepsChains(w, removed, WriteBack(w, pre, target, env), start);
  }

  lemma OthersStay(w: World, after: World, target: map<string, string>)
    requires forall x :: WrittenBackAt(w, after, target, x)
    ensures Unowned(after.modprobe) == Unowned(w.modprobe)
  {
    hide IsDevmgrOwned, FilesWentWell;
    forall x | !IsDevmgrOwned(x)
      ensures x in after.modprobe <==> x in w.modprobe
      ensures x in after.modprobe ==> after.modprobe[x] == w.modprobe[x]
    {
      assert WrittenBackAt(w, after, target, x);
    }
  }

  lemma OwnAreTheTarget(w: World, after: World, target: map<string, string>)
    requires OwnedNames(target) && FilesWentWell(after.trace, |w.trace|)
    requires forall x :: WrittenBackAt(w, after, target, x)
    ensures Owned(after.modprobe) == target
  {
    hide IsDevmgrOwned, FilesWentWell;
    forall x | IsDevmgrOwned(x)
      ensures x in after.modprobe <==> x in target
      ensures x in after.modprobe ==> after.modprobe[x] == target[x]
    {
      assert WrittenBackAt(w, after, target, x);
    }
  }

  ghost predicate WrittenBackAt(w: World, after: World, target: map<string, string>, x: string) {
    && (!IsDevmgrOwned(x) ==> (x in after.modprobe <==> x in w.modprobe))
    && (!IsDevmgrOwned(x) && x in after.modprobe ==> after.modprobe[x] == w.modprobe[x])
    && (IsDevmgrOwned(x) && FilesWentWell(after.trace, |w.trace|) ==> (x in after.modprobe <==> x in target))
    && (IsDevmgrOwned(x) && FilesWentWell(after.trace, |w.trace|) && x in after.modprobe ==>
          after.modprobe[x] == target[x])
  }

  lemma WriteBackAt(w: World, target: map<string, string>, env: Env, x: string)
    requires OwnedNames(target)
    ensures WrittenBackAt(w, WriteBack(w, Owned(w.modprobe), target, env), target, x)
  {
    var pre := Owned(w.modprobe);
    var names, targets := SortedKeys(pre.Keys), SortedKeys(target.Keys);
    var removed := RemoveFiles(w, names, target, env);
    var after := WriteBack(w, pre, target, env);
    RemoveFilesKeep(w, names, target, env, 0);
    RemoveFilesAt(w, names, target, env, x);
    WriteFilesKeep(removed, targets, target, pre, env, 0);
    WriteFilesAt(removed, targets, target, pre, env, x);
    WellSplits(w, removed, after, 0);
    hide RemoveFiles, WriteFiles, Keeps, FilesWentWell, IsDevmgrOwned;
  }

  // ---------------------------------------------------------------- convergence

  lemma ReEnableTouches(w: World, e: Entry, all: seq<Device>, target: Entries, env: Env, start: nat)
    ensures var after := ReEnableOne(w, e, all, target, env); Touches(w, after) && Keeps(w, after, start)
  {
    SameTouches(w, start);
    var after := ReEnableOne(w, e, all, target, env);
    if !HasKey(target, e.key) {
      var path := ResolvePath(w, e, all, env);
      if path == "" {
        QuietKeeps(w, Reported(Item(e.lastSysfsPath, ReEnable, DeviceAbsent)), after, start);
      } else {
        var (called, applied) := CallSetEnabled(w, path, true, e.lastDriver, env);
        QuietKeeps(w, SetEnabled(path, true, e.lastDriver, applied.Success?), called, start);
        QuietKeeps(called, after.trace[|called.trace|], after, start);
        KeepsChains(w, called, after, start);
      }
    }
  }

  lemma {:induction false} ReEnableAllTouches(w: World, entries: Entries, all: seq<Device>, target: Entries, env: Env,
                                              start: nat)
    ensures var after := ReEnableAll(w, entries, all, target, env); Touches(w, after) && Keeps(w, after, start)
  {
    hide Touches, Keeps, ReEnableOne;
    SameTouches(w, start);
    if entries != [] {
      var n := |entries| - 1;
      var before := ReEnableAll(w, entries[..n], all, target, env);
      ReEnableAllTouches(w, entries[..n], all, target, env, start);
      ReEnableTouches(before, entries[n], all, target, env, start);
      Chain3(w, before, ReEnableAll(w, entries, all, target, env), start);
    }
  }

  lemma ReApplyOneTouches(w: World, e: Entry, all: seq<Device>, env: Env, start: nat)
    requires start <= |w.trace|
    ensures var after := ReApplyOne(w, e, all, env); Touches(w, after) && Keeps(w, after, start)
  {
    hide ReApply, Keeps, DeviceOf;
    match DeviceOf(w, e, all, env)
    case None =>
      SameTouches(w, start);
      QuietKeeps(w, Reported(Item(e.lastSysfsPath, ReApplyDisable, DeviceAbsent)), ReApplyOne(w, e, all, env), start);
    case Some(device) =>
      var (after, r) := ReApply(w, e, device, env);
      ReApplyTouches(w, e, device, env, start);
      QuietKeeps(after, Reported(Item(device.sysfsPath, ReApplyDisable, StatusOf(r))), ReApplyOne(w, e, all, env),
                 start);
      SameTouches(after, start);
      Chain3(w, after, ReApplyOne(w, e, all, env), start);
  }

  lemma {:induction false} ReApplyAllTouches(w: World, entries: Entries, all: seq<Device>, env: Env, start: nat)
    requires start <= |w.trace|
    ensures var after := ReApplyAll(w, entries, all, env); Touches(w, after) && Keeps(w, after, start)
  {
    hide Touches, Keeps, ReApplyOne;
    SameTouches(w, start);
    if entries != [] {
      var n := |entries| - 1;
      var before := ReApplyAll(w, entries[..n], all, env);
      ReApplyAllTouches(w, entries[..n], all, env, start);
      KeepsExtends(w, before, start);
      ReApplyOneTouches(before, entries[n], all, env, start);
      Chain3(w, before, ReApplyAll(w, entries, all, env), start);
    }
  }

  lemma ConvergeTouches(w: World, pre: Entries, target: Entries, env: Env, start: nat)
    requires start <= |w.trace|
    ensures var after := Converge(w, pre, target, env); Touches(w, after) && Keeps(w, after, start)
  {
    hide Touches, Keeps, ReEnableAll, ReApplyAll;
    var all := Enumerated(w, env);
    var enabled := ReEnableAll(w, pre, all, target, env);
    ReEnableAllTouches(w, pre, all, target, env, start);
    KeepsExtends(w, enabled, start);
    ReApplyAllTouches(enabled, enabled.state.entries, Enumerated(enabled, env), env, start);
    Chain3(w, enabled, Converge(w, pre, target, env), start);
  }

  // ---------------------------------------------------------------- what a restore establishes

  lemma ApplyDoes(w: World, target: SnapshotPayload, env: Env, start: nat)
    requires OwnedNames(target.modprobeFiles) && start <= |w.trace|
    ensures var (after, r) := Apply(w, Capture(w), target, env);
      && after.dir == w.dir && Keeps(w, after, start)
      && SimilarLists(target.entries, after.state.entries)
      && Unowned(after.modprobe) == Unowned(w.modprobe)
      && (r.Success? && FilesWentWell(after.trace, |w.trace|) ==> Owned(after.modprobe) == target.modprobeFiles)
      && (r.Failure? ==> after.modprobe == w.modprobe)
  {
    hide WriteBack, Converge, FilesWentWell, Owned, Unowned, OwnedNames;
    var pre := Capture(w);
    var (replaced, saved) := SaveEntries(w, target.entries, env);
    QuietKeeps(w, EntriesChanged(w.state.entries, target.entries), replaced, start);
    if saved.Success? {
      var written := WriteBack(replaced, pre.modprobeFiles, target.modprobeFiles, env);
      var after := Converge(written, pre.entries, target.entries, env);
      WriteBackDoes(replaced, target.modprobeFiles, env, start);
      KeepsChains(w, replaced, written, start);
      KeepsExtends(w, written, start);
      ConvergeTouches(written, pre.entries, target.entries, env, start);
      KeepsChains(w, written, after, start);
      KeepsExtends(written, after, start);
      WentWellBefore(written.trace, after.trace, |w.trace|);
      assert FilesWentWell(written.trace, |w.trace|) ==> FilesWentWell(written.trace, |replaced.trace|) by {
        if FilesWentWell(written.trace, |w.trace|) {
          WentWellLater(written.trace, |w.trace|, |replaced.trace|);
        }
      }
    }
  }

  // The part of a restore that precedes the first change.
  function Prepare(hash: Hash, w: World, id: string, env: Env): (World, Result<string>) {
    TakeSnapshot(hash, ReadSnapshot(hash, w, id, env).0, Auto, SnapshotReason("SnapshotRestore", id), env)
  }

  lemma PrepareKeeps(hash: Hash, w: World, id: string, env: Env, start: nat)
    ensures var (safe, r) := Prepare(hash, w, id, env);
      && safe.state == w.state && safe.modprobe == w.modprobe && Keeps(w, safe, start)
      && |safe.trace| == |w.trace| + 1
      && (r.Success? ==> safe.trace[|w.trace|] == PutSucceeded(Capture(w), r.value))
      && !IsMutation(safe.trace[|w.trace|])
  {
    hide SnapshotStore.Put, SnapshotStore.Read;
    var read := ReadSnapshot(hash, w, id, env).0;
    assert read.trace == w.trace && Capture(read) == Capture(w);
    var safe := Prepare(hash, w, id, env).0;
    QuietKeeps(w, safe.trace[|w.trace|], safe, start);
  }

  /** A restore changes nothing before the put of its safety snapshot has succeeded, and
      nothing at all if reading or that put fails. */
  lemma RestoreStoresFirst(hash: Hash, w: World, id: string, env: Env, start: nat)
    requires start <= |w.trace|
    ensures var (after, r) := Restore(hash, w, id, env);
      var (safe, safety) := Prepare(hash, w, id, env);
      && Keeps(w, after, start)
      && (r.Success? ==> ReadSnapshot(hash, w, id, env).1.Success? && safety.Success?)
      && (ReadSnapshot(hash, w, id, env).1.Failure? ==>
            after.state == w.state && after.modprobe == w.modprobe && after.trace == w.trace)
      && (ReadSnapshot(hash, w, id, env).1.Success? && safety.Failure? ==> after == safe)
      && (ReadSnapshot(hash, w, id, env).1.Success? && safety.Success? ==> safe.trace <= after.trace)
  {
    hide Prepare, ReadSnapshot, Apply, Capture, Guarded;
    var (read, snapshot) := ReadSnapshot(hash, w, id, env);
    ReadKeeps(hash, w, id, env);
    PrepareKeeps(hash, w, id, env, start);
    PrepareIs(hash, w, id, env);
    if snapshot.Failure? {
      SameTrace(w, read, start);
    } else if Prepare(hash, w, id, env).1.Success? {
      var safe := Prepare(hash, w, id, env).0;
      ApplyKeeps(safe, Capture(read), snapshot.value.payload, env, start);
      KeepsChains(w, safe, Restore(hash, w, id, env).0, start);
    }
  }

  lemma SameTrace(w: World, v: World, start: nat)
    requires v.trace == w.trace && v.state == w.state && v.modprobe == w.modprobe
    ensures Keeps(w, v, start)
  {
  }

  lemma PrepareIs(hash: Hash, w: World, id: string, env: Env)
    ensures Prepare(hash, w, id, env)
         == TakeSnapshot(hash, ReadSnapshot(hash, w, id, env).0, Auto, SnapshotReason("SnapshotRestore", id), env)
  {
  }

  lemma ReadKeeps(hash: Hash, w: World, id: string, env: Env)
    ensures var read := ReadSnapshot(hash, w, id, env).0;
      read.state == w.state && read.modprobe == w.modprobe && read.trace == w.trace && Capture(read) == Capture(w)
  {
  }

  lemma ApplyKeeps(w: World, pre: SnapshotPayload, target: SnapshotPayload, env: Env, start: nat)
    requires start <= |w.trace|
    ensures Keeps(w, Apply(w, pre, target, env).0, start)
  {
    hide WriteFiles, RemoveFiles, Converge, Guarded;
    var (replaced, saved) := SaveEntries(w, target.entries, env);
    QuietKeeps(w, EntriesChanged(w.state.entries, target.entries), replaced, start);
    if saved.Success? {
      var names, targets := SortedKeys(pre.modprobeFiles.Keys), SortedKeys(target.modprobeFiles.Keys);
      var removed := RemoveFiles(replaced, names, target.modprobeFiles, env);
      RemoveFilesKeep(replaced, names, target.modprobeFiles, env, start);
      var written := WriteFiles(removed, targets, target.modprobeFiles, pre.modprobeFiles, env);
      WriteFilesKeep(removed, targets, target.modprobeFiles, pre.modprobeFiles, env, start);
      KeepsChains(w, replaced, removed, start);
      KeepsChains(w, removed, written, start);
      ConvergeTouches(written, pre.entries, target.entries, env, start);
      KeepsChains(w, written, Converge(written, pre.entries, target.entries, env), start);
    }
  }

  /** A restore succeeds exactly when the snapshot reads, the safety snapshot is stored and the
      replaced entry list is saved; convergence never fails it. */
  lemma RestoreSucceedsIff(hash: Hash, w: World, id: string, env: Env)
    ensures Restore(hash, w, id, env).1.Success?
        <==> ReadSnapshot(hash, w, id, env).1.Success? && Prepare(hash, w, id, env).1.Success?
             && env.saves(|w.trace| + 1).Done?
  {
    hide ReadSnapshot, TakeSnapshot, WriteBack, Converge;
    PrepareKeeps(hash, w, id, env, 0);
  }

  // ---------------------------------------------------------------- working file operations go well

  // Every write and removal of a modprobe file works.
  ghost predicate FilesWork(env: Env) {
    forall n :: env.writes(n).Done? && env.removes(n)
  }

  lemma WellChains(a: Trace, b: Trace, c: Trace)
    requires a <= b <= c && FilesWentWell(b, |a|) && FilesWentWell(c, |b|)
    ensures FilesWentWell(c, |a|)
  {
    assert forall k :: 0 <= k < |b| ==> c[k] == b[k];
  }

  lemma OneGoesWell(trace: Trace, e: Event)
    requires IsFileItem(e) ==> e.item.status == ItemOk
    ensures FilesWentWell(trace + [e], |trace|) && FilesWentWell(trace, |trace|)
  {
  }

  lemma RemoveFileGoesWell(w: World, name: string, target: map<string, string>, env: Env)
    requires FilesWork(env)
    ensures FilesWentWell(RemoveFile(w, name, target, env).trace, |w.trace|)
  {
    hide FilesWentWell;
    assert env.removes(Now(w));
    OneGoesWell(w.trace, FileRemoved(name));
    OneGoesWell(w.trace + [FileRemoved(name)], Reported(Item(name, ModprobeRemove, ItemOk)));
    WellChains(w.trace, w.trace + [FileRemoved(name)],
               w.trace + [FileRemoved(name)] + [Reported(Item(name, ModprobeRemove, ItemOk))]);
  }

  lemma WriteFileGoesWell(w: World, name: string, content: string, pre: map<string, string>, env: Env)
    requires FilesWork(env)
    ensures FilesWentWell(WriteFile(w, name, content, pre, env).trace, |w.trace|)
  {
    hide FilesWentWell;
    assert env.writes(Now(w)).Done?;
    OneGoesWell(w.trace, FileWritten(name));
    OneGoesWell(w.trace + [FileWritten(name)], Reported(Item(name, ModprobeWrite, ItemOk)));
    WellChains(w.trace, w.trace + [FileWritten(name)],
               w.trace + [FileWritten(name)] + [Reported(Item(name, ModprobeWrite, ItemOk))]);
  }

  lemma {:induction false} RemoveFilesGoWell(w: World, names: seq<string>, target: map<string, string>, env: Env)
    requires FilesWork(env)
    ensures FilesWentWell(RemoveFiles(w, names, target, env).trace, |w.trace|)
  {
    hide FilesWentWell, Keeps, RemoveFile;
    OneGoesWell(w.trace, Granted);
    if names != [] {
      var n := |names| - 1;
      var before, after := RemoveFiles(w, names[..n], target, env), RemoveFiles(w, names, target, env);
      RemoveFilesGoWell(w, names[..n], target, env);
      RemoveFileGoesWell(before, names[n], target, env);
      RemoveFilesKeep(w, names[..n], target, env, 0);
      KeepsExtends(w, before, 0);
      RemoveFileDoes(before, names[n], target, env, 0);
      KeepsExtends(before, after, 0);
      WellChains(w.trace, before.trace, after.trace);
    }
  }

  lemma {:induction false} WriteFilesGoWell(w: World, names: seq<string>, target: map<string, string>,
                                            pre: map<string, string>, env: Env)
    requires FilesWork(env) && forall n :: n in names ==> n in target
    ensures FilesWentWell(WriteFiles(w, names, target, pre, env).trace, |w.trace|)
  {
    hide FilesWentWell, Keeps, WriteFile;
    OneGoesWell(w.trace, Granted);
    if names != [] {
      var n := |names| - 1;
      assert forall x :: x in names[..n] ==> x in names;
      var before, after := WriteFiles(w, names[..n], target, pre, env), WriteFiles(w, names, target, pre, env);
      WriteFilesGoWell(w, names[..n], target, pre, env);
      WriteFileGoesWell(before, names[n], target[names[n]], pre, env);
      WriteFilesKeep(w, names[..n], target, pre, env, 0);
      KeepsExtends(w, before, 0);
      WriteFileDoes(before, names[n], target[names[n]], pre, env, 0);
      KeepsExtends(before, after, 0);
      WellChains(w.trace, before.trace, after.trace);
    }
  }

  // Convergence reports on devices only.
  lemma ReEnableGoesWell(w: World, e: Entry, all: seq<Device>, target: Entries, env: Env)
    ensures FilesWentWell(ReEnableOne(w, e, all, target, env).trace, |w.trace|)
  {
    hide DeviceOf;
  }

  lemma {:induction false} ReEnableAllGoesWell(w: World, entries: Entries, all: seq<Device>, target: Entries, env: Env)
    ensures FilesWentWell(ReEnableAll(w, entries, all, target, env).trace, |w.trace|)
  {
    hide FilesWentWell, Keeps, ReEnableOne, Touches;
    OneGoesWell(w.trace, Granted);
    if entries != [] {
      var n := |entries| - 1;
      var before := ReEnableAll(w, entries[..n], all, target, env);
      var after := ReEnableAll(w, entries, all, target, env);
      ReEnableAllGoesWell(w, entries[..n], all, target, env);
      ReEnableGoesWell(before, entries[n], all, target, env);
      ReEnableAllTouches(w, entries[..n], all, target, env, 0);
      KeepsExtends(w, before, 0);
      ReEnableTouches(before, entries[n], all, target, env, 0);
      KeepsExtends(before, after, 0);
      WellChains(w.trace, before.trace, after.trace);
    }
  }

  lemma UpdateEntryGoesWell(w: World, key: DeviceKey, change: Change, env: Env)
    ensures var after := UpdateEntry(w, key, change, env).0;
      w.trace <= after.trace && FilesWentWell(after.trace, |w.trace|)
  {
  }

  lemma ReApplyGoesWell(w: World, e: Entry, device: Device, env: Env)
    ensures var after := ReApply(w, e, device, env).0; w.trace <= after.trace && FilesWentWell(after.trace, |w.trace|)
  {
    hide UpdateEntry, EvaluateDisable, FilesWentWell;
    OneGoesWell(w.trace, Granted);
    if NeedsApply(e, device) {
      var (asked, answer) := Judge(w, device.sysfsPath, env);
      OneGoesWell(w.trace, asked.trace[|w.trace|]);
      UpdateEntryGoesWell(asked, e.key, Suspend(true), env);
      WellChains(w.trace, asked.trace, UpdateEntry(asked, e.key, Suspend(true), env).0.trace);
      var (called, applied) := CallSetEnabled(asked, device.sysfsPath, false, "", env);
      OneGoesWell(asked.trace, SetEnabled(device.sysfsPath, false, "", applied.Success?));
      WellChains(w.trace, asked.trace, called.trace);
      var moved := NotePath(called, e, device, env);
      UpdateEntryGoesWell(called, e.key, MovePath(device.sysfsPath), env);
      OneGoesWell(called.trace, Granted);
      WellChains(w.trace, called.trace, moved.trace);
      UpdateEntryGoesWell(moved, e.key, Suspend(false), env);
      OneGoesWell(moved.trace, Granted);
      WellChains(w.trace, moved.trace, NoteResumed(moved, e, env).trace);
    }
  }

  lemma ReApplyOneGoesWell(w: World, e: Entry, all: seq<Device>, env: Env)
    ensures FilesWentWell(ReApplyOne(w, e, all, env).trace, |w.trace|)
  {
    hide DeviceOf, ReApply;
    match DeviceOf(w, e, all, env)
    case None => OneGoesWell(w.trace, Reported(Item(e.lastSysfsPath, ReApplyDisable, DeviceAbsent)));
    case Some(device) =>
      var (after, r) := ReApply(w, e, device, env);
      ReApplyGoesWell(w, e, device, env);
      hide FilesWentWell;
      OneGoesWell(after.trace, Reported(Item(device.sysfsPath, ReApplyDisable, StatusOf(r))));
      WellChains(w.trace, after.trace, ReApplyOne(w, e, all, env).trace);
  }

  lemma {:induction false} ReApplyAllGoesWell(w: World, entries: Entries, all: seq<Device>, env: Env)
    ensures FilesWentWell(ReApplyAll(w, entries, all, env).trace, |w.trace|)
  {
    hide FilesWentWell, Keeps, ReApplyOne, Touches;
    OneGoesWell(w.trace, Granted);
    if entries != [] {
      var n := |entries| - 1;
      var before, after := ReApplyAll(w, entries[..n], all, env), ReApplyAll(w, entries, all, env);
      ReApplyAllGoesWell(w, entries[..n], all, env);
      ReApplyOneGoesWell(before, entries[n], all, env);
      ReApplyAllTouches(w, entries[..n], all, env, 0);
      KeepsExtends(w, before, 0);
      ReApplyOneTouches(before, entries[n], all, env, 0);
      KeepsExtends(before, after, 0);
      WellChains(w.trace, before.trace, after.trace);
    }
  }

  lemma ConvergeGoesWell(w: World, pre: Entries, target: Entries, env: Env)
    ensures var after := Converge(w, pre, target, env); w.trace <= after.trace && FilesWentWell(after.trace, |w.trace|)
  {
    hide FilesWentWell, Keeps, ReEnableAll, ReApplyAll, Touches;
    var all := Enumerated(w, env);
    var enabled := ReEnableAll(w, pre, all, target, env);
    var after := Converge(w, pre, target, env);
    ReEnableAllGoesWell(w, pre, all, target, env);
    ReEnableAllTouches(w, pre, all, target, env, 0);
    KeepsExtends(w, enabled, 0);
    ReApplyAllGoesWell(enabled, enabled.state.entries, Enumerated(enabled, env), env);
    ReApplyAllTouches(enabled, enabled.state.entries, Enumerated(enabled, env), env, 0);
    KeepsExtends(enabled, after, 0);
    WellChains(w.trace, enabled.trace, after.trace);
  }

  lemma ApplyGoesWell(w: World, pre: SnapshotPayload, target: SnapshotPayload, env: Env)
    requires FilesWork(env)
    ensures var after := Apply(w, pre, target, env).0; w.trace <= after.trace && FilesWentWell(after.trace, |w.trace|)
  {
    hide FilesWentWell, Keeps, RemoveFiles, WriteFiles, Converge;
    var (replaced, saved) := SaveEntries(w, target.entries, env);
    OneGoesWell(w.trace, EntriesChanged(w.state.entries, target.entries));
    if saved.Success? {
      var names, targets := SortedKeys(pre.modprobeFiles.Keys), SortedKeys(target.modprobeFiles.Keys);
      var removed := RemoveFiles(replaced, names, target.modprobeFiles, env);
      RemoveFilesGoWell(replaced, names, target.modprobeFiles, env);
      RemoveFilesKeep(replaced, names, target.modprobeFiles, env, 0);
      KeepsExtends(replaced, removed, 0);
      WellChains(w.trace, replaced.trace, removed.trace);
      var written := WriteFiles(removed, targets, target.modprobeFiles, pre.modprobeFiles, env);
      WriteFilesGoWell(removed, targets, target.modprobeFiles, pre.modprobeFiles, env);
      WriteFilesKeep(removed, targets, target.modprobeFiles, pre.modprobeFiles, env, 0);
      KeepsExtends(removed, written, 0);
      WellChains(w.trace, removed.trace, written.trace);
      ConvergeGoesWell(written, pre.entries, target.entries, env);
      WellChains(w.trace, written.trace, Converge(written, pre.entries, target.entries, env).trace);
    }
  }

  /** If every write and removal of a modprobe file works, a restore reports no file as failed. */
  lemma WorkingFilesGoWell(hash: Hash, w: World, id: string, env: Env)
    requires FilesWork(env)
    ensures FilesWentWell(Restore(hash, w, id, env).0.trace, |w.trace|)
  {
    hide Prepare, ReadSnapshot, Apply, FilesWentWell, Keeps, Capture, FilesWork;
    var (read, snapshot) := ReadSnapshot(hash, w, id, env);
    ReadKeeps(hash, w, id, env);
    PrepareIs(hash, w, id, env);
    PrepareKeeps(hash, w, id, env, 0);
    OneGoesWell(w.trace, Granted);
    var (safe, safety) := Prepare(hash, w, id, env);
    KeepsExtends(w, safe, 0);
    PrepareGoesWell(hash, w, id, env);
    if snapshot.Success? && safety.Success? {
      ApplyGoesWell(safe, Capture(read), snapshot.value.payload, env);
      WellChains(w.trace, safe.trace, Restore(hash, w, id, env).0.trace);
    }
  }

  lemma PrepareGoesWell(hash: Hash, w: World, id: string, env: Env)
    ensures FilesWentWell(Prepare(hash, w, id, env).0.trace, |w.trace|)
  {
    hide SnapshotStore.Put, SnapshotStore.Read, Capture;
  }

  lemma OwnedAndUnowned(a: map<string, string>, b: map<string, string>)
    requires Owned(a) == Owned(b) && Unowned(a) == Unowned(b)
    ensures a == b
  {
    hide IsDevmgrOwned;
    forall name
      ensures name in a <==> name in b
      ensures name in a ==> a[name] == b[name]
    {
      assert name in a <==> name in Owned(a) || name in Unowned(a);
      assert name in b <==> name in Owned(b) || name in Unowned(b);
      assert name in Owned(a) ==> Owned(a)[name] == a[name] && Owned(b)[name] == b[name];
      assert name in Unowned(a) ==> Unowned(a)[name] == a[name] && Unowned(b)[name] == b[name];
    }
  }

  /** A successful restore leaves the entries of the snapshot, up to what enforcement keeps current,
      nobody else's files touched and, if file operations work or at least none is reported as failed,
      devmgr's files as they were; and the id it reports is that of the put of what was current. */
  lemma RestoreEstablishes(hash: Hash, w: World, id: string, env: Env, target: SnapshotPayload, start: nat)
    requires start <= |w.trace| && Restore(hash, w, id, env).1.Success?
    requires target == ReadSnapshot(hash, w, id, env).1.value.payload && OwnedNames(target.modprobeFiles)
    ensures var (after, r) := Restore(hash, w, id, env);
      && r.value.snapshotId == id && Prepare(hash, w, id, env).1 == Success(r.value.safetySnapshotId)
      && after.dir == Prepare(hash, w, id, env).0.dir && Keeps(w, after, start)
      && SimilarLists(target.entries, after.state.entries)
      && Unowned(after.modprobe) == Unowned(w.modprobe)
      && (FilesWork(env) || FilesWentWell(after.trace, |w.trace|) ==> Owned(after.modprobe) == target.modprobeFiles)
  {
    hide Prepare, ReadSnapshot, Apply, FilesWentWell, Unowned, OwnedNames, FilesWork;
    if FilesWork(env) {
      WorkingFilesGoWell(hash, w, id, env);
    }
    var (read, snapshot) := ReadSnapshot(hash, w, id, env);
    ReadKeeps(hash, w, id, env);
    PrepareIs(hash, w, id, env);
    PrepareKeeps(hash, w, id, env, start);
    var safe := Prepare(hash, w, id, env).0;
    assert Capture(safe) == Capture(read);
    KeepsExtends(w, safe, start);
    ApplyDoes(safe, target, env, start);
    KeepsChains(w, safe, Restore(hash, w, id, env).0, start);
    if FilesWentWell(Restore(hash, w, id, env).0.trace, |w.trace|) {
      WentWellLater(Restore(hash, w, id, env).0.trace, |w.trace|, |safe.trace|);
    }
  }

  // ---------------------------------------------------------------- undo

  lemma CapturedFiles(w: World)
    ensures Capture(w).entries == w.state.entries && Capture(w).modprobeFiles == Owned(w.modprobe)
  {
  }

  lemma CapturedNamesAreOwned(w: World)
    ensures OwnedNames(Capture(w).modprobeFiles)
  {
  }

  // HEAD names a stored file, or at least not the missing file of what is current.
  predicate IsUndoable(hash: Hash, w: World) {
    !SnapshotStore.Stale(w.dir, hash(Capture(w)))
  }

  /** A snapshot that was reported as stored reads back, from any later world that has the same
      store, exactly when the world was undoable; then it holds what was current. */
  lemma SnapshotReadsIff(hash: Hash, w: World, trigger: SnapshotTrigger, reason: SnapshotReason, env: Env, later: World,
                         env2: Env)
    requires SnapshotStore.Sound(hash, w.dir) && SnapshotStore.NoCollision(hash, w.dir, Capture(w))
    requires TakeSnapshot(hash, w, trigger, reason, env).1.Success?
    requires later.dir == TakeSnapshot(hash, w, trigger, reason, env).0.dir
    ensures var r := ReadSnapshot(hash, later, TakeSnapshot(hash, w, trigger, reason, env).1.value, env2);
      && r.0 == later && (r.1.Success? <==> IsUndoable(hash, w))
      && (r.1.Success? ==> r.1.value.payload == Capture(w))
  {
    hide SnapshotStore.Put, SnapshotStore.Read, Capture;
    SnapshotStore.PutReadsIff(hash, w.dir, Capture(w), trigger, reason, env.now(Now(w)), env.disk(Now(w)),
                              env2.disk(Now(later)).moves);
  }

  // The file operations of a restore that begins in this world: the put and the save.
  predicate Works(w: World, env: Env) {
    var disk := env.disk(Now(w));
    disk.document.Done? && disk.head.Done? && env.saves(Now(w) + 1).Done?
  }

  /** With working file operations a restore of a snapshot that reads succeeds. */
  lemma WorkingRestoreSucceeds(hash: Hash, w: World, id: string, env: Env)
    requires Works(w, env) && ReadSnapshot(hash, w, id, env).1.Success?
    ensures Restore(hash, w, id, env).1.Success?
  {
    hide Restore, ReadSnapshot, SnapshotStore.Prune;
    ReadKeeps(hash, w, id, env);
    RestoreSucceedsIff(hash, w, id, env);
  }

  /** Restoring a snapshot that was taken of a world succeeds if its file operations work, and then
      gives that world back: its entries, up to what enforcement keeps current, devmgr's own files
      unless one is reported as failed, and nobody else's files were touched by the restore. */
  lemma RestoringACapture(hash: Hash, w: World, trigger: SnapshotTrigger, reason: SnapshotReason, env: Env,
                          later: World, env2: Env)
    requires SnapshotStore.Sound(hash, w.dir) && SnapshotStore.NoCollision(hash, w.dir, Capture(w))
    requires IsUndoable(hash, w)
    requires TakeSnapshot(hash, w, trigger, reason, env).1.Success?
    requires later.dir == TakeSnapshot(hash, w, trigger, reason, env).0.dir
    ensures var (after, r) := Restore(hash, later, TakeSnapshot(hash, w, trigger, reason, env).1.value, env2);
      && (Works(later, env2) ==> r.Success?)
      && (r.Success? ==> IsBack(w, later, after, env2))
  {
    hide Restore, TakeSnapshot, ReadSnapshot, FilesWentWell, Unowned, Owned, SnapshotStore.Sound,
      SnapshotStore.NoCollision, Works, FilesWork, IsBack, Capture;
    var id := TakeSnapshot(hash, w, trigger, reason, env).1.value;
    SnapshotReadsIff(hash, w, trigger, reason, env, later, env2);
    CapturedNamesAreOwned(w);
    if Works(later, env2) {
      WorkingRestoreSucceeds(hash, later, id, env2);
    }
    if Restore(hash, later, id, env2).1.Success? {
      RestoreEstablishes(hash, later, id, env2, Capture(w), 0);
      CapturedFiles(w);
      BackWithFiles(w, later, Restore(hash, later, id, env2).0, env2);
    }
  }

  // After a restore in `later`, what devmgr owns is as it was in w: the entries, up to what enforcement
  // keeps current, and, if file operations work or at least none is reported as failed, the files.
  ghost predicate IsBack(w: World, later: World, after: World, env: Env) {
    && SimilarLists(w.state.entries, after.state.entries)
    && Unowned(after.modprobe) == Unowned(later.modprobe)
    && (FilesWork(env) || FilesWentWell(after.trace, |later.trace|) ==> Owned(after.modprobe) == Owned(w.modprobe))
    && (FilesWork(env) && Unowned(later.modprobe) == Unowned(w.modprobe) ==> after.modprobe == w.modprobe)
  }

  lemma BackWithFiles(w: World, later: World, after: World, env: Env)
    requires SimilarLists(w.state.entries, after.state.entries) && Unowned(after.modprobe) == Unowned(later.modprobe)
    requires FilesWork(env) || FilesWentWell(after.trace, |later.trace|) ==> Owned(after.modprobe) == Owned(w.modprobe)
    ensures IsBack(w, later, after, env)
  {
    hide Owned, Unowned, FilesWork, FilesWentWell;
    if FilesWork(env) && Unowned(later.modprobe) == Unowned(w.modprobe) {
      OwnedAndUnowned(after.modprobe, w.modprobe);
    }
  }

  lemma StoredHeadIsUndoable(hash: Hash, w: World)
    requires SnapshotStore.HeadStored(w.dir)
    ensures IsUndoable(hash, w)
  {
  }

  /** Undo: restoring any snapshot of devmgr's own files and then the safety snapshot it reports
      gives back the world before both; the second restore succeeds if its file operations work. */
  lemma RestoreUndoesRestore(hash: Hash, w: World, id: string, env: Env, env2: Env)
    requires SnapshotStore.Sound(hash, w.dir) && SnapshotStore.NoCollision(hash, w.dir, Capture(w))
    requires IsUndoable(hash, w)
    requires Restore(hash, w, id, env).1.Success?
    requires OwnedNames(ReadSnapshot(hash, w, id, env).1.value.payload.modprobeFiles)
    ensures var (restored, first) := Restore(hash, w, id, env);
      var (undone, second) := Restore(hash, restored, first.value.safetySnapshotId, env2);
      && (Works(restored, env2) ==> second.Success?)
      && Unowned(restored.modprobe) == Unowned(w.modprobe)
      && (second.Success? ==> IsBack(w, restored, undone, env2))
  {
    hide Restore, ReadSnapshot, FilesWentWell, Unowned, Owned, TakeSnapshot, Works, FilesWork, IsBack;
    ReadIsQuiet(hash, w, id, env);
    RestoreReads(hash, w, id, env);
    var target := ReadSnapshot(hash, w, id, env).1.value.payload;
    RestoreEstablishes(hash, w, id, env, target, 0);
    PrepareIs(hash, w, id, env);
    RestoringACapture(hash, w, Auto, SnapshotReason("SnapshotRestore", id), env, Restore(hash, w, id, env).0, env2);
  }

  lemma ReadIsQuiet(hash: Hash, w: World, id: string, env: Env)
    requires SnapshotStore.Sound(hash, w.dir)
    ensures ReadSnapshot(hash, w, id, env).0 == w
  {
    SnapshotStore.ReadOfSound(hash, w.dir, id, env.disk(Now(w)).moves);
  }

  lemma RestoreReads(hash: Hash, w: World, id: string, env: Env)
    requires Restore(hash, w, id, env).1.Success?
    ensures ReadSnapshot(hash, w, id, env).1.Success?
  {
  }

  // ---------------------------------------------------------------- what the outcome reports

  // The item at k reports a re-enable of this entry: absent, or called with the entry's driver.
  ghost predicate ReEnableReport(trace: Trace, k: nat, e: Entry) {
    && k < |trace| && trace[k].Reported? && trace[k].item.action == ReEnable
    && var item := trace[k].item;
       (item.status == DeviceAbsent && item.subject == e.lastSysfsPath)
       || (k > 0 && (item.status == ItemOk || item.status == ItemFailed)
           && trace[k - 1] == SetEnabled(item.subject, true, e.lastDriver, item.status == ItemOk))
  }

  // The item at k reports a re-apply of this entry, truthfully.
  ghost predicate ReApplyReport(trace: Trace, start: nat, k: nat, e: Entry) {
    && k < |trace| && trace[k].Reported? && trace[k].item.action == ReApplyDisable
    && var item := trace[k].item;
       match item.status
       case DeviceAbsent => item.subject == e.lastSysfsPath
       case GuardRefused => exists j :: start <= j < k && RefusedAt(trace[j], item.subject)
       case ItemOk =>
         || (exists d :: IsQuiet(e, d, item.subject))
         || (exists j :: start <= j < k && DisabledAt(trace[j], item.subject))
       case ItemFailed => true
  }

  ghost predicate ReEnableIsReported(trace: Trace, start: nat, e: Entry) {
    exists k :: start <= k < |trace| && ReEnableReport(trace, k, e)
  }

  ghost predicate ReApplyIsReported(trace: Trace, start: nat, e: Entry) {
    exists k :: start <= k < |trace| && ReApplyReport(trace, start, k, e)
  }

  predicate RefusedAt(e: Event, path: string) {
    e.Judged? && e.path == path && e.verdict.Refused?
  }

  predicate DisabledAt(e: Event, path: string) {
    e == SetEnabled(path, false, "", true)
  }

  predicate IsQuiet(e: Entry, device: Device, path: string) {
    device.sysfsPath == path && !NeedsApply(e, device)
  }

  lemma ReportStays(before: Trace, after: Trace, start: nat, k: nat, e: Entry)
    requires before <= after && k < |before|
    ensures ReEnableReport(before, k, e) ==> ReEnableReport(after, k, e)
    ensures ReApplyReport(before, start, k, e) ==> ReApplyReport(after, start, k, e)
  {
    forall j | 0 <= j < |before|
      ensures after[j] == before[j]
    {
      assert after[..|before|][j] == before[j];
    }
  }

  /** Every entry that the restore removed is re-enabled with its driver, or reported absent. */
  lemma {:induction false} ReEnableAllReports(w: World, entries: Entries, all: seq<Device>, target: Entries, env: Env,
                                              i: nat)
    requires i < |entries| && !HasKey(target, entries[i].key)
    ensures var after := ReEnableAll(w, entries, all, target, env);
      ReEnableIsReported(after.trace, |w.trace|, entries[i])
  {
    hide Keeps, DeviceOf, Touches;
    var n := |entries| - 1;
    var before := ReEnableAll(w, entries[..n], all, target, env);
    var after := ReEnableAll(w, entries, all, target, env);
    ReEnableAllTouches(w, entries[..n], all, target, env, 0);
    ReEnableTouches(before, entries[n], all, target, env, 0);
    KeepsExtends(w, before, 0);
    KeepsExtends(before, after, 0);
    if i < n {
      hide ReEnableReport;
      ReEnableAllReports(w, entries[..n], all, target, env, i);
      var k :| |w.trace| <= k < |before.trace| && ReEnableReport(before.trace, k, entries[i]);
      ReportStays(before.trace, after.trace, 0, k, entries[i]);
    } else {
      assert ReEnableReport(after.trace, |after.trace| - 1, entries[i]);
    }
  }

  lemma ReApplyOneReports(w: World, e: Entry, all: seq<Device>, env: Env, start: nat)
    requires start <= |w.trace|
    ensures var after := ReApplyOne(w, e, all, env); ReApplyReport(after.trace, start, |after.trace| - 1, e)
  {
    hide DeviceOf, UpdateEntry, EvaluateDisable;
    var after := ReApplyOne(w, e, all, env);
    var found := DeviceOf(w, e, all, env);
    if found.Some? {
      var d := found.value;
      var (done, r) := ReApply(w, e, d, env);
      if !NeedsApply(e, d) {
        assert IsQuiet(e, d, d.sysfsPath);
      } else {
        ReApplyOneTouches(w, e, all, env, start);
        ReApplyShows(w, e, d, env);
        if r.Suspended? {
          assert RefusedAt(after.trace[|w.trace|], d.sysfsPath);
        } else if r.Applied? {
          assert DisabledAt(after.trace[|w.trace| + 1], d.sysfsPath);
        }
      }
    }
  }

  lemma ReApplyShows(w: World, e: Entry, device: Device, env: Env)
    requires NeedsApply(e, device)
    ensures var (done, r) := ReApply(w, e, device, env);
      && |done.trace| > |w.trace|
      && (r.Suspended? ==> RefusedAt(done.trace[|w.trace|], device.sysfsPath))
      && (r.Applied? ==> |done.trace| > |w.trace| + 1 && DisabledAt(done.trace[|w.trace| + 1], device.sysfsPath))
  {
    hide UpdateEntry, Guarded, Touches, EvaluateDisable;
    var (asked, answer) := Judge(w, device.sysfsPath, env);
    var (done, r) := ReApply(w, e, device, env);
    if r.Suspended? || r.NotSuspended? {
      UpdateEntryTouches(asked, e.key, Suspend(true), env, 0);
      assert done.trace[|w.trace|] == done.trace[..|asked.trace|][|w.trace|];
    } else if r.Applied? {
      var called := CallSetEnabled(asked, device.sysfsPath, false, "", env).0;
      NotesTouch(called, e, device, env, 0);
      assert done.trace[|w.trace| + 1] == done.trace[..|called.trace|][|w.trace| + 1];
    }
  }

  /** Every restored entry is reported on, and a report of success, refusal or absence is true. */
  lemma {:induction false} ReApplyAllReports(w: World, entries: Entries, all: seq<Device>, env: Env, i: nat)
    requires i < |entries|
    ensures var after := ReApplyAll(w, entries, all, env);
      ReApplyIsReported(after.trace, |w.trace|, entries[i])
  {
    hide Keeps, ReApplyOne, ReApplyReport;
    var n := |entries| - 1;
    var before := ReApplyAll(w, entries[..n], all, env);
    var after := ReApplyAll(w, entries, all, env);
    ReApplyAllTouches(w, entries[..n], all, env, 0);
    ReApplyOneTouches(before, entries[n], all, env, 0);
    KeepsExtends(w, before, 0);
    KeepsExtends(before, after, 0);
    if i < n {
      ReApplyAllReports(w, entries[..n], all, env, i);
      var k :| |w.trace| <= k < |before.trace| && ReApplyReport(before.trace, |w.trace|, k, entries[i]);
      ReportStays(before.trace, after.trace, |w.trace|, k, entries[i]);
    } else {
      ReApplyOneReports(before, entries[n], all, env, |w.trace|);
      ReApplyGrows(before, entries[n], all, env);
      var k := |after.trace| - 1;
      assert |w.trace| <= k < |after.trace| && ReApplyReport(after.trace, |w.trace|, k, entries[i]);
    }
  }

  lemma ReApplyGrows(w: World, e: Entry, all: seq<Device>, env: Env)
    ensures |ReApplyOne(w, e, all, env).trace| > |w.trace|
  {
    hide ReApply, DeviceOf, Guarded, Touches;
    var found := DeviceOf(w, e, all, env);
    if found.Some? {
      ReApplyTouches(w, e, found.value, env, 0);
    }
  }

  // ---------------------------------------------------------------- the service

  class SnapshotService {
    const host: Host

    constructor (host: Host)
      ensures this.host == host
    {
      this.host := host;
    }

    method WriteBackModprobe(pre: map<string, string>, target: map<string, string>, env: Env)
      modifies host
      ensures host.W() == WriteBack(old(host.W()), pre, target, env)
    {
      hide RemoveFile;
      ghost var w := host.W();
      var names := SortedKeys(pre.Keys);
      for i := 0 to |names|
        invariant host.W() == RemoveFiles(w, names[..i], target, env)
      {
        assert names[..i + 1][..i] == names[..i];
        RemoveUnlessTarget(names[i], target, env);
      }
      assert names[..|names|] == names;
      WriteTargets(pre, target, env);
    }

    method RemoveUnlessTarget(name: string, target: map<string, string>, env: Env)
      modifies host
      ensures host.W() == RemoveFile(old(host.W()), name, target, env)
    {
      if name in target {
        return;
      }
      if env.removes(|host.trace|) {
        host.modprobe := host.modprobe - {name};
        host.Note(FileRemoved(name));
        host.Note(Reported(Item(name, ModprobeRemove, ItemOk)));
      } else {
        host.Note(Reported(Item(name, ModprobeRemove, ItemFailed)));
      }
    }

    method WriteTargets(pre: map<string, string>, target: map<string, string>, env: Env)
      modifies host
      ensures host.W() == WriteFiles(old(host.W()), SortedKeys(target.Keys), target, pre, env)
    {
      hide WriteFile;
      ghost var w := host.W();
      var names := SortedKeys(target.Keys);
      for i := 0 to |names|
        invariant host.W() == WriteFiles(w, names[..i], target, pre, env)
      {
        assert names[..i + 1][..i] == names[..i];
        WriteTarget(names[i], target[names[i]], pre, env);
      }
      assert names[..|names|] == names;
    }

    method WriteTarget(name: string, content: string, pre: map<string, string>, env: Env)
      modifies host
      ensures host.W() == WriteFile(old(host.W()), name, content, pre, env)
    {
      if name in pre && pre[name] == content {
        return;
      }
      var written := env.writes(|host.trace|);
      if !written.NotDone? {
        host.modprobe := host.modprobe[name := content];
        host.Note(FileWritten(name));
      }
      host.Note(Reported(Item(name, ModprobeWrite, if written.Done? then ItemOk else ItemFailed)));
    }

    method ReEnableEntry(e: Entry, all: seq<Device>, target: Entries, env: Env)
      modifies host
      ensures host.W() == ReEnableOne(old(host.W()), e, all, target, env)
    {
      hide DeviceOf;
      if HasKey(target, e.key) {
        return;
      }
      var found := host.FindDevice(e, all, env);
      var path := if found.Some? then found.value.sysfsPath else "";
      if path == "" {
        host.Note(Reported(Item(e.lastSysfsPath, ReEnable, DeviceAbsent)));
        return;
      }
      var applied := host.CallController(path, true, e.lastDriver, env);
      host.Note(Reported(Item(path, ReEnable, if applied.Success? then ItemOk else ItemFailed)));
    }

    method ReEnableRemoved(pre: Entries, target: Entries, env: Env)
      modifies host
      ensures host.W() == ReEnableAll(old(host.W()), pre, Enumerated(old(host.W()), env), target, env)
    {
      hide ReEnableOne;
      ghost var w := host.W();
      var enumerated := env.enumerate(|host.trace|);
      var all := if enumerated.Success? then enumerated.value else [];
      for i := 0 to |pre|
        invariant host.W() == ReEnableAll(w, pre[..i], all, target, env)
      {
        assert pre[..i + 1][..i] == pre[..i];
        ReEnableEntry(pre[i], all, target, env);
      }
      assert pre[..|pre|] == pre;
    }

    method ReApplyRestoredOne(e: Entry, all: seq<Device>, env: Env)
      modifies host, host.state
      ensures host.W() == ReApplyOne(old(host.W()), e, all, env)
    {
      hide DeviceOf, ReApply;
      var found := host.FindDevice(e, all, env);
      if found.None? {
        host.Note(Reported(Item(e.lastSysfsPath, ReApplyDisable, DeviceAbsent)));
        return;
      }
      var r := host.ReApplyEntry(e, found.value, env);
      host.Note(Reported(Item(found.value.sysfsPath, ReApplyDisable, StatusOf(r))));
    }

    method ReApplyRestored(env: Env)
      modifies host, host.state
      ensures host.W()
           == ReApplyAll(old(host.W()), old(host.state.entries), Enumerated(old(host.W()), env), env)
    {
      hide ReApplyOne;
      ghost var w := host.W();
      var enumerated := env.enumerate(|host.trace|);
      var all := if enumerated.Success? then enumerated.value else [];
      var entries := host.state.entries;
      for i := 0 to |entries|
        invariant host.W() == ReApplyAll(w, entries[..i], all, env)
      {
        assert entries[..i + 1][..i] == entries[..i];
        ReApplyRestoredOne(entries[i], all, env);
      }
      assert entries[..|entries|] == entries;
    }

    method ReplaceAndConverge(pre: SnapshotPayload, target: SnapshotPayload, env: Env) returns (r: Result<()>)
      modifies host, host.state
      ensures (host.W(), r) == Apply(old(host.W()), pre, target, env)
    {
      hide WriteBack, ReEnableAll, ReApplyAll;
      var before := host.state.entries;
      r := host.state.ReplaceAll(target.entries, env.saves(|host.trace|));
      host.Note(EntriesChanged(before, target.entries));
      if r.Failure? {
        return;
      }
      WriteBackModprobe(pre.modprobeFiles, target.modprobeFiles, env);
      ReEnableRemoved(pre.entries, target.entries, env);
      ReApplyRestored(env);
    }

    method RestoreSnapshot(id: string, env: Env) returns (r: Result<RestoreOutcome>)
      modifies host, host.state, host.store
      ensures (host.W(), r) == Restore(host.store.hash, old(host.W()), id, env)
    {
      hide Apply, TakeSnapshot, SnapshotStore.Read;
      var snapshot := host.store.ReadLocked(id, env.disk(|host.trace|).moves);
      if snapshot.Failure? {
        return Failure(snapshot.code);
      }
      var pre := host.CapturePayload();
      var safety := host.Snapshot(Auto, SnapshotReason("SnapshotRestore", id), env);
      if safety.Failure? {
        return Failure(safety.code);
      }
      var applied := ReplaceAndConverge(pre, snapshot.value.payload, env);
      r := if applied.Success? then Success(RestoreOutcome(id, safety.value)) else Failure(applied.code);
    }
  }
}
