/** What enforcement and a restore do for each entry, read off the trace: a moment for every entry,
    and between two moments exactly what its device called for
    (daemon/src/enforcement_service.cpp, daemon/src/snapshot_service.cpp). */
module ReApplyTraces {
  import opened Models
  import opened DeviceKeys
  import opened StateStores
  import SnapshotStore
  import opened StringOrder
  import opened Guard
  import opened Daemon
  import opened SnapshotServices
  import opened RequestProcessors
  import opened EnforcementServices
  import opened VerbTraces

  // ---------------------------------------------------------------- the device of an entry

  ghost predicate Fits(e: Entry, d: Device) {
    MatchesDevice(e.key, d) || e.lastSysfsPath == d.sysfsPath
  }

  ghost predicate NoneFits(e: Entry, all: seq<Device>) {
    forall i :: 0 <= i < |all| ==> !Fits(e, all[i])
  }

  ghost predicate IsFirstFit(e: Entry, all: seq<Device>, i: int, d: Device) {
    0 <= i < |all| && all[i] == d && Fits(e, d) && NoneFits(e, all[..i])
  }

  // The first enumerated device that fits, or else what is now at the stored path, if it is there.
  ghost predicate IsDeviceOf(found: Option<Device>, e: Entry, all: seq<Device>, at: nat, env: Env) {
    if NoneFits(e, all) then
      found == if e.lastSysfsPath != "" && env.isDirectory(at, e.lastSysfsPath)
               then Some(env.sysfs(at, e.lastSysfsPath).(sysfsPath := e.lastSysfsPath)) else None
    else found.Some? && exists i :: IsFirstFit(e, all, i, found.value)
  }

  lemma {:induction false} FirstForIs(e: Entry, all: seq<Device>)
    ensures FirstFor(e, all).None? ==> NoneFits(e, all)
    ensures FirstFor(e, all).Some? ==> exists i :: IsFirstFit(e, all, i, FirstFor(e, all).value)
  {
    hide MatchesDevice;
    if all != [] && Fits(e, all[0]) {
      assert IsFirstFit(e, all, 0, all[0]);
    } else if all != [] {
      FirstForIs(e, all[1..]);
      if FirstFor(e, all[1..]).Some? {
        var d := FirstFor(e, all[1..]).value;
        var i :| IsFirstFit(e, all[1..], i, d);
        assert all[..i + 1] == [all[0]] + all[1..][..i];
        assert IsFirstFit(e, all, i + 1, d);
      } else {
        assert all == [all[0]] + all[1..];
      }
    }
  }

  lemma DeviceOfIs(w: World, e: Entry, all: seq<Device>, env: Env)
    ensures IsDeviceOf(DeviceOf(w, e, all, env), e, all, |w.trace|, env)
  {
    hide Fits, FirstFor;
    FirstForIs(e, all);
    if FirstFor(e, all).Some? {
      var i :| IsFirstFit(e, all, i, FirstFor(e, all).value);
      assert !NoneFits(e, all);
    }
  }

  // ---------------------------------------------------------------- one entry

  // The authorized mechanism shows in the status, the unbind mechanism in the missing driver.
  ghost predicate IsDisabled(e: Entry, d: Device) {
    if e.mechanism == "authorized" then d.status == Disabled else d.boundDriver == None
  }

  datatype Handling = Quiet | Unprobed | Kept(saved: bool) | Called(ok: bool)

  // The events from `from` to `to` are those of re-applying this entry to this device.
  ghost predicate Handles(trace: Trace, from: nat, to: nat, e: Entry, d: Device, how: Handling, env: Env) {
    && from <= to <= |trace|
    && (how.Quiet? <==> IsDisabled(e, d))
    && OnlyEntriesChange(trace, from + (if how.Called? then 2 else if how.Quiet? then 0 else 1), to)
    && match how
       case Quiet => to == from
       case Unprobed => to == from + 1 && trace[from] == ProbeFailed && env.probe(from).Failure?
       case Kept(saved) =>
         && from < to && IsAnswer(trace[from], env.probe(from), d.sysfsPath, false)
         && (saved <==> to == from + 2 && env.saves(from + 1).Done?)
       case Called(ok) =>
         && from + 1 < to && IsAnswer(trace[from], env.probe(from), d.sysfsPath, true)
         && trace[from + 1] == SetEnabled(d.sysfsPath, false, "", ok)
         && (ok <==> env.controller(from + 1).Success?)
  }

  // The guard was asked about this path, on the facts of the moment, and this was its answer.
  ghost predicate IsAnswer(event: Event, facts: Result<CriticalityFacts>, path: string, allowed: bool) {
    && facts.Success? && event == Judged(path, facts.value, EvaluateDisable(facts.value, path))
    && event.verdict.Allowed? == allowed
  }

  ghost predicate OnlyEntriesChange(trace: Trace, from: nat, to: nat) {
    forall k :: from <= k < to && k < |trace| ==> trace[k].EntriesChanged?
  }

  // What the entry is afterwards.
  ghost function Handled(e: Entry, d: Device, how: Handling): Entry {
    match how
    case Quiet => e
    case Unprobed => e
    case Kept(_) => e.(guardSuspended := true)
    case Called(ok) => if ok then e.(lastSysfsPath := d.sysfsPath, guardSuspended := false) else e
  }

  function HandlingOf(r: ReApplied): Handling {
    match r
    case AlreadyThere => Quiet
    case NotProbed => Unprobed
    case Suspended => Kept(true)
    case NotSuspended => Kept(false)
    case CallFailed => Called(false)
    case Applied => Called(true)
  }

  lemma UpdateAppends(w: World, key: DeviceKey, change: Change, env: Env)
    ensures var after := UpdateEntry(w, key, change, env).0;
      && w.trace <= after.trace && OnlyEntriesChange(after.trace, |w.trace|, |after.trace|)
      && (UpdateEntry(w, key, change, env).1.Success? <==>
            |after.trace| == |w.trace| + 1 && env.saves(|w.trace|).Done?)
  {
    hide Updated;
  }

  lemma NotesAppend(w: World, e: Entry, d: Device, env: Env)
    ensures var after := NoteResumed(NotePath(w, e, d, env), e, env);
      w.trace <= after.trace && OnlyEntriesChange(after.trace, |w.trace|, |after.trace|)
  {
    hide UpdateEntry, OnlyEntriesChange;
    var moved := NotePath(w, e, d, env);
    UpdateAppends(w, e.key, MovePath(d.sysfsPath), env);
    UpdateAppends(moved, e.key, Suspend(false), env);
    AppendsChain(w, moved, NoteResumed(moved, e, env));
    NothingAppended(w);
    NothingAppended(moved);
  }

  lemma NothingAppended(w: World)
    ensures OnlyEntriesChange(w.trace, |w.trace|, |w.trace|)
  {
  }

  lemma AppendsChain(a: World, b: World, c: World)
    requires a.trace <= b.trace && OnlyEntriesChange(b.trace, |a.trace|, |b.trace|)
    requires b.trace <= c.trace && OnlyEntriesChange(c.trace, |b.trace|, |c.trace|)
    ensures a.trace <= c.trace && OnlyEntriesChange(c.trace, |a.trace|, |c.trace|)
  {
    PrefixChains(a.trace, b.trace, c.trace);
    assert forall k :: 0 <= k < |b.trace| ==> c.trace[k] == c.trace[..|b.trace|][k];
  }

  /** Re-applying an entry skips a device that is already disabled, and otherwise asks the guard and
      disables the device exactly if it is allowed to. */
  lemma ReApplyHandles(w: World, e: Entry, d: Device, env: Env)
    ensures var (after, r) := ReApply(w, e, d, env);
      && w.trace <= after.trace
      && Handles(after.trace, |w.trace|, |after.trace|, e, d, HandlingOf(r), env)
  {
    hide UpdateEntry, NotePath, NoteResumed, EvaluateDisable, OnlyEntriesChange;
    var (after, r) := ReApply(w, e, d, env);
    NothingAppended(w);
    if NeedsApply(e, d) {
      var (asked, answer) := Judge(w, d.sysfsPath, env);
      NothingAppended(asked);
      if answer.Success? && answer.value.Refused? {
        UpdateAppends(asked, e.key, Suspend(true), env);
        Extended(w.trace, asked.trace, after.trace);
      } else if answer.Success? {
        var called := CallSetEnabled(asked, d.sysfsPath, false, "", env).0;
        NothingAppended(called);
        NotesAppend(called, e, d, env);
        Extended(asked.trace, called.trace, after.trace);
        Extended(w.trace, asked.trace, after.trace);
      }
    }
  }

  lemma Extended(a: Trace, b: Trace, c: Trace)
    requires a <= b <= c
    ensures a <= c && forall k :: 0 <= k < |b| ==> c[k] == b[k]
  {
    PrefixChains(a, b, c);
    assert forall k :: 0 <= k < |b| ==> c[k] == c[..|b|][k];
  }

  lemma ReApplyBecomes(w: World, e: Entry, d: Device, env: Env, key: DeviceKey)
    requires Lookup(w.state.entries, e.key) == Some(e)
    ensures var (after, r) := ReApply(w, e, d, env);
      Lookup(after.state.entries, key)
      == if key == e.key then Some(Handled(e, d, HandlingOf(r))) else Lookup(w.state.entries, key)
  {
    hide ReApply;
    ReApplyRecords(w, e, d, env, key);
  }

  // ---------------------------------------------------------------- all entries

  // Between `from` and `to` this entry was taken care of, and `result` is what became of it.
  ghost predicate TakenCareOf(trace: Trace, from: nat, to: nat, e: Entry, all: seq<Device>, result: Entry, env: Env) {
    || (IsDeviceOf(None, e, all, from, env) && from == to && result == e)
    || (exists d, how ::
          && IsDeviceOf(Some(d), e, all, from, env) && Handles(trace, from, to, e, d, how, env)
          && result == Handled(e, d, how))
  }

  // From moment to moment, entry by entry.
  ghost predicate Marches(trace: Trace, start: nat, marks: seq<nat>, n: nat) {
    && |marks| == n + 1 && marks[0] == start && marks[n] == |trace|
    && forall k :: 0 <= k < n ==> marks[k] <= marks[k + 1]
  }

  ghost predicate Swept(trace: Trace, entries: Entries, all: seq<Device>, marks: seq<nat>, results: Entries, env: Env) {
    && |results| == |entries| && |marks| == |entries| + 1
    && forall k :: 0 <= k < |entries| ==>
         TakenCareOf(trace, marks[k], marks[k + 1], entries[k], all, results[k], env)
  }

  lemma HandlesStays(before: Trace, after: Trace, from: nat, to: nat, e: Entry, d: Device, how: Handling, env: Env)
    requires before <= after && Handles(before, from, to, e, d, how, env)
    ensures Handles(after, from, to, e, d, how, env)
  {
    hide IsAnswer, IsDisabled;
    assert forall k :: 0 <= k < |before| ==> after[k] == before[k];
  }

  lemma TakenCareStays(before: Trace, after: Trace, from: nat, to: nat, e: Entry, all: seq<Device>, result: Entry,
                       env: Env)
    requires before <= after && TakenCareOf(before, from, to, e, all, result, env)
    ensures TakenCareOf(after, from, to, e, all, result, env)
  {
    hide IsDeviceOf, Handles;
    if d, how :| IsDeviceOf(Some(d), e, all, from, env) && Handles(before, from, to, e, d, how, env)
                 && result == Handled(e, d, how) {
      HandlesStays(before, after, from, to, e, d, how, env);
    }
  }

  lemma SweepOneCares(w: World, e: Entry, all: seq<Device>, env: Env) returns (result: Entry)
    ensures w.trace <= SweepOne(w, e, all, env).trace
    ensures var after := SweepOne(w, e, all, env);
      TakenCareOf(after.trace, |w.trace|, |after.trace|, e, all, result, env)
    ensures Lookup(w.state.entries, e.key) == Some(e) ==>
      forall key :: Lookup(SweepOne(w, e, all, env).state.entries, key)
                 == if key == e.key then Some(result) else Lookup(w.state.entries, key)
  {
    hide ReApply, DeviceOf, Handles, IsDeviceOf;
    DeviceOfIs(w, e, all, env);
    match DeviceOf(w, e, all, env)
    case None => result := e;
    case Some(d) =>
      var r := ReApply(w, e, d, env).1;
      result := Handled(e, d, HandlingOf(r));
      ReApplyHandles(w, e, d, env);
      if Lookup(w.state.entries, e.key) == Some(e) {
        forall key
          ensures Lookup(SweepOne(w, e, all, env).state.entries, key)
               == if key == e.key then Some(result) else Lookup(w.state.entries, key)
        {
          ReApplyBecomes(w, e, d, env, key);
        }
      }
  }

  lemma SweptOneMore(before: Trace, after: Trace, entries: Entries, all: seq<Device>, marks: seq<nat>,
                     results: Entries, result: Entry, env: Env)
    requires entries != [] && before <= after
    requires Swept(before, entries[..|entries| - 1], all, marks, results, env)
    requires marks[|entries| - 1] == |before|
    requires TakenCareOf(after, |before|, |after|, entries[|entries| - 1], all, result, env)
    ensures Swept(after, entries, all, marks + [|after|], results + [result], env)
  {
    var n := |entries| - 1;
    forall k | 0 <= k < n
      ensures TakenCareOf(after, marks[k], marks[k + 1], entries[k], all, results[k], env)
    {
      assert entries[..n][k] == entries[k];
      TakenCareStays(before, after, marks[k], marks[k + 1], entries[k], all, results[k], env);
    }
  }

  // Looking up the key of a swept entry gives its result, and every other key what it gave before.
  ghost predicate Becomes(before: Entries, entries: Entries, results: Entries, after: Entries) {
    && |results| == |entries|
    && (forall k :: 0 <= k < |entries| ==> Lookup(after, entries[k].key) == Some(results[k]))
    && (forall key :: !HasKey(entries, key) ==> Lookup(after, key) == Lookup(before, key))
  }

  lemma {:induction false} LookupAt(entries: Entries, k: nat)
    requires DistinctKeys(entries) && k < |entries|
    ensures Lookup(entries, entries[k].key) == Some(entries[k])
  {
    if k > 0 {
      LookupAt(entries[1..], k - 1);
    }
  }

  lemma BecomesOneMore(first: Entries, before: Entries, after: Entries, entries: Entries, results: Entries,
                       result: Entry)
    requires entries != [] && DistinctKeys(entries)
    requires Becomes(first, entries[..|entries| - 1], results, before)
    requires forall key ::
      Lookup(after, key) == if key == entries[|entries| - 1].key then Some(result) else Lookup(before, key)
    ensures Becomes(first, entries, results + [result], after)
  {
    hide Lookup;
    var n := |entries| - 1;
    forall k | 0 <= k < n
      ensures Lookup(after, entries[k].key) == Some(results[k])
    {
      assert entries[..n][k] == entries[k];
    }
    forall key | !HasKey(entries, key)
      ensures Lookup(after, key) == Lookup(first, key)
    {
      assert entries[n].key != key;
      assert !HasKey(entries[..n], key);
    }
  }

  lemma NotYet(entries: Entries, n: nat)
    requires DistinctKeys(entries) && n < |entries|
    ensures !HasKey(entries[..n], entries[n].key) && DistinctKeys(entries[..n + 1])
  {
  }

  lemma {:induction false} SweepAllCares(w: World, entries: Entries, all: seq<Device>, env: Env)
    returns (marks: seq<nat>, results: Entries)
    ensures var after := SweepAll(w, entries, all, env);
      && w.trace <= after.trace
      && Marches(after.trace, |w.trace|, marks, |entries|) && Swept(after.trace, entries, all, marks, results, env)
      && (DistinctKeys(w.state.entries) && entries <= w.state.entries ==>
            Becomes(w.state.entries, entries, results, after.state.entries))
  {
    hide SweepOne, TakenCareOf, Lookup, Becomes;
    var after := SweepAll(w, entries, all, env);
    if entries == [] {
      marks, results := [|w.trace|], [];
      NothingBecomes(w.state.entries);
    } else {
      var n := |entries| - 1;
      var before := SweepAll(w, entries[..n], all, env);
      var result;
      marks, results := SweepAllCares(w, entries[..n], all, env);
      result := SweepOneCares(before, entries[n], all, env);
      PrefixChains(w.trace, before.trace, after.trace);
      SweptOneMore(before.trace, after.trace, entries, all, marks, results, result, env);
      hide Swept, SweepAll;
      if DistinctKeys(w.state.entries) && entries <= w.state.entries {
        NotYet(w.state.entries, n);
        LookupAt(w.state.entries, n);
        assert entries[..n] == w.state.entries[..n] && entries[..n] <= w.state.entries;
        UnsweptIsFound(w.state.entries, before.state.entries, entries[..n], results, entries[n].key);
        assert entries == w.state.entries[..n + 1];
        BecomesOneMore(w.state.entries, before.state.entries, after.state.entries, entries, results, result);
      }
      marks, results := marks + [|after.trace|], results + [result];
    }
  }

  lemma NothingBecomes(entries: Entries)
    ensures Becomes(entries, [], [], entries)
  {
  }

  lemma UnsweptIsFound(first: Entries, before: Entries, entries: Entries, results: Entries, key: DeviceKey)
    requires Becomes(first, entries, results, before) && !HasKey(entries, key)
    ensures Lookup(before, key) == Lookup(first, key)
  {
  }

  // The whole sweep: `all` is what was enumerated at its start.
  ghost predicate IsSweep(w: World, after: World, all: seq<Device>, marks: seq<nat>, results: Entries, env: Env) {
    var entries, start := w.state.entries, |w.trace| + 1;
    && ArePresent(all, start, env)
    && Marches(after.trace, start, marks, |entries|)
    && Swept(after.trace, entries, all, marks, results, env)
    && (DistinctKeys(entries) ==> Becomes(entries, entries, results, after.state.entries))
  }

  /** A sweep takes care of every entry of the list, in order: a device that is found and not yet
      disabled is put to the guard and then disabled, unless the probe or the guard stops it. */
  lemma SweepCares(w: World, env: Env)
    ensures var after := Sweep(w, env);
      && w.trace + [Began(Enforcement, Capture(w))] <= after.trace
      && exists all, marks, results :: IsSweep(w, after, all, marks, results, env)
  {
    hide SweepAll, Swept, Becomes, Capture;
    var begun := Begin(w, Enforcement);
    var all := Enumerated(begun, env);
    var marks, results := SweepAllCares(begun, w.state.entries, all, env);
    assert IsSweep(w, Sweep(w, env), all, marks, results, env);
  }

  // ---------------------------------------------------------------- hotplug

  ghost predicate NoneIsFor(entries: Entries, d: Device) {
    forall i :: 0 <= i < |entries| ==> !Fits(entries[i], d)
  }

  ghost predicate IsFirstFor(entries: Entries, i: int, d: Device) {
    0 <= i < |entries| && Fits(entries[i], d) && NoneIsFor(entries[..i], d)
  }

  lemma {:induction false} FindForIs(entries: Entries, d: Device)
    ensures FindFor(entries, d).None? ==> NoneIsFor(entries, d)
    ensures FindFor(entries, d).Some? ==>
      exists i :: IsFirstFor(entries, i, d) && entries[i] == FindFor(entries, d).value
  {
    hide MatchesDevice;
    if entries != [] && Fits(entries[0], d) {
      assert IsFirstFor(entries, 0, d);
    } else if entries != [] {
      FindForIs(entries[1..], d);
      if FindFor(entries[1..], d).Some? {
        var i :| IsFirstFor(entries[1..], i, d) && entries[1..][i] == FindFor(entries[1..], d).value;
        assert entries[..i + 1] == [entries[0]] + entries[1..][..i];
        assert IsFirstFor(entries, i + 1, d);
      } else {
        assert entries == [entries[0]] + entries[1..];
      }
    }
  }

  ghost predicate HotplugCares(w: World, after: World, i: int, how: Handling, d: Device, env: Env) {
    && IsFirstFor(w.state.entries, i, d)
    && var e := w.state.entries[i];
       && Handles(after.trace, |w.trace| + 1, |after.trace|, e, d, how, env)
       && (DistinctKeys(w.state.entries) ==> Becomes(w.state.entries, [e], [Handled(e, d, how)], after.state.entries))
  }

  /** A device that appears or changes is re-disabled under the first entry that is for it, with the
      same care; an event for an unlisted device, and every removal, does nothing. */
  lemma HotplugHandles(w: World, event: HotplugEvent, env: Env)
    ensures var after := OnHotplug(w, event, env);
      if event.action.Removed? || NoneIsFor(w.state.entries, event.device)
      then after == w.(trace := w.trace + [Began(Enforcement, Capture(w))])
      else w.trace + [Began(Enforcement, Capture(w))] <= after.trace
           && exists i, how :: HotplugCares(w, after, i, how, event.device, env)
  {
    hide ReApply, Fits, Handles, Capture, FindFor, Lookup;
    var begun := Begin(w, Enforcement);
    FindForIs(w.state.entries, event.device);
    if !event.action.Removed? && FindFor(w.state.entries, event.device).Some? {
      var i :| IsFirstFor(w.state.entries, i, event.device)
            && w.state.entries[i] == FindFor(w.state.entries, event.device).value;
      var e := w.state.entries[i];
      assert !NoneIsFor(w.state.entries, event.device);
      ReApplyHandles(begun, e, event.device, env);
      var (after, r) := ReApply(begun, e, event.device, env);
      if DistinctKeys(w.state.entries) {
        LookupAt(w.state.entries, i);
        OneBecomes(begun, e, event.device, env);
      }
      assert HotplugCares(w, after, i, HandlingOf(r), event.device, env);
    }
  }

  lemma OneBecomes(w: World, e: Entry, d: Device, env: Env)
    requires Lookup(w.state.entries, e.key) == Some(e)
    ensures var (after, r) := ReApply(w, e, d, env);
      Becomes(w.state.entries, [e], [Handled(e, d, HandlingOf(r))], after.state.entries)
  {
    hide ReApply, Lookup;
    var (after, r) := ReApply(w, e, d, env);
    ReApplyBecomes(w, e, d, env, e.key);
    forall key | !HasKey([e], key)
      ensures Lookup(after.state.entries, key) == Lookup(w.state.entries, key)
    {
      assert [e][0].key != key;
      ReApplyBecomes(w, e, d, env, key);
    }
  }

  // ---------------------------------------------------------------- a restore

  ghost predicate IsReported(trace: Trace, at: int, subject: string, action: ItemAction, status: ItemStatus) {
    0 <= at < |trace| && trace[at] == Reported(Item(subject, action, status))
  }

  // An entry that the restore removed: its device is enabled with its driver, or is absent.
  ghost predicate ReEnables(trace: Trace, from: nat, to: nat, e: Entry, all: seq<Device>, target: Entries, env: Env) {
    if HasKey(target, e.key) then from == to
    else exists found :: IsDeviceOf(found, e, all, from, env) && Enables(trace, from, to, e, found, env)
  }

  ghost predicate Enables(trace: Trace, from: nat, to: nat, e: Entry, found: Option<Device>, env: Env) {
    if found.None? || found.value.sysfsPath == ""
    then to == from + 1 && IsReported(trace, from, e.lastSysfsPath, ReEnable, DeviceAbsent)
    else
      var path, ok := found.value.sysfsPath, env.controller(from).Success?;
      && to == from + 2 <= |trace| && trace[from] == SetEnabled(path, true, e.lastDriver, ok)
      && IsReported(trace, from + 1, path, ReEnable, if ok then ItemOk else ItemFailed)
  }

  ghost function Status(how: Handling): ItemStatus {
    match how
    case Quiet => ItemOk
    case Unprobed => ItemFailed
    case Kept(saved) => if saved then GuardRefused else ItemFailed
    case Called(ok) => if ok then ItemOk else ItemFailed
  }

  // A restored entry: its device is re-disabled with the care of enforcement, or is absent.
  ghost predicate ReDisables(trace: Trace, from: nat, to: nat, e: Entry, all: seq<Device>, env: Env) {
    from < to &&
    ((IsDeviceOf(None, e, all, from, env) && to == from + 1
      && IsReported(trace, from, e.lastSysfsPath, ReApplyDisable, DeviceAbsent))
     || exists d, how ::
          && IsDeviceOf(Some(d), e, all, from, env) && Handles(trace, from, to - 1, e, d, how, env)
          && IsReported(trace, to - 1, d.sysfsPath, ReApplyDisable, Status(how)))
  }

  ghost predicate AllReEnabled(trace: Trace, entries: Entries, all: seq<Device>, target: Entries, marks: seq<nat>,
                               env: Env) {
    |marks| == |entries| + 1 && forall k :: 0 <= k < |entries| ==>
      ReEnables(trace, marks[k], marks[k + 1], entries[k], all, target, env)
  }

  ghost predicate AllReDisabled(trace: Trace, entries: Entries, all: seq<Device>, marks: seq<nat>, env: Env) {
    |marks| == |entries| + 1 && forall k :: 0 <= k < |entries| ==>
      ReDisables(trace, marks[k], marks[k + 1], entries[k], all, env)
  }

  lemma ReEnableOneDoes(w: World, e: Entry, all: seq<Device>, target: Entries, env: Env)
    ensures var after := ReEnableOne(w, e, all, target, env);
      && w.trace <= after.trace && after.state == w.state
      && ReEnables(after.trace, |w.trace|, |after.trace|, e, all, target, env)
  {
    hide DeviceOf, IsDeviceOf;
    DeviceOfIs(w, e, all, env);
    if !HasKey(target, e.key) {
      assert Enables(ReEnableOne(w, e, all, target, env).trace, |w.trace|,
                     |ReEnableOne(w, e, all, target, env).trace|, e, DeviceOf(w, e, all, env), env);
    }
  }

  lemma ReApplyOneDoes(w: World, e: Entry, all: seq<Device>, env: Env)
    ensures var after := ReApplyOne(w, e, all, env);
      w.trace <= after.trace && ReDisables(after.trace, |w.trace|, |after.trace|, e, all, env)
  {
    hide DeviceOf, IsDeviceOf, ReApply, Handles;
    DeviceOfIs(w, e, all, env);
    var found := DeviceOf(w, e, all, env);
    if found.Some? {
      var (done, r) := ReApply(w, e, found.value, env);
      var after := ReApplyOne(w, e, all, env);
      ReApplyHandles(w, e, found.value, env);
      HandlesStays(done.trace, after.trace, |w.trace|, |done.trace|, e, found.value, HandlingOf(r), env);
      PrefixChains(w.trace, done.trace, after.trace);
      assert IsReported(after.trace, |done.trace|, found.value.sysfsPath, ReApplyDisable, Status(HandlingOf(r)));
    }
  }

  lemma ReEnablesStays(before: Trace, after: Trace, from: nat, to: nat, e: Entry, all: seq<Device>, target: Entries,
                       env: Env)
    requires before <= after && ReEnables(before, from, to, e, all, target, env)
    ensures ReEnables(after, from, to, e, all, target, env)
  {
    hide IsDeviceOf, HasKey;
    assert forall k :: 0 <= k < |before| ==> after[k] == before[k];
    if found :| IsDeviceOf(found, e, all, from, env) && Enables(before, from, to, e, found, env) {
      assert Enables(after, from, to, e, found, env);
    }
  }

  lemma ReDisablesStays(before: Trace, after: Trace, from: nat, to: nat, e: Entry, all: seq<Device>, env: Env)
    requires before <= after && ReDisables(before, from, to, e, all, env)
    ensures ReDisables(after, from, to, e, all, env)
  {
    hide IsDeviceOf, Handles;
    assert forall k :: 0 <= k < |before| ==> after[k] == before[k];
    if d, how :| IsDeviceOf(Some(d), e, all, from, env) && Handles(before, from, to - 1, e, d, how, env)
                 && IsReported(before, to - 1, d.sysfsPath, ReApplyDisable, Status(how)) {
      HandlesStays(before, after, from, to - 1, e, d, how, env);
      assert IsReported(after, to - 1, d.sysfsPath, ReApplyDisable, Status(how));
    }
  }

  lemma {:induction false} ReEnableAllDoes(w: World, entries: Entries, all: seq<Device>, target: Entries, env: Env)
    returns (marks: seq<nat>)
    ensures var after := ReEnableAll(w, entries, all, target, env);
      && w.trace <= after.trace && after.state == w.state
      && Marches(after.trace, |w.trace|, marks, |entries|)
      && AllReEnabled(after.trace, entries, all, target, marks, env)
  {
    hide ReEnableOne, ReEnables;
    marks := [|w.trace|];
    if entries != [] {
      var n := |entries| - 1;
      var before, after := ReEnableAll(w, entries[..n], all, target, env), ReEnableAll(w, entries, all, target, env);
      marks := ReEnableAllDoes(w, entries[..n], all, target, env);
      ReEnableOneDoes(before, entries[n], all, target, env);
      PrefixChains(w.trace, before.trace, after.trace);
      forall k | 0 <= k < n
        ensures ReEnables(after.trace, marks[k], marks[k + 1], entries[k], all, target, env)
      {
        assert entries[..n][k] == entries[k];
        ReEnablesStays(before.trace, after.trace, marks[k], marks[k + 1], entries[k], all, target, env);
      }
      marks := marks + [|after.trace|];
    }
  }

  lemma {:induction false} ReApplyAllDoes(w: World, entries: Entries, all: seq<Device>, env: Env)
    returns (marks: seq<nat>)
    ensures var after := ReApplyAll(w, entries, all, env);
      && w.trace <= after.trace && Marches(after.trace, |w.trace|, marks, |entries|)
      && AllReDisabled(after.trace, entries, all, marks, env)
  {
    hide ReApplyOne, ReDisables;
    marks := [|w.trace|];
    if entries != [] {
      var n := |entries| - 1;
      var before, after := ReApplyAll(w, entries[..n], all, env), ReApplyAll(w, entries, all, env);
      marks := ReApplyAllDoes(w, entries[..n], all, env);
      ReApplyOneDoes(before, entries[n], all, env);
      PrefixChains(w.trace, before.trace, after.trace);
      forall k | 0 <= k < n
        ensures ReDisables(after.trace, marks[k], marks[k + 1], entries[k], all, env)
      {
        assert entries[..n][k] == entries[k];
        ReDisablesStays(before.trace, after.trace, marks[k], marks[k + 1], entries[k], all, env);
      }
      marks := marks + [|after.trace|];
    }
  }

  // A file of the old state that the target does not have is removed, and reported as it went.
  ghost predicate Removes(trace: Trace, from: nat, to: nat, name: string, target: map<string, string>, env: Env) {
    if name in target then from == to
    else if env.removes(from)
    then to == from + 2 <= |trace| && trace[from] == FileRemoved(name)
         && IsReported(trace, from + 1, name, ModprobeRemove, ItemOk)
    else to == from + 1 && IsReported(trace, from, name, ModprobeRemove, ItemFailed)
  }

  // A file of the target that the old state did not have like that is written, and reported as it went.
  ghost predicate WritesFile(trace: Trace, from: nat, to: nat, name: string, pre: map<string, string>,
                             target: map<string, string>, env: Env) {
    if name in pre && name in target && pre[name] == target[name] then from == to
    else match env.writes(from)
         case NotDone => to == from + 1 && IsReported(trace, from, name, ModprobeWrite, ItemFailed)
         case DoneUnsynced =>
           to == from + 2 <= |trace| && trace[from] == FileWritten(name)
           && IsReported(trace, from + 1, name, ModprobeWrite, ItemFailed)
         case Done =>
           to == from + 2 <= |trace| && trace[from] == FileWritten(name)
           && IsReported(trace, from + 1, name, ModprobeWrite, ItemOk)
  }

  ghost predicate AllRemoved(trace: Trace, names: seq<string>, target: map<string, string>, marks: seq<nat>, env: Env) {
    |marks| == |names| + 1 && forall k :: 0 <= k < |names| ==>
      Removes(trace, marks[k], marks[k + 1], names[k], target, env)
  }

  ghost predicate AllWritten(trace: Trace, names: seq<string>, pre: map<string, string>, target: map<string, string>,
                             marks: seq<nat>, env: Env) {
    |marks| == |names| + 1 && forall k :: 0 <= k < |names| ==>
      WritesFile(trace, marks[k], marks[k + 1], names[k], pre, target, env)
  }

  lemma FileStepsStay(before: Trace, after: Trace, from: nat, to: nat, name: string, pre: map<string, string>,
                      target: map<string, string>, env: Env)
    requires before <= after
    ensures Removes(before, from, to, name, target, env) ==> Removes(after, from, to, name, target, env)
    ensures WritesFile(before, from, to, name, pre, target, env) ==>
      WritesFile(after, from, to, name, pre, target, env)
  {
    assert forall k :: 0 <= k < |before| ==> after[k] == before[k];
  }

  lemma {:induction false} RemoveFilesDo(w: World, names: seq<string>, target: map<string, string>, env: Env)
    returns (marks: seq<nat>)
    ensures var after := RemoveFiles(w, names, target, env);
      && w.trace <= after.trace && after.state == w.state && after.dir == w.dir
      && Marches(after.trace, |w.trace|, marks, |names|) && AllRemoved(after.trace, names, target, marks, env)
  {
    hide RemoveFile, Removes;
    marks := [|w.trace|];
    if names != [] {
      var n := |names| - 1;
      var before, after := RemoveFiles(w, names[..n], target, env), RemoveFiles(w, names, target, env);
      marks := RemoveFilesDo(w, names[..n], target, env);
      RemoveFileSteps(before, names[n], target, env);
      hide RemoveFiles, AllRemoved, Marches;
      PrefixChains(w.trace, before.trace, after.trace);
      MarchesOn(before.trace, after.trace, |w.trace|, marks, n);
      OneMoreRemoved(before.trace, after.trace, names, target, marks, env);
      marks := marks + [|after.trace|];
    }
  }

  lemma RemoveFileSteps(w: World, name: string, target: map<string, string>, env: Env)
    ensures var after := RemoveFile(w, name, target, env);
      && w.trace <= after.trace && after.state == w.state && after.dir == w.dir
      && Removes(after.trace, |w.trace|, |after.trace|, name, target, env)
  {
  }

  lemma WriteFileSteps(w: World, name: string, pre: map<string, string>, target: map<string, string>, env: Env)
    requires name in target
    ensures var after := WriteFile(w, name, target[name], pre, env);
      && w.trace <= after.trace && after.state == w.state && after.dir == w.dir
      && WritesFile(after.trace, |w.trace|, |after.trace|, name, pre, target, env)
  {
  }

  lemma {:induction false} WriteFilesDo(w: World, names: seq<string>, target: map<string, string>,
                                        pre: map<string, string>, env: Env) returns (marks: seq<nat>)
    requires forall name :: name in names ==> name in target
    ensures var after := WriteFiles(w, names, target, pre, env);
      && w.trace <= after.trace && after.state == w.state && after.dir == w.dir
      && Marches(after.trace, |w.trace|, marks, |names|) && AllWritten(after.trace, names, pre, target, marks, env)
  {
    hide WriteFile, WritesFile;
    marks := [|w.trace|];
    if names != [] {
      var n := |names| - 1;
      assert forall x :: x in names[..n] ==> x in names;
      var before, after := WriteFiles(w, names[..n], target, pre, env), WriteFiles(w, names, target, pre, env);
      marks := WriteFilesDo(w, names[..n], target, pre, env);
      WriteFileSteps(before, names[n], pre, target, env);
      hide WriteFiles, AllWritten, Marches;
      PrefixChains(w.trace, before.trace, after.trace);
      MarchesOn(before.trace, after.trace, |w.trace|, marks, n);
      OneMoreWritten(before.trace, after.trace, names, pre, target, marks, env);
      marks := marks + [|after.trace|];
    }
  }

  lemma MarchesOn(before: Trace, after: Trace, start: nat, marks: seq<nat>, n: nat)
    requires before <= after && Marches(before, start, marks, n)
    ensures Marches(after, start, marks + [|after|], n + 1) && marks[n] == |before|
  {
  }

  lemma OneMoreWritten(before: Trace, after: Trace, names: seq<string>, pre: map<string, string>,
                       target: map<string, string>, marks: seq<nat>, env: Env)
    requires names != [] && before <= after && AllWritten(before, names[..|names| - 1], pre, target, marks, env)
    requires marks[|names| - 1] == |before|
    requires WritesFile(after, |before|, |after|, names[|names| - 1], pre, target, env)
    ensures AllWritten(after, names, pre, target, marks + [|after|], env)
  {
    hide WritesFile;
    var n := |names| - 1;
    forall k | 0 <= k < n
      ensures WritesFile(after, marks[k], marks[k + 1], names[k], pre, target, env)
    {
      assert names[..n][k] == names[k];
      FileStepsStay(before, after, marks[k], marks[k + 1], names[k], pre, target, env);
    }
  }

  lemma OneMoreRemoved(before: Trace, after: Trace, names: seq<string>, target: map<string, string>,
                       marks: seq<nat>, env: Env)
    requires names != [] && before <= after && AllRemoved(before, names[..|names| - 1], target, marks, env)
    requires marks[|names| - 1] == |before| && Removes(after, |before|, |after|, names[|names| - 1], target, env)
    ensures AllRemoved(after, names, target, marks + [|after|], env)
  {
    hide Removes;
    var n := |names| - 1;
    forall k | 0 <= k < n
      ensures Removes(after, marks[k], marks[k + 1], names[k], target, env)
    {
      assert names[..n][k] == names[k];
      FileStepsStay(before, after, marks[k], marks[k + 1], names[k], map[], target, env);
    }
  }

  // Removals first, then writes, each in ascending order of the names.
  ghost predicate WritesBack(trace: Trace, start: nat, middle: nat, end: nat, pre: map<string, string>,
                             target: map<string, string>, gone: seq<nat>, written: seq<nat>, env: Env) {
    && start <= middle <= end <= |trace|
    && (exists names :: Ascending(names) && (forall x :: x in names <==> x in pre)
          && Marches(trace[..middle], start, gone, |names|) && AllRemoved(trace, names, target, gone, env))
    && (exists names :: Ascending(names) && (forall x :: x in names <==> x in target)
          && Marches(trace[..end], middle, written, |names|) && AllWritten(trace, names, pre, target, written, env))
  }

  ghost predicate WroteBack(trace: Trace, start: nat, end: nat, pre: map<string, string>, target: map<string, string>,
                            env: Env) {
    exists middle, gone, written :: WritesBack(trace, start, middle, end, pre, target, gone, written, env)
  }

  lemma AllRemovedStays(before: Trace, after: Trace, names: seq<string>, target: map<string, string>, marks: seq<nat>,
                        env: Env)
    requires before <= after && AllRemoved(before, names, target, marks, env)
    ensures AllRemoved(after, names, target, marks, env)
  {
    hide Removes;
    forall k | 0 <= k < |names|
      ensures Removes(after, marks[k], marks[k + 1], names[k], target, env)
    {
      FileStepsStay(before, after, marks[k], marks[k + 1], names[k], map[], target, env);
    }
  }

  lemma AllWrittenStays(before: Trace, after: Trace, names: seq<string>, pre: map<string, string>,
                        target: map<string, string>, marks: seq<nat>, env: Env)
    requires before <= after && AllWritten(before, names, pre, target, marks, env)
    ensures AllWritten(after, names, pre, target, marks, env)
  {
    hide WritesFile;
    forall k | 0 <= k < |names|
      ensures WritesFile(after, marks[k], marks[k + 1], names[k], pre, target, env)
    {
      FileStepsStay(before, after, marks[k], marks[k + 1], names[k], pre, target, env);
    }
  }

  // The write-back's part of a trace that goes on after it.
  lemma WriteBackDoesIt(w: World, pre: map<string, string>, target: map<string, string>, env: Env, later: Trace)
    requires WriteBack(w, pre, target, env).trace <= later
    ensures var after := WriteBack(w, pre, target, env);
      && w.trace <= after.trace && after.state == w.state && after.dir == w.dir
      && WroteBack(later, |w.trace|, |after.trace|, pre, target, env)
  {
    hide RemoveFiles, WriteFiles, AllRemoved, AllWritten, Marches;
    var names, targets := SortedKeys(pre.Keys), SortedKeys(target.Keys);
    var removed := RemoveFiles(w, names, target, env);
    var gone := RemoveFilesDo(w, names, target, env);
    var after := WriteFiles(removed, targets, target, pre, env);
    var written := WriteFilesDo(removed, targets, target, pre, env);
    PrefixChains(w.trace, removed.trace, after.trace);
    PrefixChains(removed.trace, after.trace, later);
    AllRemovedStays(removed.trace, later, names, target, gone, env);
    AllWrittenStays(after.trace, later, targets, pre, target, written, env);
    assert later[..|removed.trace|] == removed.trace && later[..|after.trace|] == after.trace;
    assert WritesBack(later, |w.trace|, |removed.trace|, |after.trace|, pre, target, gone, written, env);
  }

  // Files first, then the removed entries in their order, then the restored ones in theirs.
  ghost predicate Converges(trace: Trace, start: nat, files: nat, middle: nat, pre: SnapshotPayload,
                            target: SnapshotPayload, gone: seq<nat>, back: seq<nat>, env: Env) {
    && start <= files <= middle <= |trace|
    && WroteBack(trace, start, files, pre.modprobeFiles, target.modprobeFiles, env)
    && (exists all :: ArePresent(all, files, env) && Marches(trace[..middle], files, gone, |pre.entries|)
                      && AllReEnabled(trace, pre.entries, all, target.entries, gone, env))
    && (exists all :: ArePresent(all, middle, env) && Marches(trace, middle, back, |target.entries|)
                      && AllReDisabled(trace, target.entries, all, back, env))
  }

  ghost predicate Converged(trace: Trace, start: nat, pre: SnapshotPayload, target: SnapshotPayload, env: Env) {
    exists files, middle, gone, back :: Converges(trace, start, files, middle, pre, target, gone, back, env)
  }

  lemma ConvergeDoes(w: World, pre: SnapshotPayload, target: SnapshotPayload, env: Env)
    requires w.state.entries == target.entries
    ensures var after := Converge(WriteBack(w, pre.modprobeFiles, target.modprobeFiles, env), pre.entries,
                                  target.entries, env);
      w.trace <= after.trace && Converged(after.trace, |w.trace|, pre, target, env) && after.dir == w.dir
  {
    hide WriteBack, ReEnableAll, ReApplyAll, AllReEnabled, AllReDisabled, WroteBack, Marches, Keeps, SimilarLists;
    var written := WriteBack(w, pre.modprobeFiles, target.modprobeFiles, env);
    WriteBackDoesIt(w, pre.modprobeFiles, target.modprobeFiles, env, written.trace);
    var first := Enumerated(written, env);
    var enabled := ReEnableAll(written, pre.entries, first, target.entries, env);
    var gone := ReEnableAllDoes(written, pre.entries, first, target.entries, env);
    var second := Enumerated(enabled, env);
    var after := ReApplyAll(enabled, target.entries, second, env);
    var back := ReApplyAllDoes(enabled, target.entries, second, env);
    PrefixChains(w.trace, written.trace, enabled.trace);
    PrefixChains(w.trace, enabled.trace, after.trace);
    PrefixChains(written.trace, enabled.trace, after.trace);
    WriteBackDoesIt(w, pre.modprobeFiles, target.modprobeFiles, env, after.trace);
    ReEnabledStays(enabled.trace, after.trace, pre.entries, first, target.entries, gone, env);
    ReEnableAllTouches(written, pre.entries, first, target.entries, env, 0);
    ReApplyAllTouches(enabled, target.entries, second, env, 0);
    assert after.trace[..|enabled.trace|] == enabled.trace;
    assert ArePresent(first, |written.trace|, env) && ArePresent(second, |enabled.trace|, env);
    assert Converges(after.trace, |w.trace|, |written.trace|, |enabled.trace|, pre, target, gone, back, env);
  }

  lemma ReEnabledStays(before: Trace, after: Trace, entries: Entries, all: seq<Device>, target: Entries,
                       marks: seq<nat>, env: Env)
    requires before <= after && AllReEnabled(before, entries, all, target, marks, env)
    ensures AllReEnabled(after, entries, all, target, marks, env)
  {
    hide ReEnables;
    forall k | 0 <= k < |entries|
      ensures ReEnables(after, marks[k], marks[k + 1], entries[k], all, target, env)
    {
      ReEnablesStays(before, after, marks[k], marks[k + 1], entries[k], all, target, env);
    }
  }

  /** A restore step by step: it ends with the read's or the put's code before anything changes, with
      Io if the list cannot be saved, and otherwise enables every removed entry's device with its
      driver, re-disables every restored entry's with the care of enforcement, and reports each of
      them truthfully, absent devices and failures included. */
  lemma RestoreConverges(hash: Hash, w: World, id: string, env: Env)
    ensures var (after, r) := Restore(hash, w, id, env);
      var n := |w.trace|;
      var (dir, snapshot) := SnapshotStore.Read(hash, w.dir, id, env.disk(n).moves);
      if snapshot.Failure? then after == w.(dir := dir) && r == Failure(snapshot.code)
      else
        var (stored, safety) := SnapshotStore.Put(hash, dir, Capture(w), Auto, SnapshotReason("SnapshotRestore", id),
                                                  env.now(n), env.disk(n));
        if safety.Failure? then after == w.(dir := stored, trace := w.trace + [PutFailed]) && r == Failure(safety.code)
        else
          var target := snapshot.value.payload;
          && w.trace + [PutSucceeded(Capture(w), safety.value), EntriesChanged(w.state.entries, target.entries)]
             <= after.trace
          && after.dir == stored
          && (if env.saves(n + 1).Done?
              then
                && r == Success(RestoreOutcome(id, safety.value))
                && Converged(after.trace, n + 2, Capture(w), target, env)
              else |after.trace| == n + 2 && after.state.entries == target.entries && r == Failure(Io))
  {
    hide SnapshotStore.Read, SnapshotStore.Put, Converge, WriteBack, Converged, Capture;
    var (read, snapshot) := ReadSnapshot(hash, w, id, env);
    if snapshot.Success? {
      assert Capture(read) == Capture(w) by {
        SameCapture(w, read);
      }
      var (safe, safety) := TakeSnapshot(hash, read, Auto, SnapshotReason("SnapshotRestore", id), env);
      if safety.Success? {
        var target := snapshot.value.payload;
        var replaced := SaveEntries(safe, target.entries, env).0;
        ConvergeDoes(replaced, Capture(w), target, env);
      }
    }
  }

  lemma SameCapture(w: World, v: World)
    requires v.state == w.state && v.modprobe == w.modprobe
    ensures Capture(v) == Capture(w)
  {
  }
}
