/** Re-applying persisted disables at startup and on hotplug (daemon/src/enforcement_service.cpp). */
module EnforcementServices {
  import opened Models
  import opened StateStores
  import opened Daemon
  import opened RequestProcessors

  function SweepOne(w: World, e: Entry, all: seq<Device>, env: Env): World {
    match DeviceOf(w, e, all, env)
    case None => w
    case Some(device) => ReApply(w, e, device, env).0
  }

  function SweepAll(w: World, entries: Entries, all: seq<Device>, env: Env): World {
    if entries == [] then w
    else
      var n := |entries| - 1;
      SweepOne(SweepAll(w, entries[..n], all, env), entries[n], all, env)
  }

  function Sweep(w: World, env: Env): World {
    var begun := Begin(w, Enforcement);
    SweepAll(begun, begun.state.entries, Enumerated(begun, env), env)
  }

  function OnHotplug(w: World, event: HotplugEvent, env: Env): World {
    var begun := Begin(w, Enforcement);
    if event.action.Removed? then begun
    else
      match FindFor(begun.state.entries, event.device)
      case None => begun
      case Some(e) => ReApply(begun, e, event.device, env).0
  }

  lemma {:induction false} SweepAllTouches(w: World, entries: Entries, all: seq<Device>, env: Env, start: nat)
    requires start <= |w.trace|
    ensures var after := SweepAll(w, entries, all, env); Touches(w, after) && Keeps(w, after, start)
  {
    hide Touches, Keeps, ReApply, DeviceOf;
    SameTouches(w, start);
    if entries != [] {
      var n := |entries| - 1;
      var before := SweepAll(w, entries[..n], all, env);
      SweepAllTouches(w, entries[..n], all, env, start);
      KeepsLength(w, before, start);
      var found := DeviceOf(before, entries[n], all, env);
      if found.Some? {
        ReApplyTouches(before, entries[n], found.value, env, start);
        Chain3(w, before, SweepAll(w, entries, all, env), start);
      }
    }
  }

  lemma KeepsLength(w: World, after: World, start: nat)
    requires Keeps(w, after, start)
    ensures |w.trace| <= |after.trace|
  {
  }

  /** Enforcement neither adds nor removes nor reorders entries, keeps each entry's key, mechanism
      and driver, and disables nothing that the guard has not just allowed. */
  lemma EnforcementOnlyTouches(w: World, event: HotplugEvent, env: Env)
    ensures Touches(w, Sweep(w, env)) && Keeps(Begin(w, Enforcement), Sweep(w, env), |w.trace|)
    ensures Touches(w, OnHotplug(w, event, env)) && Keeps(Begin(w, Enforcement), OnHotplug(w, event, env), |w.trace|)
  {
    hide Touches, Keeps, ReApply;
    var begun := Begin(w, Enforcement);
    SameTouches(begun, |w.trace|);
    BeginTouches(w, Sweep(w, env), OnHotplug(w, event, env));
    SweepAllTouches(begun, begun.state.entries, Enumerated(begun, env), env, |w.trace|);
    var found := FindFor(begun.state.entries, event.device);
    if found.Some? {
      ReApplyTouches(begun, found.value, event.device, env, |w.trace|);
    }
  }

  lemma BeginTouches(w: World, a: World, b: World)
    ensures Touches(Begin(w, Enforcement), a) ==> Touches(w, a)
    ensures Touches(Begin(w, Enforcement), b) ==> Touches(w, b)
  {
  }

  class EnforcementService {
    const host: Host

    constructor (host: Host)
      ensures this.host == host
    {
      this.host := host;
    }

    method Start()
      modifies host
      ensures host.W() == Begin(old(host.W()), Enforcement)
    {
      var payload := host.CapturePayload();
      host.Note(Began(Enforcement, payload));
    }

    method SweepEntries(env: Env)
      modifies host, host.state
      ensures host.W() == Sweep(old(host.W()), env)
    {
      hide DeviceOf, ReApply;
      Start();
      ghost var w := host.W();
      var enumerated := env.enumerate(|host.trace|);
      var all := if enumerated.Success? then enumerated.value else [];
      var entries := host.state.entries;
      for i := 0 to |entries|
        invariant host.W() == SweepAll(w, entries[..i], all, env)
      {
        assert entries[..i + 1][..i] == entries[..i];
        var found := host.FindDevice(entries[i], all, env);
        if found.Some? {
          var _ := host.ReApplyEntry(entries[i], found.value, env);
        }
      }
      assert entries[..|entries|] == entries;
    }

    method HandleHotplug(event: HotplugEvent, env: Env)
      modifies host, host.state
      ensures host.W() == OnHotplug(old(host.W()), event, env)
    {
      hide ReApply, FindFor;
      Start();
      if event.action.Removed? {
        return;
      }
      var entry := host.state.Find(event.device);
      if entry.Some? {
        var _ := host.ReApplyEntry(entry.value, event.device, env);
      }
    }
  }
}
