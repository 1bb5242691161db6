/**
  The device model and its deltas (app/src/device_service.cpp): enumerations and
  hotplug events change the model, and every change is announced as Removed, Added
  and Changed events.  The law is replay: the announced events, folded from the
  empty model, rebuild the model.
 */
module DeviceServices {
  import opened Models

  type Model = map<string, Device>

  datatype DeviceEvent = DeviceAdded(device: Device) | DeviceChanged(device: Device) | DeviceRemoved(id: string)

  // ---------------------------------------------------------------- what events mean

  function Apply(m: Model, e: HotplugEvent): Model {
    if e.action == Removed then m - {e.device.id} else m[e.device.id := e.device]
  }

  function EventId(e: DeviceEvent): string {
    if e.DeviceRemoved? then e.id else e.device.id
  }

  function Observe(m: Model, e: DeviceEvent): Model {
    if e.DeviceRemoved? then m - {e.id} else m[e.device.id := e.device]
  }

  // A subscriber that starts from `m` and folds in the announced events.
  function Replay(m: Model, events: seq<DeviceEvent>): Model {
    if events == [] then m else Observe(Replay(m, events[..|events| - 1]), events[|events| - 1])
  }

  ghost predicate OnePerDevice(events: seq<DeviceEvent>) {
    forall i, j :: 0 <= i < j < |events| ==> EventId(events[i]) != EventId(events[j])
  }

  // `unordered_map` keys are the device ids.
  ghost predicate WellKeyed(m: Model) {
    forall k :: k in m ==> m[k].id == k
  }

  ghost predicate DistinctIds(s: seq<Device>) {
    forall i, j :: 0 <= i < j < |s| ==> s[i].id != s[j].id
  }

  // ---------------------------------------------------------------- an enumeration

  // emplace keeps the first device of an id.
  function FirstById(s: seq<Device>): (m: Model)
    ensures forall k :: k in m ==> m[k].id == k
  {
    if s == [] then map[]
    else
      var m := FirstById(s[..|s| - 1]);
      var d := s[|s| - 1];
      if d.id in m then m else m[d.id := d]
  }

  function AddedIn(m: Model, s: seq<Device>): seq<DeviceEvent> {
    if s == [] then []
    else
      var d := s[|s| - 1];
      AddedIn(m, s[..|s| - 1]) + if d.id in m then [] else [DeviceAdded(d)]
  }

  function ChangedIn(m: Model, s: seq<Device>): seq<DeviceEvent> {
    if s == [] then []
    else
      var d := s[|s| - 1];
      ChangedIn(m, s[..|s| - 1]) + if d.id in m && m[d.id] != d then [DeviceChanged(d)] else []
  }

  // The device that the last announcement for `k` carries, if any announcement names it.
  function LastAnnounced(m: Model, s: seq<Device>, k: string): Option<Device> {
    if s == [] then None
    else
      var d := s[|s| - 1];
      if d.id == k && (k !in m || m[k] != d) then Some(d) else LastAnnounced(m, s[..|s| - 1], k)
  }

  // The listing order of the ids that vanished is up to the hash map.
  ghost predicate ListsRemoved(m: Model, s: seq<Device>, removed: seq<DeviceEvent>) {
    && (forall i :: 0 <= i < |removed| ==>
          removed[i].DeviceRemoved? && removed[i].id in m && removed[i].id !in FirstById(s))
    && (forall k :: k in m && k !in FirstById(s) ==> DeviceRemoved(k) in removed)
    && OnePerDevice(removed)
  }

  lemma ReplayConcat(m: Model, a: seq<DeviceEvent>, b: seq<DeviceEvent>)
    ensures Replay(m, a + b) == Replay(Replay(m, a), b)
  {
    if b == [] {
      assert a + b == a;
    } else {
      ReplayConcat(m, a, b[..|b| - 1]);
      assert (a + b)[..|a + b| - 1] == a + b[..|b| - 1];
    }
  }

  lemma {:induction false} ReplayRemoved(m: Model, removed: seq<DeviceEvent>)
    requires forall i :: 0 <= i < |removed| ==> removed[i].DeviceRemoved?
    ensures forall k :: k in Replay(m, removed) <==> k in m && DeviceRemoved(k) !in removed
    ensures forall k :: k in Replay(m, removed) ==> Replay(m, removed)[k] == m[k]
  {
    if removed != [] {
      var rest := removed[..|removed| - 1];
      ReplayRemoved(m, rest);
      assert removed == rest + [removed[|removed| - 1]];
    }
  }

  // What replaying the last announcement adds to replaying the ones before it.
  lemma ReplayLast(base: Model, events: seq<DeviceEvent>, last: seq<DeviceEvent>, k: string)
    requires |last| <= 1 && forall e :: e in last ==> !e.DeviceRemoved?
    ensures var before, r := Replay(base, events), Replay(base, events + last);
            if last != [] && last[0].device.id == k then k in r && r[k] == last[0].device
            else (k in r <==> k in before) && (k in r ==> r[k] == before[k])
  {
    if last == [] {
      assert events + last == events;
    } else {
      assert (events + last)[..|events|] == events;
      assert last[0] in last;
    }
  }

  // Replaying announcements onto a base, one id at a time.
  lemma {:induction false} ReplayAdded(m: Model, s: seq<Device>, base: Model, k: string)
    ensures var r := Replay(base, AddedIn(m, s));
            if k !in m && LastAnnounced(m, s, k).Some?
            then k in r && r[k] == LastAnnounced(m, s, k).value
            else (k in r <==> k in base) && (k in r ==> r[k] == base[k])
  {
    hide Replay;
    if s == [] {
      ReplayNothing(base);
    } else {
      var s0, d := s[..|s| - 1], s[|s| - 1];
      ReplayAdded(m, s0, base, k);
      ReplayLast(base, AddedIn(m, s0), if d.id in m then [] else [DeviceAdded(d)], k);
    }
  }

  lemma ReplayNothing(base: Model)
    ensures Replay(base, []) == base
  {
  }

  lemma {:induction false} ReplayChanged(m: Model, s: seq<Device>, base: Model, k: string)
    ensures var r := Replay(base, ChangedIn(m, s));
            if k in m && LastAnnounced(m, s, k).Some?
            then k in r && r[k] == LastAnnounced(m, s, k).value
            else (k in r <==> k in base) && (k in r ==> r[k] == base[k])
  {
    hide Replay;
    if s == [] {
      ReplayNothing(base);
    } else {
      var s0, d := s[..|s| - 1], s[|s| - 1];
      var tail := if d.id in m && m[d.id] != d then [DeviceChanged(d)] else [];
      ReplayChanged(m, s0, base, k);
      ReplayLast(base, ChangedIn(m, s0), tail, k);
    }
  }

  lemma {:induction false} FirstByIdHas(s: seq<Device>, m: Model, k: string)
    ensures LastAnnounced(m, s, k).Some? ==> k in FirstById(s)
    ensures k in FirstById(s) && LastAnnounced(m, s, k) == None ==> k in m && m[k] == FirstById(s)[k]
  {
    if s != [] {
      FirstByIdHas(s[..|s| - 1], m, k);
    }
  }

  // When the last announcement of every announced id is the device that the model keeps.
  ghost predicate AnnouncesKept(m: Model, s: seq<Device>) {
    forall k :: LastAnnounced(m, s, k).Some? ==>
                  k in FirstById(s) && LastAnnounced(m, s, k).value == FirstById(s)[k]
  }

  lemma ReplayLookup(m: Model, s: seq<Device>, removed: seq<DeviceEvent>, k: string)
    requires ListsRemoved(m, s, removed)
    ensures var r := Replay(m, removed + AddedIn(m, s) + ChangedIn(m, s));
            match LastAnnounced(m, s, k)
            case Some(d) => k in r && r[k] == d
            case None => (k in r <==> k in FirstById(s)) && (k in r ==> r[k] == FirstById(s)[k])
  {
    ReplayConcat(m, removed + AddedIn(m, s), ChangedIn(m, s));
    ReplayConcat(m, removed, AddedIn(m, s));
    ReplayRemoved(m, removed);
    ReplayAdded(m, s, Replay(m, removed), k);
    ReplayChanged(m, s, Replay(Replay(m, removed), AddedIn(m, s)), k);
    FirstByIdHas(s, m, k);
  }

  /** An enumeration's announcements rebuild the new model exactly when the last announcement of
      each announced id carries the device that the model kept. */
  lemma ReplayIffAnnouncesKept(m: Model, s: seq<Device>, removed: seq<DeviceEvent>)
    requires ListsRemoved(m, s, removed)
    ensures Replay(m, removed + AddedIn(m, s) + ChangedIn(m, s)) == FirstById(s) <==> AnnouncesKept(m, s)
  {
    var r := Replay(m, removed + AddedIn(m, s) + ChangedIn(m, s));
    forall k
      ensures match LastAnnounced(m, s, k)
              case Some(d) => k in r && r[k] == d
              case None => (k in r <==> k in FirstById(s)) && (k in r ==> r[k] == FirstById(s)[k])
    {
      ReplayLookup(m, s, removed, k);
      FirstByIdHas(s, m, k);
    }
    if AnnouncesKept(m, s) {
      forall k
        ensures k in r <==> k in FirstById(s)
        ensures k in r ==> r[k] == FirstById(s)[k]
      {
        FirstByIdHas(s, m, k);
      }
    }
  }

  lemma {:induction false} FirstByIdMembers(s: seq<Device>, k: string)
    ensures k in FirstById(s) <==> exists d :: d in s && d.id == k
    ensures k in FirstById(s) ==> FirstById(s)[k] in s
  {
    if s != [] {
      FirstByIdMembers(s[..|s| - 1], k);
      assert s == s[..|s| - 1] + [s[|s| - 1]];
    }
  }

  lemma {:induction false} AnnouncedMember(m: Model, s: seq<Device>, k: string)
    requires LastAnnounced(m, s, k).Some?
    ensures LastAnnounced(m, s, k).value in s && LastAnnounced(m, s, k).value.id == k
  {
    var d := s[|s| - 1];
    if !(d.id == k && (k !in m || m[k] != d)) {
      AnnouncedMember(m, s[..|s| - 1], k);
    }
  }

  lemma DistinctAnnouncesKept(m: Model, s: seq<Device>)
    requires DistinctIds(s)
    ensures AnnouncesKept(m, s)
  {
    forall k | LastAnnounced(m, s, k).Some?
      ensures k in FirstById(s) && LastAnnounced(m, s, k).value == FirstById(s)[k]
    {
      AnnouncedMember(m, s, k);
      FirstByIdMembers(s, k);
    }
  }

  lemma {:induction false} AnnouncementsFrom(m: Model, s: seq<Device>)
    ensures forall e :: e in AddedIn(m, s) ==> e.DeviceAdded? && e.device in s && e.device.id !in m
    ensures forall e :: e in ChangedIn(m, s) ==>
              e.DeviceChanged? && e.device in s && e.device.id in m && m[e.device.id] != e.device
  {
    if s != [] {
      AnnouncementsFrom(m, s[..|s| - 1]);
      assert s == s[..|s| - 1] + [s[|s| - 1]];
    }
  }

  lemma Together(a: seq<DeviceEvent>, b: seq<DeviceEvent>)
    requires OnePerDevice(a) && OnePerDevice(b) && forall x, y :: x in a && y in b ==> EventId(x) != EventId(y)
    ensures OnePerDevice(a + b)
  {
    forall i, j | 0 <= i < j < |a + b|
      ensures EventId((a + b)[i]) != EventId((a + b)[j])
    {
      assert i < |a| <= j ==> a[i] in a && b[j - |a|] in b;
    }
  }

  // With distinct ids, no device is announced twice.
  lemma {:induction false} AnnouncementsDistinct(m: Model, s: seq<Device>)
    requires DistinctIds(s)
    ensures OnePerDevice(AddedIn(m, s)) && OnePerDevice(ChangedIn(m, s))
  {
    if s != [] {
      var s0, d := s[..|s| - 1], s[|s| - 1];
      AnnouncementsDistinct(m, s0);
      AnnouncementsFrom(m, s0);
      assert forall x :: x in s0 ==> x.id != d.id;
      if d.id !in m {
        Together(AddedIn(m, s0), [DeviceAdded(d)]);
      } else {
        Together(ChangedIn(m, s0), [DeviceChanged(d)]);
      }
    }
  }

  lemma EnumerationOnePerDevice(m: Model, s: seq<Device>, removed: seq<DeviceEvent>)
    requires DistinctIds(s) && ListsRemoved(m, s, removed)
    ensures OnePerDevice(removed + AddedIn(m, s) + ChangedIn(m, s))
    ensures forall e :: e in removed + AddedIn(m, s) + ChangedIn(m, s) ==>
              var k := EventId(e);
              !(k in m && k in FirstById(s) && m[k] == FirstById(s)[k])
  {
    AnnouncementsDistinct(m, s);
    AnnouncementsFrom(m, s);
    var a, c := AddedIn(m, s), ChangedIn(m, s);
    var all := removed + a + c;
    forall e | e in a || e in c
      ensures EventId(e) in FirstById(s)
    {
      FirstByIdMembers(s, EventId(e));
    }
    Together(removed, a);
    Together(removed + a, c);
    forall e | e in all
      ensures var k := EventId(e); !(k in m && k in FirstById(s) && m[k] == FirstById(s)[k])
    {
      FirstByIdMembers(s, EventId(e));
    }
  }

  /** Two devices under one id, reported in one enumeration, break replay: the model keeps the
      first, the announcements end with the second. */
  lemma DuplicateIdBreaksReplay(d: Device, e: Device)
    requires d.id == e.id && d != e
    ensures FirstById([d, e]) == map[d.id := d]
    ensures Replay(map[], AddedIn(map[], [d, e])) == map[d.id := e]
  {
    assert [d, e][..1] == [d] && [d][..0] == [];
    assert FirstById([d]) == map[d.id := d];
    assert AddedIn(map[], [d]) == [DeviceAdded(d)];
    assert AddedIn(map[], [d, e]) == [DeviceAdded(d), DeviceAdded(e)];
    assert [DeviceAdded(d), DeviceAdded(e)][..1] == [DeviceAdded(d)];
    assert Replay(map[], [DeviceAdded(d)]) == Observe(Replay(map[], []), DeviceAdded(d));
  }

  // ---------------------------------------------------------------- the class

  /** `model_` and the two ways to change it.  `announced` is everything published so far. */
  class DeviceService {
    var model: Model
    ghost var announced: seq<DeviceEvent>

    // Every announcement so far, replayed from nothing, is the model.
    ghost predicate Valid()
      reads this
    {
      WellKeyed(model) && Replay(map[], announced) == model
    }

    constructor ()
      ensures Valid() && model == map[] && announced == []
    {
      model, announced := map[], [];
    }

    // The events come back in publication order.  With repeated ids the model still takes the
    // first device of each, but then replay holds only as ReplayIffAnnouncesKept says.  Whatever
    // was announced before, replaying this call's events onto the old model is judged alike.
    method ApplyEnumeration(snapshot: seq<Device>) returns (events: seq<DeviceEvent>)
      requires WellKeyed(model)
      modifies this
      ensures WellKeyed(model) && model == FirstById(snapshot) && announced == old(announced) + events
      ensures Replay(old(model), events) == model <==> AnnouncesKept(old(model), snapshot)
      ensures old(Valid()) ==> (Valid() <==> AnnouncesKept(old(model), snapshot))
      ensures old(Valid()) && DistinctIds(snapshot) ==> Valid()
      ensures DistinctIds(snapshot) ==> OnePerDevice(events) && Replay(old(model), events) == model
      ensures DistinctIds(snapshot) ==>
                forall e :: e in events ==>
                  var k := EventId(e);
                  !(k in old(model) && k in model && old(model)[k] == model[k])
    {
      hide Replay, AnnouncesKept, LastAnnounced;
      var added, changed, removed: seq<DeviceEvent> := [], [], [];
      var next: Model := map[];
      for i := 0 to |snapshot|
        invariant added == AddedIn(model, snapshot[..i]) && changed == ChangedIn(model, snapshot[..i])
        invariant next == FirstById(snapshot[..i])
        invariant model == old(model)
      {
        var d := snapshot[i];
        assert snapshot[..i + 1][..i] == snapshot[..i];
        if d.id !in model {
          added := added + [DeviceAdded(d)];
        } else if model[d.id] != d {
          changed := changed + [DeviceChanged(d)];
        }
        if d.id !in next {
          next := next[d.id := d];
        }
      }
      assert snapshot[..|snapshot|] == snapshot;
      removed := Gone(next, snapshot);
      events := removed + added + changed;
      ReplayIffAnnouncesKept(model, snapshot, removed);
      ReplayConcat(map[], announced, events);
      if DistinctIds(snapshot) {
        DistinctAnnouncesKept(model, snapshot);
        EnumerationOnePerDevice(model, snapshot, removed);
      }
      model := next;
      announced := announced + events;
    }

    // The devices of the model that the enumeration does not have.
    method Gone(next: Model, ghost snapshot: seq<Device>) returns (removed: seq<DeviceEvent>)
      requires WellKeyed(model) && next == FirstById(snapshot)
      ensures ListsRemoved(model, snapshot, removed)
    {
      removed := [];
      var keys := model.Keys;
      while keys != {}
        invariant keys <= model.Keys
        invariant forall i :: 0 <= i < |removed| ==>
                    && removed[i].DeviceRemoved? && removed[i].id in model
                    && removed[i].id !in next && removed[i].id !in keys
        invariant forall k :: k in model && k !in keys && k !in next ==> DeviceRemoved(k) in removed
        invariant OnePerDevice(removed)
        decreases keys
      {
        var k :| k in keys;
        if k !in next {
          removed := removed + [DeviceRemoved(model[k].id)];
        }
        keys := keys - {k};
      }
    }

    method ApplyDelta(event: HotplugEvent) returns (events: seq<DeviceEvent>)
      requires WellKeyed(model)
      modifies this
      ensures WellKeyed(model) && model == Apply(old(model), event) && announced == old(announced) + events
      ensures Replay(old(model), events) == model && (old(Valid()) ==> Valid())
      ensures |events| <= 1 && (events == [] <==> model == old(model))
      ensures forall e :: e in events ==> EventId(e) == event.device.id
    {
      events := [];
      var key := event.device.id;
      if event.action == Removed {
        if key in model {
          events := [DeviceRemoved(model[key].id)];
          model := model - {key};
        }
      } else if key !in model {
        model := model[key := event.device];
        events := [DeviceAdded(event.device)];
      } else if model[key] != event.device {
        model := model[key := event.device];
        events := [DeviceChanged(event.device)];
      }
      ReplayConcat(map[], announced, events);
      if events != [] {
        assert Replay(old(model), events) == Observe(old(model), events[0]);
      }
      announced := announced + events;
    }
  }
}
