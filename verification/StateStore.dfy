/** The list of disabled devices, in memory and in state.json (daemon/src/state_store.cpp). */
module StateStores {
  import opened Models
  import opened DeviceKeys

  type Entry = DisabledDeviceEntry
  type Entries = seq<Entry>

  // state.json: not there, not what load accepts, or the entries it holds.
  datatype StateFile = Absent | Malformed | Holding(entries: Entries)

  datatype State = State(entries: Entries, file: StateFile)

  // ---------------------------------------------------------------- the operations on values

  function Upserted(entries: Entries, e: Entry): Entries {
    if entries == [] then [e]
    else if entries[0].key == e.key then [e] + entries[1..]
    else [entries[0]] + Upserted(entries[1..], e)
  }

  function Erased(entries: Entries, key: DeviceKey): Entries {
    if entries == [] then []
    else (if entries[0].key == key then [] else [entries[0]]) + Erased(entries[1..], key)
  }

  datatype Change = Suspend(suspended: bool) | MovePath(path: string)

  function Altered(change: Change, e: Entry): Entry {
    match change
    case Suspend(suspended) => e.(guardSuspended := suspended)
    case MovePath(path) => e.(lastSysfsPath := path)
  }

  predicate HasKey(entries: Entries, key: DeviceKey) {
    exists i :: 0 <= i < |entries| && entries[i].key == key
  }

  // The first entry with this key, changed.
  function Updated(entries: Entries, key: DeviceKey, change: Change): Entries {
    if entries == [] then []
    else if entries[0].key == key then [Altered(change, entries[0])] + entries[1..]
    else [entries[0]] + Updated(entries[1..], key, change)
  }

  function Lookup(entries: Entries, key: DeviceKey): Option<Entry> {
    if entries == [] then None
    else if entries[0].key == key then Some(entries[0])
    else Lookup(entries[1..], key)
  }

  predicate IsFor(e: Entry, device: Device) {
    MatchesDevice(e.key, device) || e.lastSysfsPath == device.sysfsPath
  }

  function FindFor(entries: Entries, device: Device): Option<Entry> {
    if entries == [] then None
    else if IsFor(entries[0], device) then Some(entries[0])
    else FindFor(entries[1..], device)
  }

  // Memory is changed first; the file follows if the write does.
  function Save(state: State, entries: Entries, written: Written): (State, Result<()>) {
    (State(entries, if written.NotDone? then state.file else Holding(entries)),
     if written.Done? then Success(()) else Failure(Io))
  }

  // A malformed file is moved away if the rename works, and stays otherwise.
  function Load(state: State, moves: bool): State {
    match state.file
    case Absent => State([], Absent)
    case Malformed => State([], if moves then Absent else Malformed)
    case Holding(entries) => State(entries, state.file)
  }

  function Update(state: State, key: DeviceKey, change: Change, written: Written): (State, Result<()>) {
    if HasKey(state.entries, key) then Save(state, Updated(state.entries, key, change), written)
    else (state, Failure(NotFound))
  }

  // ---------------------------------------------------------------- what the operations mean

  ghost predicate DistinctKeys(entries: Entries) {
    forall i, j :: 0 <= i < j < |entries| ==> entries[i].key != entries[j].key
  }

  lemma TailHasKey(entries: Entries, key: DeviceKey)
    requires entries != []
    ensures HasKey(entries, key) <==> entries[0].key == key || HasKey(entries[1..], key)
  {
    if entries[0].key != key && HasKey(entries, key) {
      var i :| 0 <= i < |entries| && entries[i].key == key;
      assert entries[1..][i - 1].key == key;
    }
    if HasKey(entries[1..], key) {
      var i :| 0 <= i < |entries[1..]| && entries[1..][i].key == key;
      assert entries[i + 1].key == key;
    }
  }

  lemma {:induction false} LookupHas(entries: Entries, key: DeviceKey)
    ensures Lookup(entries, key).Some? <==> HasKey(entries, key)
    ensures Lookup(entries, key).Some? ==>
      Lookup(entries, key).value in entries && Lookup(entries, key).value.key == key
  {
    if entries != [] {
      LookupHas(entries[1..], key);
      TailHasKey(entries, key);
    }
  }

  /** An upsert sets what its own key finds and nothing else. */
  lemma {:induction false} UpsertLooksUp(entries: Entries, e: Entry, key: DeviceKey)
    ensures Lookup(Upserted(entries, e), key) == if key == e.key then Some(e) else Lookup(entries, key)
  {
    if entries != [] {
      UpsertLooksUp(entries[1..], e, key);
      assert ([e] + entries[1..])[1..] == entries[1..];
      assert ([entries[0]] + Upserted(entries[1..], e))[1..] == Upserted(entries[1..], e);
    }
  }

  lemma {:induction false} EraseLooksUp(entries: Entries, erased: DeviceKey, key: DeviceKey)
    ensures Lookup(Erased(entries, erased), key) == if key == erased then None else Lookup(entries, key)
  {
    if entries != [] {
      EraseLooksUp(entries[1..], erased, key);
      var rest := Erased(entries[1..], erased);
      if entries[0].key == erased {
        assert Erased(entries, erased) == rest;
      } else {
        assert Erased(entries, erased)[1..] == rest;
      }
    }
  }

  lemma {:induction false} UpdateLooksUp(entries: Entries, updated: DeviceKey, change: Change, key: DeviceKey)
    ensures Lookup(Updated(entries, updated, change), key)
         == if key == updated && Lookup(entries, key).Some? then Some(Altered(change, Lookup(entries, key).value))
            else Lookup(entries, key)
  {
    if entries != [] {
      UpdateLooksUp(entries[1..], updated, change, key);
      var rest := Updated(entries[1..], updated, change);
      assert ([Altered(change, entries[0])] + entries[1..])[1..] == entries[1..];
      assert ([entries[0]] + rest)[1..] == rest;
    }
  }

  lemma {:induction false} UpsertKeys(entries: Entries, e: Entry)
    ensures forall x :: x in Upserted(entries, e) ==> x == e || x in entries
    ensures DistinctKeys(entries) ==> DistinctKeys(Upserted(entries, e))
  {
    if entries != [] {
      UpsertKeys(entries[1..], e);
      var rest := Upserted(entries[1..], e);
      if entries[0].key != e.key && DistinctKeys(entries) {
        forall k | 0 <= k < |rest|
          ensures rest[k].key != entries[0].key
        {
          assert rest[k] == e || rest[k] in entries[1..];
        }
      }
    }
  }

  lemma {:induction false} EraseKeys(entries: Entries, key: DeviceKey)
    ensures forall x :: x in Erased(entries, key) <==> x in entries && x.key != key
    ensures DistinctKeys(entries) ==> DistinctKeys(Erased(entries, key))
  {
    if entries != [] {
      EraseKeys(entries[1..], key);
      forall x
        ensures x in entries <==> x == entries[0] || x in entries[1..]
      {
      }
      var rest := Erased(entries[1..], key);
      if DistinctKeys(entries) {
        forall k | 0 <= k < |rest|
          ensures rest[k].key != entries[0].key
        {
          assert rest[k] in entries[1..];
        }
      }
    }
  }

  /** Enabling a device that was not listed before its disable restores the list exactly. */
  lemma {:induction false} EraseUndoesUpsert(entries: Entries, e: Entry)
    requires !HasKey(entries, e.key)
    ensures Erased(Upserted(entries, e), e.key) == entries
  {
    if entries == [] {
      assert [e][1..] == [];
    } else {
      TailHasKey(entries, e.key);
      EraseUndoesUpsert(entries[1..], e);
      assert ([entries[0]] + Upserted(entries[1..], e))[1..] == Upserted(entries[1..], e);
    }
  }

  // Two entries that differ at most in what enforcement keeps current.
  predicate Similar(a: Entry, b: Entry) {
    a.(guardSuspended := b.guardSuspended, lastSysfsPath := b.lastSysfsPath) == b
  }

  ghost predicate SimilarLists(a: Entries, b: Entries) {
    |a| == |b| && forall i :: 0 <= i < |a| ==> Similar(a[i], b[i])
  }

  lemma {:induction false} UpdatedIsSimilar(entries: Entries, key: DeviceKey, change: Change)
    ensures SimilarLists(entries, Updated(entries, key, change))
  {
    if entries != [] {
      UpdatedIsSimilar(entries[1..], key, change);
    }
  }

  lemma SimilarDistinct(a: Entries, b: Entries)
    requires SimilarLists(a, b) && DistinctKeys(a)
    ensures DistinctKeys(b)
  {
    forall i, j | 0 <= i < j < |b|
      ensures b[i].key != b[j].key
    {
      assert Similar(a[i], b[i]) && Similar(a[j], b[j]);
    }
  }

  lemma SimilarChains(a: Entries, b: Entries, c: Entries)
    requires SimilarLists(a, b) && SimilarLists(b, c)
    ensures SimilarLists(a, c) && SimilarLists(b, a)
  {
    forall i | 0 <= i < |a|
      ensures Similar(a[i], c[i]) && Similar(b[i], a[i])
    {
      assert Similar(a[i], b[i]) && Similar(b[i], c[i]);
    }
  }

  /** What a save reported as done, a restart of the daemon loads. */
  lemma SavedIsLoaded(state: State, entries: Entries, written: Written, moves: bool)
    requires Save(state, entries, written).1.Success?
    ensures Load(Save(state, entries, written).0, moves) == State(entries, Holding(entries))
  {
  }

  /** A save changes memory whatever happens, the file unless the write was not done, and reports Io
      unless it was done in full; an update of a key that is not listed changes nothing. */
  lemma SaveTells(state: State, entries: Entries, key: DeviceKey, change: Change, written: Written)
    ensures var (after, r) := Save(state, entries, written);
      && after.entries == entries
      && after.file == (if written == NotDone then state.file else Holding(entries))
      && r == if written == Done then Success(()) else Failure(Io)
    ensures (forall e :: e in state.entries ==> e.key != key) ==>
      Update(state, key, change, written) == (state, Failure(NotFound))
    ensures (exists e :: e in state.entries && e.key == key) ==>
      Update(state, key, change, written) == Save(state, Updated(state.entries, key, change), written)
  {
    hide Updated;
    if HasKey(state.entries, key) {
      var i :| 0 <= i < |state.entries| && state.entries[i].key == key;
      assert state.entries[i] in state.entries;
    }
  }

  /** A start of the daemon lists what the file holds, and nothing if it is absent or malformed; a
      malformed file is moved away and never overwritten by the load. */
  lemma LoadTells(state: State, moves: bool)
    ensures var after := Load(state, moves);
      && after.entries == (if state.file.Holding? then state.file.entries else [])
      && after.file == if state.file.Malformed? && moves then Absent else state.file
  {
  }

  // ---------------------------------------------------------------- the store

  lemma UpsertAt(entries: Entries, i: nat, e: Entry)
    requires i < |entries| && entries[i].key == e.key && forall k :: 0 <= k < i ==> entries[k].key != e.key
    ensures Upserted(entries, e) == entries[i := e]
  {
    if i > 0 {
      UpsertAt(entries[1..], i - 1, e);
      assert entries[i := e] == [entries[0]] + entries[1..][i - 1 := e];
    }
  }

  lemma {:induction false} UpsertNone(entries: Entries, e: Entry)
    requires forall k :: 0 <= k < |entries| ==> entries[k].key != e.key
    ensures Upserted(entries, e) == entries + [e]
  {
    if entries != [] {
      UpsertNone(entries[1..], e);
    }
  }

  lemma UpdateAt(entries: Entries, i: nat, key: DeviceKey, change: Change)
    requires i < |entries| && entries[i].key == key && forall k :: 0 <= k < i ==> entries[k].key != key
    ensures Updated(entries, key, change) == entries[i := Altered(change, entries[i])]
  {
    if i > 0 {
      UpdateAt(entries[1..], i - 1, key, change);
      assert entries[i := Altered(change, entries[i])]
          == [entries[0]] + entries[1..][i - 1 := Altered(change, entries[i])];
    }
  }

  lemma {:induction false} ErasedLast(entries: Entries, e: Entry, key: DeviceKey)
    ensures Erased(entries + [e], key) == Erased(entries, key) + if e.key == key then [] else [e]
  {
    if entries == [] {
      assert entries + [e] == [e];
    } else {
      ErasedLast(entries[1..], e, key);
      assert (entries + [e])[1..] == entries[1..] + [e];
    }
  }

  lemma {:induction false} FindForAt(entries: Entries, i: nat, device: Device)
    requires i <= |entries| && forall k :: 0 <= k < i ==> !IsFor(entries[k], device)
    ensures FindFor(entries, device) == FindFor(entries[i..], device)
  {
    if i > 0 {
      FindForAt(entries[1..], i - 1, device);
      assert entries[1..][i - 1..] == entries[i..];
    } else {
      assert entries[0..] == entries;
    }
  }

  class StateStore {
    var entries: Entries
    var file: StateFile

    constructor (file: StateFile)
      ensures Value() == State([], file)
    {
      this.entries := [];
      this.file := file;
    }

    ghost function Value(): State
      reads this
    {
      State(entries, file)
    }

    method LoadFile(moves: bool)
      modifies this
      ensures Value() == Load(old(Value()), moves)
    {
      entries := [];
      match file
      case Absent =>
      case Malformed =>
        if moves {
          file := Absent;
        }
      case Holding(parsed) => entries := parsed;
    }

    method SaveFile(written: Written) returns (r: Result<()>)
      modifies this`file
      ensures (Value(), r) == Save(old(Value()), entries, written)
    {
      if !written.NotDone? {
        file := Holding(entries);
      }
      r := if written.Done? then Success(()) else Failure(Io);
    }

    method Upsert(entry: Entry, written: Written) returns (r: Result<()>)
      modifies this
      ensures (Value(), r) == Save(old(Value()), Upserted(old(entries), entry), written)
    {
      for i := 0 to |entries|
        invariant Value() == old(Value())
        invariant forall k :: 0 <= k < i ==> entries[k].key != entry.key
      {
        if entries[i].key == entry.key {
          UpsertAt(entries, i, entry);
          entries := entries[i := entry];
          r := SaveFile(written);
          return;
        }
      }
      UpsertNone(entries, entry);
      entries := entries + [entry];
      r := SaveFile(written);
    }

    method Remove(key: DeviceKey, written: Written) returns (r: Result<()>)
      modifies this
      ensures (Value(), r) == Save(old(Value()), Erased(old(entries), key), written)
    {
      var kept := [];
      for i := 0 to |entries|
        invariant Value() == old(Value()) && kept == Erased(entries[..i], key)
      {
        assert entries[..i + 1] == entries[..i] + [entries[i]];
        ErasedLast(entries[..i], entries[i], key);
        if entries[i].key != key {
          kept := kept + [entries[i]];
        }
      }
      assert entries[..|entries|] == entries;
      entries := kept;
      r := SaveFile(written);
    }

    method ReplaceAll(replacement: Entries, written: Written) returns (r: Result<()>)
      modifies this
      ensures (Value(), r) == Save(old(Value()), replacement, written)
    {
      entries := replacement;
      r := SaveFile(written);
    }

    method UpdateFirst(key: DeviceKey, change: Change, written: Written) returns (r: Result<()>)
      modifies this
      ensures (Value(), r) == Update(old(Value()), key, change, written)
    {
      for i := 0 to |entries|
        invariant Value() == old(Value())
        invariant forall k :: 0 <= k < i ==> entries[k].key != key
      {
        if entries[i].key == key {
          assert HasKey(entries, key);
          UpdateAt(entries, i, key, change);
          entries := entries[i := Altered(change, entries[i])];
          r := SaveFile(written);
          return;
        }
      }
      r := Failure(NotFound);
    }

    method SetGuardSuspended(key: DeviceKey, suspended: bool, written: Written) returns (r: Result<()>)
      modifies this
      ensures (Value(), r) == Update(old(Value()), key, Suspend(suspended), written)
    {
      r := UpdateFirst(key, Suspend(suspended), written);
    }

    method SetLastSysfsPath(key: DeviceKey, path: string, written: Written) returns (r: Result<()>)
      modifies this
      ensures (Value(), r) == Update(old(Value()), key, MovePath(path), written)
    {
      r := UpdateFirst(key, MovePath(path), written);
    }

    method Find(device: Device) returns (r: Option<Entry>)
      ensures r == FindFor(entries, device)
    {
      for i := 0 to |entries|
        invariant forall k :: 0 <= k < i ==> !IsFor(entries[k], device)
      {
        FindForAt(entries, i, device);
        if IsFor(entries[i], device) {
          return Some(entries[i]);
        }
      }
      FindForAt(entries, |entries|, device);
      return None;
    }
  }
}
