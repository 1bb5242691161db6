/** What changed between two payloads, as rows (core/src/snapshot_diff.cpp). */
module SnapshotDiff {
  import opened Models
  import opened Sequences
  import opened StringOrder

  const DEVICE := "device"
  const MODULE := "module"
  const MODPROBE := "modprobe"
  const ENABLED := "enabled"
  const ABSENT := "absent"
  const PRESENT := "present"
  const BLACKLISTED := "blacklisted"
  const EDITED := "present, contents differ"

  type States = map<string, string>

  datatype Row = Row(kind: string, key: string, before: string, after: string)

  // ---------------------------------------------------------------- modprobe.d directives

  predicate IsSpace(c: char) {
    c == ' ' || c == '\t' || c == '\n' || c == '\r' || c == 11 as char || c == 12 as char
  }

  // The non-empty runs of other characters, `word` being the run already begun.
  function Words(s: string, word: string): seq<string> {
    if s == "" then (if word == "" then [] else [word])
    else if IsSpace(s[0]) then (if word == "" then [] else [word]) + Words(s[1..], "")
    else Words(s[1..], word + [s[0]])
  }

  // The lines that std::getline yields, `line` being the one already begun.
  function Lines(s: string, line: string): seq<string> {
    if s == "" then (if line == "" then [] else [line])
    else if s[0] == '\n' then [line] + Lines(s[1..], "")
    else Lines(s[1..], line + [s[0]])
  }

  function Uncommented(line: string): string {
    if line == "" || line[0] == '#' then "" else [line[0]] + Uncommented(line[1..])
  }

  function Joined(tokens: seq<string>): string {
    if tokens == [] then ""
    else
      var n := |tokens| - 1;
      var front := Joined(tokens[..n]);
      (if front == "" then "" else front + " ") + tokens[n]
  }

  // The module a line is about and what it says of it, if it is a directive devmgr understands.
  function Directive(line: string): Option<(string, string)> {
    var tokens := Words(Uncommented(line), "");
    if |tokens| < 2 then None
    else if tokens[0] == "blacklist" then Some((tokens[1], BLACKLISTED))
    else if tokens[0] == "options" && |tokens| > 2 then Some((tokens[1], "options: " + Joined(tokens[2..])))
    else if tokens[0] == "install" && |tokens| > 2 then Some((tokens[1], "install: " + Joined(tokens[2..])))
    else None
  }

  function StateOr(states: States, key: string, fallback: string): string {
    if key in states then states[key] else fallback
  }

  function AppendState(state: string, part: string): string {
    if state == "" then part else state + ", " + part
  }

  function AddDirective(states: States, line: string): States {
    match Directive(line)
    case None => states
    case Some((name, part)) => states[name := AppendState(StateOr(states, name, ""), part)]
  }

  function AddLines(states: States, lines: seq<string>): States {
    if lines == [] then states
    else AddDirective(AddLines(states, lines[..|lines| - 1]), lines[|lines| - 1])
  }

  function AddFiles(states: States, files: map<string, string>, names: seq<string>): States
    requires forall name :: name in names ==> name in files
  {
    if names == [] then states
    else
      var n := |names| - 1;
      assert forall name :: name in names[..n] ==> name in names;
      AddLines(AddFiles(states, files, names[..n]), Lines(files[names[n]], ""))
  }

  // The directives of all files, in the order of the file names.
  function ModuleStates(files: map<string, string>): States {
    AddFiles(map[], files, SortedKeys(files.Keys))
  }

  function FileModuleStates(content: string): States {
    AddLines(map[], Lines(content, ""))
  }

  // ---------------------------------------------------------------- device entries

  function DeviceEntryLabel(e: DisabledDeviceEntry): string {
    var key := e.key;
    if key.position == "" && key.vendorId == "" && key.productId == "" then
      if e.lastSysfsPath == "" then "unknown device" else e.lastSysfsPath
    else
      (if key.bus == "" then "device" else key.bus)
      + (if key.vendorId != "" || key.productId != "" then " " + key.vendorId + ":" + key.productId else "")
      + (if key.position != "" then " @" + key.position
         else if e.lastSysfsPath != "" then " @" + e.lastSysfsPath else "")
      + (if key.serial != "" then " #" + key.serial else "")
  }

  function DeviceEntryState(e: DisabledDeviceEntry): string {
    if e.mechanism == "" then "disabled" else "disabled (" + e.mechanism + ")"
  }

  // A later entry with the same label replaces an earlier one.
  function DeviceStates(entries: seq<DisabledDeviceEntry>): States {
    if entries == [] then map[]
    else
      var n := |entries| - 1;
      DeviceStates(entries[..n])[DeviceEntryLabel(entries[n]) := DeviceEntryState(entries[n])]
  }

  // ---------------------------------------------------------------- rows

  function RowOf(kind: string, before: States, after: States, fallback: string, key: string): seq<Row> {
    var b, a := StateOr(before, key, fallback), StateOr(after, key, fallback);
    if b == a then [] else [Row(kind, key, b, a)]
  }

  function RowsOf(kind: string, before: States, after: States, fallback: string, keys: seq<string>): seq<Row> {
    if keys == [] then []
    else
      var n := |keys| - 1;
      RowsOf(kind, before, after, fallback, keys[..n]) + RowOf(kind, before, after, fallback, keys[n])
  }

  function StateRows(kind: string, before: States, after: States, fallback: string): seq<Row> {
    RowsOf(kind, before, after, fallback, SortedKeys(before.Keys + after.Keys))
  }

  function FileRow(before: States, after: States, name: string): seq<Row> {
    if name in before && name in after then
      if before[name] == after[name] || FileModuleStates(before[name]) != FileModuleStates(after[name]) then []
      else [Row(MODPROBE, name, PRESENT, EDITED)]
    else
      [Row(MODPROBE, name, if name in before then PRESENT else ABSENT, if name in after then PRESENT else ABSENT)]
  }

  function FileRowsOf(before: States, after: States, names: seq<string>): seq<Row> {
    if names == [] then []
    else
      var n := |names| - 1;
      FileRowsOf(before, after, names[..n]) + FileRow(before, after, names[n])
  }

  function FileRows(before: States, after: States): seq<Row> {
    FileRowsOf(before, after, SortedKeys(before.Keys + after.Keys))
  }

  function DeviceRows(base: SnapshotPayload, target: SnapshotPayload): seq<Row> {
    StateRows(DEVICE, DeviceStates(base.entries), DeviceStates(target.entries), ENABLED)
  }

  function ModuleRows(base: SnapshotPayload, target: SnapshotPayload): seq<Row> {
    StateRows(MODULE, ModuleStates(base.modprobeFiles), ModuleStates(target.modprobeFiles), ABSENT)
  }

  function Diff(base: SnapshotPayload, target: SnapshotPayload): seq<Row> {
    DeviceRows(base, target) + ModuleRows(base, target) + FileRows(base.modprobeFiles, target.modprobeFiles)
  }

  // ---------------------------------------------------------------- which rows there are

  function Keys(rows: seq<Row>): (r: seq<string>)
    ensures |r| == |rows| && forall i :: 0 <= i < |rows| ==> r[i] == rows[i].key
  {
    seq(|rows|, i requires 0 <= i < |rows| => rows[i].key)
  }

  ghost predicate HasRow(rows: seq<Row>, key: string) {
    exists i :: 0 <= i < |rows| && rows[i].key == key
  }

  lemma HasRowConcat(a: seq<Row>, b: seq<Row>, key: string)
    ensures HasRow(a + b, key) <==> HasRow(a, key) || HasRow(b, key)
  {
    if HasRow(a, key) {
      var i :| 0 <= i < |a| && a[i].key == key;
      assert (a + b)[i].key == key;
    }
    if HasRow(b, key) {
      var i :| 0 <= i < |b| && b[i].key == key;
      assert (a + b)[|a| + i].key == key;
    }
  }

  lemma KeysConcat(a: seq<Row>, b: seq<Row>)
    ensures Keys(a + b) == Keys(a) + Keys(b)
  {
  }

  lemma AscendingAppends(keys: seq<string>, key: string)
    requires Ascending(keys) && forall k :: k in keys ==> Less(k, key)
    ensures Ascending(keys + [key])
  {
  }

  lemma AscendingPrefix(keys: seq<string>, n: nat)
    requires Ascending(keys) && n < |keys|
    ensures Ascending(keys[..n]) && forall k :: k in keys[..n] ==> Less(k, keys[n])
  {
  }

  ghost predicate IsRowOf(row: Row, kind: string, before: States, after: States, fallback: string) {
    && row.kind == kind
    && row.before == StateOr(before, row.key, fallback) && row.after == StateOr(after, row.key, fallback)
    && row.before != row.after
  }

  // Rows whose keys are among `names`, and at most one more row for the key after them.
  lemma RowsAscend(front: seq<Row>, last: seq<Row>, names: seq<string>, name: string)
    requires Ascending(Keys(front)) && (forall i :: 0 <= i < |front| ==> front[i].key in names)
    requires (forall n :: n in names ==> Less(n, name)) && (last == [] || (last == [last[0]] && last[0].key == name))
    ensures Ascending(Keys(front + last))
  {
    if last == [] {
      assert front + last == front;
    } else {
      KeysConcat(front, last);
      forall k | k in Keys(front)
        ensures Less(k, name)
      {
        var i :| 0 <= i < |front| && Keys(front)[i] == k;
        assert front[i].key in names;
      }
      AscendingAppends(Keys(front), name);
      assert Keys(last) == [name];
    }
  }

  ghost predicate AreRowsOf(rows: seq<Row>, kind: string, before: States, after: States, fallback: string,
                            keys: seq<string>) {
    forall i :: 0 <= i < |rows| ==> IsRowOf(rows[i], kind, before, after, fallback) && rows[i].key in keys
  }

  lemma {:induction false} RowsOfAre(kind: string, before: States, after: States, fallback: string, keys: seq<string>)
    ensures AreRowsOf(RowsOf(kind, before, after, fallback, keys), kind, before, after, fallback, keys)
  {
    if keys != [] {
      var n := |keys| - 1;
      var front := RowsOf(kind, before, after, fallback, keys[..n]);
      var last := RowOf(kind, before, after, fallback, keys[n]);
      RowsOfAre(kind, before, after, fallback, keys[..n]);
      forall i | 0 <= i < |front + last|
        ensures IsRowOf((front + last)[i], kind, before, after, fallback) && (front + last)[i].key in keys
      {
        if i < |front| {
          assert IsRowOf(front[i], kind, before, after, fallback) && front[i].key in keys[..n];
        } else {
          assert last[0].key == keys[n];
        }
      }
    }
  }

  lemma {:induction false} RowsOfAscend(kind: string, before: States, after: States, fallback: string,
                                        keys: seq<string>)
    requires Ascending(keys)
    ensures Ascending(Keys(RowsOf(kind, before, after, fallback, keys)))
  {
    hide Ascending, Keys;
    if keys != [] {
      var n := |keys| - 1;
      AscendingPrefix(keys, n);
      RowsOfAscend(kind, before, after, fallback, keys[..n]);
      RowsOfAre(kind, before, after, fallback, keys[..n]);
      RowsAscend(RowsOf(kind, before, after, fallback, keys[..n]), RowOf(kind, before, after, fallback, keys[n]),
                 keys[..n], keys[n]);
    } else {
      NoKeys();
    }
  }

  lemma NoKeys()
    ensures Ascending(Keys([]))
  {
  }

  lemma {:induction false} RowsOfHave(kind: string, before: States, after: States, fallback: string, keys: seq<string>,
                                      key: string)
    ensures HasRow(RowsOf(kind, before, after, fallback, keys), key)
        <==> key in keys && StateOr(before, key, fallback) != StateOr(after, key, fallback)
  {
    if keys != [] {
      var n := |keys| - 1;
      RowsOfHave(kind, before, after, fallback, keys[..n], key);
      var last := RowOf(kind, before, after, fallback, keys[n]);
      HasRowConcat(RowsOf(kind, before, after, fallback, keys[..n]), last, key);
      assert key in keys <==> key in keys[..n] || key == keys[n];
      assert HasRow(last, key) <==> last != [] && keys[n] == key by {
        if last != [] {
          assert last[0].key == keys[n];
        }
      }
    }
  }

  /** The rows are exactly the keys whose state differs, each with both states, in strictly
      ascending order of the keys. */
  lemma StateRowsAreTheDifferences(kind: string, before: States, after: States, fallback: string)
    ensures var rows := StateRows(kind, before, after, fallback);
      && Ascending(Keys(rows))
      && (forall i :: 0 <= i < |rows| ==> IsRowOf(rows[i], kind, before, after, fallback))
      && (forall key :: HasRow(rows, key) <==> StateOr(before, key, fallback) != StateOr(after, key, fallback))
  {
    var keys := SortedKeys(before.Keys + after.Keys);
    RowsOfAre(kind, before, after, fallback, keys);
    RowsOfAscend(kind, before, after, fallback, keys);
    forall key
      ensures HasRow(StateRows(kind, before, after, fallback), key)
          <==> StateOr(before, key, fallback) != StateOr(after, key, fallback)
    {
      RowsOfHave(kind, before, after, fallback, keys, key);
      assert key in keys <==> key in before.Keys + after.Keys;
    }
  }

  // ---------------------------------------------------------------- patching

  // What a state that never reads as the fallback becomes when a row is applied.
  function Patch(states: States, row: Row, fallback: string): States {
    if row.after == fallback then states - {row.key} else states[row.key := row.after]
  }

  function Patched(states: States, rows: seq<Row>, fallback: string): States {
    if rows == [] then states
    else Patch(Patched(states, rows[..|rows| - 1], fallback), rows[|rows| - 1], fallback)
  }

  ghost predicate NeverReads(states: States, fallback: string) {
    forall key :: key in states ==> states[key] != fallback
  }

  lemma PatchedLast(states: States, rows: seq<Row>, last: seq<Row>, fallback: string)
    requires |last| <= 1
    ensures Patched(states, rows + last, fallback) == Patched1(Patched(states, rows, fallback), last, fallback)
  {
    if last == [] {
      assert rows + last == rows;
    } else {
      assert (rows + last)[..|rows|] == rows;
    }
  }

  lemma PatchRow(kind: string, before: States, after: States, fallback: string, key: string, states: States, x: string)
    requires NeverReads(after, fallback)
    requires StateOr(states, key, fallback) == StateOr(before, key, fallback)
          || StateOr(states, key, fallback) == StateOr(after, key, fallback)
    requires x in states ==> states[x] != fallback
    ensures var patched := Patched1(states, RowOf(kind, before, after, fallback, key), fallback);
      && StateOr(patched, x, fallback) == StateOr(if x == key then after else states, x, fallback)
      && (x in patched ==> patched[x] != fallback)
  {
  }

  function Patched1(states: States, last: seq<Row>, fallback: string): States {
    if last == [] then states else Patch(states, last[0], fallback)
  }

  lemma {:induction false} PatchedAt(kind: string, before: States, after: States, fallback: string, keys: seq<string>,
                                     x: string)
    requires NeverReads(before, fallback) && NeverReads(after, fallback)
    ensures var patched := Patched(before, RowsOf(kind, before, after, fallback, keys), fallback);
      && StateOr(patched, x, fallback) == StateOr(if x in keys then after else before, x, fallback)
      && (x in patched ==> patched[x] != fallback)
    decreases |keys|
  {
    if keys != [] {
      var n := |keys| - 1;
      var front := Patched(before, RowsOf(kind, before, after, fallback, keys[..n]), fallback);
      PatchedAt(kind, before, after, fallback, keys[..n], x);
      PatchedAt(kind, before, after, fallback, keys[..n], keys[n]);
      PatchedLast(before, RowsOf(kind, before, after, fallback, keys[..n]),
                  RowOf(kind, before, after, fallback, keys[n]), fallback);
      PatchRow(kind, before, after, fallback, keys[n], front, x);
      assert x in keys <==> x in keys[..n] || x == keys[n];
      hide RowOf, Patch, NeverReads;
    }
  }

  lemma SameStates(a: States, b: States, fallback: string)
    requires forall x :: StateOr(a, x, fallback) == StateOr(b, x, fallback)
    requires NeverReads(a, fallback) && NeverReads(b, fallback)
    ensures a == b
  {
    forall x
      ensures x in a <==> x in b
      ensures x in a ==> a[x] == b[x]
    {
      assert StateOr(a, x, fallback) == StateOr(b, x, fallback);
    }
  }

  /** Patching the base's states by the after column gives the target's. */
  lemma PatchGivesTarget(kind: string, before: States, after: States, fallback: string)
    requires NeverReads(before, fallback) && NeverReads(after, fallback)
    ensures Patched(before, StateRows(kind, before, after, fallback), fallback) == after
  {
    var keys := SortedKeys(before.Keys + after.Keys);
    var patched := Patched(before, StateRows(kind, before, after, fallback), fallback);
    forall x
      ensures StateOr(patched, x, fallback) == StateOr(after, x, fallback)
      ensures x in patched ==> patched[x] != fallback
    {
      PatchedAt(kind, before, after, fallback, keys, x);
      assert x in keys <==> x in before.Keys + after.Keys;
    }
    SameStates(patched, after, fallback);
  }

  lemma {:induction false} DeviceStatesNeverRead(entries: seq<DisabledDeviceEntry>)
    ensures NeverReads(DeviceStates(entries), ENABLED)
  {
    if entries != [] {
      var n := |entries| - 1;
      DeviceStatesNeverRead(entries[..n]);
      assert DeviceEntryState(entries[n])[0] == 'd' && ENABLED[0] == 'e';
    }
  }

  // A module's state begins with a directive's word, never with that of "absent".
  ghost predicate AreModuleStates(states: States) {
    forall key :: key in states ==> states[key] != "" && states[key][0] != 'a'
  }

  lemma {:induction false} AddLinesKeeps(states: States, lines: seq<string>)
    requires AreModuleStates(states)
    ensures AreModuleStates(AddLines(states, lines))
  {
    if lines != [] {
      var n := |lines| - 1;
      AddLinesKeeps(states, lines[..n]);
      AddDirectiveKeeps(AddLines(states, lines[..n]), lines[n]);
    }
  }

  lemma AddDirectiveKeeps(states: States, line: string)
    requires AreModuleStates(states)
    ensures AreModuleStates(AddDirective(states, line))
  {
    hide Words, Joined, Uncommented;
    var d := Directive(line);
    if d.Some? {
      var part := d.value.1;
      assert part != "" && part[0] != 'a';
    }
  }

  lemma {:induction false} AddFilesKeeps(files: map<string, string>, names: seq<string>)
    requires forall name :: name in names ==> name in files
    ensures AreModuleStates(AddFiles(map[], files, names))
  {
    if names != [] {
      var n := |names| - 1;
      assert forall name :: name in names[..n] ==> name in names;
      AddFilesKeeps(files, names[..n]);
      AddLinesKeeps(AddFiles(map[], files, names[..n]), Lines(files[names[n]], ""));
    }
  }

  lemma ModuleStatesNeverRead(files: map<string, string>)
    ensures NeverReads(ModuleStates(files), ABSENT)
  {
    AddFilesKeeps(files, SortedKeys(files.Keys));
    assert ABSENT[0] == 'a';
  }

  /** Applying the device and module rows of a diff to the base's states gives the target's. */
  lemma DiffPatches(base: SnapshotPayload, target: SnapshotPayload)
    ensures Patched(DeviceStates(base.entries), DeviceRows(base, target), ENABLED) == DeviceStates(target.entries)
    ensures Patched(ModuleStates(base.modprobeFiles), ModuleRows(base, target), ABSENT)
         == ModuleStates(target.modprobeFiles)
  {
    hide DeviceStates, ModuleStates, StateRows, Patched;
    DeviceStatesNeverRead(base.entries);
    DeviceStatesNeverRead(target.entries);
    ModuleStatesNeverRead(base.modprobeFiles);
    ModuleStatesNeverRead(target.modprobeFiles);
    PatchGivesTarget(DEVICE, DeviceStates(base.entries), DeviceStates(target.entries), ENABLED);
    PatchGivesTarget(MODULE, ModuleStates(base.modprobeFiles), ModuleStates(target.modprobeFiles), ABSENT);
  }

  // ---------------------------------------------------------------- the other way round

  // The columns change places; an edited file reads the same both ways.
  function Swap(row: Row): Row {
    if row.after == EDITED && row.kind == MODPROBE then row else row.(before := row.after, after := row.before)
  }

  function Swapped(rows: seq<Row>): seq<Row> {
    if rows == [] then [] else Swapped(rows[..|rows| - 1]) + [Swap(rows[|rows| - 1])]
  }

  lemma {:induction false} SwappedConcat(a: seq<Row>, b: seq<Row>)
    ensures Swapped(a + b) == Swapped(a) + Swapped(b)
  {
    if b == [] {
      assert a + b == a;
    } else {
      var n := |b| - 1;
      SwappedConcat(a, b[..n]);
      assert (a + b)[..|a| + n] == a + b[..n];
    }
  }

  lemma SwappedOne(row: Row)
    ensures Swapped([row]) == [Swap(row)]
  {
    assert [row][..0] == [];
  }

  lemma {:induction false} RowsOfSwap(kind: string, before: States, after: States, fallback: string, keys: seq<string>)
    requires kind != MODPROBE
    ensures RowsOf(kind, after, before, fallback, keys) == Swapped(RowsOf(kind, before, after, fallback, keys))
  {
    if keys != [] {
      var n := |keys| - 1;
      RowsOfSwap(kind, before, after, fallback, keys[..n]);
      var last := RowOf(kind, before, after, fallback, keys[n]);
      SwappedConcat(RowsOf(kind, before, after, fallback, keys[..n]), last);
      if last != [] {
        SwappedOne(last[0]);
      }
    }
  }

  lemma FileRowFacts(before: States, after: States, name: string)
    ensures var row := FileRow(before, after, name);
      && (row != [] ==> row == [row[0]] && row[0].key == name)
      && FileRow(after, before, name) == if row == [] then [] else [Swap(row[0])]
  {
    hide FileModuleStates;
  }

  lemma {:induction false} FileRowsOfSwap(before: States, after: States, names: seq<string>)
    ensures FileRowsOf(after, before, names) == Swapped(FileRowsOf(before, after, names))
  {
    hide FileModuleStates, FileRow;
    if names != [] {
      var n := |names| - 1;
      FileRowsOfSwap(before, after, names[..n]);
      var last := FileRow(before, after, names[n]);
      FileRowFacts(before, after, names[n]);
      SwappedConcat(FileRowsOf(before, after, names[..n]), last);
      if last != [] {
        SwappedOne(last[0]);
      }
    }
  }

  /** Swapping the payloads swaps the columns of every row. */
  lemma DiffSwaps(base: SnapshotPayload, target: SnapshotPayload)
    ensures Diff(target, base) == Swapped(Diff(base, target))
  {
    hide DeviceStates, ModuleStates, RowsOf, FileRowsOf, Swapped;
    var d, d2 := DeviceStates(base.entries), DeviceStates(target.entries);
    var m, m2 := ModuleStates(base.modprobeFiles), ModuleStates(target.modprobeFiles);
    var f, f2 := base.modprobeFiles, target.modprobeFiles;
    assert d.Keys + d2.Keys == d2.Keys + d.Keys && m.Keys + m2.Keys == m2.Keys + m.Keys;
    assert f.Keys + f2.Keys == f2.Keys + f.Keys;
    RowsOfSwap(DEVICE, d, d2, ENABLED, SortedKeys(d.Keys + d2.Keys));
    RowsOfSwap(MODULE, m, m2, ABSENT, SortedKeys(m.Keys + m2.Keys));
    FileRowsOfSwap(f, f2, SortedKeys(f.Keys + f2.Keys));
    SwappedConcat(DeviceRows(base, target) + ModuleRows(base, target), FileRows(f, f2));
    SwappedConcat(DeviceRows(base, target), ModuleRows(base, target));
  }

  // ---------------------------------------------------------------- no rows

  lemma {:induction false} FileRowsOfHave(before: States, after: States, names: seq<string>, name: string)
    ensures HasRow(FileRowsOf(before, after, names), name) <==> name in names && FileRow(before, after, name) != []
  {
    hide FileModuleStates, FileRow;
    if names != [] {
      var n := |names| - 1;
      FileRowsOfHave(before, after, names[..n], name);
      var last := FileRow(before, after, names[n]);
      FileRowFacts(before, after, names[n]);
      HasRowConcat(FileRowsOf(before, after, names[..n]), last, name);
      assert name in names <==> name in names[..n] || name == names[n];
      assert HasRow(last, name) <==> last != [] && names[n] == name by {
        if last != [] {
          assert last[0].key == names[n];
        }
      }
    }
  }

  lemma NoRows(rows: seq<Row>)
    ensures rows == [] <==> forall key :: !HasRow(rows, key)
  {
    if rows != [] {
      assert HasRow(rows, rows[0].key);
    }
  }

  // A file the diff has nothing to say of: in both with the same bytes, or with other directives.
  ghost predicate Passes(before: States, after: States, name: string) {
    (name in before <==> name in after)
    && (name in before && before[name] != after[name] ==>
          FileModuleStates(before[name]) != FileModuleStates(after[name]))
  }

  lemma NoStateRowsIff(kind: string, before: States, after: States, fallback: string)
    requires NeverReads(before, fallback) && NeverReads(after, fallback)
    ensures StateRows(kind, before, after, fallback) == [] <==> before == after
  {
    var rows := StateRows(kind, before, after, fallback);
    StateRowsAreTheDifferences(kind, before, after, fallback);
    NoRows(rows);
    if rows == [] {
      forall x
        ensures StateOr(before, x, fallback) == StateOr(after, x, fallback)
      {
        assert !HasRow(rows, x);
      }
      SameStates(before, after, fallback);
    }
  }

  lemma {:induction false} FileRowsOfAscend(before: States, after: States, names: seq<string>)
    requires Ascending(names)
    ensures Ascending(Keys(FileRowsOf(before, after, names)))
    ensures var rows := FileRowsOf(before, after, names); forall i :: 0 <= i < |rows| ==> rows[i].key in names
  {
    hide Ascending, Keys, FileRow;
    if names != [] {
      var n := |names| - 1;
      AscendingPrefix(names, n);
      FileRowsOfAscend(before, after, names[..n]);
      FileRowFacts(before, after, names[n]);
      assert forall k :: k in names[..n] ==> k in names;
      RowsAscend(FileRowsOf(before, after, names[..n]), FileRow(before, after, names[n]), names[..n], names[n]);
    } else {
      NoKeys();
    }
  }

  /** The file rows are exactly the files that appeared, disappeared, or changed bytes without
      changing directives, in strictly ascending order of their names. */
  lemma FileRowsAreTheDifferences(before: States, after: States)
    ensures Ascending(Keys(FileRows(before, after)))
    ensures forall name :: HasRow(FileRows(before, after), name) <==> !Passes(before, after, name)
  {
    var names := SortedKeys(before.Keys + after.Keys);
    FileRowsOfAscend(before, after, names);
    forall name
      ensures HasRow(FileRows(before, after), name) <==> !Passes(before, after, name)
    {
      FileRowsOfHave(before, after, names, name);
      assert name in names <==> name in before.Keys + after.Keys;
    }
  }

  lemma NoFileRowsIff(before: States, after: States)
    ensures FileRows(before, after) == [] <==> forall name :: Passes(before, after, name)
  {
    NoRows(FileRows(before, after));
    FileRowsAreTheDifferences(before, after);
  }

  /** A diff is empty exactly when the device states, the module directives and the file names are
      equal and every file kept its bytes or changed its directives. */
  lemma DiffIsEmptyIff(base: SnapshotPayload, target: SnapshotPayload)
    ensures Diff(base, target) == []
        <==> DeviceStates(base.entries) == DeviceStates(target.entries)
             && ModuleStates(base.modprobeFiles) == ModuleStates(target.modprobeFiles)
             && base.modprobeFiles.Keys == target.modprobeFiles.Keys
             && forall name :: Passes(base.modprobeFiles, target.modprobeFiles, name)
  {
    hide DeviceStates, ModuleStates, StateRows, FileRows, FileModuleStates;
    DeviceStatesNeverRead(base.entries);
    DeviceStatesNeverRead(target.entries);
    ModuleStatesNeverRead(base.modprobeFiles);
    ModuleStatesNeverRead(target.modprobeFiles);
    NoStateRowsIff(DEVICE, DeviceStates(base.entries), DeviceStates(target.entries), ENABLED);
    NoStateRowsIff(MODULE, ModuleStates(base.modprobeFiles), ModuleStates(target.modprobeFiles), ABSENT);
    NoFileRowsIff(base.modprobeFiles, target.modprobeFiles);
    if forall name :: Passes(base.modprobeFiles, target.modprobeFiles, name) {
      forall name
        ensures name in base.modprobeFiles <==> name in target.modprobeFiles
      {
        assert Passes(base.modprobeFiles, target.modprobeFiles, name);
      }
    }
  }

  // A module name as it may stand in a directive.
  predicate IsWord(name: string) {
    name != "" && forall i :: 0 <= i < |name| ==> !IsSpace(name[i]) && name[i] != '#'
  }

  /** A directive that moves from one file to another leaves an empty diff though both files differ. */
  lemma MovedDirectiveIsNoRow(name: string)
    requires IsWord(name)
    ensures var line := "blacklist " + name;
      var there := SnapshotPayload([], map["a" := line, "b" := ""]);
      var here := SnapshotPayload([], map["a" := "", "b" := line]);
      Diff(there, here) == [] && there.modprobeFiles != here.modprobeFiles
  {
    hide FileModuleStates, ModuleStates, Diff;
    var line := "blacklist " + name;
    var there := SnapshotPayload([], map["a" := line, "b" := ""]);
    var here := SnapshotPayload([], map["a" := "", "b" := line]);
    assert line != "";
    BlacklistFile(name, line);
    TwoFiles(there.modprobeFiles, line, name);
    TwoFiles(here.modprobeFiles, line, name);
    DiffIsEmptyIff(there, here);
    assert name in map[name := BLACKLISTED];
    forall x
      ensures Passes(there.modprobeFiles, here.modprobeFiles, x)
    {
      assert x in there.modprobeFiles <==> x == "a" || x == "b";
    }
    assert there.modprobeFiles["a"] != here.modprobeFiles["a"];
  }

  lemma BlacklistFile(name: string, line: string)
    requires IsWord(name) && line == "blacklist " + name
    ensures FileModuleStates(line) == map[name := BLACKLISTED] && FileModuleStates("") == map[]
  {
    hide Words, Uncommented;
    BlacklistDirective(name, line);
    LinesOf(line, "");
    assert "" + line == line;
    assert AddLines(map[], [line]) == AddDirective(AddLines(map[], []), line) by {
      assert [line][..0] == [];
    }
  }

  lemma BlacklistDirective(name: string, line: string)
    requires IsWord(name) && line == "blacklist " + name
    ensures Directive(line) == Some((name, BLACKLISTED))
  {
    hide Words, Uncommented;
    UncommentedOf(line);
    assert line == "blacklist" + (" " + name) && "" + "blacklist" == "blacklist";
    WordOf("blacklist", " " + name, "");
    SpaceEndsWord("blacklist", name);
    assert name + "" == name && "" + name == name;
    WordOf(name, "", "");
    LastWord(name);
  }

  lemma SpaceEndsWord(word: string, rest: string)
    requires word != ""
    ensures Words(" " + rest, word) == [word] + Words(rest, "")
  {
    assert (" " + rest)[1..] == rest;
  }

  lemma LastWord(word: string)
    requires word != ""
    ensures Words("", word) == [word]
  {
  }

  lemma {:induction false} LinesOf(s: string, line: string)
    requires forall i :: 0 <= i < |s| ==> s[i] != '\n'
    ensures Lines(s, line) == if line + s == "" then [] else [line + s]
  {
    if s == "" {
      assert line + s == line;
    } else {
      LinesOf(s[1..], line + [s[0]]);
      assert line + [s[0]] + s[1..] == line + s;
    }
  }

  lemma {:induction false} UncommentedOf(s: string)
    requires forall i :: 0 <= i < |s| ==> s[i] != '#'
    ensures Uncommented(s) == s
  {
    if s != "" {
      UncommentedOf(s[1..]);
    }
  }

  lemma {:induction false} WordOf(s: string, rest: string, word: string)
    requires forall i :: 0 <= i < |s| ==> !IsSpace(s[i])
    ensures Words(s + rest, word) == Words(rest, word + s)
    decreases |s|
  {
    if s == "" {
      assert s + rest == rest && word + s == word;
    } else {
      WordOf(s[1..], rest, word + [s[0]]);
      assert (s + rest)[1..] == s[1..] + rest;
      assert word + [s[0]] + s[1..] == word + s;
    }
  }

  lemma TwoFiles(files: map<string, string>, line: string, name: string)
    requires files.Keys == {"a", "b"} && FileModuleStates(line) == map[name := BLACKLISTED]
    requires FileModuleStates("") == map[]
    requires (files["a"] == line && files["b"] == "") || (files["a"] == "" && files["b"] == line)
    ensures ModuleStates(files) == map[name := BLACKLISTED]
  {
    hide Lines, AddLines;
    OneAscending(SortedKeys(files.Keys), ["a", "b"]);
    assert ["a", "b"][..1] == ["a"] && ["a"][..0] == [];
    assert AddFiles(map[], files, []) == map[];
    assert AddFiles(map[], files, ["a"]) == FileModuleStates(files["a"]);
    NoLines(map[name := BLACKLISTED]);
  }

  lemma NoLines(states: States)
    ensures AddLines(states, Lines("", "")) == states
  {
  }

  // ---------------------------------------------------------------- the loops

  method CollectDirectives(content: string, before: States) returns (states: States)
    ensures states == AddLines(before, Lines(content, ""))
  {
    var lines := Lines(content, "");
    states := before;
    for i := 0 to |lines|
      invariant states == AddLines(before, lines[..i])
    {
      assert lines[..i + 1][..i] == lines[..i];
      var d := Directive(lines[i]);
      if d.Some? {
        var (name, part) := d.value;
        states := states[name := AppendState(if name in states then states[name] else "", part)];
      }
    }
    assert lines[..|lines|] == lines;
  }

  method CollectModuleStates(files: map<string, string>) returns (states: States)
    ensures states == ModuleStates(files)
  {
    hide AddLines, Lines, AddFiles;
    var names := SortedKeys(files.Keys);
    states := map[];
    NoFiles(files);
    for i := 0 to |names|
      invariant states == AddFiles(map[], files, names[..i])
    {
      assert names[i] in files;
      AddFilesNext(files, names, i);
      states := CollectDirectives(files[names[i]], states);
    }
    assert names[..|names|] == names;
  }

  lemma NoFiles(files: map<string, string>)
    ensures AddFiles(map[], files, []) == map[]
  {
  }

  lemma AddFilesNext(files: map<string, string>, names: seq<string>, i: nat)
    requires i < |names| && forall name :: name in names ==> name in files
    ensures AddFiles(map[], files, names[..i + 1])
         == AddLines(AddFiles(map[], files, names[..i]), Lines(files[names[i]], ""))
  {
    hide AddLines, Lines;
    assert names[..i + 1][..i] == names[..i];
  }

  method CollectDeviceStates(entries: seq<DisabledDeviceEntry>) returns (states: States)
    ensures states == DeviceStates(entries)
  {
    states := map[];
    for i := 0 to |entries|
      invariant states == DeviceStates(entries[..i])
    {
      assert entries[..i + 1][..i] == entries[..i];
      states := states[DeviceEntryLabel(entries[i]) := DeviceEntryState(entries[i])];
    }
    assert entries[..|entries|] == entries;
  }

  lemma RowsOfNext(kind: string, before: States, after: States, fallback: string, keys: seq<string>, i: nat,
                   rows: seq<Row>)
    requires i < |keys|
    ensures rows + RowsOf(kind, before, after, fallback, keys[..i + 1])
         == rows + RowsOf(kind, before, after, fallback, keys[..i]) + RowOf(kind, before, after, fallback, keys[i])
  {
    assert keys[..i + 1][..i] == keys[..i];
    Regroup(rows, RowsOf(kind, before, after, fallback, keys[..i]), RowOf(kind, before, after, fallback, keys[i]));
  }

  lemma FileRowsOfNext(before: States, after: States, names: seq<string>, i: nat, rows: seq<Row>)
    requires i < |names|
    ensures rows + FileRowsOf(before, after, names[..i + 1])
         == rows + FileRowsOf(before, after, names[..i]) + FileRow(before, after, names[i])
  {
    assert names[..i + 1][..i] == names[..i];
    Regroup(rows, FileRowsOf(before, after, names[..i]), FileRow(before, after, names[i]));
  }

  method DiffStates(kind: string, before: States, after: States, fallback: string, rows: seq<Row>)
    returns (more: seq<Row>)
    ensures more == rows + StateRows(kind, before, after, fallback)
  {
    hide RowsOf;
    var keys := SortedKeys(before.Keys + after.Keys);
    more := rows;
    NoneOf(kind, before, after, fallback, rows);
    for i := 0 to |keys|
      invariant more == rows + RowsOf(kind, before, after, fallback, keys[..i])
    {
      RowsOfNext(kind, before, after, fallback, keys, i, rows);
      var key := keys[i];
      var b := if key in before then before[key] else fallback;
      var a := if key in after then after[key] else fallback;
      ghost var was := more;
      if b != a {
        more := more + [Row(kind, key, b, a)];
      }
      assert was + [] == was;
    }
    assert keys[..|keys|] == keys;
  }

  lemma NoneOf(kind: string, before: States, after: States, fallback: string, rows: seq<Row>)
    ensures rows + RowsOf(kind, before, after, fallback, []) == rows
    ensures rows + FileRowsOf(before, after, []) == rows
  {
  }

  method DiffFiles(before: States, after: States, rows: seq<Row>) returns (more: seq<Row>)
    ensures more == rows + FileRows(before, after)
  {
    hide FileModuleStates, FileRowsOf, FileRow;
    var names := SortedKeys(before.Keys + after.Keys);
    more := rows;
    NoneOf("", before, after, "", rows);
    for i := 0 to |names|
      invariant more == rows + FileRowsOf(before, after, names[..i])
    {
      FileRowsOfNext(before, after, names, i, rows);
      var row := DiffFile(before, after, names[i]);
      more := more + row;
    }
    assert names[..|names|] == names;
  }

  method DiffFile(before: States, after: States, name: string) returns (row: seq<Row>)
    ensures row == FileRow(before, after, name)
  {
    var inBase, inTarget := name in before, name in after;
    if inBase && inTarget {
      if before[name] == after[name] {
        return [];
      }
      var b := CollectDirectives(before[name], map[]);
      var a := CollectDirectives(after[name], map[]);
      return if b != a then [] else [Row(MODPROBE, name, PRESENT, EDITED)];
    }
    row := [Row(MODPROBE, name, if inBase then PRESENT else ABSENT, if inTarget then PRESENT else ABSENT)];
  }

  method DiffPayloads(base: SnapshotPayload, target: SnapshotPayload) returns (rows: seq<Row>)
    ensures rows == Diff(base, target)
  {
    hide DeviceStates, ModuleStates, StateRows, FileRows;
    var devices := CollectDeviceStates(base.entries);
    var devices2 := CollectDeviceStates(target.entries);
    rows := DiffStates(DEVICE, devices, devices2, ENABLED, []);
    var modules := CollectModuleStates(base.modprobeFiles);
    var modules2 := CollectModuleStates(target.modprobeFiles);
    rows := DiffStates(MODULE, modules, modules2, ABSENT, rows);
    rows := DiffFiles(base.modprobeFiles, target.modprobeFiles, rows);
  }
}
