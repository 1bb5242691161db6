/** How the diff reads modprobe.d files and names devices (core/src/snapshot_diff.cpp): lines, words,
    comments, directives and labels, each said without the loop that finds it. */
module DiffTexts {
  import opened Models
  import opened StringOrder
  import opened SnapshotDiff

  // ---------------------------------------------------------------- words

  lemma SpacesAre(c: char)
    ensures IsSpace(c) <==> c as int == 32 || 9 <= c as int <= 13
  {
  }

  predicate AllSpace(s: string) {
    forall i :: 0 <= i < |s| ==> IsSpace(s[i])
  }

  predicate NoSpace(s: string) {
    forall i :: 0 <= i < |s| ==> !IsSpace(s[i])
  }

  // s is spaces, the first word, and then spaces and words in turn; no two words touch.
  ghost predicate Spells(s: string, words: seq<string>)
    decreases |words|
  {
    if words == [] then AllSpace(s)
    else exists i, j :: StartsWith(s, words[0], i, j) && Spells(s[j..], words[1..])
  }

  // After i spaces comes the word, up to j, and there it ends.
  ghost predicate StartsWith(s: string, word: string, i: int, j: int) {
    0 <= i < j <= |s| && AllSpace(s[..i]) && NoSpace(s[i..j]) && s[i..j] == word && (j == |s| || IsSpace(s[j]))
  }

  // The run that has begun goes on to the next space.
  function WordEnd(s: string): (j: nat)
    ensures j <= |s| && NoSpace(s[..j]) && (j == |s| || IsSpace(s[j]))
  {
    if s == "" || IsSpace(s[0]) then 0 else 1 + WordEnd(s[1..])
  }

  lemma {:induction false} WordRuns(s: string, word: string)
    requires word != ""
    ensures Words(s, word) == [word + s[..WordEnd(s)]] + Words(s[WordEnd(s)..], "")
  {
    var j := WordEnd(s);
    if j == 0 {
      assert word + s[..0] == word && s[0..] == s;
      if s != "" {
        assert Words(s, "") == [] + Words(s[1..], "");
      }
    } else {
      WordRuns(s[1..], word + [s[0]]);
      assert s[1..][..j - 1] == s[1..j] && s[1..][j - 1..] == s[j..];
      assert word + [s[0]] + s[1..j] == word + s[..j];
    }
  }

  lemma TailSlices(s: string, i: int, j: int)
    requires 0 <= i <= j < |s|
    ensures s[..i + 1] == [s[0]] + s[1..][..i]
    ensures s[i + 1..j + 1] == s[1..][i..j] && s[j + 1..] == s[1..][j..]
  {
  }

  lemma {:induction false} SpacesFirst(s: string, words: seq<string>)
    requires s != "" && IsSpace(s[0]) && Spells(s[1..], words)
    ensures Spells(s, words)
  {
    if words != [] {
      var i, j :| StartsWith(s[1..], words[0], i, j) && Spells(s[1..][j..], words[1..]);
      hide IsSpace;
      TailSlices(s, i, j);
      assert StartsWith(s, words[0], i + 1, j + 1);
    }
  }

  lemma FirstWord(s: string) returns (j: nat)
    requires s != "" && !IsSpace(s[0])
    ensures 0 < j <= |s| && StartsWith(s, s[..j], 0, j) && Words(s, "") == [s[..j]] + Words(s[j..], "")
  {
    var rest := s[1..];
    var k := WordEnd(rest);
    j := k + 1;
    WordRuns(rest, [s[0]]);
    assert Words(s, "") == Words(rest, [s[0]]) by {
      assert "" + [s[0]] == [s[0]];
    }
    hide Words, IsSpace;
    assert s == [s[0]] + rest;
    assert s[..j] == [s[0]] + rest[..k] && s[j..] == rest[k..] && s[0..j] == s[..j];
  }

  /** The words of a text are its maximal runs of characters that are no spaces, in order. */
  lemma {:induction false} WordsAreSpelled(s: string)
    ensures Spells(s, Words(s, ""))
    decreases |s|
  {
    hide IsSpace, StartsWith;
    if s != "" && IsSpace(s[0]) {
      WordsAreSpelled(s[1..]);
      SpacesFirst(s, Words(s[1..], ""));
      assert Words(s, "") == Words(s[1..], "");
    } else if s != "" {
      var j := FirstWord(s);
      WordsAreSpelled(s[j..]);
      var words := Words(s, "");
      hide Words;
      assert words[0] == s[..j] && words[1..] == Words(s[j..], "");
      assert StartsWith(s, words[0], 0, j);
    }
  }

  lemma StartAt(s: string, w: string, i: int, j: int)
    requires StartsWith(s, w, i, j)
    ensures forall m :: 0 <= m < i ==> IsSpace(s[m])
    ensures forall m :: i <= m < j ==> !IsSpace(s[m])
  {
    forall m | 0 <= m < i
      ensures IsSpace(s[m])
    {
      assert s[m] == s[..i][m];
    }
    forall m | i <= m < j
      ensures !IsSpace(s[m])
    {
      assert s[m] == s[i..j][m - i];
    }
  }

  lemma OneStart(s: string, v: string, w: string, i: int, j: int, k: int, l: int)
    requires StartsWith(s, v, i, j) && StartsWith(s, w, k, l)
    ensures i == k && j == l
  {
    hide IsSpace;
    StartAt(s, v, i, j);
    StartAt(s, w, k, l);
    assert !IsSpace(s[i]) && !IsSpace(s[k]);
  }

  lemma StartIsNoSpace(s: string, w: string, i: int, j: int)
    requires StartsWith(s, w, i, j)
    ensures !AllSpace(s)
  {
    assert s[i] == s[i..j][0];
  }

  lemma {:induction false} OneSpelling(s: string, v: seq<string>, w: seq<string>)
    requires Spells(s, v) && Spells(s, w)
    ensures v == w
    decreases |v|
  {
    if v == [] && w != [] {
      var k, l :| StartsWith(s, w[0], k, l) && Spells(s[l..], w[1..]);
      StartIsNoSpace(s, w[0], k, l);
    } else if v != [] {
      var i, j :| StartsWith(s, v[0], i, j) && Spells(s[j..], v[1..]);
      if w == [] {
        StartIsNoSpace(s, v[0], i, j);
      } else {
        var k, l :| StartsWith(s, w[0], k, l) && Spells(s[l..], w[1..]);
        OneStart(s, v[0], w[0], i, j, k, l);
        OneSpelling(s[j..], v[1..], w[1..]);
        assert v == [v[0]] + v[1..] && w == [w[0]] + w[1..];
      }
    }
  }

  // ---------------------------------------------------------------- lines and comments

  predicate HasNoBreak(s: string) {
    forall i :: 0 <= i < |s| ==> s[i] != '\n'
  }

  // Each line ends with a break, except that the last may end with the text.
  ghost predicate Splits(s: string, lines: seq<string>)
    decreases |lines|
  {
    if lines == [] then s == ""
    else
      && HasNoBreak(lines[0])
      && ((s == lines[0] != "" && |lines| == 1)
          || (lines[0] + "\n" <= s && Splits(s[|lines[0]| + 1..], lines[1..])))
  }

  lemma {:induction false} LinesFrom(s: string, line: string)
    requires HasNoBreak(line)
    ensures Splits(line + s, Lines(s, line))
    decreases |s|
  {
    var lines := Lines(s, line);
    if s == "" {
      assert line + s == line;
    } else if s[0] == '\n' {
      LinesFrom(s[1..], "");
      assert "" + s[1..] == s[1..] && lines[1..] == Lines(s[1..], "");
      assert line + s == line + "\n" + s[1..];
      assert (line + s)[|line| + 1..] == s[1..];
      assert line + "\n" <= line + s;
    } else {
      LinesFrom(s[1..], line + [s[0]]);
      assert line + [s[0]] + s[1..] == line + s;
    }
  }

  /** A file is read line by line; a break at its very end begins no further line. */
  lemma LinesSplit(s: string)
    ensures Splits(s, Lines(s, ""))
  {
    LinesFrom(s, "");
    assert "" + s == s;
  }

  /** What counts of a line is what precedes its first '#'. */
  lemma {:induction false} CommentIsCut(line: string)
    ensures var kept := Uncommented(line);
      && kept <= line && '#' !in kept && (kept == line || line[|kept|] == '#')
  {
    if line != "" && line[0] != '#' {
      CommentIsCut(line[1..]);
    }
  }

  // ---------------------------------------------------------------- directives

  // The words with one space between each two.
  function Spaced(words: seq<string>): string {
    if words == [] then ""
    else if |words| == 1 then words[0]
    else words[0] + " " + Spaced(words[1..])
  }

  lemma {:induction false} SpacedLast(words: seq<string>)
    requires words != []
    ensures Spaced(words)
         == (if |words| == 1 then "" else Spaced(words[..|words| - 1]) + " ") + words[|words| - 1]
  {
    var n := |words| - 1;
    if n == 0 {
      assert "" + words[0] == words[0];
    } else {
      SpacedLast(words[1..]);
      assert words[1..][..n - 1] == words[..n][1..];
      if n == 1 {
        assert words[..1] == [words[0]];
        assert words[0] + " " + words[1] == Spaced(words[..1]) + " " + words[1];
      } else {
        var middle := Spaced(words[..n][1..]);
        assert words[0] + " " + (middle + " " + words[n]) == words[0] + " " + middle + " " + words[n];
      }
    }
  }

  lemma {:induction false} JoinedIsSpaced(words: seq<string>)
    requires forall w :: w in words ==> w != ""
    ensures Joined(words) == Spaced(words)
    ensures words != [] ==> Joined(words) != ""
  {
    if words != [] {
      var n := |words| - 1;
      assert forall w :: w in words[..n] ==> w in words;
      JoinedIsSpaced(words[..n]);
      SpacedLast(words);
      assert words[n] in words;
    }
  }

  lemma {:induction false} SpelledAreWords(s: string, words: seq<string>)
    requires Spells(s, words)
    ensures forall w :: w in words ==> w != ""
    decreases |words|
  {
    if words != [] {
      var i, j :| StartsWith(s, words[0], i, j) && Spells(s[j..], words[1..]);
      SpelledAreWords(s[j..], words[1..]);
      assert words == [words[0]] + words[1..];
    }
  }

  /** What a line says, by the words that precede its comment: a blacklist, options or an install
      command for the module named second, and nothing if the keyword is another or a word is missing. */
  lemma DirectiveSays(line: string, words: seq<string>)
    requires Spells(Uncommented(line), words)
    ensures Directive(line)
         == if |words| >= 2 && words[0] == "blacklist" then Some((words[1], "blacklisted"))
            else if |words| >= 3 && words[0] == "options" then Some((words[1], "options: " + Spaced(words[2..])))
            else if |words| >= 3 && words[0] == "install" then Some((words[1], "install: " + Spaced(words[2..])))
            else None
  {
    hide Words, Uncommented, Spells, Joined, Spaced;
    WordsAreSpelled(Uncommented(line));
    OneSpelling(Uncommented(line), words, Words(Uncommented(line), ""));
    SpelledAreWords(Uncommented(line), words);
    if |words| >= 3 {
      assert forall w :: w in words[2..] ==> w in words;
      JoinedIsSpaced(words[2..]);
    }
  }

  // ---------------------------------------------------------------- the state of a module

  // What the lines say of this module, in their order.
  ghost function Sayings(lines: seq<string>, name: string): seq<string> {
    if lines == [] then []
    else
      var n := |lines| - 1;
      Sayings(lines[..n], name) +
      match Directive(lines[n])
      case None => []
      case Some((m, part)) => if m == name then [part] else []
  }

  function Commas(parts: seq<string>): string {
    if parts == [] then ""
    else if |parts| == 1 then parts[0]
    else Commas(parts[..|parts| - 1]) + ", " + parts[|parts| - 1]
  }

  lemma {:induction false} SayingsConcat(a: seq<string>, b: seq<string>, name: string)
    ensures Sayings(a + b, name) == Sayings(a, name) + Sayings(b, name)
    decreases |b|
  {
    hide Directive;
    if b == [] {
      assert a + b == a;
    } else {
      var n := |b| - 1;
      SayingsConcat(a, b[..n], name);
      assert (a + b)[..|a + b| - 1] == a + b[..n];
    }
  }

  lemma {:induction false} SayingsAreSaid(lines: seq<string>, name: string)
    ensures forall part :: part in Sayings(lines, name) ==> part != ""
  {
    if lines != [] {
      SayingsAreSaid(lines[..|lines| - 1], name);
      DirectiveIsSaid(lines[|lines| - 1]);
      hide Directive;
    }
  }

  lemma DirectiveIsSaid(line: string)
    ensures Directive(line).Some? ==> Directive(line).value.1 != ""
  {
    hide Words, Uncommented, Joined;
  }

  lemma {:induction false} CommasSay(parts: seq<string>)
    requires parts != [] && forall part :: part in parts ==> part != ""
    ensures Commas(parts) != ""
  {
    assert parts[|parts| - 1] in parts;
  }

  // A module has a state if some line speaks of it: what the lines say, joined by commas.
  ghost predicate IsStateOf(states: States, sayings: seq<string>, name: string) {
    (name in states <==> sayings != []) && (name in states ==> states[name] == Commas(sayings))
  }

  lemma AddsOne(states: States, line: string, sayings: seq<string>, more: seq<string>, name: string)
    requires IsStateOf(states, sayings, name) && forall part :: part in sayings ==> part != ""
    requires more == sayings + match Directive(line)
                               case None => []
                               case Some((m, part)) => if m == name then [part] else []
    ensures IsStateOf(AddDirective(states, line), more, name)
  {
    hide Directive;
    var d := Directive(line);
    if d.Some? && d.value.0 == name {
      var part := d.value.1;
      assert more == sayings + [part];
      if sayings != [] {
        CommasSay(sayings);
        assert more[..|more| - 1] == sayings && more[|more| - 1] == part;
      }
    } else {
      assert more == sayings;
    }
  }

  lemma {:induction false} AddLinesSays(states: States, before: seq<string>, lines: seq<string>, name: string)
    requires IsStateOf(states, Sayings(before, name), name)
    ensures IsStateOf(AddLines(states, lines), Sayings(before + lines, name), name)
    decreases |lines|
  {
    hide AddDirective, Directive, IsStateOf;
    if lines == [] {
      assert before + lines == before;
    } else {
      var n := |lines| - 1;
      AddLinesSays(states, before, lines[..n], name);
      assert (before + lines)[..|before| + n] == before + lines[..n];
      SayingsAreSaid(before + lines[..n], name);
      AddsOne(AddLines(states, lines[..n]), lines[n], Sayings(before + lines[..n], name),
              Sayings(before + lines, name), name);
    }
  }

  // The lines of the files, file after file.
  ghost function LinesOfAll(files: map<string, string>, names: seq<string>): seq<string>
    requires forall name :: name in names ==> name in files
  {
    if names == [] then []
    else
      var n := |names| - 1;
      assert forall name :: name in names[..n] ==> name in names;
      LinesOfAll(files, names[..n]) + Lines(files[names[n]], "")
  }

  lemma {:induction false} AddFilesSays(files: map<string, string>, names: seq<string>, name: string)
    requires forall n :: n in names ==> n in files
    ensures IsStateOf(AddFiles(map[], files, names), Sayings(LinesOfAll(files, names), name), name)
  {
    hide AddLines, Lines, Sayings, IsStateOf;
    if names == [] {
      NothingSaid(name);
    } else {
      var n := |names| - 1;
      assert forall x :: x in names[..n] ==> x in names;
      AddFilesSays(files, names[..n], name);
      AddLinesSays(AddFiles(map[], files, names[..n]), LinesOfAll(files, names[..n]), Lines(files[names[n]], ""), name);
    }
  }

  lemma NothingSaid(name: string)
    ensures IsStateOf(map[], Sayings([], name), name)
  {
  }

  /** The state of a module is what all the lines of all files say of it, joined by commas, the files
      in ascending order of their names and the lines of each in their order. */
  lemma ModuleStateIs(files: map<string, string>, name: string)
    ensures IsStateOf(ModuleStates(files), Sayings(LinesOfAll(files, SortedKeys(files.Keys)), name), name)
  {
    AddFilesSays(files, SortedKeys(files.Keys), name);
  }

  // ---------------------------------------------------------------- devices

  // Entry k has this label, and no later entry has it.
  ghost predicate IsLastOf(entries: seq<DisabledDeviceEntry>, k: int, name: string) {
    && 0 <= k < |entries| && DeviceEntryLabel(entries[k]) == name
    && forall j :: k < j < |entries| ==> DeviceEntryLabel(entries[j]) != name
  }

  /** The state of a device label is that of the last entry that has it. */
  lemma {:induction false} DeviceStateIs(entries: seq<DisabledDeviceEntry>, name: string)
    ensures name in DeviceStates(entries) <==> exists k :: IsLastOf(entries, k, name)
    ensures forall k :: IsLastOf(entries, k, name) ==>
      name in DeviceStates(entries) && DeviceStates(entries)[name] == DeviceEntryState(entries[k])
  {
    hide DeviceEntryLabel, DeviceEntryState;
    if entries != [] {
      var n := |entries| - 1;
      DeviceStateIs(entries[..n], name);
      if DeviceEntryLabel(entries[n]) == name {
        assert IsLastOf(entries, n, name);
      } else {
        forall k
          ensures IsLastOf(entries, k, name) <==> IsLastOf(entries[..n], k, name)
        {
        }
      }
    }
  }

  /** What a label shows: the bus, vendor and product, the position or else the last path, and the
      serial number; the path alone for a key that says nothing. */
  lemma LabelShows(e: DisabledDeviceEntry)
    ensures var k, text := e.key, DeviceEntryLabel(e);
      && (k.bus != "" && k.vendorId != "" && k.position != "" && k.serial != "" ==>
            text == k.bus + " " + k.vendorId + ":" + k.productId + " @" + k.position + " #" + k.serial)
      && (k.bus != "" && k.vendorId == "" && k.productId == "" && k.position != "" && k.serial == "" ==>
            text == k.bus + " @" + k.position)
      && (k.bus == "" && k.productId != "" && k.position == "" && e.lastSysfsPath != "" && k.serial == "" ==>
            text == "device " + k.vendorId + ":" + k.productId + " @" + e.lastSysfsPath)
      && (k.position == "" && k.vendorId == "" && k.productId == "" ==>
            text == if e.lastSysfsPath == "" then "unknown device" else e.lastSysfsPath)
    ensures DeviceEntryState(e) == if e.mechanism == "" then "disabled" else "disabled (" + e.mechanism + ")"
  {
  }
}
