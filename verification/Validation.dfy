/** What the bus verbs accept as arguments (daemon/include/devmgr/daemon/request_validation.hpp). */
module Validation {

  predicate IsAlphanumeric(c: char) {
    'a' <= c <= 'z' || 'A' <= c <= 'Z' || '0' <= c <= '9'
  }

  predicate ValidCaller(caller: string) {
    0 < |caller| <= 255
  }

  predicate ValidName(name: string) {
    0 < |name| <= 63 && forall i :: 0 <= i < |name| ==> IsAlphanumeric(name[i]) || name[i] == '_' || name[i] == '-'
  }

  predicate ValidPath(path: string) {
    0 < |path| <= 4096 && forall i :: 0 <= i < |path| ==> path[i] != '\0'
  }

  predicate ValidSnapshotId(id: string) {
    0 < |id| <= 64 && forall i :: 0 <= i < |id| ==> '0' <= id[i] <= '9' || 'a' <= id[i] <= 'f'
  }

  predicate ValidLabel(text: string) {
    |text| <= 128 && forall i :: 0 <= i < |text| ==> ' ' <= text[i] <= '~' || text[i] >= 128 as char
  }

  // The characters that a valid name or snapshot id cannot contain lead out of a directory or a line.
  predicate LeadsOut(c: char) {
    c == '/' || c == '.' || c == ' ' || c == '\t' || c == '\n' || c == '\0' || c == '#' || c == '='
  }

  /** A valid name or id names one file of its directory, and a valid label is one line. */
  lemma ValidStaysInPlace(s: string, i: nat)
    requires i < |s|
    ensures ValidName(s) || ValidSnapshotId(s) ==> !LeadsOut(s[i])
    ensures ValidLabel(s) ==> s[i] != '\n' && s[i] != '\t' && s[i] != '\0' && s[i] != 127 as char
    ensures ValidPath(s) ==> s[i] != '\0'
  {
  }

  function Run(c: char, n: nat): (s: string)
    ensures |s| == n && forall i :: 0 <= i < n ==> s[i] == c
  {
    seq(n, _ => c)
  }

  /** The bounds on lengths are exact, and each allowed kind of character is allowed. */
  lemma LengthsAreExact(n: nat)
    ensures ValidCaller(Run(':', n)) <==> 1 <= n <= 255
    ensures ValidName(Run('a', n)) <==> 1 <= n <= 63
    ensures ValidName(Run('Z', n)) && ValidName(Run('9', n)) && ValidName(Run('_', n)) && ValidName(Run('-', n))
        <==> 1 <= n <= 63
    ensures ValidPath(Run('/', n)) <==> 1 <= n <= 4096
    ensures ValidSnapshotId(Run('0', n)) && ValidSnapshotId(Run('f', n)) <==> 1 <= n <= 64
    ensures ValidLabel(Run(' ', n)) && ValidLabel(Run('~', n)) && ValidLabel(Run(128 as char, n)) <==> n <= 128
    ensures 0 < n <= 63 ==> !ValidSnapshotId(Run('g', n)) && !ValidSnapshotId(Run('A', n)) && !ValidName(Run(':', n))
  {
    hide Run;
    if n > 0 {
      var a, z, nine, bar, dash := Run('a', n)[0], Run('Z', n)[0], Run('9', n)[0], Run('_', n)[0], Run('-', n)[0];
      var g, upper, colon := Run('g', n)[0], Run('A', n)[0], Run(':', n)[0];
    }
  }
}
