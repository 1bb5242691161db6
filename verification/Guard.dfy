/** The guard that is consulted before a device is disabled (core/src/critical_device_guard.cpp). */
module Guard {
  import opened Models

  // The sysfs paths that back what the machine cannot do without.
  datatype CriticalityFacts = CriticalityFacts(
    rootBackingPaths: seq<string>, bootBackingPaths: seq<string>,
    keyboardPaths: seq<string>, pointerPaths: seq<string>)

  datatype GuardReason =
    | BacksRoot
    | BacksBoot
    | OnlyKeyboard
    | OnlyPointer
    | InUseBy(holders: seq<string>)
    | InUse(refCount: int)
    | ModuleBacks(reason: GuardReason)

  datatype GuardVerdict = Allowed | Refused(reason: GuardReason)

  // ---------------------------------------------------------------- paths

  predicate IsUnder(path: string, prefix: string) {
    if prefix == "" || |path| < |prefix| then false
    else if path[..|prefix|] != prefix then false
    else |path| == |prefix| || path[|prefix|] == '/'
  }

  function Components(path: string): (r: seq<string>)
    ensures r != []
  {
    if path == "" then [""] else AddChar(path[0], Components(path[1..]))
  }

  function AddChar(c: char, rest: seq<string>): (r: seq<string>)
    requires rest != []
    ensures r != []
  {
    if c == '/' then [""] + rest else [[c] + rest[0]] + rest[1..]
  }

  lemma AddCharConcat(c: char, f: seq<string>, b: seq<string>)
    requires f != []
    ensures AddChar(c, f + b) == AddChar(c, f) + b
  {
    assert (f + b)[1..] == f[1..] + b;
  }

  lemma JoinAddChar(c: char, rest: seq<string>)
    requires rest != []
    ensures Join(AddChar(c, rest)) == [c] + Join(rest)
  {
    var split := AddChar(c, rest);
    if c == '/' {
      assert split[1..] == rest;
    } else {
      assert split[1..] == rest[1..];
      if |rest| > 1 {
        assert split[0] + "/" + Join(rest[1..]) == [c] + (rest[0] + "/" + Join(rest[1..]));
      }
    }
  }

  function Join(components: seq<string>): string
    requires components != []
  {
    if |components| == 1 then components[0] else components[0] + "/" + Join(components[1..])
  }

  lemma {:induction false} JoinComponents(path: string)
    ensures Join(Components(path)) == path
  {
    if path != "" {
      JoinComponents(path[1..]);
      JoinAddChar(path[0], Components(path[1..]));
      assert [path[0]] + path[1..] == path;
    }
  }

  lemma {:induction false} ComponentsOfSlash(front: string, back: string)
    ensures Components(front + "/" + back) == Components(front) + Components(back)
  {
    var path := front + "/" + back;
    if front == "" {
      assert path[1..] == back;
    } else {
      assert path[1..] == front[1..] + "/" + back;
      ComponentsOfSlash(front[1..], back);
      AddCharConcat(front[0], Components(front[1..]), Components(back));
    }
  }

  lemma {:induction false} JoinConcat(a: seq<string>, b: seq<string>)
    requires a != [] && b != []
    ensures Join(a + b) == Join(a) + "/" + Join(b)
  {
    if |a| == 1 {
      assert (a + b)[1..] == b;
    } else {
      JoinConcat(a[1..], b);
      assert (a + b)[1..] == a[1..] + b;
      assert a[0] + "/" + (Join(a[1..]) + "/" + Join(b)) == a[0] + "/" + Join(a[1..]) + "/" + Join(b);
    }
  }

  /** Being under a prefix that is not empty is being at or below it in the directory tree; nothing is
      under the empty one. */
  lemma IsUnderIff(path: string, prefix: string)
    ensures IsUnder(path, prefix) <==> prefix != "" && Components(prefix) <= Components(path)
  {
    var above, all := Components(prefix), Components(path);
    if IsUnder(path, prefix) {
      if |path| == |prefix| {
        assert path == prefix;
      } else {
        var rest := path[|prefix| + 1..];
        assert path == prefix + "/" + rest;
        ComponentsOfSlash(prefix, rest);
      }
    }
    if prefix != "" && above <= all {
      JoinComponents(path);
      JoinComponents(prefix);
      assert all == above + all[|above|..];
      if |above| == |all| {
        assert above == all;
      } else {
        JoinConcat(above, all[|above|..]);
        assert path == prefix + "/" + Join(all[|above|..]);
      }
    }
  }

  lemma UnderIsTransitive(p: string, q: string, r: string)
    requires IsUnder(p, q) && IsUnder(q, r)
    ensures IsUnder(p, r)
  {
    assert p[..|r|] == p[..|q|][..|r|];
    if |q| > |r| {
      assert p[..|q|][|r|] == '/';
    }
  }

  // ---------------------------------------------------------------- the verdict

  predicate AnyUnder(paths: seq<string>, target: string) {
    exists i :: 0 <= i < |paths| && IsUnder(paths[i], target)
  }

  predicate WouldRemoveAll(paths: seq<string>, target: string) {
    paths != [] && forall i :: 0 <= i < |paths| ==> IsUnder(paths[i], target)
  }

  function EvaluateDisable(facts: CriticalityFacts, target: string): GuardVerdict {
    if AnyUnder(facts.rootBackingPaths, target) then Refused(BacksRoot)
    else if AnyUnder(facts.bootBackingPaths, target) then Refused(BacksBoot)
    else if WouldRemoveAll(facts.keyboardPaths, target) then Refused(OnlyKeyboard)
    else if WouldRemoveAll(facts.pointerPaths, target) then Refused(OnlyPointer)
    else Allowed
  }

  // Some path is at or below the target; every path is, and there is one.
  ghost predicate SomeBelow(paths: seq<string>, target: string) {
    exists p :: p in paths && IsUnder(p, target)
  }

  ghost predicate AllBelow(paths: seq<string>, target: string) {
    paths != [] && forall p :: p in paths ==> IsUnder(p, target)
  }

  lemma BelowIs(paths: seq<string>, target: string)
    ensures AnyUnder(paths, target) <==> SomeBelow(paths, target)
    ensures WouldRemoveAll(paths, target) <==> AllBelow(paths, target)
  {
    hide IsUnder;
    if AnyUnder(paths, target) {
      var i :| 0 <= i < |paths| && IsUnder(paths[i], target);
      assert paths[i] in paths;
    }
    if AllBelow(paths, target) {
      assert forall i :: 0 <= i < |paths| ==> paths[i] in paths;
    }
  }

  /** A disable is allowed exactly if nothing that backs the root or the boot filesystem is at or below
      the device, and not every keyboard, if there is one, and not every pointer; otherwise the reason
      is the first of these that applies. */
  lemma DisableAllowedIff(facts: CriticalityFacts, target: string)
    ensures var root, boot := SomeBelow(facts.rootBackingPaths, target), SomeBelow(facts.bootBackingPaths, target);
      var keyboards, pointers := AllBelow(facts.keyboardPaths, target), AllBelow(facts.pointerPaths, target);
      var verdict := EvaluateDisable(facts, target);
      && (verdict == Allowed <==> !root && !boot && !keyboards && !pointers)
      && (verdict == Refused(BacksRoot) <==> root)
      && (verdict == Refused(BacksBoot) <==> !root && boot)
      && (verdict == Refused(OnlyKeyboard) <==> !root && !boot && keyboards)
      && (verdict == Refused(OnlyPointer) <==> !root && !boot && !keyboards && pointers)
  {
    hide AnyUnder, WouldRemoveAll, SomeBelow, AllBelow;
    BelowIs(facts.rootBackingPaths, target);
    BelowIs(facts.bootBackingPaths, target);
    BelowIs(facts.keyboardPaths, target);
    BelowIs(facts.pointerPaths, target);
  }

  lemma AnyUnderCarries(paths: seq<string>, target: string, ancestor: string)
    requires IsUnder(target, ancestor)
    ensures AnyUnder(paths, target) ==> AnyUnder(paths, ancestor)
    ensures WouldRemoveAll(paths, target) ==> WouldRemoveAll(paths, ancestor)
  {
    forall i | 0 <= i < |paths| && IsUnder(paths[i], target)
      ensures IsUnder(paths[i], ancestor)
    {
      UnderIsTransitive(paths[i], target, ancestor);
    }
  }

  /** What may not be disabled may not be removed with anything above it either. */
  lemma RefusalCarriesUp(facts: CriticalityFacts, target: string, ancestor: string)
    requires EvaluateDisable(facts, target).Refused? && IsUnder(target, ancestor)
    ensures EvaluateDisable(facts, ancestor).Refused?
  {
    AnyUnderCarries(facts.rootBackingPaths, target, ancestor);
    AnyUnderCarries(facts.bootBackingPaths, target, ancestor);
    AnyUnderCarries(facts.keyboardPaths, target, ancestor);
    AnyUnderCarries(facts.pointerPaths, target, ancestor);
  }

  // ---------------------------------------------------------------- runs of disables

  // The paths that are still live once everything under `target` is gone.
  function Live(paths: seq<string>, target: string): seq<string> {
    if paths == [] then []
    else (if IsUnder(paths[0], target) then [] else [paths[0]]) + Live(paths[1..], target)
  }

  function LiveFacts(facts: CriticalityFacts, target: string): CriticalityFacts {
    CriticalityFacts(Live(facts.rootBackingPaths, target), Live(facts.bootBackingPaths, target),
                     Live(facts.keyboardPaths, target), Live(facts.pointerPaths, target))
  }

  // Each disable is allowed against the facts that the ones before it left.
  ghost predicate AllowedInTurn(facts: CriticalityFacts, targets: seq<string>)
    decreases |targets|
  {
    targets == [] ||
    (EvaluateDisable(facts, targets[0]).Allowed? && AllowedInTurn(LiveFacts(facts, targets[0]), targets[1..]))
  }

  ghost function After(facts: CriticalityFacts, targets: seq<string>): CriticalityFacts
    decreases |targets|
  {
    if targets == [] then facts else After(LiveFacts(facts, targets[0]), targets[1..])
  }

  lemma {:induction false} NoneUnder(paths: seq<string>, target: string)
    requires !AnyUnder(paths, target)
    ensures Live(paths, target) == paths
  {
    if paths != [] {
      assert !IsUnder(paths[0], target);
      assert !AnyUnder(paths[1..], target);
      NoneUnder(paths[1..], target);
    }
  }

  lemma {:induction false} SomeLive(paths: seq<string>, target: string)
    requires paths != [] && !WouldRemoveAll(paths, target)
    ensures Live(paths, target) != []
  {
    if IsUnder(paths[0], target) {
      assert !WouldRemoveAll(paths[1..], target) && paths[1..] != [] by {
        var i :| 0 <= i < |paths| && !IsUnder(paths[i], target);
        assert !IsUnder(paths[1..][i - 1], target);
      }
      SomeLive(paths[1..], target);
    }
  }

  lemma {:induction false} LiveIsPart(paths: seq<string>, target: string, p: string)
    ensures p in Live(paths, target) <==> p in paths && !IsUnder(p, target)
  {
    if paths != [] {
      LiveIsPart(paths[1..], target, p);
      assert p in paths <==> p == paths[0] || p in paths[1..];
    }
  }

  /** Any sequence of disables, each allowed against the facts still live, leaves every device that
      backs the root or the boot filesystem, and a keyboard and a pointer if there were any. */
  lemma {:induction false} RunsAreSafe(facts: CriticalityFacts, targets: seq<string>)
    requires AllowedInTurn(facts, targets)
    ensures After(facts, targets).rootBackingPaths == facts.rootBackingPaths
    ensures After(facts, targets).bootBackingPaths == facts.bootBackingPaths
    ensures facts.keyboardPaths != [] ==> After(facts, targets).keyboardPaths != []
    ensures facts.pointerPaths != [] ==> After(facts, targets).pointerPaths != []
    decreases |targets|
  {
    if targets != [] {
      var target := targets[0];
      NoneUnder(facts.rootBackingPaths, target);
      NoneUnder(facts.bootBackingPaths, target);
      if facts.keyboardPaths != [] {
        SomeLive(facts.keyboardPaths, target);
      }
      if facts.pointerPaths != [] {
        SomeLive(facts.pointerPaths, target);
      }
      RunsAreSafe(LiveFacts(facts, target), targets[1..]);
    }
  }

  // No target of an allowed run is at or above a device that backs the root or boot filesystem.
  lemma {:induction false} RunsSpareBackingPaths(facts: CriticalityFacts, targets: seq<string>, k: nat, p: string)
    requires AllowedInTurn(facts, targets) && k < |targets|
    requires p in facts.rootBackingPaths || p in facts.bootBackingPaths
    ensures !IsUnder(p, targets[k])
    decreases k
  {
    NoneUnder(facts.rootBackingPaths, targets[0]);
    NoneUnder(facts.bootBackingPaths, targets[0]);
    if k == 0 {
      LiveIsPart(facts.rootBackingPaths, targets[0], p);
      LiveIsPart(facts.bootBackingPaths, targets[0], p);
    } else {
      RunsSpareBackingPaths(LiveFacts(facts, targets[0]), targets[1..], k - 1, p);
    }
  }

  // ---------------------------------------------------------------- modules

  datatype ModuleUnloadFacts = ModuleUnloadFacts(holders: seq<string>, refCount: int, affectedDevicePaths: seq<string>)

  ghost predicate EachAllowed(facts: CriticalityFacts, paths: seq<string>) {
    forall i :: 0 <= i < |paths| ==> EvaluateDisable(facts, paths[i]).Allowed?
  }

  // Why the first device that could not be disabled may not go.
  function FirstRefusal(facts: CriticalityFacts, paths: seq<string>): Option<GuardReason> {
    if paths == [] then None
    else
      match EvaluateDisable(facts, paths[0])
      case Refused(reason) => Some(reason)
      case Allowed => FirstRefusal(facts, paths[1..])
  }

  function ModuleVerdict(facts: CriticalityFacts, unload: ModuleUnloadFacts): GuardVerdict {
    if unload.holders != [] then Refused(InUseBy(unload.holders))
    else if unload.refCount > 0 then Refused(InUse(unload.refCount))
    else
      match FirstRefusal(facts, unload.affectedDevicePaths)
      case None => Allowed
      case Some(reason) => Refused(ModuleBacks(reason))
  }

  lemma {:induction false} FirstRefusalIff(facts: CriticalityFacts, paths: seq<string>)
    ensures FirstRefusal(facts, paths).None? <==> EachAllowed(facts, paths)
  {
    if paths != [] {
      FirstRefusalIff(facts, paths[1..]);
      if EachAllowed(facts, paths[1..]) && EvaluateDisable(facts, paths[0]).Allowed? {
        forall i | 0 <= i < |paths|
          ensures EvaluateDisable(facts, paths[i]).Allowed?
        {
          if i > 0 {
            assert paths[i] == paths[1..][i - 1];
          }
        }
      }
    }
  }

  /** A module may go exactly when nothing uses it and each device bound to it could be disabled
      by itself. */
  lemma ModuleVerdictIff(facts: CriticalityFacts, unload: ModuleUnloadFacts)
    ensures ModuleVerdict(facts, unload).Allowed?
        <==> unload.holders == [] && unload.refCount <= 0 && EachAllowed(facts, unload.affectedDevicePaths)
  {
    FirstRefusalIff(facts, unload.affectedDevicePaths);
  }

  // Path k is the first of a device that may not go, and this is why.
  ghost predicate IsFirstRefused(facts: CriticalityFacts, paths: seq<string>, k: int, reason: GuardReason) {
    && 0 <= k < |paths| && EvaluateDisable(facts, paths[k]) == Refused(reason)
    && EachAllowed(facts, paths[..k])
  }

  lemma {:induction false} FirstRefusalIs(facts: CriticalityFacts, paths: seq<string>)
    ensures FirstRefusal(facts, paths).Some? ==>
      exists k :: IsFirstRefused(facts, paths, k, FirstRefusal(facts, paths).value)
  {
    hide EvaluateDisable;
    if FirstRefusal(facts, paths).Some? {
      var reason := FirstRefusal(facts, paths).value;
      if EvaluateDisable(facts, paths[0]).Refused? {
        assert IsFirstRefused(facts, paths, 0, reason);
      } else {
        FirstRefusalIs(facts, paths[1..]);
        var k :| IsFirstRefused(facts, paths[1..], k, reason);
        assert paths[..k + 1] == [paths[0]] + paths[1..][..k];
        assert IsFirstRefused(facts, paths, k + 1, reason);
      }
    }
  }

  /** Why a module may not go: its holders, or else its use count, or else the reason of the first
      device bound to it that may not go. */
  lemma ModuleRefusalTells(facts: CriticalityFacts, unload: ModuleUnloadFacts)
    ensures match ModuleVerdict(facts, unload)
            case Allowed => unload.holders == [] && unload.refCount <= 0
            case Refused(InUseBy(holders)) => holders == unload.holders != []
            case Refused(InUse(count)) => unload.holders == [] && count == unload.refCount > 0
            case Refused(ModuleBacks(reason)) =>
              && unload.holders == [] && unload.refCount <= 0
              && exists k :: IsFirstRefused(facts, unload.affectedDevicePaths, k, reason)
            case Refused(_) => false
  {
    hide EvaluateDisable, FirstRefusal;
    FirstRefusalIs(facts, unload.affectedDevicePaths);
  }

  method EvaluateModuleUnload(facts: CriticalityFacts, unload: ModuleUnloadFacts) returns (verdict: GuardVerdict)
    ensures verdict == ModuleVerdict(facts, unload)
  {
    if unload.holders != [] {
      return Refused(InUseBy(unload.holders));
    }
    if unload.refCount > 0 {
      return Refused(InUse(unload.refCount));
    }
    var paths := unload.affectedDevicePaths;
    for i := 0 to |paths|
      invariant FirstRefusal(facts, paths) == FirstRefusal(facts, paths[i..])
    {
      var v := EvaluateDisable(facts, paths[i]);
      if v.Refused? {
        return Refused(ModuleBacks(v.reason));
      }
      assert paths[i..][1..] == paths[i + 1..];
    }
    return Allowed;
  }

  // The paths that are still live once everything under any of the targets is gone.
  function LiveAll(paths: seq<string>, targets: seq<string>): seq<string>
    decreases |targets|
  {
    if targets == [] then paths else LiveAll(Live(paths, targets[0]), targets[1..])
  }

  lemma {:induction false} AfterIsLiveAll(facts: CriticalityFacts, targets: seq<string>)
    ensures After(facts, targets)
         == CriticalityFacts(LiveAll(facts.rootBackingPaths, targets), LiveAll(facts.bootBackingPaths, targets),
                             LiveAll(facts.keyboardPaths, targets), LiveAll(facts.pointerPaths, targets))
    decreases |targets|
  {
    if targets != [] {
      AfterIsLiveAll(LiveFacts(facts, targets[0]), targets[1..]);
    }
  }

  // Some path is under none of the targets.
  ghost predicate OneEscapes(paths: seq<string>, targets: seq<string>) {
    exists p :: p in paths && IsUnderNone(p, targets)
  }

  ghost predicate IsUnderNone(p: string, targets: seq<string>) {
    forall t :: t in targets ==> !IsUnder(p, t)
  }

  lemma {:induction false} LiveAllIsPart(paths: seq<string>, targets: seq<string>, p: string)
    ensures p in LiveAll(paths, targets) <==> p in paths && IsUnderNone(p, targets)
    decreases |targets|
  {
    if targets != [] {
      LiveIsPart(paths, targets[0], p);
      LiveAllIsPart(Live(paths, targets[0]), targets[1..], p);
      assert IsUnderNone(p, targets) <==> !IsUnder(p, targets[0]) && IsUnderNone(p, targets[1..]) by {
        assert targets == [targets[0]] + targets[1..];
      }
    }
  }

  lemma SomeLiveIff(paths: seq<string>, targets: seq<string>)
    ensures LiveAll(paths, targets) != [] <==> OneEscapes(paths, targets)
  {
    var live := LiveAll(paths, targets);
    if live != [] {
      LiveAllIsPart(paths, targets, live[0]);
    }
    if OneEscapes(paths, targets) {
      var p :| p in paths && IsUnderNone(p, targets);
      LiveAllIsPart(paths, targets, p);
    }
  }

  lemma {:induction false} UntouchedByAll(paths: seq<string>, targets: seq<string>)
    requires forall i :: 0 <= i < |targets| ==> !AnyUnder(paths, targets[i])
    ensures LiveAll(paths, targets) == paths
    decreases |targets|
  {
    if targets != [] {
      NoneUnder(paths, targets[0]);
      assert forall i :: 0 <= i < |targets[1..]| ==> targets[1..][i] == targets[i + 1];
      UntouchedByAll(paths, targets[1..]);
    }
  }

  /** What a module that may go takes with it, jointly: no device that backs the root or the boot
      filesystem; and a keyboard, or a pointer, is left exactly when one is under none of the
      affected devices. */
  lemma ModuleRemoval(facts: CriticalityFacts, unload: ModuleUnloadFacts)
    requires ModuleVerdict(facts, unload).Allowed?
    ensures var after := After(facts, unload.affectedDevicePaths);
      && after.rootBackingPaths == facts.rootBackingPaths && after.bootBackingPaths == facts.bootBackingPaths
      && (after.keyboardPaths != [] <==> OneEscapes(facts.keyboardPaths, unload.affectedDevicePaths))
      && (after.pointerPaths != [] <==> OneEscapes(facts.pointerPaths, unload.affectedDevicePaths))
  {
    var targets := unload.affectedDevicePaths;
    ModuleVerdictIff(facts, unload);
    assert forall i :: 0 <= i < |targets| ==> EvaluateDisable(facts, targets[i]).Allowed?;
    AfterIsLiveAll(facts, targets);
    UntouchedByAll(facts.rootBackingPaths, targets);
    UntouchedByAll(facts.bootBackingPaths, targets);
    SomeLiveIff(facts.keyboardPaths, targets);
    SomeLiveIff(facts.pointerPaths, targets);
  }

  /** The check looks at one device at a time: two keyboards on one module pass, and both go. */
  lemma ModulesAreNotJoint(a: string, b: string)
    requires a != "" && b != "" && !IsUnder(a, b) && !IsUnder(b, a)
    ensures var facts := CriticalityFacts([], [], [a, b], []);
      && EachAllowed(facts, [a, b])
      && LiveFacts(LiveFacts(facts, a), b).keyboardPaths == []
  {
    var facts := CriticalityFacts([], [], [a, b], []);
    assert facts.keyboardPaths[0] == a && facts.keyboardPaths[1] == b;
    LiveOfTwo(a, b);
  }

  lemma LiveOfTwo(a: string, b: string)
    requires a != "" && b != "" && !IsUnder(b, a)
    ensures Live([a, b], a) == [b] && Live([b], b) == []
  {
    assert [a, b][1..] == [b] && [b][1..] == [];
    assert IsUnder(a, a) && IsUnder(b, b);
    assert Live([], a) == Live([], b) == [];
    assert Live([b], a) == [b] + [];
  }
}
