/** The parent chain as every surface shows it: depth, chain starts, the tip and the newest good
    snapshot (core/src/snapshot_history.cpp). */
module SnapshotHistory {
  import opened Models
  import opened SnapshotOrder

  datatype ChainRow = ChainRow(meta: SnapshotMeta, chainStart: bool, head: bool, lastGood: bool, depth: nat)

  // The entries above a row: its parent, the parent's parent, and so on, no id twice.
  ghost function Ancestors(metas: Metas, meta: SnapshotMeta): Metas {
    match meta.parent
    case None => []
    case Some(parent) => Walk(metas, parent, {meta.id})
  }

  ghost predicate StartsChain(metas: Metas, meta: SnapshotMeta) {
    meta.parent.None? || !HasId(metas, meta.parent.value)
  }

  ghost predicate Claimed(metas: Metas, id: string) {
    exists i :: 0 <= i < |metas| && metas[i].parent == Some(id)
  }

  ghost predicate IsTip(metas: Metas, i: nat)
    requires i < |metas|
  {
    !Claimed(metas, metas[i].id)
  }

  predicate IsGood(metas: Metas, i: nat)
    requires i < |metas|
  {
    metas[i].health == Ok
  }

  ghost predicate FirstTip(metas: Metas, i: nat)
    requires i < |metas|
  {
    IsTip(metas, i) && forall j :: 0 <= j < i ==> !IsTip(metas, j)
  }

  ghost predicate FirstGood(metas: Metas, i: nat)
    requires i < |metas|
  {
    IsGood(metas, i) && forall j :: 0 <= j < i ==> !IsGood(metas, j)
  }

  ghost predicate IsRow(metas: Metas, i: nat, row: ChainRow)
    requires i < |metas|
  {
    && row.meta == metas[i]
    && row.chainStart == StartsChain(metas, metas[i])
    && row.head == FirstTip(metas, i)
    && row.lastGood == FirstGood(metas, i)
    && row.depth == |Ancestors(metas, metas[i])|
  }

  ghost predicate IsChain(metas: Metas, rows: seq<ChainRow>) {
    |rows| == |metas| && forall i :: 0 <= i < |metas| ==> IsRow(metas, i, rows[i])
  }

  // ---------------------------------------------------------------- every listing

  /** However the parent links run, a row is fewer steps deep than the listing has rows. */
  lemma DepthIsBounded(metas: Metas, i: nat)
    requires i < |metas|
    ensures |Ancestors(metas, metas[i])| < |metas|
  {
    var meta := metas[i];
    if meta.parent.Some? {
      var above := Ancestors(metas, meta);
      WalkFollows(metas, meta.parent.value, {meta.id});
      FewIds(above);
      FewIds(metas);
      forall id | id in Ids(above)
        ensures id in Ids(metas) && id != meta.id
      {
        var k :| 0 <= k < |above| && above[k].id == id;
        assert Find(metas, id) == Some(above[k]);
      }
      assert meta.id in Ids(metas);
      SubsetFewer(Ids(above), Ids(metas));
    }
  }

  /** Depth 0 marks the chain starts, and besides them only a row that names itself as parent. */
  lemma DepthZeroIff(metas: Metas, i: nat)
    requires i < |metas|
    ensures Ancestors(metas, metas[i]) == [] <==> StartsChain(metas, metas[i]) || metas[i].parent == Some(metas[i].id)
  {
    var meta := metas[i];
    if meta.parent.Some? {
      WalkFollows(metas, meta.parent.value, {meta.id});
    }
  }

  lemma {:induction false} SomeFirstGood(metas: Metas, n: nat) returns (i: nat)
    requires n < |metas| && IsGood(metas, n)
    ensures i < |metas| && FirstGood(metas, i)
    decreases n
  {
    i := n;
    if j :| 0 <= j < n && IsGood(metas, j) {
      i := SomeFirstGood(metas, j);
    }
  }

  lemma {:induction false} SomeFirstTip(metas: Metas, n: nat) returns (i: nat)
    requires n < |metas| && IsTip(metas, n)
    ensures i < |metas| && FirstTip(metas, i)
    decreases n
  {
    i := n;
    if j :| 0 <= j < n && IsTip(metas, j) {
      i := SomeFirstTip(metas, j);
    }
  }

  /** Some row is marked last-good exactly when some row is healthy, and then it is the first one. */
  lemma LastGoodIff(metas: Metas, rows: seq<ChainRow>)
    requires IsChain(metas, rows)
    ensures (exists i :: 0 <= i < |rows| && rows[i].lastGood) <==>
            (exists i :: 0 <= i < |metas| && metas[i].health == Ok)
    ensures forall i, j :: 0 <= i < |rows| && 0 <= j < |rows| && rows[i].lastGood && rows[j].lastGood ==> i == j
  {
    if k :| 0 <= k < |metas| && metas[k].health == Ok {
      var i := SomeFirstGood(metas, k);
      assert rows[i].lastGood;
    }
    if k :| 0 <= k < |rows| && rows[k].lastGood {
      assert metas[k].health == Ok;
    }
    forall i, j | 0 <= i < |rows| && 0 <= j < |rows| && rows[i].lastGood && rows[j].lastGood
      ensures i == j
    {
      assert IsRow(metas, i, rows[i]) && IsRow(metas, j, rows[j]);
    }
  }

  // ---------------------------------------------------------------- listings without cycles

  // Each id is the listed parent of the one before.
  ghost predicate IsPath(metas: Metas, path: seq<string>) {
    && (forall k :: 0 <= k < |path| ==> HasId(metas, path[k]))
    && (forall k :: 0 <= k < |path| - 1 ==> Find(metas, path[k]).value.parent == Some(path[k + 1]))
  }

  ghost predicate Acyclic(metas: Metas) {
    forall path :: IsPath(metas, path) && |path| > 1 ==> path[0] != path[|path| - 1]
  }

  ghost function IdsOf(metas: Metas): (r: seq<string>)
    ensures |r| == |metas| && forall k :: 0 <= k < |metas| ==> r[k] == metas[k].id
  {
    seq(|metas|, k requires 0 <= k < |metas| => metas[k].id)
  }

  lemma AncestorPath(metas: Metas, meta: SnapshotMeta, k: nat)
    requires Find(metas, meta.id) == Some(meta) && k < |Ancestors(metas, meta)|
    ensures IsPath(metas, [meta.id] + IdsOf(Ancestors(metas, meta)[..k + 1]))
  {
    var above := Ancestors(metas, meta);
    WalkFollows(metas, meta.parent.value, {meta.id});
    var path := [meta.id] + IdsOf(above[..k + 1]);
    forall j | 0 <= j < |path|
      ensures HasId(metas, path[j])
    {
      if j > 0 {
        assert path[j] == above[j - 1].id;
        assert Find(metas, path[j]) == Some(above[j - 1]);
      }
    }
    forall j | 0 <= j < |path| - 1
      ensures Find(metas, path[j]).value.parent == Some(path[j + 1])
    {
      assert path[j + 1] == above[j].id;
      if j > 0 {
        assert path[j] == above[j - 1].id;
        assert Find(metas, path[j]) == Some(above[j - 1]);
        assert above[j - 1].parent == Some(above[j].id);
      }
    }
  }

  // An id that a walk does not meet may as well be barred from it.
  lemma {:induction false} UnmetIsIrrelevant(metas: Metas, id: string, taken: set<string>, x: string)
    requires x !in Ids(Walk(metas, id, taken)) && HasId(metas, x)
    ensures Walk(metas, id, taken + {x}) == Walk(metas, id, taken)
    decreases Ids(metas) - taken
  {
    hide Walk, Ids;
    WalkStops(metas, id, taken);
    WalkStops(metas, id, taken + {x});
    if id !in taken {
      WalkUnfolds(metas, id, taken);
      IdIsListed(metas, id);
      if HasId(metas, id) {
        var meta := Find(metas, id).value;
        IdsOne(meta);
        if meta.parent.None? {
          WalkUnfolds(metas, id, taken + {x});
        } else {
          var tail := Walk(metas, meta.parent.value, taken + {id});
          IdsConcat([meta], tail);
          assert x != id;
          WalkUnfolds(metas, id, taken + {x});
          UnmetIsIrrelevant(metas, meta.parent.value, taken + {id}, x);
          assert taken + {id} + {x} == taken + {x} + {id};
        }
      } else {
        assert x != id;
        WalkUnfolds(metas, id, taken + {x});
      }
    }
  }

  lemma {:induction false} FindIn(metas: Metas, i: nat)
    requires DistinctIds(metas) && i < |metas|
    ensures Find(metas, metas[i].id) == Some(metas[i])
  {
    if i > 0 {
      FindIn(metas[1..], i - 1);
    }
  }

  lemma OnePath(metas: Metas, id: string)
    requires HasId(metas, id)
    ensures IsPath(metas, [id])
  {
  }

  lemma PathPrepends(metas: Metas, id: string, path: seq<string>)
    requires HasId(metas, id) && IsPath(metas, path)
    requires path != [] ==> Find(metas, id).value.parent == Some(path[0])
    ensures IsPath(metas, [id] + path)
  {
  }

  lemma NotAboveItself(metas: Metas, meta: SnapshotMeta, parent: SnapshotMeta)
    requires Acyclic(metas) && Find(metas, meta.id) == Some(meta) && Find(metas, parent.id) == Some(parent)
    requires meta.parent == Some(parent.id)
    ensures meta.id != parent.id && meta.id !in Ids(Ancestors(metas, parent))
  {
    hide IsPath, Ancestors, Find;
    OnePath(metas, parent.id);
    PathPrepends(metas, meta.id, [parent.id]);
    assert ([meta.id] + [parent.id])[1] == parent.id;
    var above := Ancestors(metas, parent);
    if meta.id in Ids(above) {
      var k :| 0 <= k < |above| && above[k].id == meta.id;
      AncestorPath(metas, parent, k);
      var up := [parent.id] + IdsOf(above[..k + 1]);
      assert ([meta.id] + up)[k + 2] == meta.id;
      PathPrepends(metas, meta.id, up);
    }
  }

  /** Without cycles and with distinct ids, a row is one deeper than its listed parent. */
  lemma DepthCountsLinks(metas: Metas, i: nat, j: nat)
    requires Acyclic(metas) && DistinctIds(metas) && i < |metas| && j < |metas|
    requires metas[i].parent == Some(metas[j].id)
    ensures |Ancestors(metas, metas[i])| == |Ancestors(metas, metas[j])| + 1
  {
    var meta, parent := metas[i], metas[j];
    FindIn(metas, i);
    FindIn(metas, j);
    NotAboveItself(metas, meta, parent);
    WalkUnfolds(metas, parent.id, {meta.id});
    if parent.parent.Some? {
      UnmetIsIrrelevant(metas, parent.parent.value, {parent.id}, meta.id);
      assert {parent.id} + {meta.id} == {meta.id} + {parent.id};
    }
  }

  lemma SelfParentIsCycle(metas: Metas, meta: SnapshotMeta)
    requires Find(metas, meta.id) == Some(meta) && meta.parent == Some(meta.id)
    ensures !Acyclic(metas)
  {
    assert IsPath(metas, [meta.id, meta.id]);
  }

  lemma DepthZeroIffStart(metas: Metas, i: nat)
    requires Acyclic(metas) && DistinctIds(metas) && i < |metas|
    ensures Ancestors(metas, metas[i]) == [] <==> StartsChain(metas, metas[i])
  {
    DepthZeroIff(metas, i);
    FindIn(metas, i);
    if metas[i].parent == Some(metas[i].id) {
      SelfParentIsCycle(metas, metas[i]);
    }
  }

  lemma {:induction false} DeepestRow(metas: Metas, all: Metas) returns (i: nat)
    requires metas != []
    ensures i < |metas|
    ensures forall j :: 0 <= j < |metas| ==> |Ancestors(all, metas[j])| <= |Ancestors(all, metas[i])|
  {
    i := 0;
    if |metas| > 1 {
      var k := DeepestRow(metas[1..], all);
      var m := metas[k + 1];
      assert forall j :: 1 <= j < |metas| ==> metas[j] == metas[1..][j - 1];
      if |Ancestors(all, metas[0])| <= |Ancestors(all, m)| {
        i := k + 1;
      }
    }
  }

  /** Without cycles and with distinct ids, a listing that is not empty has a tip, and one row is
      marked as head. */
  lemma OneHeadRow(metas: Metas, rows: seq<ChainRow>)
    requires Acyclic(metas) && DistinctIds(metas) && metas != [] && IsChain(metas, rows)
    ensures exists i :: 0 <= i < |rows| && rows[i].head
    ensures forall i, j :: 0 <= i < |rows| && 0 <= j < |rows| && rows[i].head && rows[j].head ==> i == j
  {
    hide Ancestors;
    var deepest := DeepestRow(metas, metas);
    if Claimed(metas, metas[deepest].id) {
      var child :| 0 <= child < |metas| && metas[child].parent == Some(metas[deepest].id);
      DepthCountsLinks(metas, child, deepest);
      assert false;
    }
    var i := SomeFirstTip(metas, deepest);
    assert rows[i].head;
    OneHead(metas, rows);
  }

  lemma OneHead(metas: Metas, rows: seq<ChainRow>)
    requires IsChain(metas, rows)
    ensures forall i, j :: 0 <= i < |rows| && 0 <= j < |rows| && rows[i].head && rows[j].head ==> i == j
  {
    forall i, j | 0 <= i < |rows| && 0 <= j < |rows| && rows[i].head && rows[j].head
      ensures i == j
    {
      assert IsRow(metas, i, rows[i]) && IsRow(metas, j, rows[j]);
    }
  }

  /** On every listing, with cycles or repeated ids, a row is marked as head exactly when some listed
      id is nobody's listed parent, and no more than one row is. */
  lemma HeadRowIff(metas: Metas, rows: seq<ChainRow>)
    requires IsChain(metas, rows)
    ensures (exists i :: 0 <= i < |rows| && rows[i].head) <==> (exists i :: 0 <= i < |metas| && IsTip(metas, i))
    ensures forall i, j :: 0 <= i < |rows| && 0 <= j < |rows| && rows[i].head && rows[j].head ==> i == j
  {
    if k :| 0 <= k < |metas| && IsTip(metas, k) {
      var i := SomeFirstTip(metas, k);
      assert IsRow(metas, i, rows[i]);
      assert rows[i].head;
    }
    if k :| 0 <= k < |rows| && rows[k].head {
      assert IsRow(metas, k, rows[k]);
      assert IsTip(metas, k);
    }
    OneHead(metas, rows);
  }

  // A two-row cycle has no head row.
  lemma CycleHasNoHead(a: SnapshotMeta, b: SnapshotMeta)
    requires a.parent == Some(b.id) && b.parent == Some(a.id)
    ensures !IsTip([a, b], 0) && !IsTip([a, b], 1)
  {
    assert [a, b][0].parent == Some(b.id) && [a, b][1].parent == Some(a.id);
  }

  // ---------------------------------------------------------------- the loops

  method DepthOf(metas: Metas, meta: SnapshotMeta, byId: map<string, nat>) returns (depth: nat)
    requires Indexes(byId, metas, metas)
    ensures depth == |Ancestors(metas, meta)|
  {
    hide Walk, HasId, Ids;
    var visited := {meta.id};
    depth := 0;
    var current := meta;
    ghost var rest := Ancestors(metas, meta);
    while current.parent.Some?
      invariant current.parent.None? ==> rest == []
      invariant current.parent.Some? ==> rest == Walk(metas, current.parent.value, visited)
      invariant depth + |rest| == |Ancestors(metas, meta)|
      decreases |rest|
    {
      var parent := current.parent.value;
      WalkStops(metas, parent, visited);
      if parent !in visited {
        WalkUnfolds(metas, parent, visited);
      }
      if parent !in byId || parent in visited {
        break;
      }
      visited := visited + {parent};
      current := metas[byId[parent]];
      depth, rest := depth + 1, rest[1..];
    }
  }

  ghost predicate ClaimsOf(claimed: set<string>, metas: Metas) {
    forall id :: id in claimed <==> Claimed(metas, id)
  }

  lemma ClaimedNext(metas: Metas, i: nat, id: string)
    requires i < |metas|
    ensures Claimed(metas[..i + 1], id) <==> Claimed(metas[..i], id) || metas[i].parent == Some(id)
  {
    if Claimed(metas[..i + 1], id) && metas[i].parent != Some(id) {
      var next := metas[..i + 1];
      var k :| 0 <= k < |next| && next[k].parent == Some(id);
      assert metas[..i][k].parent == Some(id);
    }
    if Claimed(metas[..i], id) {
      var k :| 0 <= k < |metas[..i]| && metas[..i][k].parent == Some(id);
      assert metas[..i + 1][k].parent == Some(id);
    }
    if metas[i].parent == Some(id) {
      assert metas[..i + 1][i].parent == Some(id);
    }
  }

  method CollectClaims(metas: Metas) returns (claimed: set<string>)
    ensures ClaimsOf(claimed, metas)
  {
    claimed := {};
    for i := 0 to |metas|
      invariant ClaimsOf(claimed, metas[..i])
    {
      forall id
        ensures Claimed(metas[..i + 1], id) <==> Claimed(metas[..i], id) || metas[i].parent == Some(id)
      {
        ClaimedNext(metas, i, id);
      }
      if metas[i].parent.Some? {
        claimed := claimed + {metas[i].parent.value};
      }
    }
    assert metas[..|metas|] == metas;
  }

  method BuildSnapshotChain(metas: Metas) returns (rows: seq<ChainRow>)
    ensures IsChain(metas, rows)
  {
    hide Ancestors, Claimed, HasId, Find;
    var byId := IndexById(metas);
    var claimed := CollectClaims(metas);
    rows := [];
    var headTaken, lastGoodTaken := false, false;
    for i := 0 to |metas|
      invariant |rows| == i
      invariant forall k :: 0 <= k < i ==> IsRow(metas, k, rows[k])
      invariant headTaken <==> exists k :: 0 <= k < i && IsTip(metas, k)
      invariant lastGoodTaken <==> exists k :: 0 <= k < i && IsGood(metas, k)
    {
      var meta := metas[i];
      var depth := DepthOf(metas, meta, byId);
      var head := !headTaken && meta.id !in claimed;
      var lastGood := !lastGoodTaken && meta.health == Ok;
      assert IsTip(metas, i) <==> meta.id !in claimed;
      assert IsGood(metas, i) <==> meta.health == Ok;
      assert head <==> FirstTip(metas, i);
      assert lastGood <==> FirstGood(metas, i);
      headTaken, lastGoodTaken := headTaken || head, lastGoodTaken || lastGood;
      rows := rows + [ChainRow(meta, meta.parent.None? || meta.parent.value !in byId, head, lastGood, depth)];
    }
  }
}
