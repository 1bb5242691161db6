/** When the parent links of stored snapshots form a cycle (daemon/src/snapshot_store.cpp,
    core/src/snapshot_history.cpp). */
module SnapshotCycles {
  import opened Models
  import opened SnapshotOrder
  import opened SnapshotHistory
  import opened SnapshotStore

  type Files = map<string, Document>

  function ParentOf(files: Files, id: string): Option<string>
    requires id in files
  {
    BestEffortMeta(files[id], id).parent
  }

  // Each id is stored and is the recorded parent of the one before.
  ghost predicate IsLinkPath(files: Files, path: seq<string>) {
    && (forall k :: 0 <= k < |path| ==> path[k] in files)
    && (forall k :: 0 <= k < |path| - 1 ==> ParentOf(files, path[k]) == Some(path[k + 1]))
  }

  ghost predicate NoCycle(files: Files) {
    forall path :: IsLinkPath(files, path) && |path| > 1 ==> path[0] != path[|path| - 1]
  }

  // ---------------------------------------------------------------- the walk from HEAD

  // The stored ids that the parent links reach from `id`, none twice and none of `taken`.
  function WalkIds(files: Files, id: string, taken: set<string>): seq<string>
    decreases files.Keys - taken
  {
    if id in taken || id !in files then []
    else
      [id] + match ParentOf(files, id)
             case None => []
             case Some(parent) => WalkIds(files, parent, taken + {id})
  }

  // The id without a file at which that walk stops, if that is how it stops.
  function LooseEnd(files: Files, id: string, taken: set<string>): Option<string>
    decreases files.Keys - taken
  {
    if id in taken then None
    else if id !in files then Some(id)
    else
      match ParentOf(files, id)
      case None => None
      case Some(parent) => LooseEnd(files, parent, taken + {id})
  }

  function WalkFromHead(dir: Directory): seq<string> {
    match dir.head
    case None => []
    case Some(id) => WalkIds(dir.files, id, {})
  }

  /** The walk from HEAD stops at this id, which has no file and is not what HEAD names. */
  predicate ClosesCycle(dir: Directory, id: string) {
    dir.head.Some? && dir.head != Some(id) && LooseEnd(dir.files, dir.head.value, {}) == Some(id)
  }

  lemma {:induction false} WalkIsLinkPath(files: Files, id: string, taken: set<string>)
    requires LooseEnd(files, id, taken).Some?
    ensures var walk, end := WalkIds(files, id, taken), LooseEnd(files, id, taken).value;
      && IsLinkPath(files, walk) && end !in files
      && (walk == [] ==> id == end)
      && (walk != [] ==> walk[0] == id && ParentOf(files, walk[|walk| - 1]) == Some(end))
    decreases files.Keys - taken
  {
    if id in files {
      WalkIsLinkPath(files, ParentOf(files, id).value, taken + {id});
    }
  }

  // A link path from x that ends at an id without a file is the walk from x.
  lemma {:induction false} PathIsWalk(files: Files, path: seq<string>, end: string, taken: set<string>)
    requires IsLinkPath(files, path) && end !in files && end !in taken
    requires path != [] ==> ParentOf(files, path[|path| - 1]) == Some(end)
    requires forall i, j :: 0 <= i < j < |path| ==> path[i] != path[j]
    requires forall i :: 0 <= i < |path| ==> path[i] !in taken
    ensures var x := if path == [] then end else path[0];
      WalkIds(files, x, taken) == path && LooseEnd(files, x, taken) == Some(end)
    decreases |path|
  {
    if path != [] {
      PathIsWalk(files, path[1..], end, taken + {path[0]});
    }
  }

  // ---------------------------------------------------------------- what a put writes

  // The files once the put's document is written, before anything is pruned.
  function WithNew(hash: Hash, dir: Directory, payload: SnapshotPayload, trigger: SnapshotTrigger,
                   reason: SnapshotReason, now: int): Files {
    var id := hash(payload);
    if dir.head == Some(id) || id in dir.files then dir.files
    else dir.files[id := NewDocument(id, dir.head, payload, trigger, reason, now)]
  }

  // Some of the files, unchanged.
  ghost predicate IsPartOf(part: Files, files: Files) {
    part.Keys <= files.Keys && forall id :: id in part ==> part[id] == files[id]
  }

  lemma PartHasNoCycle(part: Files, files: Files)
    requires IsPartOf(part, files) && NoCycle(files)
    ensures NoCycle(part)
  {
    forall path | IsLinkPath(part, path) && |path| > 1
      ensures path[0] != path[|path| - 1]
    {
      assert IsLinkPath(files, path);
    }
  }

  lemma IsCycle(files: Files, path: seq<string>)
    requires IsLinkPath(files, path) && |path| > 1 && path[0] == path[|path| - 1]
    ensures !NoCycle(files)
  {
  }

  lemma LinkPathNext(files: Files, path: seq<string>, id: string)
    requires IsLinkPath(files, path) && id in files
    requires path != [] ==> ParentOf(files, path[|path| - 1]) == Some(id)
    ensures IsLinkPath(files, path + [id])
  {
  }

  lemma LinkPathJoin(files: Files, a: seq<string>, b: seq<string>)
    requires IsLinkPath(files, a) && IsLinkPath(files, b)
    requires a != [] && b != [] ==> ParentOf(files, a[|a| - 1]) == Some(b[0])
    ensures IsLinkPath(files, a + b)
  {
  }

  lemma LinkPathSlice(files: Files, path: seq<string>, i: nat, j: nat)
    requires IsLinkPath(files, path) && i <= j <= |path|
    ensures IsLinkPath(files, path[i..j])
  {
  }

  // The cycle that is closed: the new document, then the walk from HEAD, then the new one again.
  lemma ClosedCycle(dir: Directory, id: string, doc: Document)
    requires ClosesCycle(dir, id) && BestEffortMeta(doc, id).parent == dir.head
    ensures var cycle := [id] + WalkFromHead(dir) + [id];
      IsLinkPath(dir.files[id := doc], cycle) && !NoCycle(dir.files[id := doc])
  {
    var files, walk := dir.files[id := doc], WalkFromHead(dir);
    WalkIsLinkPath(dir.files, dir.head.value, {});
    assert IsLinkPath(files, walk);
    assert IsLinkPath(files, [id]);
    LinkPathJoin(files, [id], walk);
    LinkPathNext(files, [id] + walk, id);
    IsCycle(files, [id] + walk + [id]);
  }

  lemma {:induction false} FirstIndex(path: seq<string>, id: string) returns (j: nat)
    requires id in path
    ensures j < |path| && path[j] == id && forall k :: 0 <= k < j ==> path[k] != id
  {
    if path[0] == id {
      j := 0;
    } else {
      j := FirstIndex(path[1..], id);
      j := j + 1;
    }
  }

  // A cycle through `id`, turned so that it starts with what follows `id` and ends with it.
  lemma Turned(files: Files, path: seq<string>, k: nat) returns (turned: seq<string>)
    requires IsLinkPath(files, path) && |path| > 1 && path[0] == path[|path| - 1] && k < |path| - 1
    ensures IsLinkPath(files, turned) && turned != []
    ensures turned[0] == path[k + 1] && turned[|turned| - 1] == path[k]
  {
    var a, b := path[k + 1..|path|], path[1..k + 1];
    LinkPathSlice(files, path, k + 1, |path|);
    LinkPathSlice(files, path, 1, k + 1);
    LinkPathJoin(files, a, b);
    turned := a + b;
  }

  // A cycle among old files without one and a new document runs from HEAD back to the new one.
  lemma CycleRunsThrough(files: Files, part: Files, id: string, doc: Document) returns (path: seq<string>)
    requires NoCycle(files) && id !in files && IsPartOf(part, files[id := doc]) && !NoCycle(part)
    ensures IsLinkPath(part, path) && IsLinkPath(files, path) && id in part
    ensures ParentOf(part, id) == Some(if path == [] then id else path[0])
    ensures path != [] ==> ParentOf(files, path[|path| - 1]) == Some(id)
  {
    var cycle :| IsLinkPath(part, cycle) && |cycle| > 1 && cycle[0] == cycle[|cycle| - 1];
    if id !in cycle {
      assert IsLinkPath(files, cycle);
      assert false;
    }
    var k := FirstIndex(cycle, id);
    var turned := Turned(part, cycle, k);
    var j := FirstIndex(turned, id);
    path := turned[..j];
    LinkPathSlice(part, turned, 0, j);
    assert forall i :: 0 <= i < j ==> path[i] == turned[i] && path[i] in files && part[path[i]] == files[path[i]];
    if j > 0 {
      assert ParentOf(part, turned[j - 1]) == Some(turned[j]);
    }
  }

  lemma NoRepeats(files: Files, path: seq<string>)
    requires NoCycle(files) && IsLinkPath(files, path)
    ensures forall i, j :: 0 <= i < j < |path| ==> path[i] != path[j]
  {
    forall i, j | 0 <= i < j < |path|
      ensures path[i] != path[j]
    {
      LinkPathSlice(files, path, i, j + 1);
      var part := path[i..j + 1];
      assert part[0] == path[i] && part[|part| - 1] == path[j];
    }
  }

  // So it is the walk from HEAD, which stops at the new document's id.
  lemma CycleIsTheWalk(dir: Directory, part: Files, id: string, doc: Document)
    requires NoCycle(dir.files) && id !in dir.files && IsPartOf(part, dir.files[id := doc]) && !NoCycle(part)
    requires BestEffortMeta(doc, id).parent == dir.head && dir.head != Some(id)
    ensures ClosesCycle(dir, id) && id in part && forall x :: x in WalkFromHead(dir) ==> x in part
  {
    var path := CycleRunsThrough(dir.files, part, id, doc);
    NoRepeats(dir.files, path);
    PathIsWalk(dir.files, path, id, {});
    assert path == WalkFromHead(dir);
  }

  /** The document that a put writes closes a cycle of parent links exactly when its id is the one,
      without a file, at which the walk from HEAD stops, and HEAD itself does not name it. */
  lemma PutClosesIff(hash: Hash, dir: Directory, payload: SnapshotPayload, trigger: SnapshotTrigger,
                     reason: SnapshotReason, now: int)
    requires NoCycle(dir.files)
    ensures NoCycle(WithNew(hash, dir, payload, trigger, reason, now)) <==> !ClosesCycle(dir, hash(payload))
  {
    var id := hash(payload);
    if ClosesCycle(dir, id) {
      WalkIsLinkPath(dir.files, dir.head.value, {});
    }
    if dir.head != Some(id) && id !in dir.files {
      var doc := NewDocument(id, dir.head, payload, trigger, reason, now);
      if ClosesCycle(dir, id) {
        ClosedCycle(dir, id, doc);
      } else if !NoCycle(dir.files[id := doc]) {
        CycleIsTheWalk(dir, dir.files[id := doc], id, doc);
      }
    }
  }

  // ---------------------------------------------------------------- no other step closes one

  lemma PrunedIsPart(hash: Hash, dir: Directory, disk: Disk)
    ensures IsPartOf(Prune(hash, dir, disk).files, dir.files)
    ensures IsPartOf(List(hash, dir, disk).0.files, dir.files)
  {
    hide Ordered, Examine, Surplus;
    ScanTraces(hash, dir, disk.listing, disk.moves);
    var after := Scan(hash, dir, disk.listing, disk.moves).0;
    forall id | id in after.files
      ensures after.files[id] == dir.files[id]
    {
      assert Traced(hash, dir, after, id);
    }
  }

  /** Whatever the directory holds and the file system does, a put leaves nothing but the files it
      found and its own document; if nothing is pruned, exactly these. */
  lemma PutIsPart(hash: Hash, dir: Directory, payload: SnapshotPayload, trigger: SnapshotTrigger,
                  reason: SnapshotReason, now: int, disk: Disk)
    ensures var files := Put(hash, dir, payload, trigger, reason, now, disk).0.files;
      var all := WithNew(hash, dir, payload, trigger, reason, now);
      && IsPartOf(files, all)
      && (disk.document.DoneUnsynced? || (disk.document.Done? && !disk.head.Done?) ==> files == all)
  {
    hide Prune;
    var id := hash(payload);
    if dir.head != Some(id) && id !in dir.files {
      var doc := NewDocument(id, dir.head, payload, trigger, reason, now);
      PrunedIsPart(hash, dir.(files := dir.files[id := doc], head := Some(id)), disk);
    }
  }

  /** Reading, listing, deleting and pruning never close a cycle, whatever the directory holds. */
  lemma OthersCloseNothing(hash: Hash, dir: Directory, op: Op, disk: Disk)
    requires !op.PutOp?
    ensures IsPartOf(Step(hash, dir, op, disk).files, dir.files)
    ensures NoCycle(dir.files) ==> NoCycle(Step(hash, dir, op, disk).files) && NoCycle(Prune(hash, dir, disk).files)
  {
    hide NoCycle, Scan, Examine, Prune;
    PrunedIsPart(hash, dir, disk);
    if NoCycle(dir.files) {
      PartHasNoCycle(Prune(hash, dir, disk).files, dir.files);
      PartHasNoCycle(Step(hash, dir, op, disk).files, dir.files);
    }
  }

  // ---------------------------------------------------------------- runs

  // No put of the run meets the condition.
  ghost predicate ClosesNothing(hash: Hash, dir: Directory, ops: seq<(Op, Disk)>) {
    ops == [] ||
    var n := |ops| - 1;
    && ClosesNothing(hash, dir, ops[..n])
    && (ops[n].0.PutOp? ==> !ClosesCycle(Run(hash, dir, ops[..n]), hash(ops[n].0.payload)))
  }

  /** In a run whose puts do not meet the condition, no cycle ever stands, whatever the file system
      does. */
  lemma {:induction false} RunHasNoCycle(hash: Hash, dir: Directory, ops: seq<(Op, Disk)>)
    requires NoCycle(dir.files) && ClosesNothing(hash, dir, ops)
    ensures NoCycle(Run(hash, dir, ops).files)
  {
    hide NoCycle, Step, Put, ClosesCycle, WithNew;
    if ops != [] {
      var n := |ops| - 1;
      RunHasNoCycle(hash, dir, ops[..n]);
      var before, op, disk := Run(hash, dir, ops[..n]), ops[n].0, ops[n].1;
      if op.PutOp? {
        PutClosesIff(hash, before, op.payload, op.trigger, op.reason, op.now);
        PutIsPart(hash, before, op.payload, op.trigger, op.reason, op.now, disk);
        PartHasNoCycle(Put(hash, before, op.payload, op.trigger, op.reason, op.now, disk).0.files,
                       WithNew(hash, before, op.payload, op.trigger, op.reason, op.now));
        StepOfPut(hash, before, op, disk);
      } else {
        OthersCloseNothing(hash, before, op, disk);
      }
    }
  }

  lemma StepOfPut(hash: Hash, dir: Directory, op: Op, disk: Disk)
    requires op.PutOp?
    ensures Step(hash, dir, op, disk) == Put(hash, dir, op.payload, op.trigger, op.reason, op.now, disk).0
  {
  }

  // ---------------------------------------------------------------- listings

  // The listing's entries are the files: one for each, with its parent.
  ghost predicate Shows(metas: Metas, files: Files) {
    forall id :: (HasId(metas, id) <==> id in files)
              && (id in files ==> Find(metas, id).Some? && Find(metas, id).value.parent == ParentOf(files, id))
  }

  lemma ShowsIff(hash: Hash, dir: Directory, metas: Metas)
    requires Sound(hash, dir) && Ids(metas) == dir.files.Keys && forall m :: m in metas ==> FromFile(hash, dir, m)
    ensures Shows(metas, dir.files)
  {
    forall id
      ensures HasId(metas, id) <==> id in dir.files
      ensures id in dir.files ==> Find(metas, id).Some? && Find(metas, id).value.parent == ParentOf(dir.files, id)
    {
      IdIsListed(metas, id);
      if id in dir.files {
        assert FromFile(hash, dir, Find(metas, id).value);
      }
    }
  }

  lemma ShownPaths(metas: Metas, files: Files)
    requires Shows(metas, files)
    ensures Acyclic(metas) <==> NoCycle(files)
  {
    forall path
      ensures IsPath(metas, path) <==> IsLinkPath(files, path)
    {
    }
  }

  /** The links of a sound store's listing have no cycle exactly when the stored links have none. */
  lemma ListingIsAcyclicIff(hash: Hash, dir: Directory, disk: Disk)
    requires Sound(hash, dir) && Complete(dir.files.Keys, disk.listing)
    ensures Acyclic(List(hash, dir, disk).1) <==> NoCycle(dir.files)
  {
    hide Sound, Complete, List, NoCycle, Acyclic, Ids;
    ListShowsTheStore(hash, dir, disk);
    ShowsIff(hash, dir, List(hash, dir, disk).1);
    ShownPaths(List(hash, dir, disk).1, dir.files);
  }

  /** So the chain that is shown for a sound store without a cycle has one head row if the store is
      not empty, and each row is one deeper than its stored parent. */
  lemma ListedChain(hash: Hash, dir: Directory, disk: Disk, rows: seq<ChainRow>)
    requires Sound(hash, dir) && Complete(dir.files.Keys, disk.listing) && NoCycle(dir.files)
    requires IsChain(List(hash, dir, disk).1, rows)
    ensures dir.files != map[] ==> exists i :: 0 <= i < |rows| && rows[i].head
    ensures forall i, j :: 0 <= i < |rows| && 0 <= j < |rows| && rows[i].head && rows[j].head ==> i == j
    ensures forall i, j :: 0 <= i < |rows| && 0 <= j < |rows| && rows[i].meta.parent == Some(rows[j].meta.id) ==>
      rows[i].depth == rows[j].depth + 1
  {
    hide Sound, Complete, List, NoCycle, Acyclic, FirstTip, FirstGood, StartsChain;
    var metas := List(hash, dir, disk).1;
    ListShowsTheStore(hash, dir, disk);
    ListingIsAcyclicIff(hash, dir, disk);
    OneHead(metas, rows);
    if dir.files != map[] {
      assert metas != [] by {
        var id :| id in dir.files;
        assert id in Ids(metas);
      }
      OneHeadRow(metas, rows);
    }
    forall i, j | 0 <= i < |rows| && 0 <= j < |rows| && rows[i].meta.parent == Some(rows[j].meta.id)
      ensures rows[i].depth == rows[j].depth + 1
    {
      assert IsRow(metas, i, rows[i]) && IsRow(metas, j, rows[j]);
      DepthCountsLinks(metas, i, j);
    }
  }

  // ---------------------------------------------------------------- the head row and HEAD

  ghost predicate HasChild(files: Files, id: string) {
    exists child :: child in files && ParentOf(files, child) == Some(id)
  }

  lemma ClaimedIffChild(hash: Hash, dir: Directory, metas: Metas, id: string)
    requires Sound(hash, dir) && Ids(metas) == dir.files.Keys && forall m :: m in metas ==> FromFile(hash, dir, m)
    ensures Claimed(metas, id) <==> HasChild(dir.files, id)
  {
    hide Sound, Examine;
    if Claimed(metas, id) {
      var i :| 0 <= i < |metas| && metas[i].parent == Some(id);
      FromFileParent(hash, dir, metas[i]);
      assert metas[i].id in dir.files && ParentOf(dir.files, metas[i].id) == Some(id);
    }
    if HasChild(dir.files, id) {
      var child :| child in dir.files && ParentOf(dir.files, child) == Some(id);
      assert child in Ids(metas);
      var i :| 0 <= i < |metas| && metas[i].id == child;
      FromFileParent(hash, dir, metas[i]);
    }
  }

  lemma FromFileParent(hash: Hash, dir: Directory, m: SnapshotMeta)
    requires FromFile(hash, dir, m)
    ensures m.parent == ParentOf(dir.files, m.id)
  {
  }

  /** In the chain that is shown for a sound store, the row marked as head is the snapshot HEAD names
      exactly when no stored snapshot has that one as its parent. */
  lemma HeadRowIsHeadIff(hash: Hash, dir: Directory, disk: Disk, rows: seq<ChainRow>)
    requires Sound(hash, dir) && Complete(dir.files.Keys, disk.listing)
    requires dir.head.Some? && dir.head.value in dir.files
    requires IsChain(List(hash, dir, disk).1, rows)
    ensures (exists i :: 0 <= i < |rows| && rows[i].head && rows[i].meta.id == dir.head.value)
        <==> !HasChild(dir.files, dir.head.value)
  {
    hide Sound, Complete, List, FirstGood, StartsChain, HasChild, Ids, Ancestors, FromFile;
    var metas := List(hash, dir, disk).1;
    ListShowsTheStore(hash, dir, disk);
    ClaimedIffChild(hash, dir, metas, dir.head.value);
    if i :| 0 <= i < |rows| && rows[i].head && rows[i].meta.id == dir.head.value {
      assert IsRow(metas, i, rows[i]);
    }
    if !HasChild(dir.files, dir.head.value) {
      assert IsRow(metas, 0, rows[0]);
      assert FirstTip(metas, 0);
    }
  }

  // Three puts, the third of the first payload again: it only moves HEAD.
  lemma PutAgain(hash: Hash, p: SnapshotPayload, q: SnapshotPayload, trigger: SnapshotTrigger, reason: SnapshotReason,
                 now: int, disk1: Disk, disk2: Disk)
    requires TwoPuts(hash, p, q, disk1, disk2)
    ensures var first := Put(hash, EMPTY, p, trigger, reason, now, disk1).0;
      var second := Put(hash, first, q, trigger, reason, now, disk2).0;
      var third := Put(hash, second, p, trigger, reason, now, disk2).0;
      && !ClosesCycle(EMPTY, hash(p)) && !ClosesCycle(first, hash(q)) && !ClosesCycle(second, hash(p))
      && third.head == Some(hash(p)) && third.files.Keys == {hash(p), hash(q)}
      && ParentOf(third.files, hash(q)) == Some(hash(p)) && ParentOf(third.files, hash(p)) == None
      && Sound(hash, third)
  {
    hide Put, Complete, Examine;
    var a, b := hash(p), hash(q);
    var docA := NewDocument(a, None, p, trigger, reason, now);
    var docB := NewDocument(b, Some(a), q, trigger, reason, now);
    NewDocumentIsIntact(hash, None, p, trigger, reason, now);
    NewDocumentIsIntact(hash, Some(a), q, trigger, reason, now);
    assert EMPTY.files.Keys + {a} == {a};
    PutOne(hash, EMPTY, p, trigger, reason, now, disk1);
    var first := Directory(map[a := docA], [], Some(a));
    assert EMPTY.files[a := docA] == first.files;
    assert first.files.Keys + {b} == {a, b};
    PutOne(hash, first, q, trigger, reason, now, disk2);
    var second := Directory(map[a := docA, b := docB], [], Some(b));
    assert first.files[b := docB] == second.files;
    assert Sound(hash, second);
    PutStored(hash, second, p, trigger, reason, now, disk2);
    LooseEnds(second.files, a, b);
    LooseEnds(first.files, a, b);
  }

  lemma PutStored(hash: Hash, dir: Directory, p: SnapshotPayload, trigger: SnapshotTrigger, reason: SnapshotReason,
                  now: int, disk: Disk)
    requires dir.head != Some(hash(p)) && hash(p) in dir.files && disk.head.Done?
    ensures Put(hash, dir, p, trigger, reason, now, disk) == (dir.(head := Some(hash(p))), Success(hash(p)))
  {
  }

  // A walk that ends at a snapshot without a parent has no loose end.
  lemma LooseEnds(files: Files, a: string, b: string)
    requires a in files && ParentOf(files, a) == None && a != b
    ensures LooseEnd(files, a, {}) == None && LooseEnd(files, a, {b}) == None
    ensures b in files && ParentOf(files, b) == Some(a) ==> LooseEnd(files, b, {}) == None
  {
    assert {} + {b} == {b};
  }

  /** Putting a payload, another one, and the first again, as disabling, enabling and disabling a device
      does, moves HEAD back to the first snapshot; the row marked as head is the second. No put of this
      run closes a cycle. */
  lemma HeadRowCanDiffer(hash: Hash, p: SnapshotPayload, q: SnapshotPayload, trigger: SnapshotTrigger,
                         reason: SnapshotReason, now: int, disk1: Disk, disk2: Disk, rows: seq<ChainRow>)
    requires TwoPuts(hash, p, q, disk1, disk2)
    requires var first := Put(hash, EMPTY, p, trigger, reason, now, disk1).0;
      var second := Put(hash, first, q, trigger, reason, now, disk2).0;
      var third := Put(hash, second, p, trigger, reason, now, disk2).0;
      IsChain(List(hash, third, disk2).1, rows)
    ensures var first := Put(hash, EMPTY, p, trigger, reason, now, disk1).0;
      var second := Put(hash, first, q, trigger, reason, now, disk2).0;
      var third := Put(hash, second, p, trigger, reason, now, disk2).0;
      && third.head == Some(hash(p)) && NoCycle(third.files)
      && !ClosesCycle(EMPTY, hash(p)) && !ClosesCycle(first, hash(q)) && !ClosesCycle(second, hash(p))
    ensures exists i :: 0 <= i < |rows| && rows[i].head
    ensures forall i :: 0 <= i < |rows| && rows[i].head ==> rows[i].meta.id == hash(q)
  {
    hide Put, Complete, List, Sound, IsChain, ClosesCycle, Ids, NoCycle, FromFile;
    PutAgain(hash, p, q, trigger, reason, now, disk1, disk2);
    var first := Put(hash, EMPTY, p, trigger, reason, now, disk1).0;
    var second := Put(hash, first, q, trigger, reason, now, disk2).0;
    var third := Put(hash, second, p, trigger, reason, now, disk2).0;
    TwoLinksNoCycle(third.files, hash(p), hash(q));
    ListedChain(hash, third, disk2, rows);
    ListShowsTheStore(hash, third, disk2);
    assert HasChild(third.files, hash(p));
    HeadRowIsHeadIff(hash, third, disk2, rows);
    forall i | 0 <= i < |rows| && rows[i].head
      ensures rows[i].meta.id == hash(q)
    {
      RowIsStored(hash, third, List(hash, third, disk2).1, rows, i);
    }
  }

  lemma RowIsStored(hash: Hash, dir: Directory, metas: Metas, rows: seq<ChainRow>, i: nat)
    requires IsChain(metas, rows) && i < |rows| && Ids(metas) == dir.files.Keys
    ensures rows[i].meta.id in dir.files
  {
    assert IsRow(metas, i, rows[i]);
    IdsMember(metas, metas[i]);
  }

  lemma TwoLinksNoCycle(files: Files, a: string, b: string)
    requires files.Keys == {a, b} && a != b && ParentOf(files, b) == Some(a) && ParentOf(files, a) == None
    ensures NoCycle(files)
  {
    forall path | IsLinkPath(files, path) && |path| > 1
      ensures path[0] != path[|path| - 1]
    {
      var last := |path| - 1;
      assert ParentOf(files, path[0]) == Some(path[1]) && ParentOf(files, path[last - 1]) == Some(path[last]);
    }
  }

  /** So it is after every run from the empty store whose puts do not meet the condition. */
  lemma RunShowsOneChain(hash: Hash, ops: seq<(Op, Disk)>, disk: Disk, rows: seq<ChainRow>)
    requires ClosesNothing(hash, EMPTY, ops)
    requires Complete(Run(hash, EMPTY, ops).files.Keys, disk.listing)
    requires IsChain(List(hash, Run(hash, EMPTY, ops), disk).1, rows)
    ensures Run(hash, EMPTY, ops).files != map[] ==> exists i :: 0 <= i < |rows| && rows[i].head
    ensures forall i, j :: 0 <= i < |rows| && 0 <= j < |rows| && rows[i].head && rows[j].head ==> i == j
    ensures forall i, j :: 0 <= i < |rows| && 0 <= j < |rows| && rows[i].meta.parent == Some(rows[j].meta.id) ==>
      rows[i].depth == rows[j].depth + 1
  {
    hide Run, List, IsChain, Complete;
    RunIsSound(hash, ops);
    assert NoCycle(EMPTY.files);
    RunHasNoCycle(hash, EMPTY, ops);
    ListedChain(hash, Run(hash, EMPTY, ops), disk, rows);
  }

  // ---------------------------------------------------------------- a cycle that was just closed

  predicate IsAuto(files: Files, id: string) {
    id in files && BestEffortMeta(files[id], id).trigger == Auto
  }

  function AutosAmong(files: Files, ids: seq<string>): nat {
    if ids == [] then 0 else (if IsAuto(files, ids[0]) then 1 else 0) + AutosAmong(files, ids[1..])
  }

  // Without the new document, its id bars the walk just as being taken does.
  lemma {:induction false} WalkBarred(files: Files, id: string, doc: Document, x: string, taken: set<string>)
    requires id !in files
    ensures WalkIds(files[id := doc], x, taken + {id}) == WalkIds(files, x, taken)
    decreases files.Keys - taken
  {
    if x !in taken && x in files {
      match ParentOf(files, x)
      case None =>
      case Some(parent) =>
        WalkBarred(files, id, doc, parent, taken + {x});
        assert taken + {x} + {id} == taken + {id} + {x};
    }
  }

  lemma WalkFromNew(dir: Directory, id: string, doc: Document)
    requires id !in dir.files && BestEffortMeta(doc, id).parent == dir.head
    ensures WalkIds(dir.files[id := doc], id, {}) == [id] + WalkFromHead(dir)
  {
    var files := dir.files[id := doc];
    assert ParentOf(files, id) == dir.head;
    if dir.head.Some? {
      WalkBarred(dir.files, id, doc, dir.head.value, {});
      assert {} + {id} == {id};
    }
  }

  lemma WalkIdsUnfolds(files: Files, id: string, taken: set<string>)
    ensures WalkIds(files, id, taken)
         == if id in taken || id !in files then []
            else if ParentOf(files, id).None? then [id]
            else [id] + WalkIds(files, ParentOf(files, id).value, taken + {id})
  {
  }

  lemma IdsOfFirst(m: SnapshotMeta, rest: Metas)
    ensures IdsOf([m] + rest) == [m.id] + IdsOf(rest)
    ensures IdsOf([m]) == [m.id]
  {
  }

  lemma NoIds()
    ensures IdsOf([]) == []
  {
  }

  lemma ShownParent(metas: Metas, files: Files, id: string)
    requires Shows(metas, files)
    ensures HasId(metas, id) <==> id in files
    ensures id in files ==> Find(metas, id).Some? && Find(metas, id).value.parent == ParentOf(files, id)
  {
  }

  lemma {:induction false} WalkShows(metas: Metas, files: Files, id: string, taken: set<string>)
    requires Shows(metas, files)
    ensures IdsOf(Walk(metas, id, taken)) == WalkIds(files, id, taken)
    decreases Ids(metas) - taken
  {
    hide Ids, Walk, WalkIds, IdsOf, Shows, ParentOf;
    IdIsListed(metas, id);
    ShownParent(metas, files, id);
    WalkIdsUnfolds(files, id, taken);
    WalkStops(metas, id, taken);
    if id in taken || id !in files {
      assert Walk(metas, id, taken) == [] by {
        if id !in taken {
          WalkUnfolds(metas, id, taken);
        }
      }
      NoIds();
    } else {
      var meta := Find(metas, id).value;
      WalkUnfolds(metas, id, taken);
      if meta.parent.None? {
        IdsOfFirst(meta, []);
      } else {
        WalkShows(metas, files, meta.parent.value, taken + {id});
        IdsOfFirst(meta, Walk(metas, meta.parent.value, taken + {id}));
      }
    }
  }

  lemma {:induction false} AutosOfWalk(chain: Metas, files: Files, ids: seq<string>)
    requires IdsOf(chain) == ids
    requires forall k :: 0 <= k < |chain| ==> (IsHealthyAuto(chain[k]) <==> IsAuto(files, chain[k].id))
    ensures |Autos(chain)| == AutosAmong(files, ids)
  {
    if chain != [] {
      assert IdsOf(chain[1..]) == ids[1..];
      AutosOfWalk(chain[1..], files, ids[1..]);
    }
  }

  lemma AutosFirst(files: Files, id: string, ids: seq<string>)
    ensures AutosAmong(files, [id] + ids) == (if IsAuto(files, id) then 1 else 0) + AutosAmong(files, ids)
  {
    assert ([id] + ids)[1..] == ids;
  }

  lemma {:induction false} AutosOther(files: Files, id: string, doc: Document, ids: seq<string>)
    requires id !in ids
    ensures AutosAmong(files[id := doc], ids) == AutosAmong(files, ids)
  {
    if ids != [] {
      AutosOther(files, id, doc, ids[1..]);
    }
  }

  lemma {:induction false} WalkIsStored(files: Files, id: string, taken: set<string>, x: string)
    requires x in WalkIds(files, id, taken)
    ensures x in files && x !in taken
    decreases files.Keys - taken
  {
    if x != id {
      WalkIsStored(files, ParentOf(files, id).value, taken + {id}, x);
    }
  }

  // How many automatic snapshots there are on the cycle that a put closes.
  function AutosOnCycle(dir: Directory, trigger: SnapshotTrigger): nat {
    (if trigger == Auto then 1 else 0) + AutosAmong(dir.files, WalkFromHead(dir))
  }

  // The directory that pruning finds after a put has written its document and moved HEAD.
  function Moved(dir: Directory, id: string, doc: Document): Directory {
    dir.(files := dir.files[id := doc], head := Some(id))
  }

  lemma ScanShows(hash: Hash, dir: Directory, disk: Disk)
    requires Sound(hash, dir) && Complete(dir.files.Keys, disk.listing)
    ensures var metas := Scan(hash, dir, disk.listing, disk.moves).1;
      Shows(metas, dir.files) && DistinctIds(metas) && forall m :: m in metas ==> FromFile(hash, dir, m)
  {
    hide Sound, Complete, Scan, Ids, ScanOne, Shows;
    ScanIsComplete(hash, dir, disk.listing, disk.moves);
    var metas := Scan(hash, dir, disk.listing, disk.moves).1;
    forall m | m in metas
      ensures FromFile(hash, dir, m)
    {
      MetaOfSound(hash, dir, m.id, disk.moves);
    }
    ShowsIff(hash, dir, metas);
  }

  lemma FromFileIsAuto(hash: Hash, dir: Directory, m: SnapshotMeta)
    requires FromFile(hash, dir, m)
    ensures IsHealthyAuto(m) <==> IsAuto(dir.files, m.id)
  {
  }

  // HEAD's chain in the listing is the cycle, with as many automatic snapshots.
  lemma ChainIsCycle(hash: Hash, dir: Directory, id: string, doc: Document, disk: Disk)
    requires id !in dir.files && BestEffortMeta(doc, id).parent == dir.head
    requires Sound(hash, Moved(dir, id, doc)) && Complete(dir.files.Keys + {id}, disk.listing)
    requires doc.Document? && doc.trigger.Some?
    ensures var chain := Chain(Scan(hash, Moved(dir, id, doc), disk.listing, disk.moves).1, Some(id));
      && IdsOf(chain) == [id] + WalkFromHead(dir)
      && |Autos(chain)| == AutosOnCycle(dir, doc.trigger.value)
  {
    hide Sound, Complete, Scan, Examine, NoCycle, DistinctIds, WalkIds, Walk, AutosAmong, Autos;
    var moved := Moved(dir, id, doc);
    var metas := Scan(hash, moved, disk.listing, disk.moves).1;
    assert moved.files.Keys == dir.files.Keys + {id};
    ScanShows(hash, moved, disk);
    WalkShows(metas, moved.files, id, {});
    WalkFromNew(dir, id, doc);
    var chain := Chain(metas, Some(id));
    WalkFollows(metas, id, {});
    forall k | 0 <= k < |chain|
      ensures IsHealthyAuto(chain[k]) <==> IsAuto(moved.files, chain[k].id)
    {
      assert Find(metas, chain[k].id) == Some(chain[k]);
      FromFileIsAuto(hash, moved, chain[k]);
    }
    AutosOfWalk(chain, moved.files, [id] + WalkFromHead(dir));
    if id in WalkFromHead(dir) {
      WalkIsStored(dir.files, dir.head.value, {}, id);
    }
    AutosOther(dir.files, id, doc, WalkFromHead(dir));
    AutosFirst(moved.files, id, WalkFromHead(dir));
  }

  lemma SurplusOff(chain: Metas, rest: Metas, m: SnapshotMeta)
    requires |Autos(chain)| <= KEEP_AUTO && m in Beyond(KEEP_AUTO, Autos(chain) + Autos(rest))
    ensures m in rest
  {
    hide Autos;
    var all, n := Autos(chain) + Autos(rest), |Autos(chain)|;
    var k :| 0 <= k < |all[KEEP_AUTO..]| && all[KEEP_AUTO..][k] == m;
    assert m == all[KEEP_AUTO + k] == Autos(rest)[KEEP_AUTO + k - n];
    AutosMembers(rest, m);
  }

  lemma SurplusOn(chain: Metas, rest: Metas)
    requires |Autos(chain)| > KEEP_AUTO
    ensures var m := Autos(chain)[KEEP_AUTO]; m in Beyond(KEEP_AUTO, Autos(chain) + Autos(rest)) && m in chain
  {
    hide Autos;
    var all := Autos(chain) + Autos(rest);
    assert all[KEEP_AUTO..][0] == Autos(chain)[KEEP_AUTO];
    AutosMembers(chain, Autos(chain)[KEEP_AUTO]);
  }

  // An id of HEAD's chain is surplus only if the chain has more automatic snapshots than are kept.
  lemma ChainSurplus(metas: Metas, head: string)
    ensures var chain := Chain(metas, Some(head));
      var surplus := Surplus(Ordered(metas, Some(head)));
      && (|Autos(chain)| <= KEEP_AUTO ==> Ids(chain) !! Ids(surplus))
      && (|Autos(chain)| > KEEP_AUTO ==> exists x :: x in Ids(chain) && x in Ids(surplus))
  {
    hide Walk, Sort, Autos;
    var chain := Chain(metas, Some(head));
    var off := Without(metas, Ids(chain));
    var surplus := Surplus(Ordered(metas, Some(head)));
    AutosConcat(chain, Sort(off));
    if |Autos(chain)| > KEEP_AUTO {
      SurplusOn(chain, Sort(off));
      var m := Autos(chain)[KEEP_AUTO];
      IdsMember(chain, m);
      IdsMember(surplus, m);
    } else {
      forall x | x in Ids(surplus)
        ensures x !in Ids(chain)
      {
        var m := MemberWith(surplus, x);
        SurplusOff(chain, Sort(off), m);
        SortBag(off);
        assert m in multiset(Sort(off));
        WithMembers(metas, Ids(chain), m);
      }
    }
  }

  lemma LinkPathOfPart(files: Files, part: Files, path: seq<string>)
    requires IsLinkPath(files, path) && IsPartOf(part, files) && forall x :: x in path ==> x in part
    ensures IsLinkPath(part, path)
  {
  }

  lemma IdsOfMembers(metas: Metas, x: string)
    ensures x in Ids(metas) <==> x in IdsOf(metas)
  {
    if x in Ids(metas) {
      var k :| 0 <= k < |metas| && metas[k].id == x;
      assert IdsOf(metas)[k] == x;
    }
    if x in IdsOf(metas) {
      var k :| 0 <= k < |metas| && IdsOf(metas)[k] == x;
      assert metas[k].id == x;
    }
  }

  // What pruning leaves of a cycle through the document that was just written.
  lemma PrunedCycle(dir: Directory, part: Files, id: string, doc: Document)
    requires NoCycle(dir.files) && ClosesCycle(dir, id) && id !in dir.files
    requires BestEffortMeta(doc, id).parent == dir.head && IsPartOf(part, dir.files[id := doc])
    ensures NoCycle(part) <==> exists x :: x in [id] + WalkFromHead(dir) && x !in part
  {
    var ids := [id] + WalkFromHead(dir);
    if !NoCycle(part) {
      CycleIsTheWalk(dir, part, id, doc);
    } else if forall x :: x in ids ==> x in part {
      ClosedCycle(dir, id, doc);
      LinkPathOfPart(dir.files[id := doc], part, ids + [id]);
      IsCycle(part, ids + [id]);
    }
  }

  /** With working file operations, a put that closes a cycle leaves it standing exactly when no more
      than twenty of its snapshots are automatic; otherwise the pruning of the same put opens it. */
  lemma CycleStandsIff(hash: Hash, dir: Directory, payload: SnapshotPayload, trigger: SnapshotTrigger,
                       reason: SnapshotReason, now: int, disk: Disk)
    requires Sound(hash, dir) && NoCycle(dir.files) && ClosesCycle(dir, hash(payload))
    requires disk.document.Done? && disk.head.Done? && forall id :: disk.deletes(id)
    requires Complete(dir.files.Keys + {hash(payload)}, disk.listing)
    ensures NoCycle(Put(hash, dir, payload, trigger, reason, now, disk).0.files)
        <==> AutosOnCycle(dir, trigger) > KEEP_AUTO
  {
    hide Sound, Complete, NoCycle, Prune, Examine, Scan, Autos, Walk, Ordered, Surplus, WalkIds, AutosAmong, Ids;
    var id := hash(payload);
    WalkIsLinkPath(dir.files, dir.head.value, {});
    var doc := NewDocument(id, dir.head, payload, trigger, reason, now);
    var moved := Moved(dir, id, doc);
    MovedIsSound(hash, dir, payload, trigger, reason, now);
    assert Put(hash, dir, payload, trigger, reason, now, disk).0 == Prune(hash, moved, disk);
    var part := Prune(hash, moved, disk).files;
    PrunedIsPart(hash, moved, disk);
    PrunedCycle(dir, part, id, doc);
    ChainIsCycle(hash, dir, id, doc, disk);
    PruneDeletes(hash, moved, disk);
    var metas := Scan(hash, moved, disk.listing, disk.moves).1;
    var chain := Chain(metas, Some(id));
    ChainSurplus(metas, id);
    forall x
      ensures x in [id] + WalkFromHead(dir) <==> x in Ids(chain)
      ensures x in Ids(chain) ==> x in moved.files
    {
      IdsOfMembers(chain, x);
      if x in WalkFromHead(dir) {
        WalkIsStored(dir.files, dir.head.value, {}, x);
      }
    }
  }

  lemma MovedIsSound(hash: Hash, dir: Directory, payload: SnapshotPayload, trigger: SnapshotTrigger,
                     reason: SnapshotReason, now: int)
    requires Sound(hash, dir)
    ensures Sound(hash, Moved(dir, hash(payload), NewDocument(hash(payload), dir.head, payload, trigger, reason, now)))
  {
    hide Examine;
    NewDocumentIsIntact(hash, dir.head, payload, trigger, reason, now);
  }
}
