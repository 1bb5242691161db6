/** The content-addressed snapshot store (daemon/src/snapshot_store.cpp): one document per id, a
    HEAD pointer, parent links, pruning of automatic snapshots, quarantine of damaged files. */
module SnapshotStore {
  import opened Models
  import opened Sequences
  import opened SnapshotOrder

  const FORMAT_VERSION := 1
  const KEEP_AUTO: nat := 20

  // The id of a payload: the digest of its canonical serialization.
  type Hash = SnapshotPayload -> string

  // What the parser makes of a file. In an object, a field that is missing or has the wrong type
  // is None; the payload is None when its entries or its files do not parse.
  datatype Document =
    | NotAnObject
    | Document(formatVersion: Option<int>, id: Option<string>, parent: Option<string>,
               createdAtUtc: Option<int>, trigger: Option<SnapshotTrigger>, reason: SnapshotReason,
               payload: Option<SnapshotPayload>)

  // A quarantined file and the id its name begins with.
  datatype BadFile = BadFile(id: string, document: Document)

  datatype Directory = Directory(files: map<string, Document>, bad: seq<BadFile>, head: Option<string>)

  const EMPTY := Directory(map[], [], None)

  datatype Snapshot = Snapshot(meta: SnapshotMeta, payload: SnapshotPayload)

  // ---------------------------------------------------------------- what the file system does

  // A name that directory iteration reports: <id>.json, or the n-th quarantined file.
  datatype Name = Json(id: string) | Bad(n: nat)

  /** What the file system does during one call, chosen by the environment. */
  datatype Disk = Disk(document: Written, head: Written, listing: seq<Name>,
                       moves: string -> bool, deletes: string -> bool)

  // ---------------------------------------------------------------- reading

  function OrElse<T>(x: Option<T>, fallback: T): T {
    if x.Some? then x.value else fallback
  }

  function BestEffortMeta(doc: Document, fallbackId: string): SnapshotMeta {
    match doc
    case NotAnObject => SnapshotMeta(fallbackId, None, 0, Auto, SnapshotReason("", ""), Ok, 0, 0)
    case Document(_, id, parent, created, trigger, reason, _) =>
      SnapshotMeta(OrElse(id, fallbackId), parent, OrElse(created, 0), OrElse(trigger, Auto), reason, Ok, 0, 0)
  }

  datatype Finding = Intact(snapshot: Snapshot) | TooNew | Damaged

  function Examine(hash: Hash, id: string, doc: Document): Finding {
    if doc.NotAnObject? || doc.formatVersion.None? then Damaged
    else if doc.formatVersion.value > FORMAT_VERSION then TooNew
    else if doc.payload.None? then Damaged
    else
      var payload, meta := doc.payload.value, BestEffortMeta(doc, id);
      if hash(payload) != id || meta.id != id then Damaged
      else Intact(Snapshot(meta.(entryCount := |payload.entries|, modprobeFileCount := |payload.modprobeFiles|),
                           payload))
  }

  function Quarantine(dir: Directory, id: string, moves: bool): Directory
    requires id in dir.files
  {
    if moves then dir.(files := dir.files - {id}, bad := dir.bad + [BadFile(id, dir.files[id])]) else dir
  }

  predicate Quarantined(dir: Directory, id: string) {
    exists n :: 0 <= n < |dir.bad| && dir.bad[n].id == id
  }

  function Read(hash: Hash, dir: Directory, id: string, moves: string -> bool): (Directory, Result<Snapshot>) {
    if id !in dir.files then
      (dir, Failure(if Quarantined(dir, id) then Io else NotFound))
    else
      match Examine(hash, id, dir.files[id])
      case Intact(snapshot) => (dir, Success(snapshot))
      case TooNew => (dir, Failure(Unsupported))
      case Damaged => (Quarantine(dir, id, moves(id)), Failure(Io))
  }

  // ---------------------------------------------------------------- listing

  function ScanOne(hash: Hash, dir: Directory, name: Name, moves: string -> bool): (Directory, SnapshotMeta) {
    match name
    case Bad(n) =>
      if n < |dir.bad| then (dir, BestEffortMeta(dir.bad[n].document, dir.bad[n].id).(health := Corrupt))
      else (dir, BestEffortMeta(NotAnObject, "").(health := Corrupt))
    case Json(id) =>
      var (after, r) := Read(hash, dir, id, moves);
      match r
      case Success(snapshot) => (after, snapshot.meta)
      case Failure(code) =>
        if code == Unsupported then (after, BestEffortMeta(dir.files[id], id).(health := FromFuture))
        else (after, BestEffortMeta(NotAnObject, id).(health := Corrupt))
  }

  function Scan(hash: Hash, dir: Directory, listing: seq<Name>, moves: string -> bool): (Directory, Metas) {
    if listing == [] then (dir, [])
    else
      var n := |listing| - 1;
      var (before, metas) := Scan(hash, dir, listing[..n], moves);
      var (after, meta) := ScanOne(hash, before, listing[n], moves);
      (after, metas + [meta])
  }

  function List(hash: Hash, dir: Directory, disk: Disk): (Directory, Metas) {
    var (after, metas) := Scan(hash, dir, disk.listing, disk.moves);
    (after, Ordered(metas, after.head))
  }

  // ---------------------------------------------------------------- pruning

  predicate IsHealthyAuto(meta: SnapshotMeta) {
    meta.health == Ok && meta.trigger == Auto
  }

  function Autos(metas: Metas): Metas {
    if metas == [] then []
    else AutoOnly(metas[0]) + Autos(metas[1..])
  }

  function AutoOnly(m: SnapshotMeta): Metas {
    if IsHealthyAuto(m) then [m] else []
  }

  // The healthy automatic snapshots after the first twenty of them.
  function Surplus(ordered: Metas): Metas {
    Beyond(KEEP_AUTO, Autos(ordered))
  }

  function Beyond(n: nat, metas: Metas): Metas {
    if |metas| <= n then [] else metas[n..]
  }

  function Deleted(files: map<string, Document>, surplus: Metas, deletes: string -> bool): map<string, Document> {
    map id | id in files && !(id in Ids(surplus) && deletes(id)) :: files[id]
  }

  function Prune(hash: Hash, dir: Directory, disk: Disk): Directory {
    var (after, metas) := Scan(hash, dir, disk.listing, disk.moves);
    after.(files := Deleted(after.files, Surplus(Ordered(metas, dir.head)), disk.deletes))
  }

  // ---------------------------------------------------------------- writing

  function NewDocument(id: string, parent: Option<string>, payload: SnapshotPayload, trigger: SnapshotTrigger,
                       reason: SnapshotReason, now: int): Document {
    Document(Some(FORMAT_VERSION), Some(id), parent, Some(now), Some(trigger), reason, Some(payload))
  }

  // The part of a put that follows the document: HEAD, and pruning if the document is new.
  function MoveHead(hash: Hash, dir: Directory, id: string, isNew: bool, disk: Disk): (Directory, Result<string>) {
    match disk.head
    case NotDone => (dir, Failure(Io))
    case DoneUnsynced => (dir.(head := Some(id)), Failure(Io))
    case Done =>
      var moved := dir.(head := Some(id));
      (if isNew then Prune(hash, moved, disk) else moved, Success(id))
  }

  function Put(hash: Hash, dir: Directory, payload: SnapshotPayload, trigger: SnapshotTrigger,
               reason: SnapshotReason, now: int, disk: Disk): (Directory, Result<string>) {
    var id := hash(payload);
    if dir.head == Some(id) then (dir, Success(id))
    else if id in dir.files then MoveHead(hash, dir, id, false, disk)
    else
      var written := dir.(files := dir.files[id := NewDocument(id, dir.head, payload, trigger, reason, now)]);
      match disk.document
      case NotDone => (dir, Failure(Io))
      case DoneUnsynced => (written, Failure(Io))
      case Done => MoveHead(hash, written, id, true, disk)
  }

  // An empty parent writes an empty HEAD, which reads as none.
  function NextHead(meta: SnapshotMeta): Option<string> {
    if meta.parent == Some("") then None else meta.parent
  }

  function Delete(dir: Directory, id: string, deletes: bool): (Directory, Result<()>) {
    if deletes then (dir.(files := dir.files - {id}), Success(())) else (dir, Failure(Io))
  }

  function Remove(hash: Hash, dir: Directory, id: string, disk: Disk): (Directory, Result<()>) {
    var (seen, r) := Read(hash, dir, id, disk.moves);
    if r.Failure? then (seen, Failure(r.code))
    else if seen.head != Some(id) then Delete(seen, id, disk.deletes(id))
    else
      var moved := seen.(head := NextHead(r.value.meta));
      match disk.head
      case NotDone => (seen, Failure(Io))
      case DoneUnsynced => (moved, Failure(Io))
      case Done => Delete(moved, id, disk.deletes(id))
  }

  // ---------------------------------------------------------------- the store as a machine

  datatype Op =
    | PutOp(payload: SnapshotPayload, trigger: SnapshotTrigger, reason: SnapshotReason, now: int)
    | ReadOp(id: string)
    | ListOp
    | RemoveOp(id: string)

  function Step(hash: Hash, dir: Directory, op: Op, disk: Disk): Directory {
    match op
    case PutOp(payload, trigger, reason, now) => Put(hash, dir, payload, trigger, reason, now, disk).0
    case ReadOp(id) => Read(hash, dir, id, disk.moves).0
    case ListOp => List(hash, dir, disk).0
    case RemoveOp(id) => Remove(hash, dir, id, disk).0
  }

  function Run(hash: Hash, dir: Directory, ops: seq<(Op, Disk)>): Directory {
    if ops == [] then dir
    else
      var last := ops[|ops| - 1];
      Step(hash, Run(hash, dir, ops[..|ops| - 1]), last.0, last.1)
  }

  // Every stored file passes the checks of a read, its hash being its name.
  ghost predicate Sound(hash: Hash, dir: Directory) {
    forall id :: id in dir.files ==> Examine(hash, id, dir.files[id]).Intact?
  }

  // Nothing that was stored has other contents now.
  ghost predicate NotRewritten(was: Directory, dir: Directory) {
    forall id :: id in was.files && id in dir.files ==> dir.files[id] == was.files[id]
  }

  lemma ReadOfSound(hash: Hash, dir: Directory, id: string, moves: string -> bool)
    requires Sound(hash, dir)
    ensures Read(hash, dir, id, moves).0 == dir
    ensures id in dir.files ==> Read(hash, dir, id, moves).1 == Success(Examine(hash, id, dir.files[id]).snapshot)
  {
  }

  lemma {:induction false} ScanOfSound(hash: Hash, dir: Directory, listing: seq<Name>, moves: string -> bool)
    requires Sound(hash, dir)
    ensures Scan(hash, dir, listing, moves).0 == dir
    ensures |Scan(hash, dir, listing, moves).1| == |listing|
    ensures forall k :: 0 <= k < |listing| ==>
      Scan(hash, dir, listing, moves).1[k] == ScanOne(hash, dir, listing[k], moves).1
  {
    hide ScanOne, Sound;
    if listing != [] {
      var n := |listing| - 1;
      ScanOfSound(hash, dir, listing[..n], moves);
      ScanOneOfSound(hash, dir, listing[n], moves);
    }
  }

  lemma ScanOneOfSound(hash: Hash, dir: Directory, name: Name, moves: string -> bool)
    requires Sound(hash, dir)
    ensures ScanOne(hash, dir, name, moves).0 == dir
  {
    if name.Json? {
      ReadOfSound(hash, dir, name.id, moves);
    }
  }

  lemma PruneOfSound(hash: Hash, dir: Directory, disk: Disk)
    requires Sound(hash, dir)
    ensures var pruned := Prune(hash, dir, disk);
      Sound(hash, pruned) && NotRewritten(dir, pruned) && pruned.files.Keys <= dir.files.Keys
      && pruned.head == dir.head && pruned.bad == dir.bad
  {
    ScanOfSound(hash, dir, disk.listing, disk.moves);
  }

  lemma NewDocumentIsIntact(hash: Hash, parent: Option<string>, payload: SnapshotPayload, trigger: SnapshotTrigger,
                            reason: SnapshotReason, now: int)
    ensures Examine(hash, hash(payload), NewDocument(hash(payload), parent, payload, trigger, reason, now)).Intact?
  {
  }

  lemma MoveHeadOfSound(hash: Hash, dir: Directory, id: string, isNew: bool, disk: Disk)
    requires Sound(hash, dir)
    ensures var after := MoveHead(hash, dir, id, isNew, disk).0;
      Sound(hash, after) && NotRewritten(dir, after) && after.files.Keys <= dir.files.Keys && after.bad == dir.bad
  {
    hide Examine, Prune;
    assert Sound(hash, dir.(head := Some(id)));
    PruneOfSound(hash, dir.(head := Some(id)), disk);
  }

  /** One call, whatever the file system does: the files stay sound, none is rewritten while it
      is there, and nothing is quarantined. */
  lemma StepKeepsSound(hash: Hash, dir: Directory, op: Op, disk: Disk)
    requires Sound(hash, dir)
    ensures var after := Step(hash, dir, op, disk);
      Sound(hash, after) && NotRewritten(dir, after) && after.bad == dir.bad
  {
    hide Put, Read, Scan, Remove, Sound;
    match op
    case PutOp(payload, trigger, reason, now) =>
      PutKeepsSound(hash, dir, payload, trigger, reason, now, disk);
    case ReadOp(id) => ReadOfSound(hash, dir, id, disk.moves);
    case ListOp => ScanOfSound(hash, dir, disk.listing, disk.moves);
    case RemoveOp(id) => RemoveKeepsSound(hash, dir, id, disk);
  }

  lemma RemoveKeepsSound(hash: Hash, dir: Directory, id: string, disk: Disk)
    requires Sound(hash, dir)
    ensures var after := Remove(hash, dir, id, disk).0;
      Sound(hash, after) && NotRewritten(dir, after) && after.bad == dir.bad
  {
    hide Examine, Read;
    ReadOfSound(hash, dir, id, disk.moves);
  }

  lemma PutKeepsSound(hash: Hash, dir: Directory, payload: SnapshotPayload, trigger: SnapshotTrigger,
                      reason: SnapshotReason, now: int, disk: Disk)
    requires Sound(hash, dir)
    ensures var after := Put(hash, dir, payload, trigger, reason, now, disk).0;
      Sound(hash, after) && NotRewritten(dir, after) && after.bad == dir.bad
  {
    hide Examine, Prune, MoveHead;
    var id := hash(payload);
    if dir.head != Some(id) {
      if id in dir.files {
        MoveHeadOfSound(hash, dir, id, false, disk);
      } else {
        NewDocumentIsIntact(hash, dir.head, payload, trigger, reason, now);
        var written := dir.(files := dir.files[id := NewDocument(id, dir.head, payload, trigger, reason, now)]);
        assert Sound(hash, written);
        MoveHeadOfSound(hash, written, id, true, disk);
      }
    }
  }

  lemma RemoveOnlyShrinks(hash: Hash, dir: Directory, id: string, disk: Disk)
    requires Sound(hash, dir)
    ensures Remove(hash, dir, id, disk).0.files.Keys <= dir.files.Keys
  {
    hide Examine, Read;
    ReadOfSound(hash, dir, id, disk.moves);
  }

  /** In every run from the empty store, every stored file's payload hashes to its name. */
  lemma {:induction false} RunIsSound(hash: Hash, ops: seq<(Op, Disk)>)
    ensures Sound(hash, Run(hash, EMPTY, ops)) && Run(hash, EMPTY, ops).bad == []
    ensures forall id :: id in Run(hash, EMPTY, ops).files ==>
      Run(hash, EMPTY, ops).files[id].payload.Some? && hash(Run(hash, EMPTY, ops).files[id].payload.value) == id
  {
    if ops != [] {
      var n := |ops| - 1;
      RunIsSound(hash, ops[..n]);
      StepKeepsSound(hash, Run(hash, EMPTY, ops[..n]), ops[n].0, ops[n].1);
    }
    var dir := Run(hash, EMPTY, ops);
    forall id | id in dir.files
      ensures dir.files[id].payload.Some? && hash(dir.files[id].payload.value) == id
    {
      assert Examine(hash, id, dir.files[id]).Intact?;
    }
  }

  // ---------------------------------------------------------------- HEAD

  ghost predicate HeadStored(dir: Directory) {
    dir.head.Some? ==> dir.head.value in dir.files
  }

  lemma {:induction false} AutosMembers(metas: Metas, m: SnapshotMeta)
    ensures m in Autos(metas) <==> m in metas && IsHealthyAuto(m)
  {
    if metas != [] {
      AutosMembers(metas[1..], m);
      assert m in metas <==> m == metas[0] || m in metas[1..];
    }
  }

  lemma AutosTail(metas: Metas, m: SnapshotMeta)
    requires metas != [] && |Autos(metas)| > 0 && m in Autos(metas)[1..]
    ensures m in metas[1..]
  {
    AutosMembers(metas[1..], m);
    if IsHealthyAuto(metas[0]) {
      assert Autos(metas)[1..] == Autos(metas[1..]);
    } else {
      assert Autos(metas) == Autos(metas[1..]);
    }
  }

  // HEAD's entry can only come first.
  lemma HeadComesFirst(metas: Metas, head: string, m: SnapshotMeta)
    requires Ordered(metas, Some(head)) != [] && m in Ordered(metas, Some(head))[1..]
    ensures m.id != head
  {
    var chain := Chain(metas, Some(head));
    var off := Sort(Without(metas, Ids(chain)));
    WalkFollows(metas, head, {});
    SortBag(Without(metas, Ids(chain)));
    if m in off {
      assert m in multiset(off);
      WithMembers(metas, Ids(chain), m);
      if chain != [] {
        assert chain[0].id in Ids(chain);
      } else if m.id == head {
        assert HasId(metas, head);
        assert false;
      }
    } else {
      assert forall k :: 1 <= k < |chain| ==> chain[k].id != chain[0].id;
    }
  }

  lemma HeadIsNoSurplus(metas: Metas, head: string)
    ensures head !in Ids(Surplus(Ordered(metas, Some(head))))
  {
    hide Ordered, Autos;
    var ordered := Ordered(metas, Some(head));
    var surplus := Surplus(ordered);
    if head in Ids(surplus) {
      var k :| 0 <= k < |surplus| && surplus[k].id == head;
      assert surplus[k] == Autos(ordered)[KEEP_AUTO + k] == Autos(ordered)[1..][KEEP_AUTO + k - 1];
      assert ordered != [] by {
        AutosMembers(ordered, surplus[k]);
      }
      AutosTail(ordered, surplus[k]);
      HeadComesFirst(metas, head, surplus[k]);
    }
  }

  // Pruning never deletes the file HEAD names, whatever the directory reports.
  lemma PruneKeepsHead(hash: Hash, dir: Directory, disk: Disk)
    requires Sound(hash, dir) && HeadStored(dir)
    ensures HeadStored(Prune(hash, dir, disk))
  {
    hide Ordered, Surplus, Sound;
    ScanOfSound(hash, dir, disk.listing, disk.moves);
    if dir.head.Some? {
      HeadIsNoSurplus(Scan(hash, dir, disk.listing, disk.moves).1, dir.head.value);
    }
  }

  /** A put, succeeding or failing anywhere, leaves HEAD absent or naming a stored file. */
  lemma PutKeepsHeadStored(hash: Hash, dir: Directory, payload: SnapshotPayload, trigger: SnapshotTrigger,
                           reason: SnapshotReason, now: int, disk: Disk)
    requires Sound(hash, dir) && HeadStored(dir)
    ensures HeadStored(Put(hash, dir, payload, trigger, reason, now, disk).0)
  {
    hide Examine, Prune;
    var id := hash(payload);
    if dir.head != Some(id) {
      if id in dir.files {
        assert Sound(hash, dir.(head := Some(id)));
      } else {
        NewDocumentIsIntact(hash, dir.head, payload, trigger, reason, now);
        var written := dir.(files := dir.files[id := NewDocument(id, dir.head, payload, trigger, reason, now)]);
        assert Sound(hash, written.(head := Some(id)));
        PruneKeepsHead(hash, written.(head := Some(id)), disk);
      }
    }
  }

  ghost predicate PutsOnly(ops: seq<(Op, Disk)>) {
    forall k :: 0 <= k < |ops| ==> ops[k].0.PutOp?
  }

  /** Puts alone never lose HEAD. */
  lemma {:induction false} PutsKeepHeadStored(hash: Hash, dir: Directory, ops: seq<(Op, Disk)>)
    requires Sound(hash, dir) && HeadStored(dir) && PutsOnly(ops)
    ensures Sound(hash, Run(hash, dir, ops)) && HeadStored(Run(hash, dir, ops))
  {
    hide Sound, HeadStored, Put;
    if ops != [] {
      var n := |ops| - 1;
      PutsKeepHeadStored(hash, dir, ops[..n]);
      var before, op := Run(hash, dir, ops[..n]), ops[n].0;
      StepKeepsSound(hash, before, op, ops[n].1);
      PutKeepsHeadStored(hash, before, op.payload, op.trigger, op.reason, op.now, ops[n].1);
    }
  }

  predicate Holds(doc: Document) {
    doc.Document? && doc.payload.Some?
  }

  // No stored payload has the new one's hash without being it.
  ghost predicate NoCollision(hash: Hash, dir: Directory, payload: SnapshotPayload) {
    forall id :: id in dir.files && Holds(dir.files[id]) ==>
      hash(dir.files[id].payload.value) == hash(payload) ==> dir.files[id].payload.value == payload
  }

  lemma MoveHeadStores(hash: Hash, dir: Directory, id: string, isNew: bool, disk: Disk)
    requires Sound(hash, dir) && id in dir.files
    ensures var (after, r) := MoveHead(hash, dir, id, isNew, disk);
      && id in after.files && after.files[id] == dir.files[id]
      && (r.Success? ==> r.value == id && after.head == Some(id))
  {
    hide Examine, Prune;
    assert Sound(hash, dir.(head := Some(id)));
    PruneOfSound(hash, dir.(head := Some(id)), disk);
    PruneKeepsHead(hash, dir.(head := Some(id)), disk);
  }

  /** After a successful put HEAD is the returned id, the payload's hash. */
  lemma PutMovesHead(hash: Hash, dir: Directory, payload: SnapshotPayload, trigger: SnapshotTrigger,
                     reason: SnapshotReason, now: int, disk: Disk)
    requires Sound(hash, dir)
    requires Put(hash, dir, payload, trigger, reason, now, disk).1.Success?
    ensures Put(hash, dir, payload, trigger, reason, now, disk).1.value == hash(payload)
    ensures Put(hash, dir, payload, trigger, reason, now, disk).0.head == Some(hash(payload))
  {
    hide Prune;
    var id := hash(payload);
    if dir.head != Some(id) && id !in dir.files {
      NewDocumentIsIntact(hash, dir.head, payload, trigger, reason, now);
      var written := dir.(files := dir.files[id := NewDocument(id, dir.head, payload, trigger, reason, now)]);
      assert Sound(hash, written);
      MoveHeadStores(hash, written, id, true, disk);
    }
  }

  // HEAD names this id, and its file is gone.
  predicate Stale(dir: Directory, id: string) {
    dir.head == Some(id) && id !in dir.files
  }

  /** A successful put leaves its id without a file exactly when HEAD already named that id and
      its file was gone: then the dedupe answers with an id that cannot be read. */
  lemma PutStoresIff(hash: Hash, dir: Directory, payload: SnapshotPayload, trigger: SnapshotTrigger,
                     reason: SnapshotReason, now: int, disk: Disk)
    requires Sound(hash, dir)
    requires Put(hash, dir, payload, trigger, reason, now, disk).1.Success?
    ensures hash(payload) in Put(hash, dir, payload, trigger, reason, now, disk).0.files
        <==> !Stale(dir, hash(payload))
  {
    hide Prune, Examine;
    var id := hash(payload);
    if dir.head != Some(id) {
      if id in dir.files {
        MoveHeadStores(hash, dir, id, false, disk);
      } else {
        NewDocumentIsIntact(hash, dir.head, payload, trigger, reason, now);
        var written := dir.(files := dir.files[id := NewDocument(id, dir.head, payload, trigger, reason, now)]);
        assert Sound(hash, written);
        MoveHeadStores(hash, written, id, true, disk);
      }
    }
  }

  /** From a store whose HEAD is absent or names a stored file, reading what a successful put
      returned gives the payload back. */
  lemma PutThenRead(hash: Hash, dir: Directory, payload: SnapshotPayload, trigger: SnapshotTrigger,
                    reason: SnapshotReason, now: int, disk: Disk, moves: string -> bool)
    requires Sound(hash, dir) && HeadStored(dir) && NoCollision(hash, dir, payload)
    requires Put(hash, dir, payload, trigger, reason, now, disk).1.Success?
    ensures var (after, id) := Put(hash, dir, payload, trigger, reason, now, disk);
      && Sound(hash, after) && HeadStored(after) && after.head == Some(id.value)
      && Read(hash, after, id.value, moves).0 == after
      && Read(hash, after, id.value, moves).1.Success?
      && Read(hash, after, id.value, moves).1.value.payload == payload
  {
    hide Put, Read, Prune, Sound;
    var after := Put(hash, dir, payload, trigger, reason, now, disk).0;
    var id := hash(payload);
    PutKeepsSound(hash, dir, payload, trigger, reason, now, disk);
    PutKeepsHeadStored(hash, dir, payload, trigger, reason, now, disk);
    PutMovesHead(hash, dir, payload, trigger, reason, now, disk);
    ReadOfSound(hash, after, id, moves);
    StoredPayload(hash, dir, payload, trigger, reason, now, disk);
  }

  /** A put, succeeding or failing anywhere, stores nothing but its payload. */
  lemma PutStoresOnly(hash: Hash, dir: Directory, payload: SnapshotPayload, trigger: SnapshotTrigger,
                      reason: SnapshotReason, now: int, disk: Disk, id: string)
    requires Sound(hash, dir)
    requires id in Put(hash, dir, payload, trigger, reason, now, disk).0.files && id !in dir.files
    ensures id == hash(payload)
    ensures Put(hash, dir, payload, trigger, reason, now, disk).0.files[id]
         == NewDocument(id, dir.head, payload, trigger, reason, now)
  {
    hide Examine, Prune, MoveHead;
    var key := hash(payload);
    if dir.head != Some(key) {
      if key in dir.files {
        MoveHeadOfSound(hash, dir, key, false, disk);
      } else {
        NewDocumentIsIntact(hash, dir.head, payload, trigger, reason, now);
        var written := dir.(files := dir.files[key := NewDocument(key, dir.head, payload, trigger, reason, now)]);
        assert Sound(hash, written);
        MoveHeadOfSound(hash, written, key, true, disk);
      }
    }
  }

  /** What a successful put returned reads back as its payload exactly when HEAD did not name that id
      with its file gone. */
  lemma PutReadsIff(hash: Hash, dir: Directory, payload: SnapshotPayload, trigger: SnapshotTrigger,
                    reason: SnapshotReason, now: int, disk: Disk, moves: string -> bool)
    requires Sound(hash, dir) && NoCollision(hash, dir, payload)
    requires Put(hash, dir, payload, trigger, reason, now, disk).1.Success?
    ensures var (after, id) := Put(hash, dir, payload, trigger, reason, now, disk);
      var (_, r) := Read(hash, after, id.value, moves);
      && Read(hash, after, id.value, moves).0 == after
      && (r.Success? <==> !Stale(dir, hash(payload)))
      && (r.Success? ==> r.value.payload == payload)
  {
    hide Put, Prune, Sound;
    var after := Put(hash, dir, payload, trigger, reason, now, disk).0;
    PutKeepsSound(hash, dir, payload, trigger, reason, now, disk);
    PutMovesHead(hash, dir, payload, trigger, reason, now, disk);
    PutStoresIff(hash, dir, payload, trigger, reason, now, disk);
    ReadOfSound(hash, after, hash(payload), moves);
    if !Stale(dir, hash(payload)) {
      StoredPayload(hash, dir, payload, trigger, reason, now, disk);
    }
  }

  lemma StoredPayload(hash: Hash, dir: Directory, payload: SnapshotPayload, trigger: SnapshotTrigger,
                      reason: SnapshotReason, now: int, disk: Disk)
    requires Sound(hash, dir) && !Stale(dir, hash(payload)) && NoCollision(hash, dir, payload)
    requires Put(hash, dir, payload, trigger, reason, now, disk).1.Success?
    ensures var (after, id) := Put(hash, dir, payload, trigger, reason, now, disk);
      && id.value in after.files && Examine(hash, id.value, after.files[id.value]).Intact?
      && Examine(hash, id.value, after.files[id.value]).snapshot.payload == payload
  {
    hide Prune, MoveHead;
    var id := hash(payload);
    PutKeepsSound(hash, dir, payload, trigger, reason, now, disk);
    PutStoresIff(hash, dir, payload, trigger, reason, now, disk);
    if dir.head != Some(id) && id !in dir.files {
      NewDocumentIsIntact(hash, dir.head, payload, trigger, reason, now);
      var written := dir.(files := dir.files[id := NewDocument(id, dir.head, payload, trigger, reason, now)]);
      assert Sound(hash, written);
      MoveHeadStores(hash, written, id, true, disk);
    } else if dir.head != Some(id) {
      MoveHeadStores(hash, dir, id, false, disk);
    }
  }

  predicate IsStoredParent(dir: Directory, id: string, parent: Option<string>) {
    parent.Some? ==> parent.value != id && parent.value in dir.files
  }

  /** A successful delete takes exactly that file away. HEAD still names a stored file, or none,
      exactly when the deleted snapshot was not HEAD's or its parent is absent or stored. */
  lemma RemoveKeepsHeadStoredIff(hash: Hash, dir: Directory, id: string, disk: Disk)
    requires Sound(hash, dir) && HeadStored(dir) && Remove(hash, dir, id, disk).1.Success?
    ensures Remove(hash, dir, id, disk).0.files == dir.files - {id} && id in dir.files
    ensures Remove(hash, dir, id, disk).0.head
         == if dir.head == Some(id) then NextHead(BestEffortMeta(dir.files[id], id)) else dir.head
    ensures HeadStored(Remove(hash, dir, id, disk).0) <==>
            (dir.head == Some(id) ==> IsStoredParent(dir, id, NextHead(BestEffortMeta(dir.files[id], id))))
  {
    ReadOfSound(hash, dir, id, disk.moves);
  }

  /** A delete that fails, wherever it fails, deletes nothing: at worst HEAD has moved to the parent.
      So HEAD is never left naming the file that went, unless a snapshot is its own parent. */
  lemma FailedRemoveDeletesNothing(hash: Hash, dir: Directory, id: string, disk: Disk)
    requires Sound(hash, dir)
    ensures var (after, r) := Remove(hash, dir, id, disk);
      && (r.Failure? ==> after.files == dir.files)
      && (r.Failure? && after.head != dir.head ==>
            dir.head == Some(id) && id in dir.files && after.head == NextHead(BestEffortMeta(dir.files[id], id)))
      && (id !in dir.files ==> r.Failure? && after == dir)
      && (r.Success? && after.head == Some(id) ==> NextHead(BestEffortMeta(dir.files[id], id)) == Some(id))
  {
    ReadOfSound(hash, dir, id, disk.moves);
  }

  /** A delete whose HEAD, if it is the deleted one, has an absent or stored parent leaves HEAD absent or
      naming a stored file, succeeding or failing anywhere. */
  lemma RemoveKeepsHeadStored(hash: Hash, dir: Directory, id: string, disk: Disk)
    requires Sound(hash, dir) && HeadStored(dir)
    requires dir.head == Some(id) && id in dir.files ==>
      IsStoredParent(dir, id, NextHead(BestEffortMeta(dir.files[id], id)))
    ensures HeadStored(Remove(hash, dir, id, disk).0)
  {
    ReadOfSound(hash, dir, id, disk.moves);
  }

  // ---------------------------------------------------------------- twenty automatic snapshots

  ghost function AutoIds(hash: Hash, dir: Directory): set<string> {
    set id | id in dir.files && Examine(hash, id, dir.files[id]).Intact?
             && Examine(hash, id, dir.files[id]).snapshot.meta.trigger == Auto :: id
  }

  // Directory iteration reports each of these files once, and no quarantined one.
  ghost predicate Complete(files: set<string>, listing: seq<Name>) {
    && (forall k :: 0 <= k < |listing| ==> listing[k].Json? && listing[k].id in files)
    && (forall j, k :: 0 <= j < k < |listing| ==> listing[j] != listing[k])
    && (forall id :: id in files ==> Json(id) in listing)
  }

  lemma MetaOfSound(hash: Hash, dir: Directory, id: string, moves: string -> bool)
    requires Sound(hash, dir) && id in dir.files
    ensures var meta := ScanOne(hash, dir, Json(id), moves).1;
      && FromFile(hash, dir, meta) && meta.id == id && meta.health == Ok
      && (IsHealthyAuto(meta) <==> id in AutoIds(hash, dir))
  {
    ReadOfSound(hash, dir, id, moves);
  }

  // In a sound store the scan yields one healthy entry for each file.
  lemma ScanIsComplete(hash: Hash, dir: Directory, listing: seq<Name>, moves: string -> bool)
    requires Sound(hash, dir) && Complete(dir.files.Keys, listing)
    ensures var metas := Scan(hash, dir, listing, moves).1;
      && DistinctIds(metas) && Ids(metas) == dir.files.Keys
      && forall m :: m in metas ==> m.id in dir.files && m == ScanOne(hash, dir, Json(m.id), moves).1
  {
    hide ScanOne, Scan, Sound;
    ScanOfSound(hash, dir, listing, moves);
    var metas := Scan(hash, dir, listing, moves).1;
    forall k | 0 <= k < |listing|
      ensures metas[k] == ScanOne(hash, dir, Json(listing[k].id), moves).1 && metas[k].id == listing[k].id
    {
      MetaOfSound(hash, dir, listing[k].id, moves);
    }
    forall i, j | 0 <= i < j < |metas|
      ensures metas[i].id != metas[j].id
    {
      assert listing[i] != listing[j];
    }
    forall id | id in dir.files
      ensures id in Ids(metas)
    {
      var k :| 0 <= k < |listing| && listing[k] == Json(id);
      assert metas[k].id == id;
    }
  }

  lemma OrderedMembers(metas: Metas, head: Option<string>, m: SnapshotMeta)
    requires DistinctIds(metas)
    ensures m in Ordered(metas, head) <==> m in metas
  {
    DistinctIsPermutation(metas, head);
    assert m in Ordered(metas, head) <==> m in multiset(Ordered(metas, head));
    assert m in metas <==> m in multiset(metas);
  }

  lemma {:induction false} AutosDistinct(metas: Metas)
    requires DistinctIds(metas)
    ensures DistinctIds(Autos(metas))
  {
    if metas != [] {
      AutosDistinct(metas[1..]);
      var tail := Autos(metas[1..]);
      forall k | 0 <= k < |tail|
        ensures tail[k].id != metas[0].id
      {
        AutosMembers(metas[1..], tail[k]);
        var j :| 0 <= j < |metas[1..]| && metas[1..][j] == tail[k];
        assert metas[j + 1] == tail[k];
      }
    }
  }

  lemma IdsMember(metas: Metas, m: SnapshotMeta)
    requires m in metas
    ensures m.id in Ids(metas)
  {
  }

  // The listed automatic snapshots are the stored ones, each once.
  lemma AutosAreAutoIds(hash: Hash, dir: Directory, listing: seq<Name>, moves: string -> bool)
    requires Sound(hash, dir) && Complete(dir.files.Keys, listing)
    ensures var autos := Autos(Ordered(Scan(hash, dir, listing, moves).1, dir.head));
      DistinctIds(autos) && Ids(autos) == AutoIds(hash, dir)
  {
    hide Sound, ScanOne, Scan, Ordered, Ids, AutoIds;
    var metas := Scan(hash, dir, listing, moves).1;
    var ordered := Ordered(metas, dir.head);
    var autos := Autos(ordered);
    ScanIsComplete(hash, dir, listing, moves);
    OrderedIsDistinct(metas, dir.head);
    AutosDistinct(ordered);
    forall id
      ensures id in Ids(autos) <==> id in AutoIds(hash, dir)
    {
      if id in Ids(autos) {
        var m := MemberWith(autos, id);
        AutosMembers(ordered, m);
        OrderedMembers(metas, dir.head, m);
        MetaOfSound(hash, dir, id, moves);
      }
      if id in AutoIds(hash, dir) {
        AutoIdsStored(hash, dir);
        var m := MemberWith(metas, id);
        MetaOfSound(hash, dir, id, moves);
        OrderedMembers(metas, dir.head, m);
        AutosMembers(ordered, m);
        IdsMember(autos, m);
      }
    }
  }

  lemma MemberWith(metas: Metas, id: string) returns (m: SnapshotMeta)
    requires id in Ids(metas)
    ensures m in metas && m.id == id
  {
    var k :| 0 <= k < |metas| && metas[k].id == id;
    m := metas[k];
  }

  lemma SplitIds(metas: Metas, n: nat)
    requires DistinctIds(metas) && n <= |metas|
    ensures Ids(metas) - Ids(metas[n..]) == Ids(metas[..n])
    ensures Ids(metas[n..]) <= Ids(metas)
  {
    assert metas == metas[..n] + metas[n..];
    IdsConcat(metas[..n], metas[n..]);
    forall j, k | 0 <= j < n && 0 <= k < |metas[n..]|
      ensures metas[..n][j].id != metas[n..][k].id
    {
      assert metas[n..][k] == metas[n + k];
    }
  }

  /** Listing a sound store changes nothing and shows each stored snapshot once, HEAD's first. */
  lemma ListShowsTheStore(hash: Hash, dir: Directory, disk: Disk)
    requires Sound(hash, dir) && Complete(dir.files.Keys, disk.listing)
    ensures var (after, metas) := List(hash, dir, disk);
      && after == dir && DistinctIds(metas) && Ids(metas) == dir.files.Keys
      && (forall m :: m in metas ==> FromFile(hash, dir, m))
      && (dir.head.Some? && dir.head.value in dir.files ==> metas != [] && metas[0].id == dir.head.value)
  {
    hide Sound, Scan, Ordered, ScanOne, Examine, Ids;
    ScanOfSound(hash, dir, disk.listing, disk.moves);
    ScanIsComplete(hash, dir, disk.listing, disk.moves);
    var found := Scan(hash, dir, disk.listing, disk.moves).1;
    var metas := List(hash, dir, disk).1;
    OrderedIsDistinct(found, dir.head);
    forall m
      ensures m in metas <==> m in found
    {
      OrderedMembers(found, dir.head, m);
    }
    SameMembersSameIds(metas, found);
    forall m | m in metas
      ensures FromFile(hash, dir, m)
    {
      MetaOfSound(hash, dir, m.id, disk.moves);
    }
    if dir.head.Some? && dir.head.value in dir.files {
      HeadIsFirst(found, dir.head.value);
    }
  }

  lemma SameMembersSameIds(a: Metas, b: Metas)
    requires forall m :: m in a <==> m in b
    ensures Ids(a) == Ids(b)
  {
    forall id
      ensures id in Ids(a) <==> id in Ids(b)
    {
      if id in Ids(a) {
        var m := MemberWith(a, id);
        IdsMember(b, m);
      }
      if id in Ids(b) {
        var m := MemberWith(b, id);
        IdsMember(a, m);
      }
    }
  }

  lemma HeadIsFirst(metas: Metas, head: string)
    requires head in Ids(metas)
    ensures Ordered(metas, Some(head)) != [] && Ordered(metas, Some(head))[0].id == head
  {
    IdIsListed(metas, head);
    WalkFollows(metas, head, {});
  }

  function First(n: nat, metas: Metas): Metas {
    if |metas| <= n then metas else metas[..n]
  }

  /** Pruning a sound store keeps, of the automatic snapshots, the first twenty in listing order,
      and every other file. */
  lemma PruneKeepsFirstTwenty(hash: Hash, dir: Directory, disk: Disk)
    requires Sound(hash, dir) && Complete(dir.files.Keys, disk.listing)
    requires forall id :: disk.deletes(id)
    ensures var (pruned, ordered) := (Prune(hash, dir, disk), List(hash, dir, disk).1);
      && AutoIds(hash, pruned) == Ids(First(KEEP_AUTO, Autos(ordered)))
      && |AutoIds(hash, pruned)| <= KEEP_AUTO
      && (forall id :: id in dir.files && id !in AutoIds(hash, dir) ==> id in pruned.files)
  {
    hide Sound, Scan, Ordered, Ids, AutoIds, Complete, Prune;
    var ordered := List(hash, dir, disk).1;
    var autos, pruned := Autos(ordered), Prune(hash, dir, disk);
    PruneOfSound(hash, dir, disk);
    PruneDeletes(hash, dir, disk);
    AutosAreAutoIds(hash, dir, disk.listing, disk.moves);
    FirstAndBeyond(KEEP_AUTO, autos);
    hide First, Beyond, Autos;
    AutoIdsOfPart(hash, dir, pruned);
    AutoIdsStored(hash, dir);
  }

  lemma FirstAndBeyond(n: nat, metas: Metas)
    requires DistinctIds(metas)
    ensures Ids(metas) - Ids(Beyond(n, metas)) == Ids(First(n, metas))
    ensures Ids(Beyond(n, metas)) <= Ids(metas)
    ensures |Ids(First(n, metas))| <= n
  {
    FewIds(First(n, metas));
    if |metas| <= n {
      IdsNone();
    } else {
      SplitIds(metas, n);
    }
  }

  lemma PruneDeletes(hash: Hash, dir: Directory, disk: Disk)
    requires Sound(hash, dir) && forall id :: disk.deletes(id)
    ensures List(hash, dir, disk).1 == Ordered(Scan(hash, dir, disk.listing, disk.moves).1, dir.head)
    ensures Prune(hash, dir, disk).files.Keys == dir.files.Keys - Ids(Surplus(List(hash, dir, disk).1))
  {
    ScanOfSound(hash, dir, disk.listing, disk.moves);
  }

  lemma AutoIdsStored(hash: Hash, dir: Directory)
    ensures AutoIds(hash, dir) <= dir.files.Keys
  {
  }

  lemma AutoIdsOfPart(hash: Hash, dir: Directory, part: Directory)
    requires part.files.Keys <= dir.files.Keys && NotRewritten(dir, part)
    ensures AutoIds(hash, part) == AutoIds(hash, dir) * part.files.Keys
    ensures |AutoIds(hash, part)| <= |AutoIds(hash, dir)|
  {
    SubsetAtMost(AutoIds(hash, part), AutoIds(hash, dir));
  }

  // The file system does what it is asked, and a put's scan sees every file.
  ghost predicate Works(hash: Hash, dir: Directory, op: Op, disk: Disk) {
    && disk.document.Done? && disk.head.Done? && (forall id :: disk.deletes(id))
    && (op.PutOp? ==> Complete(dir.files.Keys + {hash(op.payload)}, disk.listing))
  }

  ghost predicate WorkingRun(hash: Hash, ops: seq<(Op, Disk)>) {
    ops == [] ||
    var n := |ops| - 1;
    WorkingRun(hash, ops[..n]) && Works(hash, Run(hash, EMPTY, ops[..n]), ops[n].0, ops[n].1)
  }

  lemma PutKeepsTwenty(hash: Hash, dir: Directory, op: Op, disk: Disk)
    requires Sound(hash, dir) && op.PutOp? && Works(hash, dir, op, disk) && |AutoIds(hash, dir)| <= KEEP_AUTO
    ensures |AutoIds(hash, Step(hash, dir, op, disk))| <= KEEP_AUTO
  {
    hide Prune, AutoIds, Examine, Complete;
    var id := hash(op.payload);
    if dir.head == Some(id) {
    } else if id in dir.files {
      AutoIdsOfPart(hash, dir, dir.(head := Some(id)));
    } else {
      NewDocumentIsIntact(hash, dir.head, op.payload, op.trigger, op.reason, op.now);
      var doc := NewDocument(id, dir.head, op.payload, op.trigger, op.reason, op.now);
      var moved := dir.(files := dir.files[id := doc], head := Some(id));
      assert Sound(hash, moved);
      assert moved.files.Keys == dir.files.Keys + {id};
      PruneKeepsFirstTwenty(hash, moved, disk);
    }
  }

  lemma RemoveKeepsTwenty(hash: Hash, dir: Directory, id: string, disk: Disk)
    requires Sound(hash, dir) && |AutoIds(hash, dir)| <= KEEP_AUTO
    ensures |AutoIds(hash, Remove(hash, dir, id, disk).0)| <= KEEP_AUTO
  {
    hide AutoIds, Examine;
    ReadOfSound(hash, dir, id, disk.moves);
    AutoIdsOfPart(hash, dir, Remove(hash, dir, id, disk).0);
  }

  /** In every run from the empty store with working file operations, no more than twenty healthy
      automatic snapshots are stored after each operation. */
  lemma {:induction false} RunKeepsTwenty(hash: Hash, ops: seq<(Op, Disk)>)
    requires WorkingRun(hash, ops)
    ensures Sound(hash, Run(hash, EMPTY, ops)) && |AutoIds(hash, Run(hash, EMPTY, ops))| <= KEEP_AUTO
  {
    hide Sound, AutoIds, Put, Remove, Works;
    if ops == [] {
      assert Sound(hash, EMPTY) by { RunIsSound(hash, []); }
      AutoIdsStored(hash, EMPTY);
      assert AutoIds(hash, EMPTY) == {};
    } else {
      var n := |ops| - 1;
      RunKeepsTwenty(hash, ops[..n]);
      var before, op, disk := Run(hash, EMPTY, ops[..n]), ops[n].0, ops[n].1;
      StepKeepsSound(hash, before, op, disk);
      match op
      case PutOp(_, _, _, _) => PutKeepsTwenty(hash, before, op, disk);
      case RemoveOp(id) => RemoveKeepsTwenty(hash, before, id, disk);
      case ReadOp(id) => ReadOfSound(hash, before, id, disk.moves);
      case ListOp => ScanOfSound(hash, before, disk.listing, disk.moves);
    }
  }

  // ---------------------------------------------------------------- directories of any contents

  ghost predicate Traced(hash: Hash, dir: Directory, after: Directory, id: string) {
    && id in dir.files
    && (id in after.files ==> after.files[id] == dir.files[id])
    && (id !in after.files ==> Examine(hash, id, dir.files[id]).Damaged? && BadFile(id, dir.files[id]) in after.bad)
  }

  ghost predicate FromFile(hash: Hash, dir: Directory, m: SnapshotMeta) {
    m.id in dir.files && Examine(hash, m.id, dir.files[m.id]).Intact?
    && Examine(hash, m.id, dir.files[m.id]).snapshot.meta == m
  }

  // A scan loses nothing and reports as healthy only what is.
  lemma {:induction false} ScanTraces(hash: Hash, dir: Directory, listing: seq<Name>, moves: string -> bool)
    ensures var (after, metas) := Scan(hash, dir, listing, moves);
      && after.head == dir.head && after.files.Keys <= dir.files.Keys
      && (forall id :: id in dir.files ==> Traced(hash, dir, after, id))
      && (forall k :: 0 <= k < |metas| && metas[k].health == Ok ==> FromFile(hash, dir, metas[k]))
  {
    if listing != [] {
      var n := |listing| - 1;
      ScanTraces(hash, dir, listing[..n], moves);
      var (before, metas) := Scan(hash, dir, listing[..n], moves);
      ScanOneTraces(hash, before, listing[n], moves);
      var (after, meta) := ScanOne(hash, before, listing[n], moves);
      hide ScanOne, Examine;
      forall id | id in dir.files
        ensures Traced(hash, dir, after, id)
      {
        assert Traced(hash, dir, before, id);
        assert id in before.files ==> Traced(hash, before, after, id);
      }
      if meta.health == Ok {
        assert Traced(hash, dir, before, meta.id);
        assert FromFile(hash, dir, meta);
      }
    }
  }

  lemma ScanOneTraces(hash: Hash, dir: Directory, name: Name, moves: string -> bool)
    ensures var (after, meta) := ScanOne(hash, dir, name, moves);
      && after.head == dir.head && after.files.Keys <= dir.files.Keys
      && (forall id :: id in dir.files ==> Traced(hash, dir, after, id))
      && (forall b :: b in dir.bad ==> b in after.bad)
      && (meta.health == Ok ==> FromFile(hash, dir, meta))
  {
    var (after, meta) := ScanOne(hash, dir, name, moves);
    if name.Json? && name.id in dir.files && Examine(hash, name.id, dir.files[name.id]).Damaged? && moves(name.id) {
      assert after.bad[|dir.bad|] == BadFile(name.id, dir.files[name.id]);
      assert forall k :: 0 <= k < |dir.bad| ==> after.bad[k] == dir.bad[k];
    }
  }

  lemma {:induction false} OrderedFrom(metas: Metas, head: Option<string>, m: SnapshotMeta)
    requires m in Ordered(metas, head)
    ensures m in metas
  {
    var chain := Chain(metas, head);
    SortBag(Without(metas, Ids(chain)));
    WithMembers(metas, Ids(chain), m);
    if head.Some? {
      WalkFollows(metas, head.value, {});
    }
    assert m in Sort(Without(metas, Ids(chain))) <==> m in multiset(Sort(Without(metas, Ids(chain))));
  }

  ghost predicate PastTwentieth(ordered: Metas, id: string) {
    exists k :: KEEP_AUTO <= k < |Autos(ordered)| && Autos(ordered)[k].id == id
  }

  /** Whatever is in the directory and however it is listed: a file that pruning takes away was
      damaged and is kept in quarantine, or it is a healthy automatic snapshot that HEAD does not
      name and that comes after twenty others in listing order. */
  lemma PruneTakesOnly(hash: Hash, dir: Directory, disk: Disk, id: string)
    requires id in dir.files
    ensures var (pruned, listed) := (Prune(hash, dir, disk), List(hash, dir, disk).1);
      && (id in pruned.files ==> pruned.files[id] == dir.files[id])
      && (id !in pruned.files ==>
            || (Examine(hash, id, dir.files[id]).Damaged? && BadFile(id, dir.files[id]) in pruned.bad)
            || (Examine(hash, id, dir.files[id]).Intact?
                && Examine(hash, id, dir.files[id]).snapshot.meta.trigger == Auto
                && dir.head != Some(id) && PastTwentieth(listed, id)))
  {
    hide Examine, Ordered, Scan, Autos;
    ScanTraces(hash, dir, disk.listing, disk.moves);
    var (after, metas) := Scan(hash, dir, disk.listing, disk.moves);
    var listed := List(hash, dir, disk).1;
    assert Traced(hash, dir, after, id);
    if id in after.files && id in Ids(Surplus(listed)) {
      var k :| 0 <= k < |Surplus(listed)| && Surplus(listed)[k].id == id;
      var m := Surplus(listed)[k];
      assert Autos(listed)[KEEP_AUTO + k] == m;
      AutosMembers(listed, m);
      OrderedFrom(metas, dir.head, m);
      assert FromFile(hash, dir, m);
      if dir.head == Some(id) {
        HeadIsNoSurplus(metas, id);
      }
    }
  }

  // ---------------------------------------------------------------- what deleting can do

  // Two payloads stored one after the other, by file operations that work.
  ghost predicate TwoPuts(hash: Hash, p: SnapshotPayload, q: SnapshotPayload, disk1: Disk, disk2: Disk) {
    && hash(p) != hash(q) && hash(p) != ""
    && disk1.document.Done? && disk1.head.Done? && (forall id :: disk1.deletes(id))
    && disk2.document.Done? && disk2.head.Done? && (forall id :: disk2.deletes(id))
    && Complete({hash(p)}, disk1.listing) && Complete({hash(p), hash(q)}, disk2.listing)
  }

  lemma PruneNothing(hash: Hash, dir: Directory, disk: Disk)
    requires Sound(hash, dir) && Complete(dir.files.Keys, disk.listing) && |dir.files| <= KEEP_AUTO
    ensures Prune(hash, dir, disk) == dir
  {
    hide Sound, Scan, Ordered, AutoIds, Complete;
    ScanOfSound(hash, dir, disk.listing, disk.moves);
    AutosAreAutoIds(hash, dir, disk.listing, disk.moves);
    AutoIdsStored(hash, dir);
    SubsetAtMost(AutoIds(hash, dir), dir.files.Keys);
    assert |dir.files| == |dir.files.Keys|;
    var autos := Autos(Ordered(Scan(hash, dir, disk.listing, disk.moves).1, dir.head));
    FewIds(autos);
    IdsNone();
    assert Deleted(dir.files, [], disk.deletes) == dir.files;
  }

  lemma PutOne(hash: Hash, dir: Directory, p: SnapshotPayload, trigger: SnapshotTrigger, reason: SnapshotReason,
               now: int, disk: Disk)
    requires Sound(hash, dir) && dir.head != Some(hash(p)) && hash(p) !in dir.files && |dir.files| < KEEP_AUTO
    requires disk.document.Done? && disk.head.Done? && Complete(dir.files.Keys + {hash(p)}, disk.listing)
    ensures var doc := NewDocument(hash(p), dir.head, p, trigger, reason, now);
      Put(hash, dir, p, trigger, reason, now, disk)
      == (dir.(files := dir.files[hash(p) := doc], head := Some(hash(p))), Success(hash(p)))
  {
    hide Examine, Prune, Complete;
    var doc := NewDocument(hash(p), dir.head, p, trigger, reason, now);
    NewDocumentIsIntact(hash, dir.head, p, trigger, reason, now);
    var moved := dir.(files := dir.files[hash(p) := doc], head := Some(hash(p)));
    assert Sound(hash, moved);
    OneMoreFile(dir.files, hash(p), doc);
    hide Sound;
    PruneNothing(hash, moved, disk);
  }

  lemma OneMoreFile(files: map<string, Document>, id: string, doc: Document)
    requires id !in files
    ensures files[id := doc].Keys == files.Keys + {id} && |files[id := doc]| == |files| + 1
  {
    assert files[id := doc].Keys == files.Keys + {id};
    assert |files[id := doc].Keys| == |files.Keys| + 1;
  }

  // Two puts, then the first snapshot is deleted: HEAD's parent is gone.
  lemma DeleteTheParent(hash: Hash, p: SnapshotPayload, q: SnapshotPayload, trigger: SnapshotTrigger,
                        reason: SnapshotReason, now: int, disk1: Disk, disk2: Disk)
    requires TwoPuts(hash, p, q, disk1, disk2)
    ensures var first := Put(hash, EMPTY, p, trigger, reason, now, disk1).0;
      var second := Put(hash, first, q, trigger, reason, now, disk2).0;
      Remove(hash, second, hash(p), disk2)
      == (Directory(map[hash(q) := NewDocument(hash(q), Some(hash(p)), q, trigger, reason, now)], [], Some(hash(q))),
          Success(()))
  {
    hide Put, Complete, Examine;
    var a, b := hash(p), hash(q);
    var docA := NewDocument(a, None, p, trigger, reason, now);
    var docB := NewDocument(b, Some(a), q, trigger, reason, now);
    assert EMPTY.files.Keys + {a} == {a};
    PutOne(hash, EMPTY, p, trigger, reason, now, disk1);
    var first := Directory(map[a := docA], [], Some(a));
    assert EMPTY.files[a := docA] == first.files;
    NewDocumentIsIntact(hash, None, p, trigger, reason, now);
    NewDocumentIsIntact(hash, Some(a), q, trigger, reason, now);
    assert first.files.Keys + {b} == {a, b};
    PutOne(hash, first, q, trigger, reason, now, disk2);
    var second := Directory(map[a := docA, b := docB], [], Some(b));
    assert first.files[b := docB] == second.files;
    assert Sound(hash, second);
    ReadOfSound(hash, second, a, disk2.moves);
    assert second.files - {a} == map[b := docB];
  }

  /** Deleting the older of two snapshots and then the newer moves HEAD to an id without a file;
      putting the older payload again reports success and stores nothing. */
  lemma DeletesCanLoseHead(hash: Hash, p: SnapshotPayload, q: SnapshotPayload, trigger: SnapshotTrigger,
                           reason: SnapshotReason, now: int, disk1: Disk, disk2: Disk)
    requires TwoPuts(hash, p, q, disk1, disk2)
    ensures var first := Put(hash, EMPTY, p, trigger, reason, now, disk1).0;
      var second := Put(hash, first, q, trigger, reason, now, disk2).0;
      var third := Remove(hash, second, hash(p), disk2).0;
      var last := Remove(hash, third, hash(q), disk2).0;
      && last == Directory(map[], [], Some(hash(p))) && !HeadStored(last)
      && Put(hash, last, p, trigger, reason, now, disk1) == (last, Success(hash(p)))
  {
    hide Complete;
    DeleteTheParent(hash, p, q, trigger, reason, now, disk1, disk2);
    var doc := NewDocument(hash(q), Some(hash(p)), q, trigger, reason, now);
    var third := Directory(map[hash(q) := doc], [], Some(hash(q)));
    NewDocumentIsIntact(hash, Some(hash(p)), q, trigger, reason, now);
    assert third.files - {hash(q)} == map[];
  }

  /** Putting a deleted ancestor's payload again closes a cycle of parent links. */
  lemma DeletesCanCloseACycle(hash: Hash, p: SnapshotPayload, q: SnapshotPayload, trigger: SnapshotTrigger,
                              reason: SnapshotReason, now: int, disk1: Disk, disk2: Disk)
    requires TwoPuts(hash, p, q, disk1, disk2)
    ensures var first := Put(hash, EMPTY, p, trigger, reason, now, disk1).0;
      var second := Put(hash, first, q, trigger, reason, now, disk2).0;
      var third := Remove(hash, second, hash(p), disk2).0;
      var last := Put(hash, third, p, trigger, reason, now, disk2).0;
      && last.files.Keys == {hash(p), hash(q)}
      && BestEffortMeta(last.files[hash(p)], "").parent == Some(hash(q))
      && BestEffortMeta(last.files[hash(q)], "").parent == Some(hash(p))
  {
    hide Complete, Put, Remove;
    DeleteTheParent(hash, p, q, trigger, reason, now, disk1, disk2);
    var doc := NewDocument(hash(q), Some(hash(p)), q, trigger, reason, now);
    var third := Directory(map[hash(q) := doc], [], Some(hash(q)));
    NewDocumentIsIntact(hash, Some(hash(p)), q, trigger, reason, now);
    assert third.files.Keys + {hash(p)} == {hash(p), hash(q)};
    PutOne(hash, third, p, trigger, reason, now, disk2);
  }

  // ---------------------------------------------------------------- the store itself

  lemma {:induction false} AutosConcat(a: Metas, b: Metas)
    ensures Autos(a + b) == Autos(a) + Autos(b)
  {
    if a == [] {
      assert a + b == b && Autos(a) == [];
      assert Autos(a) + Autos(b) == Autos(b);
    } else {
      hide Autos, AutoOnly;
      AutosConcat(a[1..], b);
      var joined := a + b;
      assert joined[0] == a[0] && joined[1..] == a[1..] + b;
      AutosOfHead(a[0], a[1..], a);
      AutosOfHead(a[0], a[1..] + b, joined);
      Regroup(AutoOnly(a[0]), Autos(a[1..]), Autos(b));
    }
  }

  lemma AutosOfHead(m: SnapshotMeta, rest: Metas, metas: Metas)
    requires metas != [] && metas[0] == m && metas[1..] == rest
    ensures Autos(metas) == AutoOnly(m) + Autos(rest)
  {
  }

  // The next entry is surplus exactly when it is the counter's twenty-first or later automatic one.
  lemma SurplusNext(ordered: Metas, i: nat)
    requires i < |ordered|
    ensures |Autos(ordered[..i + 1])| == |Autos(ordered[..i])| + if IsHealthyAuto(ordered[i]) then 1 else 0
    ensures Surplus(ordered[..i + 1])
         == Surplus(ordered[..i])
            + if IsHealthyAuto(ordered[i]) && |Autos(ordered[..i + 1])| > KEEP_AUTO then [ordered[i]] else []
  {
    assert ordered[..i + 1] == ordered[..i] + [ordered[i]];
    AutosConcat(ordered[..i], [ordered[i]]);
    assert [ordered[i]][1..] == [];
  }

  /** The directory on disk, changed by the operations under the store's lock. */
  class JsonSnapshotStore {
    const hash: Hash
    var files: map<string, Document>
    var bad: seq<BadFile>
    var head: Option<string>

    constructor (hash: Hash)
      ensures this.hash == hash && Dir() == EMPTY
    {
      this.hash := hash;
      files, bad, head := map[], [], None;
    }

    ghost function Dir(): Directory
      reads this
    {
      Directory(files, bad, head)
    }

    method QuarantineAndFail(id: string, moves: bool)
      requires id in files
      modifies this
      ensures Dir() == Quarantine(old(Dir()), id, moves)
    {
      if moves {
        bad := bad + [BadFile(id, files[id])];
        files := files - {id};
      }
    }

    method MissingSnapshotError(id: string) returns (code: ErrorCode)
      ensures code == if Quarantined(Dir(), id) then Io else NotFound
    {
      for n := 0 to |bad|
        invariant forall k :: 0 <= k < n ==> bad[k].id != id
      {
        if bad[n].id == id {
          assert Quarantined(Dir(), id);
          return Io;
        }
      }
      return NotFound;
    }

    method ReadLocked(id: string, moves: string -> bool) returns (r: Result<Snapshot>)
      modifies this
      ensures (Dir(), r) == Read(hash, old(Dir()), id, moves)
    {
      if id !in files {
        var code := MissingSnapshotError(id);
        return Failure(code);
      }
      var doc := files[id];
      if doc.NotAnObject? || doc.formatVersion.None? {
        QuarantineAndFail(id, moves(id));
        return Failure(Io);
      }
      if doc.formatVersion.value > FORMAT_VERSION {
        return Failure(Unsupported);
      }
      if doc.payload.None? {
        QuarantineAndFail(id, moves(id));
        return Failure(Io);
      }
      var payload, meta := doc.payload.value, BestEffortMeta(doc, id);
      if hash(payload) != id || meta.id != id {
        QuarantineAndFail(id, moves(id));
        return Failure(Io);
      }
      meta := meta.(entryCount := |payload.entries|, modprobeFileCount := |payload.modprobeFiles|);
      return Success(Snapshot(meta, payload));
    }

    method ScanOneLocked(name: Name, moves: string -> bool) returns (meta: SnapshotMeta)
      modifies this
      ensures (Dir(), meta) == ScanOne(hash, old(Dir()), name, moves)
    {
      match name
      case Bad(n) =>
        meta := if n < |bad| then BestEffortMeta(bad[n].document, bad[n].id) else BestEffortMeta(NotAnObject, "");
        meta := meta.(health := Corrupt);
      case Json(id) =>
        var was := if id in files then files[id] else NotAnObject;
        var r := ReadLocked(id, moves);
        if r.Success? {
          meta := r.value.meta;
        } else if r.code == Unsupported {
          meta := BestEffortMeta(was, id).(health := FromFuture);
        } else {
          meta := BestEffortMeta(NotAnObject, id).(health := Corrupt);
        }
    }

    method ScanLocked(listing: seq<Name>, moves: string -> bool) returns (metas: Metas)
      modifies this
      ensures (Dir(), metas) == Scan(hash, old(Dir()), listing, moves)
    {
      hide ScanOne;
      metas := [];
      for i := 0 to |listing|
        invariant (Dir(), metas) == Scan(hash, old(Dir()), listing[..i], moves)
      {
        var meta := ScanOneLocked(listing[i], moves);
        assert listing[..i + 1][..i] == listing[..i];
        metas := metas + [meta];
      }
      assert listing[..|listing|] == listing;
    }

    method ListAll(disk: Disk) returns (metas: Metas)
      modifies this
      ensures (Dir(), metas) == List(hash, old(Dir()), disk)
    {
      var found := ScanLocked(disk.listing, disk.moves);
      metas := OrderNewestFirst(found, head);
    }

    method PruneLocked(disk: Disk)
      modifies this
      ensures Dir() == Prune(hash, old(Dir()), disk)
    {
      hide Scan, Autos, Surplus, Ordered;
      ghost var headBefore := head;
      var found := ScanLocked(disk.listing, disk.moves);
      ScanTraces(hash, old(Dir()), disk.listing, disk.moves);
      var ordered := OrderNewestFirst(found, head);
      ghost var scanned := Dir();
      NothingSurplus();
      var autosSeen := 0;
      for i := 0 to |ordered|
        invariant autosSeen == |Autos(ordered[..i])|
        invariant Dir() == scanned.(files := Deleted(scanned.files, Surplus(ordered[..i]), disk.deletes))
      {
        SurplusNext(ordered, i);
        DeletedNext(scanned.files, Surplus(ordered[..i]), ordered[i], disk.deletes);
        if IsHealthyAuto(ordered[i]) {
          autosSeen := autosSeen + 1;
          if autosSeen > KEEP_AUTO && disk.deletes(ordered[i].id) {
            files := files - {ordered[i].id};
          }
        }
      }
      assert ordered[..|ordered|] == ordered;
    }

    method MoveHeadLocked(id: string, isNew: bool, disk: Disk) returns (r: Result<string>)
      modifies this
      ensures (Dir(), r) == MoveHead(hash, old(Dir()), id, isNew, disk)
    {
      hide Prune;
      if disk.head.NotDone? {
        return Failure(Io);
      }
      head := Some(id);
      if disk.head.DoneUnsynced? {
        return Failure(Io);
      }
      if isNew {
        PruneLocked(disk);
      }
      r := Success(id);
    }

    method PutPayload(payload: SnapshotPayload, trigger: SnapshotTrigger, reason: SnapshotReason, now: int, disk: Disk)
      returns (r: Result<string>)
      modifies this
      ensures (Dir(), r) == Put(hash, old(Dir()), payload, trigger, reason, now, disk)
    {
      hide MoveHead;
      var id := hash(payload);
      if head == Some(id) {
        return Success(id);
      }
      var known := id in files;
      if !known {
        if disk.document.NotDone? {
          return Failure(Io);
        }
        files := files[id := NewDocument(id, head, payload, trigger, reason, now)];
        if disk.document.DoneUnsynced? {
          return Failure(Io);
        }
      }
      r := MoveHeadLocked(id, !known, disk);
    }

    method RemoveSnapshot(id: string, disk: Disk) returns (r: Result<()>)
      modifies this
      ensures (Dir(), r) == Remove(hash, old(Dir()), id, disk)
    {
      hide Read;
      var snapshot := ReadLocked(id, disk.moves);
      if snapshot.Failure? {
        return Failure(snapshot.code);
      }
      if head == Some(id) {
        if disk.head.NotDone? {
          return Failure(Io);
        }
        head := NextHead(snapshot.value.meta);
        if disk.head.DoneUnsynced? {
          return Failure(Io);
        }
      }
      if !disk.deletes(id) {
        return Failure(Io);
      }
      files := files - {id};
      r := Success(());
    }
  }

  lemma NothingSurplus()
    ensures Autos([]) == [] && Surplus([]) == []
    ensures forall files: map<string, Document>, deletes :: Deleted(files, [], deletes) == files
  {
    IdsNone();
  }

  lemma DeletedNext(files: map<string, Document>, surplus: Metas, m: SnapshotMeta, deletes: string -> bool)
    ensures Deleted(files, surplus + [m], deletes)
         == if deletes(m.id) then Deleted(files, surplus, deletes) - {m.id} else Deleted(files, surplus, deletes)
    ensures surplus + [] == surplus
  {
    IdsConcat(surplus, [m]);
    IdsOne(m);
  }
}
