/** What the calls of the snapshot store answer, by the fields of the files they find
    (daemon/src/snapshot_store.cpp). */
module SnapshotFiles {
  import opened Models
  import opened SnapshotOrder
  import opened SnapshotStore

  // ---------------------------------------------------------------- reading

  // An object that says which format it has, and a format this code knows.
  ghost predicate IsVersioned(doc: Document) {
    doc.Document? && doc.formatVersion.Some?
  }

  // It holds a payload that hashes to the name, and it does not claim another id.
  ghost predicate IsGood(hash: Hash, id: string, doc: Document) {
    && IsVersioned(doc) && doc.formatVersion.value <= 1
    && doc.payload.Some? && hash(doc.payload.value) == id
    && (doc.id == Some(id) || doc.id == None)
  }

  // What a file says of itself, a default for each field it does not give.
  ghost predicate SaysOf(meta: SnapshotMeta, doc: Document, id: string, health: SnapshotHealth) {
    && meta.health == health && (health != Ok ==> meta.entryCount == 0 && meta.modprobeFileCount == 0)
    && match doc
       case NotAnObject =>
         meta == SnapshotMeta(id, None, 0, Auto, SnapshotReason("", ""), health, 0, 0)
       case Document(_, name, parent, created, trigger, reason, _) =>
         && (if name.Some? then meta.id == name.value else meta.id == id)
         && meta.parent == parent && meta.reason == reason
         && (if created.Some? then meta.createdAtUtc == created.value else meta.createdAtUtc == 0)
         && (if trigger.Some? then meta.trigger == trigger.value else meta.trigger == Auto)
  }

  // The quarantine has a file of this id.
  ghost predicate WasQuarantined(dir: Directory, id: string) {
    exists file :: file in dir.bad && file.id == id
  }

  /** What a read answers: the file's own fields and payload if it is good, Unsupported and nothing
      changed if its format is newer, Io and the file moved aside if it is damaged in any other way,
      and Io or NotFound if there is no file, as it was quarantined before or not. */
  lemma ReadTells(hash: Hash, dir: Directory, id: string, moves: string -> bool)
    ensures var (after, r) := Read(hash, dir, id, moves);
      if id !in dir.files then
        after == dir && r == Failure(if WasQuarantined(dir, id) then Io else NotFound)
      else
        var doc := dir.files[id];
        if IsGood(hash, id, doc) then
          && after == dir && r.Success? && r.value.payload == doc.payload.value
          && SaysOf(r.value.meta, doc, id, Ok) && r.value.meta.id == id
          && r.value.meta.entryCount == |doc.payload.value.entries|
          && r.value.meta.modprobeFileCount == |doc.payload.value.modprobeFiles|
        else if IsVersioned(doc) && doc.formatVersion.value > 1 then after == dir && r == Failure(Unsupported)
        else
          && r == Failure(Io)
          && after == (if moves(id) then dir.(files := dir.files - {id}, bad := dir.bad + [BadFile(id, doc)]) else dir)
  {
    if Quarantined(dir, id) {
      var n :| 0 <= n < |dir.bad| && dir.bad[n].id == id;
      assert dir.bad[n] in dir.bad;
    }
  }

  /** What a listing shows for a name: a good file's own fields; those of a file of a newer format,
      marked so; those of a quarantined file, marked as damaged; and the bare id of any other. */
  lemma ScanShows(hash: Hash, dir: Directory, name: Name, moves: string -> bool)
    ensures var (after, meta) := ScanOne(hash, dir, name, moves);
      match name
      case Bad(n) =>
        after == dir && if n < |dir.bad| then SaysOf(meta, dir.bad[n].document, dir.bad[n].id, Corrupt)
                        else SaysOf(meta, NotAnObject, "", Corrupt)
      case Json(id) =>
        && after == Read(hash, dir, id, moves).0
        && if id in dir.files && IsGood(hash, id, dir.files[id])
           then SaysOf(meta, dir.files[id], id, Ok) && meta == Read(hash, dir, id, moves).1.value.meta
           else if id in dir.files && IsVersioned(dir.files[id]) && dir.files[id].formatVersion.value > 1
           then SaysOf(meta, dir.files[id], id, FromFuture)
           else SaysOf(meta, NotAnObject, id, Corrupt)
  {
    if name.Json? {
      ReadTells(hash, dir, name.id, moves);
    }
  }

  // From directory to directory, one name after the other.
  ghost predicate IsScan(hash: Hash, dirs: seq<Directory>, listing: seq<Name>, metas: seq<SnapshotMeta>,
                         moves: string -> bool) {
    && |dirs| == |listing| + 1 && |metas| == |listing|
    && forall k :: 0 <= k < |listing| ==> (dirs[k + 1], metas[k]) == ScanOne(hash, dirs[k], listing[k], moves)
  }

  /** A scan shows one entry for each name, in the order of the directory, and each damaged file is
      moved aside as it is met, before the next name is looked at. */
  lemma {:induction false} ScanGoesThrough(hash: Hash, dir: Directory, listing: seq<Name>, moves: string -> bool)
    returns (dirs: seq<Directory>)
    ensures var (after, metas) := Scan(hash, dir, listing, moves);
      IsScan(hash, dirs, listing, metas, moves) && dirs[0] == dir && dirs[|listing|] == after
  {
    hide ScanOne;
    dirs := [dir];
    if listing != [] {
      var n := |listing| - 1;
      dirs := ScanGoesThrough(hash, dir, listing[..n], moves);
      var front := Scan(hash, dir, listing[..n], moves).1;
      var last := Scan(hash, dir, listing, moves).0;
      forall k | 0 <= k < n
        ensures (dirs[k + 1], front[k]) == ScanOne(hash, dirs[k], listing[k], moves)
      {
        assert listing[..n][k] == listing[k];
      }
      dirs := dirs + [last];
    }
  }

  /** The listing is that of the scan, ordered from the HEAD that is left. */
  lemma ListIsOrdered(hash: Hash, dir: Directory, disk: Disk)
    ensures List(hash, dir, disk).0 == Scan(hash, dir, disk.listing, disk.moves).0
    ensures List(hash, dir, disk).1 == Ordered(Scan(hash, dir, disk.listing, disk.moves).1, dir.head)
  {
    ScanKeepsHead(hash, dir, disk.listing, disk.moves);
  }

  // ---------------------------------------------------------------- writing

  // The document of a new snapshot, chained to what HEAD named.
  ghost predicate IsDocumentOf(doc: Document, id: string, parent: Option<string>, payload: SnapshotPayload,
                               trigger: SnapshotTrigger, reason: SnapshotReason, now: int) {
    && doc.Document? && doc.formatVersion == Some(1) && doc.id == Some(id) && doc.parent == parent
    && doc.createdAtUtc == Some(now) && doc.trigger == Some(trigger) && doc.reason == reason
    && doc.payload == Some(payload)
  }

  // The files with this document under a new name.
  ghost predicate Adds(before: map<string, Document>, after: map<string, Document>, id: string) {
    id in after && after - {id} == before && id !in before
  }

  /** What a put does and answers: nothing if HEAD names the payload already; only HEAD moves if its
      file is there; otherwise the document is written, then HEAD, and then the automatic snapshots
      are pruned. The first write that is not done, or not synced, ends it with Io. */
  lemma PutTells(hash: Hash, dir: Directory, payload: SnapshotPayload, trigger: SnapshotTrigger,
                 reason: SnapshotReason, now: int, disk: Disk)
    ensures var (after, r) := Put(hash, dir, payload, trigger, reason, now, disk);
      var id := hash(payload);
      var isNew := dir.head != Some(id) && id !in dir.files;
      if dir.head == Some(id) then after == dir && r == Success(id)
      else
        && (isNew && !disk.document.Done? ==>
              r == Failure(Io) && after.head == dir.head && after.bad == dir.bad
              && if disk.document.NotDone? then after == dir
                 else Adds(dir.files, after.files, id)
                      && IsDocumentOf(after.files[id], id, dir.head, payload, trigger, reason, now))
        && (!isNew || disk.document.Done? ==>
              && (r == if disk.head.Done? then Success(id) else Failure(Io))
              && after.head == (if disk.head.NotDone? then dir.head else Some(id))
              && (!isNew ==> after.files == dir.files && after.bad == dir.bad)
              && (isNew ==> exists written ::
                    && WritesThenPrunes(hash, dir, written, after, id, disk)
                    && IsDocumentOf(written.files[id], id, dir.head, payload, trigger, reason, now)))
  {
    hide Prune;
    var id := hash(payload);
    if dir.head != Some(id) && id !in dir.files {
      var doc := NewDocument(id, dir.head, payload, trigger, reason, now);
      assert dir.files[id := doc] - {id} == dir.files;
      if disk.document.Done? {
        var head := if disk.head.NotDone? then dir.head else Some(id);
        var written := dir.(files := dir.files[id := doc], head := head);
        PruneKeepsTheRest(hash, written, disk);
        assert WritesThenPrunes(hash, dir, written, Put(hash, dir, payload, trigger, reason, now, disk).0, id, disk);
      }
    }
  }

  ghost predicate WritesThenPrunes(hash: Hash, dir: Directory, written: Directory, after: Directory, id: string,
                                   disk: Disk) {
    && Adds(dir.files, written.files, id) && written.bad == dir.bad
    && written.head == (if disk.head.NotDone? then dir.head else Some(id))
    && after == if disk.head.Done? then Prune(hash, written, disk) else written
  }

  lemma PruneKeepsTheRest(hash: Hash, dir: Directory, disk: Disk)
    ensures Prune(hash, dir, disk).head == dir.head
  {
    ScanKeepsHead(hash, dir, disk.listing, disk.moves);
  }

  lemma {:induction false} ScanKeepsHead(hash: Hash, dir: Directory, listing: seq<Name>, moves: string -> bool)
    ensures Scan(hash, dir, listing, moves).0.head == dir.head
  {
    if listing != [] {
      var n := |listing| - 1;
      ScanKeepsHead(hash, dir, listing[..n], moves);
      var before := Scan(hash, dir, listing[..n], moves).0;
      if listing[n].Json? {
        ReadTells(hash, before, listing[n].id, moves);
        hide Read;
      }
    }
  }

  /** What a delete does and answers: nothing but the read's own quarantine, and its code, if the
      snapshot does not read; otherwise HEAD moves to the parent first, if it names the snapshot, and is
      empty if there is no parent; then the file goes. A write or a removal that fails ends it with Io. */
  lemma RemoveTells(hash: Hash, dir: Directory, id: string, disk: Disk)
    ensures var (after, r) := Remove(hash, dir, id, disk);
      var (seen, found) := Read(hash, dir, id, disk.moves);
      if found.Failure? then after == seen && r == Failure(found.code)
      else
        var parent := found.value.meta.parent;
        var moves := dir.head == Some(id);
        var next := if parent.Some? && parent.value != "" then parent else None;
        && after.bad == dir.bad
        && after.head == (if moves && !disk.head.NotDone? then next else dir.head)
        && (if (moves ==> disk.head.Done?) && disk.deletes(id)
            then r == Success(()) && after.files == dir.files - {id}
            else r == Failure(Io) && after.files == dir.files)
  {
    ReadTells(hash, dir, id, disk.moves);
    hide Read;
  }
}
