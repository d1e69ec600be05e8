/**
 * Creating a backup: clone a base, read what the hints ask for, and merge kept, sparse,
 * deduplicated and new blocks, whatever the order in which reads and writes complete.
 */
module Backup {
  import opened Arithmetic
  import opened Images
  import opened Tables
  import opened VersionTable
  import opened Clone
  import opened Hints
  import opened P = Plan
  import Cleanup

  type Hash = Bytes -> Checksum

  // ---------------------------------------------------------------- database invariant

  /** A valid row with a uid describes its object; a row without uid has no checksum. */
  ghost predicate TruthfulRow(row: Row, storage: StorageId, objects: Objects, hash: Hash) {
    match row.uid
    case None => row.checksum.None?
    case Some(uid) =>
      var key := ObjectKey(storage, uid);
      row.valid ==> key in objects && |objects[key]| == row.size && row.checksum == Some(hash(objects[key]))
  }

  ghost predicate Truthful(versions: map<VersionId, Version>, objects: Objects, hash: Hash) {
    forall id, i :: id in versions && i in versions[id].rows ==>
      TruthfulRow(versions[id].rows[i], versions[id].storage, objects, hash)
  }

  /** The byte strings whose checksums a backup compares. */
  ghost predicate InPlay(data: Bytes, p: Plan) {
    || data in p.objects.Values
    || data == Zeros(p.blockSize)
    || exists i :: 0 <= i < P.Blocks(p) && data == Slice(p.source, p.blockSize, i)
  }

  ghost predicate CollisionFree(hash: Hash, p: Plan) {
    forall a, b :: InPlay(a, p) && InPlay(b, p) && hash(a) == hash(b) ==> a == b
  }

  ghost predicate Extends(more: Objects, objects: Objects) {
    forall key :: key in objects ==> key in more && more[key] == objects[key]
  }

  /** Some version of the storage has exactly this row. */
  ghost predicate Known(versions: map<VersionId, Version>, storage: StorageId, row: Row) {
    exists k, j ::
      k in versions && versions[k].storage == storage && j in versions[k].rows && versions[k].rows[j] == row
  }

  /** A row that version `id` may get: one with a uid is valid, and new or copied from the version's storage. */
  ghost predicate Sourced(row: Row, versions: map<VersionId, Version>, id: VersionId)
    requires id in versions
  {
    row.uid.Some? ==> row.valid && (row.uid.value.left == id || Known(versions, versions[id].storage, row))
  }

  /** Each row is one that version `id` had before, or properly sourced. */
  ghost predicate RowsFrom(rows: map<nat, Row>, before: map<VersionId, Version>, id: VersionId)
    requires id in before
  {
    forall i :: i in rows ==> (i in before[id].rows && rows[i] == before[id].rows[i]) || Sourced(rows[i], before, id)
  }

  /** Nothing but the rows of one version has changed, and each of them is as before or properly sourced. */
  ghost predicate OnlyRows(versions: map<VersionId, Version>, before: map<VersionId, Version>, id: VersionId) {
    && id in versions && id in before && versions == before[id := before[id].(rows := versions[id].rows)]
    && RowsFrom(versions[id].rows, before, id)
  }

  lemma {:induction false} NoRows(versions: map<VersionId, Version>, id: VersionId)
    requires id in versions
    ensures OnlyRows(versions, versions, id)
  {
  }

  lemma {:induction false} KnownBefore(middle: map<VersionId, Version>, before: map<VersionId, Version>, id: VersionId,
                                       row: Row)
    requires OnlyRows(middle, before, id) && Known(middle, middle[id].storage, row) && row.uid.Some?
    ensures row.uid.value.left == id || Known(before, before[id].storage, row)
  {
    var k, j :| k in middle && middle[k].storage == middle[id].storage && j in middle[k].rows
      && middle[k].rows[j] == row;
    assert k != id ==> middle[k] == before[k];
  }

  lemma {:induction false} OnlyRowsTwice(versions: map<VersionId, Version>, middle: map<VersionId, Version>,
                                         before: map<VersionId, Version>, id: VersionId)
    requires OnlyRows(versions, middle, id) && OnlyRows(middle, before, id)
    ensures id in versions && OnlyRows(versions, before, id)
  {
    hide Known;
    forall i | i in versions[id].rows && Sourced(versions[id].rows[i], middle, id)
      ensures Sourced(versions[id].rows[i], before, id)
    {
      var row := versions[id].rows[i];
      if row.uid.Some? && row.uid.value.left != id { KnownBefore(middle, before, id, row); }
    }
  }

  // ---------------------------------------------------------------- progress

  /** A short block always has a uid, so that it is never written back as a full block of zeros. */
  ghost predicate ShortHasUid(v: Version) {
    forall i :: 0 <= i < Count(v) && BlockAt(v, i).size != v.blockSize ==> BlockAt(v, i).uid.Some?
  }

  ghost predicate ShortBaseOk(p: Plan) {
    p.base.Some? ==> ShortHasUid(p.base.value)
  }

  ghost predicate SettledRow(row: Row, objects: Objects, p: Plan, i: nat)
    requires i < P.Blocks(p)
  {
    && row.valid && row.size == SizeAt(|p.source|, p.blockSize, i)
    && (row.uid.Some? ==> ObjectKey(p.storage, row.uid.value) in objects)
    && BlockData(row, p.storage, objects) == Planned(p, i) && |Planned(p, i)| == row.size
    && (ShortBaseOk(p) && row.size != p.blockSize ==> row.uid.Some?)
  }

  /** All blocks but the pending ones have their final row. */
  ghost predicate Settled(v: Version, objects: Objects, p: Plan, pending: set<nat>) {
    && v.size == |p.source| && v.blockSize == p.blockSize && v.storage == p.storage
    && WellSized(v)
    && forall i :: 0 <= i < P.Blocks(p) && i !in pending ==> SettledRow(BlockAt(v, i), objects, p, i)
  }

  lemma {:induction false} SettleBlock(v: Version, objects: Objects, p: Plan, pending: set<nat>, i: nat, row: Row)
    requires Settled(v, objects, p, pending) && i < P.Blocks(p)
    requires SettledRow(row, objects, p, i)
    requires row.uid.None? ==> row.checksum.None?
    ensures Settled(WithBlock(v, i, row), objects, p, pending - {i})
  {
    WithBlockWellSized(v, i, row);
    var w := WithBlock(v, i, row);
    assert BlockAt(w, i) == row;
    forall k | 0 <= k < P.Blocks(p) && k !in pending - {i} && k != i
      ensures SettledRow(BlockAt(w, k), objects, p, k)
    {
      assert BlockAt(w, k) == BlockAt(v, k);
    }
  }

  lemma {:induction false} TruthfulSet(versions: map<VersionId, Version>, objects: Objects, hash: Hash, id: VersionId,
                                       i: nat, row: Row)
    requires Truthful(versions, objects, hash) && id in versions
    requires TruthfulRow(row, versions[id].storage, objects, hash)
    ensures Truthful(versions[id := WithBlock(versions[id], i, row)], objects, hash)
  {
  }

  lemma {:induction false} GrowObjects(versions: map<VersionId, Version>, id: VersionId, objects: Objects,
                                       more: Objects, p: Plan, pending: set<nat>, hash: Hash)
    requires Truthful(versions, objects, hash) && Extends(more, objects)
    requires id in versions && Settled(versions[id], objects, p, pending)
    ensures Truthful(versions, more, hash) && Settled(versions[id], more, p, pending)
  {
  }

  /** Rows of the base's kind stay truthful in the prepared version. */
  lemma {:induction false} TruthfulClone(versions: map<VersionId, Version>, objects: Objects, hash: Hash, id: VersionId,
                                         base: Option<VersionId>, size: nat, blockSize: Pos)
    requires Truthful(versions, objects, hash) && id in versions
    requires base.None? || Usable(versions, base.value, versions[id].storage, blockSize)
    ensures Truthful(versions[id := Prepared(versions[id], BaseOf(versions, base), size, blockSize)], objects, hash)
  {
  }

  // ---------------------------------------------------------------- the operation

  /** Any valid row of the same storage with this checksum, of any version. */
  method GetBlockByChecksum(db: Database, storage: StorageId, checksum: Checksum) returns (found: Option<Row>)
    ensures found.Some? ==> found.value.checksum == Some(checksum) && found.value.valid
    ensures found.Some? ==>
              exists id, i :: id in db.versions && i in db.versions[id].rows
                && db.versions[id].storage == storage && db.versions[id].rows[i] == found.value
    ensures found.None? ==>
              forall id, i :: id in db.versions && i in db.versions[id].rows && db.versions[id].storage == storage ==>
                db.versions[id].rows[i].valid ==> db.versions[id].rows[i].checksum != Some(checksum)
  {
    if id, i :| id in db.versions && i in db.versions[id].rows && db.versions[id].storage == storage
                && db.versions[id].rows[i].checksum == Some(checksum) && db.versions[id].rows[i].valid {
      found := Some(db.versions[id].rows[i]);
    } else {
      found := None;
    }
  }

  type Writes = map<nat, (Row, Bytes)>

  function NewRow(id: VersionId, i: nat, data: Bytes, hash: Hash): Row {
    Row(Some(BlockUid(id, i + 1)), Some(hash(data)), |data|, true)
  }

  /** The blocks whose read from the source, and those whose write to the storage, raises an exception. */
  datatype Faults = Faults(unreadable: set<nat>, unwritable: set<nat>)

  /** The state between two completions: unread blocks, and writes whose row is not set yet. */
  ghost predicate Running(versions: map<VersionId, Version>, objects: Objects, id: VersionId, p: Plan, hash: Hash,
                          unread: set<nat>, writes: Writes) {
    && id in versions && Settled(versions[id], objects, p, unread + writes.Keys)
    && Truthful(versions, objects, hash) && Extends(objects, p.objects)
    && (forall key :: key in objects ==> InPlay(objects[key], p))
    && unread !! writes.Keys && Undecided(versions[id], objects, id, p, unread + writes.Keys)
    && (forall i :: i in writes ==>
          var data := Slice(p.source, p.blockSize, i); writes[i] == (NewRow(id, i, data, hash), data))
  }

  /** The blocks are to be read, and have neither a new row nor a new object. */
  ghost predicate Undecided(v: Version, objects: Objects, id: VersionId, p: Plan, pending: set<nat>) {
    forall i :: i in pending ==>
      && i < P.Blocks(p) && IsRead(p, i) && BlockAt(v, i) == StartRow(p, i)
      && ObjectKey(p.storage, BlockUid(id, i + 1)) !in objects
  }

  lemma {:induction false} DecideOne(v: Version, objects: Objects, id: VersionId, p: Plan, pending: set<nat>, i: nat,
                                     row: Row, data: Bytes)
    requires Undecided(v, objects, id, p, pending)
    ensures Undecided(WithBlock(v, i, row), objects, id, p, pending - {i})
    ensures Undecided(WithBlock(v, i, row), objects[ObjectKey(p.storage, BlockUid(id, i + 1)) := data], id, p,
                pending - {i})
  {
    hide StartRow, IsRead;
  }

  /** Every block that discarding alone decides is a full block. */
  ghost predicate SparseAreFull(p: Plan) {
    forall i: nat :: i < P.Blocks(p) && i in p.sparse && i !in p.read ==>
      SizeAt(|p.source|, p.blockSize, i) == p.blockSize
  }

  lemma {:induction false} UnreadSettled(p: Plan, i: nat, hash: Hash)
    requires i < P.Blocks(p) && !IsRead(p, i)
    requires p.base.Some? ==> p.base.value.blockSize == p.blockSize
    requires TruthfulRow(StartRow(p, i), p.storage, p.objects, hash) && SparseAreFull(p)
    ensures i !in p.sparse || StartRow(p, i).uid.None? ==> SettledRow(StartRow(p, i), p.objects, p, i)
    ensures i in p.sparse ==> SettledRow(Row(None, None, StartRow(p, i).size, true), p.objects, p, i)
  {
  }

  /** A block that is not read is settled as it is, or becomes settled by turning sparse. */
  lemma {:induction false} SettleUnread(versions: map<VersionId, Version>, id: VersionId, p: Plan, pending: set<nat>,
                                        i: nat, hash: Hash)
    requires id in versions && Truthful(versions, p.objects, hash) && Settled(versions[id], p.objects, p, pending)
    requires i < P.Blocks(p) && !IsRead(p, i) && BlockAt(versions[id], i) == StartRow(p, i) && SparseAreFull(p)
    requires p.base.Some? ==> p.base.value.blockSize == p.blockSize
    ensures i !in p.sparse || StartRow(p, i).uid.None? ==> Settled(versions[id], p.objects, p, pending - {i})
    ensures i in p.sparse ==>
              var w := WithBlock(versions[id], i, Row(None, None, StartRow(p, i).size, true));
              Settled(w, p.objects, p, pending - {i}) && Truthful(versions[id := w], p.objects, hash)
  {
    UnreadSettled(p, i, hash);
    if i in p.sparse {
      var row := Row(None, None, StartRow(p, i).size, true);
      SettleBlock(versions[id], p.objects, p, pending, i, row);
      TruthfulSet(versions, p.objects, hash, id, i, row);
    }
  }

  /** Decides one block: queue it for reading, turn it sparse, or keep it. */
  method QueueBlock(db: Database, id: VersionId, i: nat, block: Row, read: set<int>, sparse: set<int>, ghost p: Plan,
                    ghost pending: set<nat>, ghost hash: Hash)
    returns (isRead: bool)
    requires id in db.versions && Truthful(db.versions, db.objects, hash) && p.objects == db.objects
    requires Settled(db.versions[id], db.objects, p, pending) && SparseAreFull(p)
    requires i < P.Blocks(p) && (i in read <==> i in p.read) && (i in sparse <==> i in p.sparse)
    requires block == BlockAt(db.versions[id], i) == StartRow(p, i)
    requires p.base.Some? ==> p.base.value.blockSize == p.blockSize
    modifies db`versions
    ensures OnlyRows(db.versions, old(db.versions), id) && Truthful(db.versions, db.objects, hash)
    ensures isRead == IsRead(p, i)
    ensures Settled(db.versions[id], db.objects, p, if isRead then pending else pending - {i})
    ensures forall k: nat :: k != i || isRead ==> BlockAt(db.versions[id], k) == BlockAt(old(db.versions)[id], k)
  {
    isRead := i in read || !block.valid;
    if !isRead {
      SettleUnread(db.versions, id, p, pending, i, hash);
      if i in sparse && block.uid.Some? {
        hide Settled, Truthful;
        db.SetBlock(id, i, Row(None, None, block.size, true));
      }
    }
  }

  /** A prepared version, with all its blocks still pending. */
  lemma {:induction false} NothingSettled(v: Version, objects: Objects, p: Plan)
    requires v == Prepared(v, p.base, |p.source|, p.blockSize) && p.storage == v.storage
    requires p.base.Some? ==> p.base.value.blockSize == p.blockSize
    ensures Count(v) == P.Blocks(p) && Settled(v, objects, p, Range(0, Count(v)))
    ensures forall i :: 0 <= i < Count(v) ==> BlockAt(v, i) == StartRow(p, i)
  {
    PreparedWellSized(v, p.base, |p.source|, p.blockSize);
    forall i | 0 <= i < Count(v) ensures BlockAt(v, i) == StartRow(p, i) {
      PreparedBlock(v, p.base, |p.source|, p.blockSize, i);
    }
  }

  /** Queues the reads and turns discarded blocks sparse. */
  method QueueReads(db: Database, id: VersionId, ghost p: Plan, read: set<int>, sparse: set<int>, ghost hash: Hash)
    returns (unread: set<nat>)
    requires id in db.versions && Truthful(db.versions, db.objects, hash)
    requires forall i :: 0 <= i < P.Blocks(p) ==> (i in read <==> i in p.read) && (i in sparse <==> i in p.sparse)
    requires p.objects == db.objects && p.storage == db.versions[id].storage
    requires db.versions[id] == Prepared(db.versions[id], p.base, |p.source|, p.blockSize)
    requires p.base.Some? ==> p.base.value.blockSize == p.blockSize
    requires SparseAreFull(p)
    modifies db`versions
    ensures OnlyRows(db.versions, old(db.versions), id)
    ensures Truthful(db.versions, db.objects, hash)
    ensures forall i :: i in unread <==> 0 <= i < P.Blocks(p) && IsRead(p, i)
    ensures Settled(db.versions[id], db.objects, p, unread)
    ensures forall i :: i in unread ==> BlockAt(db.versions[id], i) == StartRow(p, i)
  {
    hide Truthful, Settled, WellSized, At, SizeAt, BlocksCount, Prepared, StartRow, Range, OnlyRows, IsRead, BlockAt;
    var v := db.versions[id];
    unread := {};
    var blocks := VersionTable.Blocks(v, 10000);
    NothingSettled(v, db.objects, p);
    NoRows(db.versions, id);
    assert unread + Range(0, |blocks|) == Range(0, |blocks|);
    for i := 0 to |blocks|
      invariant id in db.versions && OnlyRows(db.versions, old(db.versions), id)
      invariant Truthful(db.versions, db.objects, hash)
      invariant forall k :: k in unread <==> 0 <= k < i && IsRead(p, k)
      invariant Settled(db.versions[id], db.objects, p, unread + Range(i, |blocks|))
      invariant forall k :: i <= k < |blocks| || k in unread ==> BlockAt(db.versions[id], k) == BlockAt(v, k)
    {
      ghost var middle, pending := db.versions, unread + Range(i, |blocks|);
      var isRead := QueueBlock(db, id, i, blocks[i].1, read, sparse, p, pending, hash);
      if isRead { unread := unread + {i}; }
      assert unread + Range(i + 1, |blocks|) == if isRead then pending else pending - {i};
      OnlyRowsTwice(db.versions, middle, old(db.versions), id);
    }
    assert unread + Range(|blocks|, |blocks|) == unread;
  }

  lemma {:induction false} SettleRunning(versions: map<VersionId, Version>, objects: Objects, id: VersionId, p: Plan,
                                         hash: Hash, unread: set<nat>, writes: Writes, i: nat, row: Row)
    requires Running(versions, objects, id, p, hash, unread, writes) && i in unread
    requires TruthfulRow(row, p.storage, objects, hash) && row.valid
    requires row.size == SizeAt(|p.source|, p.blockSize, i)
    requires row.uid.Some? || row.size == p.blockSize
    requires BlockData(row, p.storage, objects) == Slice(p.source, p.blockSize, i)
    ensures Running(versions[id := WithBlock(versions[id], i, row)], objects, id, p, hash, unread - {i}, writes)
  {
    RunningFacts(versions, objects, id, p, hash, unread, writes);
    SettleBlock(versions[id], objects, p, unread + writes.Keys, i, row);
    TruthfulSet(versions, objects, hash, id, i, row);
    DecideOne(versions[id], objects, id, p, unread + writes.Keys, i, row, []);
    hide Settled, Truthful, Undecided, InPlay, WithBlock, BlockData;
    assert unread - {i} + writes.Keys == unread + writes.Keys - {i};
  }

  lemma {:induction false} RunningFacts(versions: map<VersionId, Version>, objects: Objects, id: VersionId, p: Plan,
                                        hash: Hash, unread: set<nat>, writes: Writes)
    requires Running(versions, objects, id, p, hash, unread, writes)
    ensures id in versions && versions[id].blockSize == p.blockSize && versions[id].storage == p.storage
    ensures forall i :: i in unread + writes.Keys ==>
              i < P.Blocks(p) && ObjectKey(p.storage, BlockUid(id, i + 1)) !in objects
  {
    hide StartRow, IsRead, SettledRow, WellSized;
  }

  /** A full block of zeros is recognised by its checksum. */
  lemma {:induction false} SparseRead(versions: map<VersionId, Version>, objects: Objects, id: VersionId, p: Plan,
                                      hash: Hash, unread: set<nat>, writes: Writes, i: nat)
    requires Running(versions, objects, id, p, hash, unread, writes) && CollisionFree(hash, p) && i in unread
    requires i < P.Blocks(p)
    requires var data := Slice(p.source, p.blockSize, i);
             hash(data) == hash(Zeros(p.blockSize)) && |data| == p.blockSize
    ensures Running(versions[id := WithBlock(versions[id], i, Row(None, None, p.blockSize, true))], objects, id, p,
                hash, unread - {i}, writes)
  {
    hide Running;
    SliceInPlay(p, i);
    assert InPlay(Zeros(p.blockSize), p);
    SettleRunning(versions, objects, id, p, hash, unread, writes, i, Row(None, None, p.blockSize, true));
  }

  /** A block is known if a valid row of the storage has its checksum and size. */
  lemma {:induction false} KnownRead(versions: map<VersionId, Version>, objects: Objects, id: VersionId, p: Plan,
                                     hash: Hash, unread: set<nat>, writes: Writes, i: nat, row: Row)
    requires Running(versions, objects, id, p, hash, unread, writes) && CollisionFree(hash, p) && i in unread
    requires i < P.Blocks(p) && id in versions && Known(versions, versions[id].storage, row) && row.valid
    requires var data := Slice(p.source, p.blockSize, i); row.checksum == Some(hash(data)) && row.size == |data|
    ensures Running(versions[id := WithBlock(versions[id], i, row)], objects, id, p, hash, unread - {i}, writes)
    ensures row.uid.Some?
  {
    RunningFacts(versions, objects, id, p, hash, unread, writes);
    KnownData(versions, objects, id, p, hash, unread, writes, row);
    hide Running, Known;
    SliceInPlay(p, i);
    SettleRunning(versions, objects, id, p, hash, unread, writes, i, row);
  }

  lemma {:induction false} KnownData(versions: map<VersionId, Version>, objects: Objects, id: VersionId, p: Plan,
                                     hash: Hash, unread: set<nat>, writes: Writes, row: Row)
    requires Running(versions, objects, id, p, hash, unread, writes)
    requires id in versions && Known(versions, versions[id].storage, row) && row.valid && row.checksum.Some?
    ensures row.uid.Some? && TruthfulRow(row, p.storage, objects, hash)
    ensures ObjectKey(p.storage, row.uid.value) in objects && InPlay(objects[ObjectKey(p.storage, row.uid.value)], p)
  {
    hide InPlay, Undecided, SettledRow, WellSized;
    var k, j :| k in versions && versions[k].storage == versions[id].storage && j in versions[k].rows
      && versions[k].rows[j] == row;
    assert TruthfulRow(versions[k].rows[j], versions[k].storage, objects, hash);
  }

  lemma {:induction false} QueueWrite(versions: map<VersionId, Version>, objects: Objects, id: VersionId, p: Plan,
                                      hash: Hash, unread: set<nat>, writes: Writes, i: nat)
    requires Running(versions, objects, id, p, hash, unread, writes) && i in unread && i < P.Blocks(p)
    ensures var data := Slice(p.source, p.blockSize, i);
            Running(versions, objects, id, p, hash, unread - {i}, writes[i := (NewRow(id, i, data, hash), data)])
  {
    hide Settled, Truthful, Undecided, InPlay;
    var data := Slice(p.source, p.blockSize, i);
    var more := writes[i := (NewRow(id, i, data, hash), data)];
    assert unread - {i} + more.Keys == unread + writes.Keys;
  }

  /** Decides one block that was read: sparse, already known, or queued for writing. */
  method HandleRead(db: Database, id: VersionId, i: nat, data: Bytes, hash: Hash, ghost p: Plan, ghost unread: set<nat>,
                    writes: Writes)
    returns (more: Writes)
    requires Running(db.versions, db.objects, id, p, hash, unread, writes) && CollisionFree(hash, p)
    requires i in unread && data == Slice(p.source, p.blockSize, i)
    modifies db`versions
    ensures Running(db.versions, db.objects, id, p, hash, unread - {i}, more) && more.Keys <= writes.Keys + {i}
    ensures OnlyRows(db.versions, old(db.versions), id)
  {
    hide Running, CollisionFree;
    RunningFacts(db.versions, db.objects, id, p, hash, unread, writes);
    assert i in unread + writes.Keys;
    var v := db.versions[id];
    more := writes;
    if hash(data) == hash(Zeros(v.blockSize)) && |data| == v.blockSize {
      SparseRead(db.versions, db.objects, id, p, hash, unread, writes, i);
      db.SetBlock(id, i, Row(None, None, |data|, true));
    } else {
      var existing := GetBlockByChecksum(db, v.storage, hash(data));
      if existing.Some? && existing.value.size == |data| {
        var row := Row(existing.value.uid, existing.value.checksum, existing.value.size, true);
        assert row == existing.value && Known(db.versions, v.storage, row);
        KnownRead(db.versions, db.objects, id, p, hash, unread, writes, i, row);
        db.SetBlock(id, i, row);
      } else {
        more := writes[i := (NewRow(id, i, data, hash), data)];
        QueueWrite(db.versions, db.objects, id, p, hash, unread, writes, i);
      }
    }
  }

  lemma {:induction false} WrittenRow(p: Plan, id: VersionId, i: nat, hash: Hash, objects: Objects)
    requires i < P.Blocks(p) && IsRead(p, i)
    requires var key, data := ObjectKey(p.storage, BlockUid(id, i + 1)), Slice(p.source, p.blockSize, i);
             key in objects && objects[key] == data
    ensures var row := NewRow(id, i, Slice(p.source, p.blockSize, i), hash);
            SettledRow(row, objects, p, i) && TruthfulRow(row, p.storage, objects, hash)
  {
    hide IsRead;
  }

  lemma {:induction false} SliceInPlay(p: Plan, i: nat)
    requires i < P.Blocks(p)
    ensures InPlay(Slice(p.source, p.blockSize, i), p)
  {
  }

  lemma {:induction false} WriteRunning(versions: map<VersionId, Version>, objects: Objects, id: VersionId, p: Plan,
                                        hash: Hash, unread: set<nat>, writes: Writes, i: nat)
    requires Running(versions, objects, id, p, hash, unread, writes) && i in writes
    ensures writes[i].0.uid == Some(BlockUid(id, i + 1))
    ensures var more := objects[ObjectKey(versions[id].storage, BlockUid(id, i + 1)) := writes[i].1];
            && Extends(more, objects)
            && Running(versions[id := WithBlock(versions[id], i, writes[i].0)], more, id, p, hash, unread, writes - {i})
  {
    RunningFacts(versions, objects, id, p, hash, unread, writes);
    var (row, data) := writes[i];
    var more := objects[ObjectKey(versions[id].storage, BlockUid(id, i + 1)) := data];
    GrowObjects(versions, id, objects, more, p, unread + writes.Keys, hash);
    WrittenRow(p, id, i, hash, more);
    SettleBlock(versions[id], more, p, unread + writes.Keys, i, row);
    TruthfulSet(versions, more, hash, id, i, row);
    DecideOne(versions[id], objects, id, p, unread + writes.Keys, i, row, data);
    SliceInPlay(p, i);
    hide Settled, Truthful, Undecided, InPlay, WithBlock;
    assert unread + (writes - {i}).Keys == unread + writes.Keys - {i};
  }

  /** Completes one write: the object is stored, then the row that references it is set. */
  method CompleteWrite(db: Database, id: VersionId, i: nat, ghost p: Plan, ghost hash: Hash, ghost unread: set<nat>,
                       writes: Writes)
    returns (rest: Writes)
    requires Running(db.versions, db.objects, id, p, hash, unread, writes) && i in writes
    modifies db`versions, db`objects
    ensures rest == writes - {i}
    ensures Running(db.versions, db.objects, id, p, hash, unread, rest)
    ensures OnlyRows(db.versions, old(db.versions), id)
  {
    var (row, data) := writes[i];
    var key := ObjectKey(db.versions[id].storage, row.uid.value);
    WriteRunning(db.versions, db.objects, id, p, hash, unread, writes, i);
    hide Running;
    db.objects := db.objects[key := data];
    db.SetBlock(id, i, row);
    rest := writes - {i};
  }

  /**
   * Completes writes in any order: all of them, or as many as happen to be done, unless one that
   * completes has failed.
   */
  method CompleteWrites(db: Database, id: VersionId, all: bool, faults: Faults, ghost p: Plan, ghost hash: Hash,
                        ghost unread: set<nat>, writes: Writes)
    returns (rest: Writes, ok: bool)
    requires Running(db.versions, db.objects, id, p, hash, unread, writes)
    modifies db`versions, db`objects
    ensures Running(db.versions, db.objects, id, p, hash, unread, rest) && rest.Keys <= writes.Keys
    ensures OnlyRows(db.versions, old(db.versions), id)
    ensures ok && all ==> rest == map[]
    ensures !ok ==> writes.Keys * faults.unwritable != {}
  {
    hide Running, OnlyRows;
    RunningFacts(db.versions, db.objects, id, p, hash, unread, writes);
    NoRows(db.versions, id);
    rest, ok := writes, true;
    while rest != map[]
      invariant Running(db.versions, db.objects, id, p, hash, unread, rest) && rest.Keys <= writes.Keys
      invariant OnlyRows(db.versions, old(db.versions), id)
      decreases rest.Keys
    {
      var enough := *;
      if !all && enough { break; }
      var j :| j in rest;
      if j in faults.unwritable {
        assert j in writes.Keys * faults.unwritable;
        return rest, false;
      }
      ghost var middle := db.versions;
      rest := CompleteWrite(db, id, j, p, hash, unread, rest);
      OnlyRowsTwice(db.versions, middle, old(db.versions), id);
    }
  }

  /** Every block has its final row, or still the one that was prepared. */
  ghost predicate HalfDone(v: Version, objects: Objects, p: Plan) {
    && v.size == |p.source| && v.blockSize == p.blockSize && v.storage == p.storage && WellSized(v)
    && forall i :: 0 <= i < P.Blocks(p) ==> SettledRow(BlockAt(v, i), objects, p, i) || BlockAt(v, i) == StartRow(p, i)
  }

  lemma {:induction false} HalfDoneSized(v: Version, objects: Objects, p: Plan)
    requires HalfDone(v, objects, p)
    ensures WellSized(v)
  {
  }

  /** Objects that are in flight when a backup gives up. */
  function Landing(id: VersionId, storage: StorageId, writes: Writes, landed: set<nat>): Objects {
    map i | i in landed && i in writes :: ObjectKey(storage, BlockUid(id, i + 1)) := writes[i].1
  }

  lemma {:induction false} LandingKeeps(versions: map<VersionId, Version>, objects: Objects, id: VersionId, p: Plan,
                                        hash: Hash, unread: set<nat>, writes: Writes, landed: set<nat>)
    requires Running(versions, objects, id, p, hash, unread, writes)
    ensures var more := objects + Landing(id, versions[id].storage, writes, landed);
            Extends(more, objects) && Truthful(versions, more, hash) && HalfDone(versions[id], more, p)
  {
    var more := objects + Landing(id, versions[id].storage, writes, landed);
    GrowObjects(versions, id, objects, more, p, unread + writes.Keys, hash);
  }

  lemma {:induction false} RunningHalfDone(versions: map<VersionId, Version>, objects: Objects, id: VersionId, p: Plan,
                                           hash: Hash, unread: set<nat>, writes: Writes)
    requires Running(versions, objects, id, p, hash, unread, writes)
    ensures id in versions && Extends(objects, p.objects) && Truthful(versions, objects, hash)
    ensures HalfDone(versions[id], objects, p)
  {
  }

  /** The backup gives up. Any of the writes in flight may still reach the storage; none of them gets a row. */
  method GiveUp(db: Database, id: VersionId, ghost p: Plan, ghost hash: Hash, ghost unread: set<nat>, writes: Writes)
    requires Running(db.versions, db.objects, id, p, hash, unread, writes)
    modifies db`objects
    ensures Extends(db.objects, old(db.objects)) && Extends(db.objects, p.objects)
    ensures Truthful(db.versions, db.objects, hash)
    ensures id in db.versions && HalfDone(db.versions[id], db.objects, p)
  {
    var landed: set<nat> := *;
    LandingKeeps(db.versions, db.objects, id, p, hash, unread, writes, landed);
    hide Running, Truthful, HalfDone;
    db.objects := db.objects + Landing(id, db.versions[id].storage, writes, landed);
  }

  /** One read completes, and after it any number of writes. */
  method ReadOne(db: Database, id: VersionId, i: nat, source: Bytes, hash: Hash, faults: Faults, ghost p: Plan,
                 ghost unread: set<nat>, writes: Writes)
    returns (rest: Writes, ok: bool)
    requires Running(db.versions, db.objects, id, p, hash, unread, writes) && CollisionFree(hash, p)
    requires i in unread && p.source == source
    modifies db`versions, db`objects
    ensures Running(db.versions, db.objects, id, p, hash, unread - {i}, rest) && rest.Keys <= writes.Keys + {i}
    ensures OnlyRows(db.versions, old(db.versions), id)
    ensures !ok ==> (writes.Keys + {i}) * faults.unwritable != {}
  {
    hide Running, CollisionFree, OnlyRows;
    RunningFacts(db.versions, db.objects, id, p, hash, unread, writes);
    assert i in unread + writes.Keys;
    var data := Slice(source, db.versions[id].blockSize, i);
    var more := HandleRead(db, id, i, data, hash, p, unread, writes);
    ghost var middle := db.versions;
    rest, ok := CompleteWrites(db, id, false, faults, p, hash, unread - {i}, more);
    OnlyRowsTwice(db.versions, middle, old(db.versions), id);
    if !ok {
      var j :| j in more.Keys * faults.unwritable;
      assert j in (writes.Keys + {i}) * faults.unwritable;
    }
  }

  /**
   * Reads complete in any order; after each one, any number of writes does. The first failure that
   * comes up ends the backup.
   */
  method Drain(db: Database, id: VersionId, source: Bytes, hash: Hash, faults: Faults, ghost p: Plan, queued: set<nat>)
    returns (ok: bool)
    requires Running(db.versions, db.objects, id, p, hash, queued, map[]) && CollisionFree(hash, p)
    requires p.source == source
    modifies db`versions, db`objects
    ensures OnlyRows(db.versions, old(db.versions), id)
    ensures ok ==> Running(db.versions, db.objects, id, p, hash, {}, map[]) && queued !! faults.unreadable
    ensures !ok ==> queued * (faults.unreadable + faults.unwritable) != {}
    ensures Truthful(db.versions, db.objects, hash) && Extends(db.objects, p.objects)
    ensures HalfDone(db.versions[id], db.objects, p)
  {
    hide Running, CollisionFree, OnlyRows, Truthful, Extends, HalfDone;
    var unread, writes: Writes := queued, map[];
    RunningFacts(db.versions, db.objects, id, p, hash, unread, writes);
    NoRows(db.versions, id);
    ok := true;
    while unread != {}
      invariant Running(db.versions, db.objects, id, p, hash, unread, writes)
      invariant OnlyRows(db.versions, old(db.versions), id)
      invariant unread <= queued && writes.Keys <= queued && queued - unread !! faults.unreadable
      decreases unread
    {
      var i :| i in unread;
      if i in faults.unreadable {
        assert i in queued * (faults.unreadable + faults.unwritable);
        GiveUp(db, id, p, hash, unread, writes);
        return false;
      }
      ghost var middle, queue := db.versions, writes.Keys + {i};
      writes, ok := ReadOne(db, id, i, source, hash, faults, p, unread, writes);
      OnlyRowsTwice(db.versions, middle, old(db.versions), id);
      unread := unread - {i};
      if !ok {
        FailedWrite(queue, queued, faults);
        GiveUp(db, id, p, hash, unread, writes);
        return;
      }
    }
    ghost var middle, queue := db.versions, writes.Keys;
    writes, ok := CompleteWrites(db, id, true, faults, p, hash, {}, writes);
    OnlyRowsTwice(db.versions, middle, old(db.versions), id);
    if ok {
      RunningHalfDone(db.versions, db.objects, id, p, hash, {}, writes);
    } else {
      FailedWrite(queue, queued, faults);
      GiveUp(db, id, p, hash, {}, writes);
    }
  }

  lemma {:induction false} FailedWrite(queue: set<nat>, queued: set<nat>, faults: Faults)
    requires queue <= queued && queue * faults.unwritable != {}
    ensures queued * (faults.unreadable + faults.unwritable) != {}
  {
    var i :| i in queue * faults.unwritable;
    assert i in queued * (faults.unreadable + faults.unwritable);
  }

  // ---------------------------------------------------------------- the result

  /** A backup that has settled all blocks holds the source exactly when its plan is faithful. */
  lemma {:induction false} SettledContent(v: Version, objects: Objects, p: Plan)
    requires Settled(v, objects, p, {})
    ensures Intact(v, objects)
    ensures Content(v, objects) == p.source <==> Faithful(p)
    ensures forall i :: 0 <= i < Count(v) ==> BlockAt(v, i).valid
    ensures ShortBaseOk(p) ==> ShortHasUid(v)
  {
    forall i | 0 <= i < Count(v)
      ensures |DataAt(v, objects, i)| == SizeAt(v.size, v.blockSize, i)
      ensures DataAt(v, objects, i) == Planned(p, i)
    {
      assert SettledRow(BlockAt(v, i), objects, p, i);
    }
    ContentIs(v, objects, p.source);
  }

  /** No hint reaches beyond the source. */
  predicate HintsFit(hints: Option<seq<Hint>>, size: nat) {
    hints.Some? ==> forall h :: h in hints.value ==> h.offset + h.length <= size
  }

  lemma {:induction false} DiscardedAreFull(p: Plan, hints: seq<Hint>)
    requires FromHints(p, hints) && HintsFit(Some(hints), |p.source|)
    ensures SparseAreFull(p)
  {
    forall i: nat | i < P.Blocks(p) && i in p.sparse && i !in p.read
      ensures SizeAt(|p.source|, p.blockSize, i) == p.blockSize
    {
      var h :| h in hints && !h.present && Touches(h, p.blockSize, i);
      AtIsProduct(i, p.blockSize);
      DiscardedRange(h, p.blockSize, i);
    }
  }

  /** The version was created for this backup: it has no rows, and nothing was minted under its id. */
  ghost predicate FreshVersion(versions: map<VersionId, Version>, objects: Objects, id: VersionId) {
    && id in versions && versions[id].status.Incomplete? && versions[id].rows == map[]
    && forall key :: key in objects ==> key.uid.left != id
  }

  method CheckHints(hints: seq<Hint>, size: nat) returns (ok: bool)
    ensures ok <==> HintsFit(Some(hints), size)
  {
    var maxOffset := 0;
    for n := 0 to |hints|
      invariant maxOffset <= size <==> forall h :: h in hints[..n] ==> h.offset + h.length <= size
    {
      maxOffset := Max(maxOffset, hints[n].offset + hints[n].length);
      assert hints[..n + 1] == hints[..n] + [hints[n]];
    }
    assert hints[..|hints|] == hints;
    ok := maxOffset <= size;
  }

  /** The status is no part of what rows say. */
  lemma {:induction false} MarkValid(versions: map<VersionId, Version>, id: VersionId, objects: Objects, p: Plan,
                                     hash: Hash)
    requires id in versions && Settled(versions[id], objects, p, {}) && Truthful(versions, objects, hash)
    ensures var w := versions[id].(status := Valid);
            Settled(w, objects, p, {}) && Truthful(versions[id := w], objects, hash)
  {
    var w := versions[id].(status := Valid);
    assert forall i: nat :: BlockAt(w, i) == BlockAt(versions[id], i);
  }

  lemma {:induction false} StartRunning(versions: map<VersionId, Version>, objects: Objects, id: VersionId, p: Plan,
                                        hash: Hash, unread: set<nat>)
    requires id in versions && Settled(versions[id], objects, p, unread) && Truthful(versions, objects, hash)
    requires p.objects == objects && forall key :: key in objects ==> key.uid.left != id
    requires forall i :: i in unread ==>
               0 <= i < P.Blocks(p) && IsRead(p, i) && BlockAt(versions[id], i) == StartRow(p, i)
    ensures Running(versions, objects, id, p, hash, unread, map[])
  {
    hide Settled, Truthful, IsRead, StartRow;
    var none: Writes := map[];
    assert unread + none.Keys == unread;
  }

  lemma {:induction false} RunningEnds(versions: map<VersionId, Version>, objects: Objects, id: VersionId, p: Plan,
                                       hash: Hash)
    requires Running(versions, objects, id, p, hash, {}, map[])
    ensures id in versions && Settled(versions[id], objects, p, {}) && Truthful(versions, objects, hash)
  {
    hide Settled, Truthful;
    var none: Writes := map[];
    assert {} + none.Keys == {};
  }

  /** Runs the reads and writes of a prepared version and marks it valid, unless a read or write fails. */
  method Fill(db: Database, id: VersionId, source: Bytes, read: set<int>, sparse: set<int>, hash: Hash, faults: Faults,
              ghost p: Plan)
    returns (ok: bool)
    requires id in db.versions && Truthful(db.versions, db.objects, hash) && CollisionFree(hash, p)
    requires forall i :: 0 <= i < P.Blocks(p) ==> (i in read <==> i in p.read) && (i in sparse <==> i in p.sparse)
    requires p.source == source && p.objects == db.objects && p.storage == db.versions[id].storage
    requires db.versions[id] == Prepared(db.versions[id], p.base, |p.source|, p.blockSize)
    requires p.base.Some? ==> p.base.value.blockSize == p.blockSize
    requires SparseAreFull(p) && forall key :: key in db.objects ==> key.uid.left != id
    modifies db`versions, db`objects
    ensures id in db.versions && db.versions == old(db.versions)[id := db.versions[id]]
    ensures ok ==> RowsFrom(db.versions[id].rows, old(db.versions), id)
    ensures ok ==> db.versions[id].status.Valid? && Settled(db.versions[id], db.objects, p, {})
    ensures !ok ==> OnlyRows(db.versions, old(db.versions), id) && HalfDone(db.versions[id], db.objects, p)
    ensures ok ==> !ReadFails(p, faults)
    ensures !ok ==> ReadFails(p, faults) || WriteFails(p, faults)
    ensures Extends(db.objects, old(db.objects)) && Truthful(db.versions, db.objects, hash)
  {
    var unread := QueueReads(db, id, p, read, sparse, hash);
    FaultsOf(p, faults, unread);
    StartRunning(db.versions, db.objects, id, p, hash, unread);
    hide Settled, Truthful, InPlay, Prepared, IsRead, WellSized, RowsFrom, HalfDone, ReadFails, WriteFails, StartRow;
    ghost var middle := db.versions;
    ok := Drain(db, id, source, hash, faults, p, unread);
    OnlyRowsTwice(db.versions, middle, old(db.versions), id);
    if ok {
      RunningEnds(db.versions, db.objects, id, p, hash);
      MarkValid(db.versions, id, db.objects, p, hash);
      db.versions := db.versions[id := db.versions[id].(status := Valid)];
    }
  }

  /** The read of a block that has to be read fails. */
  ghost predicate ReadFails(p: Plan, faults: Faults) {
    exists i :: 0 <= i < P.Blocks(p) && IsRead(p, i) && i in faults.unreadable
  }

  /** The write of a block that has to be read would fail. */
  ghost predicate WriteFails(p: Plan, faults: Faults) {
    exists i :: 0 <= i < P.Blocks(p) && IsRead(p, i) && i in faults.unwritable
  }

  lemma {:induction false} FaultsOf(p: Plan, faults: Faults, unread: set<nat>)
    requires forall i :: i in unread <==> 0 <= i < P.Blocks(p) && IsRead(p, i)
    ensures ReadFails(p, faults) <==> !(unread !! faults.unreadable)
    ensures unread * (faults.unreadable + faults.unwritable) != {} ==> ReadFails(p, faults) || WriteFails(p, faults)
  {
    if unread * (faults.unreadable + faults.unwritable) != {} {
      var i :| i in unread * (faults.unreadable + faults.unwritable);
    }
  }

  /** What the hints promise, and what then decides whether the source is reproduced. */
  lemma {:induction false} Reproduces(p: Plan, hints: Option<seq<Hint>>)
    requires hints.None? ==> forall i: nat :: i < P.Blocks(p) ==> i in p.read
    requires hints.Some? ==> FromHints(p, hints.value)
    ensures hints.None? ==> Faithful(p)
    ensures hints.Some? && GoodBase(p) && DiscardsAreZero(hints.value, p.source) && OutsideUnchanged(hints.value, p) ==>
              (Faithful(p) <==> !LosesTail(p) && !KeepsOverhang(p))
  {
    if hints.Some? && GoodBase(p) && DiscardsAreZero(hints.value, p.source) && OutsideUnchanged(hints.value, p) {
      FaithfulUnlessTailLost(p, hints.value);
    }
  }

  ghost predicate BaseFits(versions: map<VersionId, Version>, id: VersionId, base: Option<VersionId>, blockSize: Pos) {
    id in versions && (base.Some? ==> Usable(versions, base.value, versions[id].storage, blockSize))
  }

  /** Valid rows of a backup that were cloned are those of the base. */
  lemma {:induction false} SourcedClone(versions: map<VersionId, Version>, base: Option<VersionId>, id: VersionId,
                                        size: nat, blockSize: Pos, w: Version)
    requires BaseFits(versions, id, base, blockSize) && w.size == size && w.blockSize == blockSize && WellSized(w)
    requires RowsFrom(w.rows, versions[id := Prepared(versions[id], BaseOf(versions, base), size, blockSize)], id)
    requires versions[id].rows == map[] && forall i :: 0 <= i < Count(w) ==> BlockAt(w, i).valid
    ensures forall i :: i in w.rows ==> Sourced(w.rows[i], versions, id)
  {
    hide Known, SizeAt, BlocksCount;
    forall i | i in w.rows ensures Sourced(w.rows[i], versions, id) {
      assert BlockAt(w, i).valid;
      SourcedRow(versions, base, id, size, blockSize, w.rows[i], i);
    }
  }

  /** A valid row that was prepared, or sourced from the tables with the prepared version, is properly sourced. */
  lemma {:induction false} SourcedRow(versions: map<VersionId, Version>, base: Option<VersionId>, id: VersionId,
                                      size: nat, blockSize: Pos, row: Row, i: nat)
    requires BaseFits(versions, id, base, blockSize) && row.valid
    requires var v := Prepared(versions[id], BaseOf(versions, base), size, blockSize);
             (i in v.rows && row == v.rows[i]) || Sourced(row, versions[id := v], id)
    ensures Sourced(row, versions, id)
  {
    hide Known, SizeAt, BlocksCount;
    var v := Prepared(versions[id], BaseOf(versions, base), size, blockSize);
    if i in v.rows && row == v.rows[i] {
      ClonedSource(versions, base, id, size, blockSize, i);
    } else if row.uid.Some? && row.uid.value.left != id {
      KnownCloned(versions, base, id, size, blockSize, row);
    }
  }

  lemma {:induction false} ClonedSource(versions: map<VersionId, Version>, base: Option<VersionId>, id: VersionId,
                                        size: nat, blockSize: Pos, i: nat)
    requires BaseFits(versions, id, base, blockSize)
    requires i in Prepared(versions[id], BaseOf(versions, base), size, blockSize).rows
    ensures var row := Prepared(versions[id], BaseOf(versions, base), size, blockSize).rows[i];
            row.uid.Some? ==> Known(versions, versions[id].storage, row)
  {
    var row := Prepared(versions[id], BaseOf(versions, base), size, blockSize).rows[i];
    if row.uid.Some? {
      assert base.Some? && base.value in versions && i in versions[base.value].rows
        && versions[base.value].rows[i] == row;
    }
  }

  lemma {:induction false} KnownCloned(versions: map<VersionId, Version>, base: Option<VersionId>, id: VersionId,
                                       size: nat, blockSize: Pos, row: Row)
    requires BaseFits(versions, id, base, blockSize) && row.uid.Some?
    requires var v := Prepared(versions[id], BaseOf(versions, base), size, blockSize);
             Known(versions[id := v], v.storage, row)
    ensures Known(versions, versions[id].storage, row)
  {
    hide ClonedRows;
    var v := Prepared(versions[id], BaseOf(versions, base), size, blockSize);
    var after := versions[id := v];
    var k, j :| k in after && after[k].storage == v.storage && j in after[k].rows && after[k].rows[j] == row;
    if k == id {
      ClonedSource(versions, base, id, size, blockSize, j);
    } else {
      assert versions[k].rows[j] == row;
    }
  }

  // ---------------------------------------------------------------- the check of untouched blocks

  /** The block is kept from the base, with data that can be compared. */
  predicate Comparable(p: Plan, i: nat)
    requires i < P.Blocks(p)
  {
    i !in p.read && i !in p.sparse && StartRow(p, i).uid.Some? && StartRow(p, i).valid
  }

  /** The sampled blocks that are kept have the checksums that the base recorded. */
  ghost predicate SampleAgrees(p: Plan, sample: set<nat>, hash: Hash) {
    forall i: nat :: i in sample && i < P.Blocks(p) && Comparable(p, i) ==>
      StartRow(p, i).checksum == Some(hash(Slice(p.source, p.blockSize, i)))
  }

  /** A sampled block that is compared cannot be read from the source. */
  ghost predicate SampleFails(p: Plan, sample: set<nat>, faults: Faults) {
    exists i: nat :: i in sample && i < P.Blocks(p) && Comparable(p, i) && i in faults.unreadable
  }

  datatype CheckResult = Agrees | Differs | Unreadable

  /** Queues the sampled blocks that can be compared. */
  method QueueSample(v: Version, read: set<int>, sparse: set<int>, sample: set<nat>, ghost p: Plan)
    returns (queued: set<nat>)
    requires v == Prepared(v, p.base, |p.source|, p.blockSize)
    requires forall i :: 0 <= i < P.Blocks(p) ==> (i in read <==> i in p.read) && (i in sparse <==> i in p.sparse)
    ensures forall i :: i in queued <==> i in sample && i < P.Blocks(p) && Comparable(p, i)
    ensures forall i :: i in queued ==> BlockAt(v, i) == StartRow(p, i)
  {
    hide ClonedRow, SizeAt, BlocksCount, At;
    queued := {};
    for i := 0 to Count(v)
      invariant forall k :: k in queued <==> k in sample && k < i && Comparable(p, k)
      invariant forall k: nat :: k < i ==> BlockAt(v, k) == StartRow(p, k)
    {
      PreparedBlock(v, p.base, |p.source|, p.blockSize, i);
      var block := BlockAt(v, i);
      if i in sample && i !in read && i !in sparse && block.uid.Some? && block.valid {
        queued := queued + {i};
      }
    }
  }

  /** Compares sampled blocks in any order; the first that differs or cannot be read decides. */
  method CheckSample(v: Version, source: Bytes, read: set<int>, sparse: set<int>, sample: set<nat>, hash: Hash,
                     faults: Faults, ghost p: Plan)
    returns (r: CheckResult)
    requires p.source == source && v == Prepared(v, p.base, |source|, p.blockSize)
    requires forall i :: 0 <= i < P.Blocks(p) ==> (i in read <==> i in p.read) && (i in sparse <==> i in p.sparse)
    ensures r.Agrees? <==> SampleAgrees(p, sample, hash) && !SampleFails(p, sample, faults)
    ensures r.Differs? ==> !SampleAgrees(p, sample, hash)
    ensures r.Unreadable? ==> SampleFails(p, sample, faults)
  {
    hide Comparable, StartRow, BlocksCount, At, ClonedRows;
    var queued := QueueSample(v, read, sparse, sample, p);
    var rest := queued;
    while rest != {}
      invariant rest <= queued
      invariant forall i :: i in queued - rest ==>
                  i !in faults.unreadable && StartRow(p, i).checksum == Some(hash(Slice(source, p.blockSize, i)))
      decreases rest
    {
      var i :| i in rest;
      if i in faults.unreadable { return Unreadable; }
      var block := BlockAt(v, i);
      if block.checksum != Some(hash(Slice(source, v.blockSize, i))) { return Differs; }
      rest := rest - {i};
    }
    r := Agrees;
  }

  /** A source that keeps the hints' promises passes the check, whatever the sample. */
  lemma {:induction false} PromisesPassCheck(versions: map<VersionId, Version>, p: Plan, hints: seq<Hint>,
                                             base: Option<VersionId>, sample: set<nat>, hash: Hash)
    requires FromHints(p, hints) && OutsideUnchanged(hints, p) && GoodBase(p) && !KeepsOverhang(p)
    requires p.base == BaseOf(versions, base) && Truthful(versions, p.objects, hash)
    ensures SampleAgrees(p, sample, hash)
  {
    hide OutsideUnchanged, FromHints, BlocksCount, At;
    forall i: nat | i in sample && i < P.Blocks(p) && Comparable(p, i)
      ensures StartRow(p, i).checksum == Some(hash(Slice(p.source, p.blockSize, i)))
    {
      KeptRow(p, i);
      KeptBlock(p, hints, i);
      assert TruthfulRow(versions[base.value].rows[i], p.storage, p.objects, hash);
    }
  }

  /** A block that keeps its uid is the base's, and has not changed its size. */
  lemma {:induction false} KeptRow(p: Plan, i: nat)
    requires GoodBase(p) && i < P.Blocks(p) && StartRow(p, i).uid.Some?
    ensures p.base.Some? && i in p.base.value.rows && StartRow(p, i) == p.base.value.rows[i] && !Grows(p, i)
  {
  }

  lemma {:induction false} PlanFromHints(versions: map<VersionId, Version>, objects: Objects, storage: StorageId,
                                         source: Bytes, blockSize: Pos, base: Option<VersionId>,
                                         hints: Option<seq<Hint>>)
    ensures var p := PlanOf(versions, objects, storage, source, blockSize, base, hints);
            && p.base == BaseOf(versions, base) && p.objects == objects
            && (hints.Some? ==> FromHints(p, hints.value))
            && (hints.None? ==> forall i: nat :: i < P.Blocks(p) ==> i in p.read)
  {
    hide ReadBy, SparseBy, BlocksCount;
  }

  /** The sets that the backup computes are the plan's. */
  lemma {:induction false} Decided(p: Plan, hints: Option<seq<Hint>>, read: set<int>, sparse: set<int>)
    requires hints.Some? ==> FromHints(p, hints.value) && HintsFit(hints, |p.source|)
    requires hints.Some? ==> (forall i :: i in read <==> ReadBy(hints.value, p.blockSize, i))
                             && forall i :: i in sparse <==> SparseBy(hints.value, p.blockSize, i)
    requires hints.None? ==> read == p.read == Range(0, P.Blocks(p)) && sparse == p.sparse == {}
    ensures forall i :: 0 <= i < P.Blocks(p) ==> (i in read <==> i in p.read) && (i in sparse <==> i in p.sparse)
    ensures SparseAreFull(p)
  {
    if hints.Some? {
      DiscardedAreFull(p, hints.value);
    }
  }

  /** Preparing a prepared version changes nothing. */
  lemma {:induction false} PreparedAgain(v: Version, base: Option<Version>, size: nat, blockSize: Pos)
    ensures var w := Prepared(v, base, size, blockSize);
            w == Prepared(w, base, size, blockSize) && w.storage == v.storage
    ensures Prepared(v, base, size, blockSize).status == v.status
  {
    hide ClonedRows;
  }

  lemma {:induction false} TruthfulWithout(versions: map<VersionId, Version>, objects: Objects, hash: Hash,
                                           id: VersionId)
    requires Truthful(versions, objects, hash)
    ensures Truthful(versions - {id}, objects, hash)
  {
  }

  lemma {:induction false} SettledSized(v: Version, objects: Objects, p: Plan)
    requires Settled(v, objects, p, {})
    ensures WellSized(v) && v.size == |p.source| && v.blockSize == p.blockSize && v.storage == p.storage
  {
  }

  lemma {:induction false} ExtendsSelf(objects: Objects)
    ensures Extends(objects, objects)
  {
  }

  /** The tables after a backup that does not get to reading the source. */
  ghost function AfterFailure(versions: map<VersionId, Version>, id: VersionId, base: Option<VersionId>, size: nat,
                              blockSize: Pos, hints: Option<seq<Hint>>): map<VersionId, Version>
    requires id in versions
  {
    if !BaseFits(versions, id, base, blockSize) then versions
    else if !HintsFit(hints, size) then versions[id := Updated(versions, id, base, Some(size), Some(blockSize))]
    else versions - {id}
  }

  /** The candidates that the removal of the prepared version records. */
  ghost predicate RemovalRecorded(deleted: multiset<Candidate>, before: multiset<Candidate>, v: Version, date: int) {
    forall c :: deleted[c] == before[c] + Cleanup.Recorded(v, date, v.rows.Keys, c)
  }

  /** Clones the base, evaluates the hints, and compares a sample of the blocks to be kept. */
  method PrepareBackup(db: Database, id: VersionId, source: Bytes, blockSize: Pos, hints: Option<seq<Hint>>,
                       base: Option<VersionId>, hash: Hash, sample: set<nat>, date: int, faults: Faults, ghost p: Plan)
    returns (r: Outcome, read: set<int>, sparse: set<int>)
    requires FreshVersion(db.versions, db.objects, id) && Truthful(db.versions, db.objects, hash)
    requires p == PlanOf(db.versions, db.objects, db.versions[id].storage, source, blockSize, base, hints)
    modifies db`versions, db`deleted
    ensures r.Ok? <==> BaseFits(old(db.versions), id, base, blockSize) && HintsFit(hints, |source|)
                       && (base.Some? && hints.Some? ==>
                             SampleAgrees(p, sample, hash) && !SampleFails(p, sample, faults))
    ensures !r.Ok? && !r.IOError? ==>
              db.versions == AfterFailure(old(db.versions), id, base, |source|, blockSize, hints)
    ensures r.IOError? ==> BaseFits(old(db.versions), id, base, blockSize) && HintsFit(hints, |source|)
                           && base.Some? && hints.Some? && SampleFails(p, sample, faults)
    ensures id in db.versions ==> db.deleted == old(db.deleted)
    ensures id !in db.versions ==>
              RemovalRecorded(db.deleted, old(db.deleted),
                  Updated(old(db.versions), id, base, Some(|source|), Some(blockSize)), date)
    ensures Truthful(db.versions, db.objects, hash)
    ensures r.Ok? || r.IOError? ==>
              db.versions == old(db.versions)[id := Updated(old(db.versions), id, base, Some(|source|),
                  Some(blockSize))]
    ensures r.Ok? ==> SparseAreFull(p) && forall i :: 0 <= i < P.Blocks(p) ==>
                        (i in read <==> i in p.read) && (i in sparse <==> i in p.sparse)
  {
    hide Truthful, Prepared, SampleAgrees, SampleFails, FromHints, SparseAreFull, SparseBy, ReadBy;
    PlanFromHints(db.versions, db.objects, db.versions[id].storage, source, blockSize, base, hints);
    read, sparse := {}, {};
    r := UpdateVersion(db, id, base, Some(|source|), Some(blockSize), 10000);
    if !r.Ok? { return; }
    TruthfulClone(old(db.versions), db.objects, hash, id, base, |source|, blockSize);
    PreparedAgain(old(db.versions)[id], p.base, |source|, blockSize);
    read := Range(0, BlocksCount(|source|, blockSize));
    if hints.Some? {
      var fit := CheckHints(hints.value, |source|);
      if !fit { return InputDataError, {}, {}; }
      sparse, read := BlocksFromHints(hints.value, blockSize);
    }
    Decided(p, hints, read, sparse);
    if base.Some? && hints.Some? {
      var check := CheckSample(db.versions[id], source, read, sparse, sample, hash, faults, p);
      if check.Unreadable? { return IOError, {}, {}; }
      if check.Differs? {
        TruthfulWithout(db.versions, db.objects, hash, id);
        var count := Cleanup.Remove(db, id, date);
        return InputDataError, {}, {};
      }
    }
  }

  /** The tables as `update_version` leaves them. */
  ghost function PreparedTables(versions: map<VersionId, Version>, id: VersionId, base: Option<VersionId>, size: nat,
                                blockSize: Pos): map<VersionId, Version>
    requires id in versions
  {
    versions[id := Updated(versions, id, base, Some(size), Some(blockSize))]
  }

  /** With all blocks still as prepared, nothing is done. */
  lemma {:induction false} NothingDone(versions: map<VersionId, Version>, objects: Objects, id: VersionId, p: Plan)
    requires id in versions && versions[id] == Prepared(versions[id], p.base, |p.source|, p.blockSize)
    requires p.storage == versions[id].storage
    ensures HalfDone(versions[id], objects, p) && OnlyRows(versions, versions, id)
  {
    hide SettledRow, BlocksCount;
    PreparedWellSized(versions[id], p.base, |p.source|, p.blockSize);
    forall i | 0 <= i < P.Blocks(p) ensures BlockAt(versions[id], i) == StartRow(p, i) {
      PreparedBlock(versions[id], p.base, |p.source|, p.blockSize, i);
    }
  }

  /**
   * Backs up a source image. Without hints the version then holds the source, whatever the base. With
   * hints whose promises are kept it does exactly when the base's last block is not lost by growing, and
   * none is kept of which the base holds more than its size covers. With hints and a base, some sample
   * of the blocks that are kept is compared with the source first; if a block differs the version is
   * removed, which does not happen as long as the promises are kept and nothing beyond the base's end is.
   * If a read or a write fails the version stays incomplete, and each of its blocks has the row that
   * was prepared, or its final one.
   */
  method Backup(db: Database, id: VersionId, source: Bytes, blockSize: Pos, hints: Option<seq<Hint>>,
                base: Option<VersionId>, hash: Hash, sample: set<nat>, date: int, faults: Faults)
    returns (r: Outcome)
    requires FreshVersion(db.versions, db.objects, id) && Truthful(db.versions, db.objects, hash)
    requires CollisionFree(hash, PlanOf(db.versions, db.objects, db.versions[id].storage, source, blockSize, base,
                 hints))
    modifies db`versions, db`objects, db`deleted
    ensures var p := PlanOf(old(db.versions), old(db.objects), old(db.versions)[id].storage, source, blockSize, base,
                hints);
            var checked := base.Some? && hints.Some?;
            var fits := BaseFits(old(db.versions), id, base, blockSize) && HintsFit(hints, |source|)
                        && (checked ==> SampleAgrees(p, sample, hash) && !SampleFails(p, sample, faults));
            && (r.Ok? ==> fits && !ReadFails(p, faults))
            && (fits && !ReadFails(p, faults) && !WriteFails(p, faults) ==> r.Ok?)
            && (r.IOError? ==>
                  ReadFails(p, faults) || WriteFails(p, faults) || (checked && SampleFails(p, sample, faults)))
            && (hints.Some? && GoodBase(p) && OutsideUnchanged(hints.value, p) && !KeepsOverhang(p) ==>
                  SampleAgrees(p, sample, hash))
    ensures r.Ok? ==> id in db.versions && db.versions == old(db.versions)[id := db.versions[id]]
                      && db.versions[id].status.Valid?
    ensures !r.Ok? && !r.IOError? ==>
              && db.versions == AfterFailure(old(db.versions), id, base, |source|, blockSize, hints)
              && db.objects == old(db.objects)
    ensures r.IOError? ==>
              var p := PlanOf(old(db.versions), old(db.objects), old(db.versions)[id].storage, source, blockSize, base,
                  hints);
              && BaseFits(old(db.versions), id, base, blockSize)
              && OnlyRows(db.versions, PreparedTables(old(db.versions), id, base, |source|, blockSize), id)
              && HalfDone(db.versions[id], db.objects, p)
    ensures id in db.versions ==> db.deleted == old(db.deleted)
    ensures id !in db.versions ==>
              RemovalRecorded(db.deleted, old(db.deleted),
                  Updated(old(db.versions), id, base, Some(|source|), Some(blockSize)), date)
    ensures Extends(db.objects, old(db.objects)) && Truthful(db.versions, db.objects, hash)
    ensures r.Ok? ==> var v := db.versions[id];
                      && v.size == |source| && v.blockSize == blockSize && v.storage == old(db.versions)[id].storage
                      && WellSized(v) && Intact(v, db.objects)
                      && forall i :: 0 <= i < Count(v) ==> BlockAt(v, i).valid
    ensures r.Ok? ==> forall i :: i in db.versions[id].rows ==> Sourced(db.versions[id].rows[i], old(db.versions), id)
    ensures r.Ok? && hints.None? ==> Content(db.versions[id], db.objects) == source
    ensures r.Ok? && hints.Some? ==>
              var p := PlanOf(old(db.versions), old(db.objects), old(db.versions)[id].storage, source, blockSize, base,
                  hints);
              GoodBase(p) && DiscardsAreZero(hints.value, source) && OutsideUnchanged(hints.value, p) ==>
                (Content(db.versions[id], db.objects) == source <==> !LosesTail(p) && !KeepsOverhang(p))
    ensures r.Ok? && (base.Some? ==> ShortHasUid(old(db.versions)[base.value])) ==> ShortHasUid(db.versions[id])
  {
    hide Settled, Truthful, WellSized, Intact, Content, Faithful, LosesTail, KeepsOverhang, GoodBase, OutsideUnchanged,
      DiscardsAreZero, SampleAgrees, SampleFails, ReadFails, WriteFails, HalfDone, ShortHasUid, Sourced, FromHints,
      CollisionFree, RowsFrom, SparseAreFull, Extends, RemovalRecorded, ClonedRows;
    ghost var p := PlanOf(db.versions, db.objects, db.versions[id].storage, source, blockSize, base, hints);
    PlanFromHints(db.versions, db.objects, db.versions[id].storage, source, blockSize, base, hints);
    ExtendsSelf(db.objects);
    if hints.Some? && GoodBase(p) && OutsideUnchanged(hints.value, p) && !KeepsOverhang(p) {
      PromisesPassCheck(db.versions, p, hints.value, base, sample, hash);
    }
    var read, sparse;
    r, read, sparse := PrepareBackup(db, id, source, blockSize, hints, base, hash, sample, date, faults, p);
    if r.IOError? { NothingDone(db.versions, db.objects, id, p); }
    if !r.Ok? { return; }
    var ok := Fill(db, id, source, read, sparse, hash, faults, p);
    if !ok { return IOError; }
    SettledContent(db.versions[id], db.objects, p);
    SettledSized(db.versions[id], db.objects, p);
    SourcedClone(old(db.versions), base, id, |source|, blockSize, db.versions[id]);
    Reproduces(p, hints);
  }
}
