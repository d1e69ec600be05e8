/** Preparing a new version's rows from a base version. */
module Clone {
  import opened Arithmetic
  import opened Images
  import opened Tables
  import opened VersionTable

  datatype Outcome = Ok | KeyError | UsageError | InputDataError | InternalError | IOError

  /** The row prepared for block `i`: the base's row, unless the block changes its size. */
  function ClonedRow(base: Option<Version>, size: nat, blockSize: Pos, i: nat): (r: Row)
    requires i < BlocksCount(size, blockSize)
    ensures r.size == SizeAt(size, blockSize, i)
  {
    BlockInside(size, blockSize, i);
    var row := if base.Some? && i < Count(base.value) then BlockAt(base.value, i) else SparseRow(blockSize);
    if row.size != SizeAt(size, blockSize, i) then Row(None, None, SizeAt(size, blockSize, i), false) else row
  }

  /** The rows that are left of the first `n` prepared ones once fully sparse ones are dropped. */
  function ClonedRows(base: Option<Version>, size: nat, blockSize: Pos, n: nat): map<nat, Row>
    requires n <= BlocksCount(size, blockSize)
  {
    map i: nat | 0 <= i < n && Stored(ClonedRow(base, size, blockSize, i), blockSize) ::
      ClonedRow(base, size, blockSize, i)
  }

  function Prepared(v: Version, base: Option<Version>, size: nat, blockSize: Pos): Version {
    v.(size := size, blockSize := blockSize, rows := ClonedRows(base, size, blockSize, BlocksCount(size, blockSize)))
  }

  /**
   * The dense array of a prepared version. In particular a full-size block that was prepared
   * for a reread comes out sparse and valid, because its row is dropped.
   */
  lemma {:induction false} PreparedBlock(v: Version, base: Option<Version>, size: nat, blockSize: Pos, i: nat)
    requires i < BlocksCount(size, blockSize)
    ensures BlockAt(Prepared(v, base, size, blockSize), i) == Normal(ClonedRow(base, size, blockSize, i), blockSize)
  {
  }

  lemma {:induction false} PreparedWellSized(v: Version, base: Option<Version>, size: nat, blockSize: Pos)
    ensures WellSized(Prepared(v, base, size, blockSize))
  {
    forall i | 0 <= i < BlocksCount(size, blockSize)
      ensures BlockAt(Prepared(v, base, size, blockSize), i).size == SizeAt(size, blockSize, i)
    {
      PreparedBlock(v, base, size, blockSize, i);
    }
  }

  predicate Usable(versions: map<VersionId, Version>, base: VersionId, storage: StorageId, blockSize: Pos) {
    && base in versions
    && versions[base].status.Valid?
    && versions[base].blockSize == blockSize
    && versions[base].storage == storage
  }

  function BaseOf(versions: map<VersionId, Version>, base: Option<VersionId>): Option<Version> {
    if base.Some? && base.value in versions then Some(versions[base.value]) else None
  }

  /** The batch holds the prepared rows from index `lo` on. */
  ghost predicate Batch(batch: seq<(nat, Row)>, base: Option<Version>, size: nat, blockSize: Pos, lo: nat) {
    && lo + |batch| <= BlocksCount(size, blockSize)
    && forall k :: 0 <= k < |batch| ==> batch[k] == (lo + k, ClonedRow(base, size, blockSize, lo + k))
  }

  lemma {:induction false} InsertBatch(v: Version, base: Option<Version>, size: nat, blockSize: Pos, lo: nat,
                                       batch: seq<(nat, Row)>)
    requires v.blockSize == blockSize
    requires Batch(batch, base, size, blockSize, lo)
    requires v.rows == ClonedRows(base, size, blockSize, lo)
    ensures Insert(v, batch) == v.(rows := ClonedRows(base, size, blockSize, lo + |batch|))
  {
    hide At, BlocksCount, SizeAt, ClonedRow;
    if batch == [] {
    } else {
      var n := |batch| - 1;
      InsertBatch(v, base, size, blockSize, lo, batch[..n]);
      assert batch[n] == (lo + n, ClonedRow(base, size, blockSize, lo + n));
      var before, after := ClonedRows(base, size, blockSize, lo + n), ClonedRows(base, size, blockSize, lo + n + 1);
      var row := ClonedRow(base, size, blockSize, lo + n);
      assert after == if Stored(row, blockSize) then before[lo + n := row] else before;
    }
  }

  /** The base's blocks as its iterator yields them; none without a base. */
  ghost predicate BaseBlocks(oldBlocks: seq<(nat, Row)>, base: Option<Version>) {
    && |oldBlocks| == (if base.Some? then Count(base.value) else 0)
    && forall i :: 0 <= i < |oldBlocks| ==> oldBlocks[i].1 == BlockAt(base.value, i)
  }

  method CloneBlock(oldBlocks: seq<(nat, Row)>, ghost base: Option<Version>, size: nat, blockSize: Pos, idx: nat)
    returns (row: Row)
    requires BaseBlocks(oldBlocks, base) && idx < BlocksCount(size, blockSize)
    ensures row == ClonedRow(base, size, blockSize, idx)
  {
    BlockInside(size, blockSize, idx);
    row := if idx < |oldBlocks| then oldBlocks[idx].1 else SparseRow(blockSize);
    AtIsProduct(idx, blockSize);
    var newSize := Min(blockSize, size - idx * blockSize);
    if row.size != newSize {
      row := Row(None, None, newSize, false);
    }
  }

  /** The tables with the rows below `lo` created. */
  ghost predicate Created(versions: map<VersionId, Version>, before: map<VersionId, Version>, id: VersionId,
                          base: Option<Version>, lo: nat) {
    && id in before && lo <= Count(before[id])
    && versions == before[id := before[id].(rows := ClonedRows(base, before[id].size, before[id].blockSize, lo))]
  }

  method FlushPackage(db: Database, id: VersionId, blocks: seq<(nat, Row)>, ghost before: map<VersionId, Version>,
                      ghost base: Option<Version>, ghost lo: nat)
    requires Created(db.versions, before, id, base, lo)
    requires Batch(blocks, base, before[id].size, before[id].blockSize, lo)
    modifies db`versions
    ensures Created(db.versions, before, id, base, lo + |blocks|)
  {
    InsertBatch(db.versions[id], base, before[id].size, before[id].blockSize, lo, blocks);
    db.CreateBlocks(id, blocks);
  }

  lemma {:induction false} AppendToBatch(batch: seq<(nat, Row)>, base: Option<Version>, size: nat, blockSize: Pos,
                                         lo: nat)
    requires Batch(batch, base, size, blockSize, lo) && lo + |batch| < BlocksCount(size, blockSize)
    ensures Batch(batch + [(lo + |batch|, ClonedRow(base, size, blockSize, lo + |batch|))], base, size, blockSize, lo)
  {
  }

  method CreateRows(db: Database, id: VersionId, oldBlocks: seq<(nat, Row)>, ghost base: Option<Version>, package: Pos)
    requires id in db.versions && db.versions[id].rows == map[] && BaseBlocks(oldBlocks, base)
    modifies db`versions
    ensures db.versions == old(db.versions)[id := var v := old(db.versions)[id]; Prepared(v, base, v.size, v.blockSize)]
  {
    var size, blockSize := db.versions[id].size, db.versions[id].blockSize;
    var blocks: seq<(nat, Row)> := [];
    ghost var lo: nat := 0;
    assert db.versions[id].rows == ClonedRows(base, size, blockSize, 0);
    for idx := 0 to BlocksCount(size, blockSize)
      invariant lo + |blocks| == idx && Batch(blocks, base, size, blockSize, lo)
      invariant Created(db.versions, old(db.versions), id, base, lo)
    {
      var row := CloneBlock(oldBlocks, base, size, blockSize, idx);
      AppendToBatch(blocks, base, size, blockSize, lo);
      blocks := blocks + [(idx, row)];
      if |blocks| == package {
        FlushPackage(db, id, blocks, old(db.versions), base, lo);
        lo, blocks := lo + |blocks|, [];
      }
    }
    FlushPackage(db, id, blocks, old(db.versions), base, lo);
  }

  /**
   * A base must be valid, of the same storage, and of the block size if one is asked for; without a
   * base both sizes are needed.
   */
  predicate Accepts(versions: map<VersionId, Version>, base: Option<VersionId>, storage: StorageId, size: Option<nat>,
                    blockSize: Option<Pos>) {
    match base
    case None => size.Some? && blockSize.Some?
    case Some(b) => b in versions && Usable(versions, b, storage, BlockSizeFrom(versions, base, blockSize))
  }

  /** The size asked for, or else that of the base. */
  function SizeFrom(versions: map<VersionId, Version>, base: Option<VersionId>, size: Option<nat>): nat {
    if size.Some? then size.value else if base.Some? && base.value in versions then versions[base.value].size else 0
  }

  function BlockSizeFrom(versions: map<VersionId, Version>, base: Option<VersionId>, blockSize: Option<Pos>): Pos {
    if blockSize.Some? then blockSize.value
    else if base.Some? && base.value in versions then versions[base.value].blockSize
    else 1
  }

  /** The version as `update_version` leaves it. */
  function Updated(versions: map<VersionId, Version>, id: VersionId, base: Option<VersionId>, size: Option<nat>,
                   blockSize: Option<Pos>): Version
    requires id in versions
  {
    Prepared(versions[id], BaseOf(versions, base), SizeFrom(versions, base, size),
        BlockSizeFrom(versions, base, blockSize))
  }

  /**
   * Gives a version its sizes, which default to those of the base, and its rows, in work packages; if
   * base or sizes are not acceptable the tables are left alone.
   */
  method UpdateVersion(db: Database, id: VersionId, base: Option<VersionId>, size: Option<nat>, blockSize: Option<Pos>,
                       package: Pos)
    returns (r: Outcome)
    requires id in db.versions && db.versions[id].status.Incomplete? && db.versions[id].rows == map[]
    modifies db`versions
    ensures r.Ok? <==> Accepts(old(db.versions), base, old(db.versions)[id].storage, size, blockSize)
    ensures r.KeyError? <==> base.Some? && base.value !in old(db.versions)
    ensures r.InternalError? <==> base.None? && (size.None? || blockSize.None?)
    ensures !r.InputDataError? && !r.IOError?
    ensures db.versions ==
            if r.Ok? then old(db.versions)[id := Updated(old(db.versions), id, base, size, blockSize)]
              else old(db.versions)
  {
    var oldBlocks: seq<(nat, Row)> := [];
    var newSize, newBlockSize := 0, 1;
    if base.Some? {
      if base.value !in db.versions { return KeyError; }
      var oldVersion := db.versions[base.value];
      if !oldVersion.status.Valid? { return UsageError; }
      if blockSize.Some? && oldVersion.blockSize != blockSize.value { return UsageError; }
      if oldVersion.storage != db.versions[id].storage { return UsageError; }
      oldBlocks := Blocks(oldVersion, 10000);
      newSize := if size.Some? then size.value else oldVersion.size;
      newBlockSize := oldVersion.blockSize;
    } else {
      if size.None? || blockSize.None? { return InternalError; }
      newSize, newBlockSize := size.value, blockSize.value;
    }
    db.versions := db.versions[id := db.versions[id].(size := newSize, blockSize := newBlockSize)];
    CreateRows(db, id, oldBlocks, BaseOf(old(db.versions), base), package);
    return Ok;
  }
}
