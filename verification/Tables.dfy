/**
 * The version and block tables.
 *
 * A version's block rows are sparse: a row exists only for a block that has a uid or that is
 * shorter than the block size. Every other block is synthesised. `Dense` is the array of blocks
 * that the sparse rows stand for, and `Content` the bytes that those blocks hold.
 */
module Tables {
  import opened Arithmetic
  import opened Images

  type Checksum = nat
  type VersionId = nat
  type StorageId = nat

  datatype Option<+T> = None | Some(value: T)

  /** A pair of the id of the version that minted the uid and the block's index in it plus one. */
  datatype BlockUid = BlockUid(left: nat, right: nat)

  datatype Row = Row(uid: Option<BlockUid>, checksum: Option<Checksum>, size: nat, valid: bool)

  datatype Status = Incomplete | Valid | Invalid

  datatype Version = Version(storage: StorageId, size: nat, blockSize: Pos, status: Status, rows: map<nat, Row>)

  /** An object is addressed by the storage it lives in and its block uid. */
  datatype ObjectKey = ObjectKey(storage: StorageId, uid: BlockUid)

  type Objects = map<ObjectKey, Bytes>

  // ---------------------------------------------------------------- the dense view

  function SparseRow(blockSize: Pos): Row {
    Row(None, None, blockSize, true)
  }

  /** A row that stands for more than a synthesised block: it has a uid or is short. */
  predicate Stored(row: Row, blockSize: Pos) {
    row.uid.Some? || row.size != blockSize
  }

  /** What a block becomes once written to the table: a full block without uid turns sparse. */
  function Normal(row: Row, blockSize: Pos): Row {
    if Stored(row, blockSize) then row else SparseRow(blockSize)
  }

  function BlockAt(v: Version, i: nat): Row {
    if i in v.rows then v.rows[i] else SparseRow(v.blockSize)
  }

  function Count(v: Version): nat {
    BlocksCount(v.size, v.blockSize)
  }

  function Dense(v: Version): seq<Row> {
    seq(Count(v), i requires 0 <= i => BlockAt(v, i))
  }

  /** Rows exist only for blocks of the image. */
  ghost predicate RowsInside(v: Version) {
    forall i :: i in v.rows ==> i < Count(v)
  }

  /** Rows only inside the image, no row for a sparse block, and each block has its proper size. */
  ghost predicate WellSized(v: Version) {
    && (forall i :: i in v.rows ==> i < Count(v) && Stored(v.rows[i], v.blockSize))
    && (forall i :: 0 <= i < Count(v) ==> BlockAt(v, i).size == SizeAt(v.size, v.blockSize, i))
  }

  /**
   * Each block has its proper size, or the last one is a full one although the image ends inside it, as
   * the copy of a short block is.
   */
  ghost predicate SizesFill(v: Version) {
    forall i :: 0 <= i < Count(v) ==>
      BlockAt(v, i).size == SizeAt(v.size, v.blockSize, i) || BlockAt(v, i).size == v.blockSize
  }

  ghost predicate Filling(v: Version) {
    (forall i :: i in v.rows ==> i < Count(v) && Stored(v.rows[i], v.blockSize)) && SizesFill(v)
  }

  /** The table after `set_block`; the four branches collapse into two on the table itself. */
  function WithBlock(v: Version, i: nat, row: Row): Version {
    v.(rows := if Stored(row, v.blockSize) then v.rows[i := row] else v.rows - {i})
  }

  function SumSizes(rows: seq<Row>): nat {
    if rows == [] then 0 else SumSizes(rows[..|rows| - 1]) + rows[|rows| - 1].size
  }

  function CountSparse(rows: seq<Row>): nat {
    if rows == [] then 0
    else CountSparse(rows[..|rows| - 1]) + if rows[|rows| - 1].uid.None? then 1 else 0
  }

  /** `set_block` is a point update of the dense array, up to normalisation. */
  lemma {:induction false} WithBlockIsPointUpdate(v: Version, i: nat, row: Row)
    requires i < Count(v)
    ensures Dense(WithBlock(v, i, row)) == Dense(v)[i := Normal(row, v.blockSize)]
  {
    var w := WithBlock(v, i, row);
    forall k | 0 <= k < Count(v)
      ensures Dense(w)[k] == Dense(v)[i := Normal(row, v.blockSize)][k]
    {
      assert k != i ==> (k in w.rows <==> k in v.rows);
    }
    assert Dense(w) == Dense(v)[i := Normal(row, v.blockSize)];
  }

  lemma {:induction false} WithBlockWellSized(v: Version, i: nat, row: Row)
    requires WellSized(v) && i < Count(v)
    requires row.size == SizeAt(v.size, v.blockSize, i)
    ensures WellSized(WithBlock(v, i, row))
  {
  }

  lemma {:induction false} SumStep(size: nat, blockSize: Pos, i: nat)
    requires i < BlocksCount(size, blockSize)
    ensures Min(At(i, blockSize), size) + SizeAt(size, blockSize, i) == Min(At(i + 1, blockSize), size)
  {
    BlockInside(size, blockSize, i);
  }

  lemma {:induction false} SumPrefix(v: Version, n: nat)
    requires WellSized(v) && n <= Count(v)
    ensures SumSizes(Dense(v)[..n]) == Min(At(n, v.blockSize), v.size)
  {
    if n == 0 {
    } else {
      SumPrefix(v, n - 1);
      var rows := Dense(v)[..n];
      assert rows[..n - 1] == Dense(v)[..n - 1];
      SumStep(v.size, v.blockSize, n - 1);
      assert rows[n - 1] == BlockAt(v, n - 1);
    }
  }

  /** The block sizes of a well-sized version add up to the version's size. */
  lemma {:induction false} SizesSumToVersionSize(v: Version)
    requires WellSized(v)
    ensures SumSizes(Dense(v)) == v.size
  {
    SumPrefix(v, Count(v));
    CountBounds(v.size, v.blockSize);
    assert Dense(v)[..Count(v)] == Dense(v);
  }

  lemma {:induction false} SumFilled(v: Version, n: nat)
    requires Filling(v) && n <= Count(v)
    ensures SumSizes(Dense(v)[..n]) >= Min(At(n, v.blockSize), v.size)
    ensures SumSizes(Dense(v)[..n]) == Min(At(n, v.blockSize), v.size) <==>
            forall i :: 0 <= i < n ==> BlockAt(v, i).size == SizeAt(v.size, v.blockSize, i)
  {
    hide BlocksCount, SizeAt, BlockAt;
    if n > 0 {
      SumFilled(v, n - 1);
      var rows := Dense(v)[..n];
      assert rows[..n - 1] == Dense(v)[..n - 1] && rows[n - 1] == BlockAt(v, n - 1);
      SumStep(v.size, v.blockSize, n - 1);
      BlockInside(v.size, v.blockSize, n - 1);
    }
  }

  /** Where blocks fill the image, their sizes add up to it exactly if each has its proper size, and to more if not. */
  lemma {:induction false} FilledSizes(v: Version)
    requires Filling(v)
    ensures SumSizes(Dense(v)) >= v.size
    ensures SumSizes(Dense(v)) == v.size <==> WellSized(v)
  {
    hide BlocksCount, SizeAt, BlockAt;
    SumFilled(v, Count(v));
    CountBounds(v.size, v.blockSize);
    assert Dense(v)[..Count(v)] == Dense(v);
  }

  // ---------------------------------------------------------------- content

  /** The bytes a block stands for; a missing object has none. */
  function BlockData(row: Row, storage: StorageId, objects: Objects): Bytes {
    match row.uid
    case None => Zeros(row.size)
    case Some(uid) =>
      var key := ObjectKey(storage, uid);
      if key in objects then objects[key] else []
  }

  function DataAt(v: Version, objects: Objects, i: nat): Bytes {
    BlockData(BlockAt(v, i), v.storage, objects)
  }

  /** Every block has its data, of the size that a block of that index has. */
  ghost predicate Intact(v: Version, objects: Objects) {
    forall i :: 0 <= i < Count(v) ==> |DataAt(v, objects, i)| == SizeAt(v.size, v.blockSize, i)
  }

  /** Every block has its data, of the size that its row has. */
  ghost predicate HasData(v: Version, objects: Objects) {
    forall i :: 0 <= i < Count(v) ==> |DataAt(v, objects, i)| == BlockAt(v, i).size
  }

  ghost predicate Fills(v: Version, objects: Objects) {
    HasData(v, objects) && SizesFill(v)
  }

  function Data(v: Version, objects: Objects): seq<Bytes> {
    seq(Count(v), i requires 0 <= i => DataAt(v, objects, i))
  }

  /** The image a version stands for. */
  function Content(v: Version, objects: Objects): Bytes {
    Join(Data(v, objects))
  }

  lemma {:induction false} DataShaped(v: Version, objects: Objects)
    requires Intact(v, objects)
    ensures Shaped(Data(v, objects), v.size, v.blockSize)
    ensures |Content(v, objects)| == v.size
  {
    JoinLength(Data(v, objects), v.size, v.blockSize);
  }

  lemma {:induction false} ContentByte(v: Version, objects: Objects, i: nat, j: nat)
    requires Intact(v, objects) && i < Count(v) && j < SizeAt(v.size, v.blockSize, i)
    ensures |Content(v, objects)| == v.size && At(i, v.blockSize) + j < v.size
    ensures |DataAt(v, objects, i)| == SizeAt(v.size, v.blockSize, i)
    ensures Content(v, objects)[At(i, v.blockSize) + j] == DataAt(v, objects, i)[j]
  {
    DataShaped(v, objects);
    JoinByte(Data(v, objects), v.size, v.blockSize, i, j);
  }

  /** A version holds an image exactly when each of its blocks holds that block of the image. */
  lemma {:induction false} ContentIs(v: Version, objects: Objects, image: Bytes)
    requires Intact(v, objects) && |image| == v.size
    ensures Content(v, objects) == image <==>
            forall i :: 0 <= i < Count(v) ==> DataAt(v, objects, i) == Slice(image, v.blockSize, i)
  {
    var data := Data(v, objects);
    DataShaped(v, objects);
    JoinIs(data, image, v.blockSize);
    assert forall i :: 0 <= i < Count(v) ==> data[i] == DataAt(v, objects, i);
  }

  /** Blocks that fill the image are those of it, or of the image with its last block completed. */
  lemma {:induction false} FillsShaped(v: Version, objects: Objects) returns (size: nat)
    requires Fills(v, objects)
    ensures v.size <= size && Shaped(Data(v, objects), size, v.blockSize)
    ensures Count(v) == BlocksCount(size, v.blockSize)
  {
    var n, b := Count(v), v.blockSize;
    CountBounds(v.size, b);
    if n == 0 || BlockAt(v, n - 1).size == SizeAt(v.size, b, n - 1) {
      size := v.size;
      forall i | 0 <= i < n ensures |DataAt(v, objects, i)| == SizeAt(size, b, i) {
        BlockInside(v.size, b, i);
      }
    } else {
      size := At(n, b);
      FullCount(n, b);
      forall i | 0 <= i < n ensures |DataAt(v, objects, i)| == SizeAt(size, b, i) {
        BlockInside(v.size, b, i);
        AtMono(i + 1, n, b);
      }
    }
  }

  /** Bytes of the content of such a version, which may be longer than the image, are those of its blocks. */
  lemma {:induction false} FilledByte(v: Version, objects: Objects, i: nat, j: nat)
    requires Fills(v, objects) && i < Count(v) && j < |DataAt(v, objects, i)|
    ensures v.size <= |Content(v, objects)| && At(i, v.blockSize) + j < |Content(v, objects)|
    ensures Content(v, objects)[At(i, v.blockSize) + j] == DataAt(v, objects, i)[j]
  {
    hide BlocksCount, DataAt, BlockAt;
    var size := FillsShaped(v, objects);
    JoinByte(Data(v, objects), size, v.blockSize, i, j);
  }

  lemma {:induction false} FilledLength(v: Version, objects: Objects)
    requires Fills(v, objects)
    ensures v.size <= |Content(v, objects)|
  {
    hide BlocksCount, DataAt, BlockAt;
    var size := FillsShaped(v, objects);
    JoinLength(Data(v, objects), size, v.blockSize);
  }
}
