/**
 * The copy-on-write store behind the NBD server: reads and writes of a session refine a plain
 * byte array, and fixating the session turns that array into a version.
 */
module Nbd {
  import opened Arithmetic
  import opened Images
  import opened Tables
  import opened VersionTable
  import opened Clone
  import opened Backup
  import opened Restore

  // ---------------------------------------------------------------- the session as an image

  /** The part of a block's data that lies inside the image. */
  function Visible(data: Bytes, size: int): Bytes {
    if 0 <= size <= |data| then data[..size] else data
  }

  /** Data of block `i`: the session's copy if there is one, else the base's. */
  function SessionBlock(base: Version, objects: Objects, copied: map<nat, Bytes>, i: nat): Bytes {
    Visible(if i in copied then copied[i] else DataAt(base, objects, i), SizeAt(base.size, base.blockSize, i))
  }

  function SessionData(base: Version, objects: Objects, copied: map<nat, Bytes>): seq<Bytes> {
    seq(Count(base), i requires 0 <= i => SessionBlock(base, objects, copied, i))
  }

  /** The plain byte array that the session stands for. */
  function View(base: Version, objects: Objects, copied: map<nat, Bytes>): Bytes {
    Join(SessionData(base, objects, copied))
  }

  /** The size of a copied block: a block without uid is copied as a full block of zeros. */
  function CopySize(base: Version, i: nat): int {
    if BlockAt(base, i).uid.None? then base.blockSize else SizeAt(base.size, base.blockSize, i)
  }

  ghost predicate Copies(base: Version, copied: map<nat, Bytes>) {
    forall i :: i in copied ==> i < Count(base) && |copied[i]| == CopySize(base, i)
  }

  /** The copies are of blocks of the image, and hold all of them that lies inside it. */
  ghost predicate CopiesReach(base: Version, copied: map<nat, Bytes>) {
    forall i :: i in copied ==> i < Count(base) && |copied[i]| >= SizeAt(base.size, base.blockSize, i)
  }

  /** A session on a well-sized base has what it takes for reading. */
  lemma {:induction false} SessionReads(base: Version, objects: Objects, copied: map<nat, Bytes>)
    ensures Restorable(base, objects) ==> Fills(base, objects)
    ensures Copies(base, copied) ==> CopiesReach(base, copied)
  {
  }

  lemma {:induction false} ViewShaped(base: Version, objects: Objects, copied: map<nat, Bytes>)
    requires Restorable(base, objects) && Copies(base, copied)
    ensures Shaped(SessionData(base, objects, copied), base.size, base.blockSize)
    ensures |View(base, objects, copied)| == base.size
  {
    SessionReads(base, objects, copied);
    ReadShaped(base, objects, copied);
  }

  lemma {:induction false} ReadShaped(base: Version, objects: Objects, copied: map<nat, Bytes>)
    requires Fills(base, objects) && CopiesReach(base, copied)
    ensures Shaped(SessionData(base, objects, copied), base.size, base.blockSize)
    ensures |View(base, objects, copied)| == base.size
  {
    var data := SessionData(base, objects, copied);
    forall i | 0 <= i < |data|
      ensures |data[i]| == SizeAt(base.size, base.blockSize, i)
    {
      BlockInside(base.size, base.blockSize, i);
    }
    JoinLength(data, base.size, base.blockSize);
  }

  /** A chunk of a block is that part of the image. */
  lemma {:induction false} ViewChunk(base: Version, objects: Objects, copied: map<nat, Bytes>, i: nat, offset: nat,
                                     length: nat)
    requires Fills(base, objects) && CopiesReach(base, copied) && i < Count(base)
    requires offset + length <= SizeAt(base.size, base.blockSize, i)
    ensures |SessionBlock(base, objects, copied, i)| == SizeAt(base.size, base.blockSize, i)
    ensures At(i, base.blockSize) + offset + length <= base.size == |View(base, objects, copied)|
    ensures SessionBlock(base, objects, copied, i)[offset..offset + length] ==
            View(base, objects, copied)[At(i, base.blockSize) + offset..At(i, base.blockSize) + offset + length]
  {
    hide At, BlocksCount, Join, Fills, CopiesReach;
    ReadShaped(base, objects, copied);
    JoinSlice(SessionData(base, objects, copied), base.size, base.blockSize, i);
    BlockInside(base.size, base.blockSize, i);
    SliceOfSlice(View(base, objects, copied), At(i, base.blockSize), SizeAt(base.size, base.blockSize, i), offset,
        length);
  }

  lemma {:induction false} SliceOfSlice(image: Bytes, at: nat, size: nat, offset: nat, length: nat)
    requires at + size <= |image| && offset + length <= size
    ensures image[at..at + size][offset..offset + length] == image[at + offset..at + offset + length]
  {
    var a, b := image[at..at + size][offset..offset + length], image[at + offset..at + offset + length];
    forall j | 0 <= j < length ensures a[j] == b[j] {}
  }

  lemma {:induction false} VisibleWrite(whole: Bytes, size: nat, offset: nat, piece: Bytes)
    requires offset + |piece| <= size <= |whole|
    ensures Visible(WriteAt(whole, offset, piece), size) == WriteAt(Visible(whole, size), offset, piece)
  {
  }

  /** Storing a patched copy of one block is writing to that part of the image. */
  lemma {:induction false} ViewWrite(base: Version, objects: Objects, copied: map<nat, Bytes>, i: nat, whole: Bytes,
                                     offset: nat, piece: Bytes)
    requires Restorable(base, objects) && Copies(base, copied) && i < Count(base)
    requires offset + |piece| <= SizeAt(base.size, base.blockSize, i) <= |whole|
    requires Visible(whole, SizeAt(base.size, base.blockSize, i)) == SessionBlock(base, objects, copied, i)
    ensures At(i, base.blockSize) + offset + |piece| <= base.size == |View(base, objects, copied)|
    ensures View(base, objects, copied[i := WriteAt(whole, offset, piece)]) ==
            WriteAt(View(base, objects, copied), At(i, base.blockSize) + offset, piece)
  {
    hide At, BlocksCount, SizeAt, Join, WriteAt, Visible, Restorable, Copies, SessionBlock;
    var data := SessionData(base, objects, copied);
    ViewShaped(base, objects, copied);
    BlockInside(base.size, base.blockSize, i);
    VisibleWrite(whole, SizeAt(base.size, base.blockSize, i), offset, piece);
    JoinWrite(data, base.size, base.blockSize, i, offset, piece);
    SessionWrite(base, objects, copied, i, WriteAt(whole, offset, piece));
  }

  /** Storing a copy of one block changes that block of the session. */
  lemma {:induction false} SessionWrite(base: Version, objects: Objects, copied: map<nat, Bytes>, i: nat, whole: Bytes)
    requires i < Count(base)
    ensures SessionData(base, objects, copied[i := whole]) ==
            SessionData(base, objects, copied)[i := Visible(whole, SizeAt(base.size, base.blockSize, i))]
  {
    hide BlocksCount, SizeAt, Visible, DataAt;
  }

  // ---------------------------------------------------------------- splitting a range

  datatype Chunk = Chunk(idx: nat, offset: nat, length: nat)

  function Start(chunk: Chunk, blockSize: Pos): nat {
    At(chunk.idx, blockSize) + chunk.offset
  }

  predicate InBlock(chunk: Chunk, v: Version) {
    chunk.idx < Count(v) && chunk.offset + chunk.length <= SizeAt(v.size, v.blockSize, chunk.idx)
  }

  /** Consecutive pieces of blocks that together make up the range from `offset` to `end`. */
  ghost predicate Splits(chunks: seq<Chunk>, v: Version, offset: nat, end: nat) {
    if chunks == [] then offset == end
    else
      && InBlock(chunks[0], v) && Start(chunks[0], v.blockSize) == offset
      && Splits(chunks[1..], v, offset + chunks[0].length, end)
  }

  lemma {:induction false} SplitsAppend(chunks: seq<Chunk>, v: Version, offset: nat, end: nat, chunk: Chunk)
    requires Splits(chunks, v, offset, end) && InBlock(chunk, v) && Start(chunk, v.blockSize) == end
    ensures Splits(chunks + [chunk], v, offset, end + chunk.length)
  {
    if chunks == [] {
    } else {
      SplitsAppend(chunks[1..], v, offset + chunks[0].length, end, chunk);
      assert (chunks + [chunk])[1..] == chunks[1..] + [chunk];
    }
  }

  /** The chunk at position `c` starts where the ones before it end, and the rest goes on after it. */
  lemma {:induction false} NextChunk(chunks: seq<Chunk>, v: Version, c: nat, offset: nat, end: nat)
    requires c < |chunks| && Splits(chunks[c..], v, offset, end)
    ensures InBlock(chunks[c], v) && Start(chunks[c], v.blockSize) == offset
    ensures Splits(chunks[c + 1..], v, offset + chunks[c].length, end) && offset + chunks[c].length <= end
  {
    assert chunks[c..][1..] == chunks[c + 1..];
    SplitsForward(chunks[c + 1..], v, offset + chunks[c].length, end);
  }

  /** How a range splits depends on the sizes alone. */
  lemma {:induction false} SplitsSame(chunks: seq<Chunk>, v: Version, w: Version, offset: nat, end: nat)
    requires Splits(chunks, v, offset, end) && v.size == w.size && v.blockSize == w.blockSize
    ensures Splits(chunks, w, offset, end)
  {
    hide At, BlocksCount, SizeAt;
    if chunks != [] {
      SplitsSame(chunks[1..], v, w, offset + chunks[0].length, end);
    }
  }

  lemma {:induction false} SplitsDone(chunks: seq<Chunk>, v: Version, offset: nat, end: nat)
    requires Splits(chunks[|chunks|..], v, offset, end)
    ensures offset == end
  {
  }

  lemma {:induction false} SplitsForward(chunks: seq<Chunk>, v: Version, offset: nat, end: nat)
    requires Splits(chunks, v, offset, end)
    ensures offset <= end
  {
    hide At, BlocksCount;
    if chunks != [] {
      SplitsForward(chunks[1..], v, offset + chunks[0].length, end);
    }
  }

  /** The rest of a range starts at this offset of this block. */
  ghost predicate Continues(v: Version, idx: nat, blockOffset: nat, position: nat) {
    idx < Count(v) && blockOffset < SizeAt(v.size, v.blockSize, idx) && At(idx, v.blockSize) + blockOffset == position
  }

  /** Splits a range that starts and ends inside the version. */
  method BlockList(v: Version, offset: nat, length: nat) returns (chunks: seq<Chunk>)
    requires SizesFill(v) && offset < v.size && offset + length <= v.size
    ensures Splits(chunks, v, offset, offset + length)
  {
    hide SizesFill, SizeAt;
    var idx: nat, blockOffset: nat, rest: nat := offset / v.blockSize, offset % v.blockSize, length;
    PositionInside(v.size, v.blockSize, offset);
    BlockOfIsQuotient(offset, v.blockSize);
    chunks := [];
    while true
      invariant 0 <= rest <= length && Splits(chunks, v, offset, offset + length - rest)
      invariant Continues(v, idx, blockOffset, offset + length - rest)
      decreases rest
    {
      ghost var position := offset + length - rest;
      var n := ChunkLength(v, idx, blockOffset, rest, position);
      SplitsAppend(chunks, v, offset, position, Chunk(idx, blockOffset, n));
      chunks, rest := chunks + [Chunk(idx, blockOffset, n)], rest - n;
      if rest == 0 { break; }
      NextBlock(v, idx, blockOffset, position, n);
      idx, blockOffset := idx + 1, 0;
    }
  }

  method ChunkLength(v: Version, idx: nat, blockOffset: nat, rest: nat, ghost position: nat) returns (n: nat)
    requires SizesFill(v) && Continues(v, idx, blockOffset, position) && position + rest <= v.size
    ensures n == Min(SizeAt(v.size, v.blockSize, idx) - blockOffset, rest)
    ensures rest > 0 ==> n > 0
  {
    n := Min(BlockAt(v, idx).size - blockOffset, rest);
  }

  /** A range that is not used up by the end of a block goes on at the start of the next one. */
  lemma {:induction false} NextBlock(v: Version, idx: nat, blockOffset: nat, position: nat, n: nat)
    requires Continues(v, idx, blockOffset, position) && position + n < v.size
    requires n == SizeAt(v.size, v.blockSize, idx) - blockOffset
    ensures Continues(v, idx + 1, 0, position + n)
  {
    BlockInside(v.size, v.blockSize, idx);
    BlockInside(v.size, v.blockSize, idx + 1);
  }

  // ---------------------------------------------------------------- the store

  /** The data of the copied blocks, from the files of the copy-on-write store. */
  function Copied(id: VersionId, cow: map<nat, Row>, files: map<BlockUid, Bytes>): map<nat, Bytes> {
    map i | i in cow :: File(files, id, i)
  }

  /** The file of the session's copy of block `i`. */
  function File(files: map<BlockUid, Bytes>, id: VersionId, i: nat): Bytes {
    if BlockUid(id, i + 1) in files then files[BlockUid(id, i + 1)] else []
  }

  /** The session's version is a clone of the base. */
  ghost predicate CloneOf(versions: map<VersionId, Version>, objects: Objects, base: Version, id: VersionId) {
    && id in versions && WellSized(versions[id]) && Restorable(base, objects)
    && versions[id].size == base.size && versions[id].blockSize == base.blockSize
      && versions[id].storage == base.storage
    && (forall i :: 0 <= i < Count(base) ==> BlockAt(versions[id], i) == BlockAt(base, i))
  }

  /** The session's copied blocks are in the copy-on-write store. */
  ghost predicate Holding(base: Version, id: VersionId, cow: map<nat, Row>, files: map<BlockUid, Bytes>,
                          present: set<BlockUid>) {
    && (forall i :: i in cow ==>
        cow[i].uid == Some(BlockUid(id, i + 1)) && BlockUid(id, i + 1) in files && BlockUid(id, i + 1) in present)
    && Copies(base, Copied(id, cow, files))
  }

  /** The storage that a uid lives in. */
  type Home = BlockUid -> StorageId

  ghost predicate CacheOk(cache: map<BlockUid, Bytes>, home: Home, objects: Objects) {
    forall uid :: uid in cache ==>
      ObjectKey(home(uid), uid) in objects && cache[uid] == objects[ObjectKey(home(uid), uid)]
  }

  /** The version's uids live in its storage. */
  ghost predicate AtHome(v: Version, home: Home) {
    forall i :: i in v.rows && v.rows[i].uid.Some? ==> home(v.rows[i].uid.value) == v.storage
  }

  lemma {:induction false} ContentIsView(v: Version, objects: Objects)
    requires Intact(v, objects)
    ensures View(v, objects, map[]) == Content(v, objects)
  {
    hide BlocksCount, SizeAt, DataAt;
    forall i | 0 <= i < Count(v) ensures SessionBlock(v, objects, map[], i) == DataAt(v, objects, i) {}
    assert SessionData(v, objects, map[]) == Data(v, objects);
  }

  /** Storing a block's new data changes the copies in that block alone. */
  lemma {:induction false} StoreCopy(cow: map<nat, Row>, files: map<BlockUid, Bytes>, id: VersionId, i: nat, row: Row,
                                     data: Bytes)
    requires forall k :: k in cow ==> cow[k].uid == Some(BlockUid(id, k + 1)) && BlockUid(id, k + 1) in files
    requires row.uid == Some(BlockUid(id, i + 1))
    ensures Copied(id, cow[i := row], files[BlockUid(id, i + 1) := data]) == Copied(id, cow, files)[i := data]
  {
  }

  /** Storing a copy of the right size keeps the session. */
  lemma {:induction false} KeepHolding(base: Version, id: VersionId, cow: map<nat, Row>, files: map<BlockUid, Bytes>,
                                       present: set<BlockUid>, i: nat, row: Row, data: Bytes)
    requires Holding(base, id, cow, files, present) && i < Count(base)
    requires row.uid == Some(BlockUid(id, i + 1)) && |data| == CopySize(base, i)
    ensures Holding(base, id, cow[i := row], files[BlockUid(id, i + 1) := data], present + {BlockUid(id, i + 1)})
    ensures Copied(id, cow[i := row], files[BlockUid(id, i + 1) := data]) == Copied(id, cow, files)[i := data]
  {
    StoreCopy(cow, files, id, i, row, data);
  }

  /** Data of one block of the base, through a cache that may have dropped anything. */
  method ReadBaseBlock(v: Version, objects: Objects, cache: map<BlockUid, Bytes>, uid: BlockUid, ghost home: Home)
    returns (data: Bytes, cached: map<BlockUid, Bytes>)
    requires ObjectKey(v.storage, uid) in objects && home(uid) == v.storage && CacheOk(cache, home, objects)
    ensures data == objects[ObjectKey(v.storage, uid)] && CacheOk(cached, home, objects)
  {
    cached := cache;
    if * {
      cached := cached - {uid};
    }
    if uid in cached {
      data := cached[uid];
    } else {
      data := objects[ObjectKey(v.storage, uid)];
      cached := cached[uid := data];
    }
  }

  /** Reads a piece of one block: from its copy, as zeros, or from the base's object. */
  method FetchChunk(base: Version, objects: Objects, cow: map<nat, Row>, files: map<BlockUid, Bytes>,
                    cache: map<BlockUid, Bytes>, chunk: Chunk, ghost id: VersionId, ghost home: Home)
    returns (piece: Bytes, cached: map<BlockUid, Bytes>)
    requires Fills(base, objects) && CacheOk(cache, home, objects) && AtHome(base, home)
    requires CopiesReach(base, Copied(id, cow, files))
    requires chunk.idx in cow ==>
               cow[chunk.idx].uid == Some(BlockUid(id, chunk.idx + 1)) && BlockUid(id, chunk.idx + 1) in files
    requires InBlock(chunk, base)
    ensures var block := SessionBlock(base, objects, Copied(id, cow, files), chunk.idx);
            chunk.offset + chunk.length <= |block| && piece == block[chunk.offset..chunk.offset + chunk.length]
    ensures CacheOk(cached, home, objects)
  {
    var end := chunk.offset + chunk.length;
    var block := BlockAt(base, chunk.idx);
    ghost var size := SizeAt(base.size, base.blockSize, chunk.idx);
    cached := cache;
    BlockInside(base.size, base.blockSize, chunk.idx);
    assert |DataAt(base, objects, chunk.idx)| == block.size >= size > 0;
    hide BlocksCount, SizeAt, Fills, Visible, CacheOk, BlockAt;
    if chunk.idx in cow {
      var file := files[cow[chunk.idx].uid.value];
      assert Copied(id, cow, files)[chunk.idx] == file;
      piece := file[chunk.offset..end];
      VisibleSlice(file, size, chunk.offset, chunk.length);
    } else if block.uid.None? {
      piece := Zeros(chunk.length);
      VisibleSlice(Zeros(block.size), size, chunk.offset, chunk.length);
      assert Zeros(block.size)[chunk.offset..end] == piece;
    } else {
      var whole;
      whole, cached := ReadBaseBlock(base, objects, cache, block.uid.value, home);
      piece := whole[chunk.offset..end];
      VisibleSlice(whole, size, chunk.offset, chunk.length);
    }
  }

  lemma {:induction false} VisibleSlice(data: Bytes, size: nat, offset: nat, length: nat)
    requires offset + length <= size <= |data|
    ensures |Visible(data, size)| == size
    ensures Visible(data, size)[offset..offset + length] == data[offset..offset + length]
  {
    SliceOfSlice(data, 0, size, offset, length);
  }

  /** The data is that part of the image. */
  predicate IsSlice(data: Bytes, image: Bytes, offset: nat) {
    offset + |data| <= |image| && data == image[offset..offset + |data|]
  }

  lemma {:induction false} SliceAppend(image: Bytes, offset: nat, data: Bytes, piece: Bytes)
    requires IsSlice(data, image, offset) && IsSlice(piece, image, offset + |data|)
    ensures IsSlice(data + piece, image, offset)
  {
  }

  lemma {:induction false} SliceNothing(image: Bytes, offset: nat)
    requires offset <= |image|
    ensures IsSlice([], image, offset)
  {
  }

  method ReadChunk(base: Version, objects: Objects, cow: map<nat, Row>, files: map<BlockUid, Bytes>,
                   cache: map<BlockUid, Bytes>, chunk: Chunk, ghost id: VersionId, ghost home: Home)
    returns (piece: Bytes, cached: map<BlockUid, Bytes>)
    requires Fills(base, objects) && CacheOk(cache, home, objects) && AtHome(base, home)
    requires CopiesReach(base, Copied(id, cow, files))
    requires chunk.idx in cow ==>
               cow[chunk.idx].uid == Some(BlockUid(id, chunk.idx + 1)) && BlockUid(id, chunk.idx + 1) in files
    requires InBlock(chunk, base)
    ensures IsSlice(piece, View(base, objects, Copied(id, cow, files)), Start(chunk, base.blockSize))
    ensures |piece| == chunk.length && CacheOk(cached, home, objects)
  {
    hide At, BlocksCount, SizeAt, Fills, CopiesReach, AtHome, CacheOk, Copied, View, SessionBlock;
    piece, cached := FetchChunk(base, objects, cow, files, cache, chunk, id, home);
    ViewChunk(base, objects, Copied(id, cow, files), chunk.idx, chunk.offset, chunk.length);
  }

  lemma {:induction false} FillsSized(base: Version, objects: Objects)
    requires Fills(base, objects)
    ensures SizesFill(base)
  {
  }

  /** Reads the next chunk of a range. */
  method ReadNext(base: Version, objects: Objects, cow: map<nat, Row>, files: map<BlockUid, Bytes>,
                  cache: map<BlockUid, Bytes>, chunks: seq<Chunk>, c: nat, data: Bytes, ghost offset: nat,
                  ghost end: nat, ghost id: VersionId, ghost home: Home)
    returns (more: Bytes, cached: map<BlockUid, Bytes>)
    requires Fills(base, objects) && CacheOk(cache, home, objects) && AtHome(base, home)
    requires CopiesReach(base, Copied(id, cow, files)) && Named(cow, files, id)
    requires IsSlice(data, View(base, objects, Copied(id, cow, files)), offset)
    requires c < |chunks| && Splits(chunks[c..], base, offset + |data|, end)
    ensures IsSlice(more, View(base, objects, Copied(id, cow, files)), offset)
    ensures Splits(chunks[c + 1..], base, offset + |more|, end) && CacheOk(cached, home, objects)
  {
    hide IsSlice, Fills, At, BlocksCount, SizeAt, Splits, InBlock, Start, View, CacheOk, AtHome, CopiesReach, Copied;
    NextChunk(chunks, base, c, offset + |data|, end);
    var piece;
    piece, cached := ReadChunk(base, objects, cow, files, cache, chunks[c], id, home);
    SliceAppend(View(base, objects, Copied(id, cow, files)), offset, data, piece);
    more := data + piece;
  }

  /** The copies are in files under uids of the session's version. */
  ghost predicate Named(cow: map<nat, Row>, files: map<BlockUid, Bytes>, id: VersionId) {
    forall i :: i in cow ==> cow[i].uid == Some(BlockUid(id, i + 1)) && BlockUid(id, i + 1) in files
  }

  method ReadRange(base: Version, objects: Objects, cow: map<nat, Row>, files: map<BlockUid, Bytes>,
                   cache: map<BlockUid, Bytes>, offset: nat, length: nat, ghost id: VersionId, ghost home: Home)
    returns (data: Bytes, cached: map<BlockUid, Bytes>)
    requires Fills(base, objects) && CacheOk(cache, home, objects) && AtHome(base, home)
    requires CopiesReach(base, Copied(id, cow, files)) && Named(cow, files, id)
    requires offset < base.size && offset + length <= base.size
    ensures |View(base, objects, Copied(id, cow, files))| == base.size && |data| == length
    ensures IsSlice(data, View(base, objects, Copied(id, cow, files)), offset)
    ensures CacheOk(cached, home, objects)
  {
    FillsSized(base, objects);
    hide IsSlice, Fills, SizesFill, BlocksCount, Splits, View, CacheOk, AtHome, CopiesReach, Copied, Named;
    var chunks := BlockList(base, offset, length);
    ReadShaped(base, objects, Copied(id, cow, files));
    SliceNothing(View(base, objects, Copied(id, cow, files)), offset);
    data, cached := [], cache;
    assert chunks[0..] == chunks;
    for c := 0 to |chunks|
      invariant IsSlice(data, View(base, objects, Copied(id, cow, files)), offset) && CacheOk(cached, home, objects)
      invariant Splits(chunks[c..], base, offset + |data|, offset + length)
    {
      data, cached := ReadNext(base, objects, cow, files, cached, chunks, c, data, offset, offset + length, id, home);
    }
    SplitsDone(chunks, base, offset + |data|, offset + length);
  }

  // ---------------------------------------------------------------- fixating

  /** The row that a copied block gets: none of its own if it is a full block of zeros. */
  function FixedRow(data: Bytes, id: VersionId, i: nat, hash: Hash, blockSize: Pos): Row {
    if hash(data) == hash(Zeros(blockSize)) then Row(None, None, |data|, true)
    else Row(Some(BlockUid(id, i + 1)), Some(hash(data)), |data|, true)
  }

  /** Blocks `fixed` have their final rows and objects, the others are still those of the base. */
  ghost predicate Fixing(v: Version, objects: Objects, base: Version, before: Objects, id: VersionId,
                         copied: map<nat, Bytes>, hash: Hash, fixed: set<nat>) {
    && v.size == base.size && v.blockSize == base.blockSize && v.storage == base.storage && Extends(objects, before)
    && (forall k :: k in v.rows ==> k < Count(base) && Stored(v.rows[k], v.blockSize))
    && (forall k :: 0 <= k < Count(base) && k !in fixed ==>
          BlockAt(v, k) == BlockAt(base, k) && ObjectKey(base.storage, BlockUid(id, k + 1)) !in objects)
    && (forall k :: k in fixed ==>
          && k in copied && k < Count(base)
          && BlockAt(v, k) == Normal(FixedRow(copied[k], id, k, hash, base.blockSize), base.blockSize)
          && BlockData(FixedRow(copied[k], id, k, hash, base.blockSize), base.storage, objects) == copied[k])
  }

  /** The copied blocks have their final rows, all others those of the base. */
  ghost predicate FixedRows(w: Version, base: Version, copied: map<nat, Bytes>, id: VersionId, hash: Hash) {
    && w.blockSize == base.blockSize
    && (forall k :: k in w.rows ==> k < Count(base) && Stored(w.rows[k], w.blockSize))
    && forall k :: 0 <= k < Count(base) ==> BlockAt(w, k) == BlockFixed(base, copied, id, hash, k)
  }

  function BlockFixed(base: Version, copied: map<nat, Bytes>, id: VersionId, hash: Hash, k: nat): Row {
    if k in copied then Normal(FixedRow(copied[k], id, k, hash, base.blockSize), base.blockSize) else BlockAt(base, k)
  }

  lemma {:induction false} AllFixed(v: Version, objects: Objects, base: Version, before: Objects, id: VersionId,
                                    copied: map<nat, Bytes>, hash: Hash)
    requires Fixing(v, objects, base, before, id, copied, hash, copied.Keys)
    ensures FixedRows(v.(status := Valid), base, copied, id, hash)
  {
    var w := v.(status := Valid);
    assert forall k: nat :: BlockAt(w, k) == BlockAt(v, k);
  }

  /** Checksums tell a copied block from a block of zeros. */
  ghost predicate ZerosRecognised(copied: map<nat, Bytes>, hash: Hash, blockSize: Pos) {
    forall i :: i in copied && hash(copied[i]) == hash(Zeros(blockSize)) ==> copied[i] == Zeros(blockSize)
  }

  lemma {:induction false} StartFixing(versions: map<VersionId, Version>, objects: Objects, base: Version,
                                       id: VersionId, copied: map<nat, Bytes>, hash: Hash)
    requires CloneOf(versions, objects, base, id) && forall key :: key in objects ==> key.uid.left != id
    ensures Fixing(versions[id], objects, base, objects, id, copied, hash, {})
    ensures Restorable(base, objects) && OnlyRows(versions, versions, id)
  {
  }

  /** The version's size, storage and block size are the base's, and its status does not matter. */
  lemma {:induction false} FixingFacts(v: Version, objects: Objects, base: Version, before: Objects, id: VersionId,
                                       copied: map<nat, Bytes>, hash: Hash, fixed: set<nat>)
    requires Fixing(v, objects, base, before, id, copied, hash, fixed)
    ensures v.blockSize == base.blockSize && v.storage == base.storage && Extends(objects, before)
    ensures Fixing(v.(status := Valid), objects, base, before, id, copied, hash, fixed)
  {
    var w := v.(status := Valid);
    assert forall k: nat :: BlockAt(w, k) == BlockAt(v, k);
  }

  /** The copies that are still to be fixated are in the store. */
  ghost predicate Unfixed(rest: set<nat>, cow: map<nat, Row>, files: map<BlockUid, Bytes>, id: VersionId,
                          copied: map<nat, Bytes>, base: Version) {
    forall i :: i in rest ==>
      && i in cow && cow[i].uid == Some(BlockUid(id, i + 1)) && i in copied && i < Count(base)
      && BlockUid(id, i + 1) in files && File(files, id, i) == copied[i]
  }

  lemma {:induction false} StartUnfixed(cow: map<nat, Row>, files: map<BlockUid, Bytes>, present: set<BlockUid>,
                                        id: VersionId, base: Version)
    requires Holding(base, id, cow, files, present)
    ensures Copied(id, cow, files).Keys == cow.Keys && Copies(base, Copied(id, cow, files))
    ensures Unfixed(cow.Keys, cow, files, id, Copied(id, cow, files), base)
  {
    var copied := Copied(id, cow, files);
    forall i | i in cow
      ensures i in copied && i < Count(base) && File(files, id, i) == copied[i]
    {
      assert i in copied;
    }
  }

  lemma {:induction false} NextUnfixed(rest: set<nat>, cow: map<nat, Row>, files: map<BlockUid, Bytes>, id: VersionId,
                                       copied: map<nat, Bytes>, base: Version, i: nat)
    requires Unfixed(rest, cow, files, id, copied, base) && i in rest
    ensures i in cow && cow[i].uid == Some(BlockUid(id, i + 1)) && i in copied && i < Count(base)
    ensures BlockUid(id, i + 1) in files && files[BlockUid(id, i + 1)] == copied[i]
    ensures Unfixed(rest - {i}, cow, files - {BlockUid(id, i + 1)}, id, copied, base)
  {
  }

  lemma {:induction false} FixBlock(v: Version, objects: Objects, base: Version, before: Objects, id: VersionId,
                                    copied: map<nat, Bytes>, hash: Hash, fixed: set<nat>, i: nat, more: Objects)
    requires Fixing(v, objects, base, before, id, copied, hash, fixed) && ZerosRecognised(copied, hash, base.blockSize)
    requires i in copied && i !in fixed && i < Count(base)
    requires var row := FixedRow(copied[i], id, i, hash, base.blockSize);
             more == if row.uid.None? then objects
               else objects[ObjectKey(base.storage, BlockUid(id, i + 1)) := copied[i]]
    ensures Fixing(WithBlock(v, i, FixedRow(copied[i], id, i, hash, base.blockSize)), more, base, before, id, copied,
                hash, fixed + {i})
  {
    hide BlocksCount;
    var row := FixedRow(copied[i], id, i, hash, base.blockSize);
    var w := WithBlock(v, i, row);
    FixedRowData(copied[i], id, i, hash, base, more);
    forall k | k in fixed + {i}
      ensures k in copied && k < Count(base)
      ensures BlockAt(w, k) == Normal(FixedRow(copied[k], id, k, hash, base.blockSize), base.blockSize)
      ensures BlockData(FixedRow(copied[k], id, k, hash, base.blockSize), base.storage, more) == copied[k]
    {
    }
  }

  lemma {:induction false} FixedRowData(data: Bytes, id: VersionId, i: nat, hash: Hash, base: Version, objects: Objects)
    requires hash(data) == hash(Zeros(base.blockSize)) ==> data == Zeros(base.blockSize)
    requires var row := FixedRow(data, id, i, hash, base.blockSize);
             var key := ObjectKey(base.storage, BlockUid(id, i + 1));
             row.uid.Some? ==> key in objects && objects[key] == data
    ensures BlockData(FixedRow(data, id, i, hash, base.blockSize), base.storage, objects) == data
  {
  }

  /** A copied block that had no uid although it was short: its copy is a full block. */
  ghost predicate CopiesBareTail(base: Version, copied: map<nat, Bytes>) {
    exists i :: i in copied && BlockAt(base, i).uid.None? && SizeAt(base.size, base.blockSize, i) != base.blockSize
  }

  lemma {:induction false} FixedData(v: Version, objects: Objects, base: Version, before: Objects, id: VersionId,
                                     copied: map<nat, Bytes>, hash: Hash, k: nat)
    requires Fixing(v, objects, base, before, id, copied, hash, copied.Keys)
    requires ZerosRecognised(copied, hash, base.blockSize)
    requires Restorable(base, before) && Copies(base, copied) && k < Count(base)
    ensures DataAt(v, objects, k) == if k in copied then copied[k] else DataAt(base, before, k)
    ensures BlockAt(v, k).size == if k in copied then CopySize(base, k) else SizeAt(base.size, base.blockSize, k)
  {
    BlockInside(base.size, base.blockSize, k);
    if k !in copied {
      assert |DataAt(base, before, k)| > 0;
    }
  }

  /** With a full copy of a short last block, the blocks make up more than the image. */
  lemma {:induction false} TailOverflows(v: Version, objects: Objects, base: Version, before: Objects,
                                         copied: map<nat, Bytes>, i: nat)
    requires Restorable(base, before) && Copies(base, copied) && i in copied && Count(v) == Count(base)
    requires BlockAt(base, i).uid.None? && SizeAt(base.size, base.blockSize, i) != base.blockSize
    requires forall k :: 0 <= k < Count(base) ==>
               DataAt(v, objects, k) == if k in copied then copied[k] else DataAt(base, before, k)
    ensures |Content(v, objects)| != |View(base, before, copied)|
  {
    hide At, SizeAt, BlocksCount, Join;
    var data, n, b := Data(v, objects), Count(base), base.blockSize;
    ViewShaped(base, before, copied);
    FullCount(n, b);
    forall k | 0 <= k < n
      ensures base.size < At(n, b) && |data[k]| == SizeAt(At(n, b), b, k)
    {
      FullSize(base.size, b, i, k);
    }
    assert 0 <= i < n;
    JoinLength(data, At(n, b), b);
  }

  /** If block `i` is short, all other blocks are full, and all blocks together would be longer. */
  lemma {:induction false} FullSize(size: nat, blockSize: Pos, i: nat, k: nat)
    requires i < BlocksCount(size, blockSize) && k < BlocksCount(size, blockSize)
    requires SizeAt(size, blockSize, i) != blockSize
    ensures var all := At(BlocksCount(size, blockSize), blockSize);
            size < all && SizeAt(all, blockSize, k) == blockSize && (k != i ==> SizeAt(size, blockSize, k) == blockSize)
  {
    var n := BlocksCount(size, blockSize);
    BlockInside(size, blockSize, i);
    BlockInside(size, blockSize, k);
    CountBounds(size, blockSize);
    AtMono(k + 1, n, blockSize);
  }

  /** The fixated version is well-sized unless a bare tail was copied, and then holds the session's image. */
  lemma {:induction false} FixedContent(v: Version, objects: Objects, base: Version, before: Objects, id: VersionId,
                                        copied: map<nat, Bytes>, hash: Hash)
    requires Fixing(v, objects, base, before, id, copied, hash, copied.Keys)
    requires ZerosRecognised(copied, hash, base.blockSize)
    requires Restorable(base, before) && Copies(base, copied)
    ensures Extends(objects, before)
    ensures WellSized(v) <==> !CopiesBareTail(base, copied)
    ensures Content(v, objects) == View(base, before, copied) <==> !CopiesBareTail(base, copied)
    ensures CopiesBareTail(base, copied) ==> |Content(v, objects)| != base.size
    ensures !CopiesBareTail(base, copied) ==> Intact(v, objects)
  {
    hide Fixing, BlocksCount, SizeAt, Restorable, ZerosRecognised, CopySize, BlockAt, DataAt, Join;
    FixingSizes(v, objects, base, before, id, copied, hash);
    ViewShaped(base, before, copied);
    forall k | 0 <= k < Count(base)
      ensures DataAt(v, objects, k) == if k in copied then copied[k] else DataAt(base, before, k)
      ensures BlockAt(v, k).size == if k in copied then CopySize(base, k) else SizeAt(base.size, base.blockSize, k)
    {
      FixedData(v, objects, base, before, id, copied, hash, k);
    }
    if CopiesBareTail(base, copied) {
      var i :| i in copied && BlockAt(base, i).uid.None? && SizeAt(base.size, base.blockSize, i) != base.blockSize;
      CopyOfTail(base, i);
      assert BlockAt(v, i).size != SizeAt(v.size, v.blockSize, i);
      TailOverflows(v, objects, base, before, copied, i);
    } else {
      forall k | 0 <= k < Count(base)
        ensures DataAt(v, objects, k) == SessionBlock(base, before, copied, k)
        ensures |DataAt(v, objects, k)| == BlockAt(v, k).size == SizeAt(base.size, base.blockSize, k)
      {
        FixedBlock(base, before, copied, k);
      }
      assert Data(v, objects) == SessionData(base, before, copied);
    }
  }

  lemma {:induction false} FixingSizes(v: Version, objects: Objects, base: Version, before: Objects, id: VersionId,
                                       copied: map<nat, Bytes>, hash: Hash)
    requires Fixing(v, objects, base, before, id, copied, hash, copied.Keys)
    ensures v.size == base.size && v.blockSize == base.blockSize && Extends(objects, before)
    ensures forall k :: k in v.rows ==> k < Count(base) && Stored(v.rows[k], v.blockSize)
  {
  }

  lemma {:induction false} CopyOfTail(base: Version, i: nat)
    requires BlockAt(base, i).uid.None? && SizeAt(base.size, base.blockSize, i) != base.blockSize
    ensures CopySize(base, i) != SizeAt(base.size, base.blockSize, i)
  {
  }

  /** Unless a bare tail is copied, copies have the size of their block. */
  lemma {:induction false} FixedBlock(base: Version, before: Objects, copied: map<nat, Bytes>, k: nat)
    requires Restorable(base, before) && Copies(base, copied) && !CopiesBareTail(base, copied) && k < Count(base)
    ensures var data := if k in copied then copied[k] else DataAt(base, before, k);
            data == SessionBlock(base, before, copied, k) && |data| == SizeAt(base.size, base.blockSize, k)
    ensures k in copied ==> CopySize(base, k) == SizeAt(base.size, base.blockSize, k)
  {
    hide BlocksCount, DataAt;
  }

  // ---------------------------------------------------------------- sessions side by side

  /** What the store holds: the copied rows of each session, the copies' files, and which of them are present. */
  datatype Store = Store(cow: map<VersionId, map<nat, Row>>, files: map<BlockUid, Bytes>, present: set<BlockUid>)

  /** All sessions but one are as before, with their files. */
  ghost predicate SameOthers(after: Store, before: Store, id: VersionId) {
    && (forall k :: k != id ==> (k in after.cow <==> k in before.cow))
    && (forall k :: k != id && k in before.cow ==> after.cow[k] == before.cow[k])
    && SameFiles(after.files, before.files, id)
    && (forall uid: BlockUid :: uid.left != id ==> (uid in after.present <==> uid in before.present))
  }

  ghost predicate SameFiles(after: map<BlockUid, Bytes>, before: map<BlockUid, Bytes>, id: VersionId) {
    && (forall uid: BlockUid :: uid.left != id ==> (uid in after <==> uid in before))
    && (forall uid: BlockUid :: uid.left != id && uid in before ==> after[uid] == before[uid])
  }

  lemma {:induction false} SameOthersSelf(s: Store, id: VersionId)
    ensures SameOthers(s, s, id)
  {
  }

  lemma {:induction false} SameOthersTwice(a: Store, b: Store, c: Store, id: VersionId)
    requires SameOthers(a, b, id) && SameOthers(b, c, id)
    ensures SameOthers(a, c, id)
  {
  }

  /** Another session keeps its copies, and so its image. */
  lemma {:induction false} OtherSession(after: Store, before: Store, id: VersionId, other: VersionId, base: Version)
    requires SameOthers(after, before, id) && other != id && other in before.cow
    ensures other in after.cow
    ensures Copied(other, after.cow[other], after.files) == Copied(other, before.cow[other], before.files)
    ensures Holding(base, other, before.cow[other], before.files, before.present) ==>
              Holding(base, other, after.cow[other], after.files, after.present)
  {
    assert after.cow[other] == before.cow[other];
    forall i | i in before.cow[other] ensures File(after.files, other, i) == File(before.files, other, i) {}
    assert Copied(other, after.cow[other], after.files) == Copied(other, before.cow[other], before.files);
  }

  class BenjiStore {
    var cow: map<VersionId, map<nat, Row>>
    var files: map<BlockUid, Bytes>
    var present: set<BlockUid>
    var cache: map<BlockUid, Bytes>

    constructor ()
      ensures cow == map[] && files == map[] && present == {} && cache == map[]
    {
      cow, files, present, cache := map[], map[], {}, map[];
    }

    /** The plain byte array of a session, or the version itself when nothing was written yet. */
    ghost function Image(base: Version, objects: Objects, id: Option<VersionId>): Bytes
      reads this
    {
      View(base, objects, if id.Some? && id.value in cow then Copied(id.value, cow[id.value], files) else map[])
    }

    ghost function Contents(): Store
      reads this
    {
      Store(cow, files, present)
    }

    ghost predicate Session(versions: map<VersionId, Version>, objects: Objects, base: Version, id: VersionId)
      reads this
    {
      CloneOf(versions, objects, base, id) && id in cow && Holding(base, id, cow[id], files, present)
    }

    /** The session has copies of whole blocks of the version that it reads from. */
    ghost predicate Readable(base: Version, id: VersionId)
      reads this
    {
      id in cow && Named(cow[id], files, id) && CopiesReach(base, Copied(id, cow[id], files))
    }

    lemma {:induction false} SessionReadable(versions: map<VersionId, Version>, objects: Objects, base: Version,
                                             id: VersionId)
      requires Session(versions, objects, base, id)
      ensures Fills(base, objects) && Readable(base, id)
    {
      SessionReads(base, objects, Copied(id, cow[id], files));
    }

    /** Reads a range inside the version: the slice of the session's byte array. */
    method Read(db: Database, base: Version, id: Option<VersionId>, offset: nat, length: nat, ghost home: Home)
      returns (data: Bytes)
      requires Fills(base, db.objects) && CacheOk(cache, home, db.objects) && AtHome(base, home)
      requires id.Some? ==> Readable(base, id.value)
      requires offset < base.size && offset + length <= base.size
      modifies this`cache
      ensures |Image(base, db.objects, id)| == base.size
      ensures data == Image(base, db.objects, id)[offset..offset + length]
      ensures CacheOk(cache, home, db.objects)
    {
      var rows: map<nat, Row> := if id.Some? then cow[id.value] else map[];
      ghost var session := if id.Some? then id.value else 0;
      assert id.None? ==> Copied(session, rows, files) == map[];
      data, cache := ReadRange(base, db.objects, rows, files, cache, offset, length, session, home);
    }

    /** What the copy of a block starts from: its present copy, the base's data, or a full block of zeros. */
    method CopySource(db: Database, id: VersionId, i: nat, ghost base: Version) returns (whole: Bytes)
      requires CloneOf(db.versions, db.objects, base, id) && id in cow && Holding(base, id, cow[id], files, present)
      requires i < Count(base)
      ensures |whole| == CopySize(base, i) && SizeAt(base.size, base.blockSize, i) <= |whole|
      ensures Visible(whole, SizeAt(base.size, base.blockSize, i)) ==
              SessionBlock(base, db.objects, Copied(id, cow[id], files), i)
    {
      var v := db.versions[id];
      var block := BlockAt(v, i);
      BlockInside(base.size, base.blockSize, i);
      if i in cow[id] {
        whole := files[cow[id][i].uid.value];
        assert Copied(id, cow[id], files)[i] == whole;
      } else if block.uid.Some? {
        assert |DataAt(base, db.objects, i)| > 0;
        whole := db.objects[ObjectKey(v.storage, block.uid.value)];
      } else {
        whole := Zeros(v.blockSize);
      }
    }

    /** Stores a block's copy, and records the copy if it is the block's first. */
    method StoreBlock(id: VersionId, i: nat, block: Row, data: Bytes, ghost base: Version)
      requires id in cow && Holding(base, id, cow[id], files, present)
      requires i < Count(base) && |data| == CopySize(base, i)
      modifies this`cow, this`files, this`present
      ensures SameOthers(Contents(), old(Contents()), id)
      ensures id in cow && Holding(base, id, cow[id], files, present)
      ensures Copied(id, cow[id], files) == old(Copied(id, cow[id], files))[i := data]
    {
      var uid := BlockUid(id, i + 1);
      var entries: map<nat, Row> := cow[id];
      var row := if i in entries then entries[i] else block.(uid := Some(uid), checksum := None);
      KeepHolding(base, id, cow[id], files, present, i, row, data);
      files := files[uid := data];
      present := present + {uid};
      cow := cow[id := entries[i := row]];
    }

    /** Writes a piece of one block, copying the block first if that was not done before. */
    method WriteChunk(db: Database, id: VersionId, chunk: Chunk, piece: Bytes, ghost base: Version)
      requires CloneOf(db.versions, db.objects, base, id) && id in cow && Holding(base, id, cow[id], files, present)
      requires |piece| == chunk.length
      requires InBlock(chunk, base)
      modifies this`cow, this`files, this`present
      ensures SameOthers(Contents(), old(Contents()), id)
      ensures id in cow && Holding(base, id, cow[id], files, present)
      ensures var before, at := View(base, db.objects, old(Copied(id, cow[id], files))), Start(chunk, base.blockSize);
              && at + |piece| <= |before|
              && View(base, db.objects, Copied(id, cow[id], files)) == WriteAt(before, at, piece)
    {
      hide At, BlocksCount, Join, WellSized, Intact;
      var whole := CopySource(db, id, chunk.idx, base);
      ViewWrite(base, db.objects, Copied(id, cow[id], files), chunk.idx, whole, chunk.offset, piece);
      var patched := WriteAt(whole, chunk.offset, piece);
      StoreBlock(id, chunk.idx, BlockAt(db.versions[id], chunk.idx), patched, base);
    }

    method WriteChunks(db: Database, id: VersionId, chunks: seq<Chunk>, offset: nat, data: Bytes, ghost base: Version,
                       ghost before: Bytes)
      requires CloneOf(db.versions, db.objects, base, id) && id in cow && Holding(base, id, cow[id], files, present)
      requires offset + |data| <= |before| && before == View(base, db.objects, Copied(id, cow[id], files))
      requires Splits(chunks, base, offset, offset + |data|)
      modifies this`cow, this`files, this`present
      ensures SameOthers(Contents(), old(Contents()), id)
      ensures id in cow && Holding(base, id, cow[id], files, present)
      ensures View(base, db.objects, Copied(id, cow[id], files)) == WriteAt(before, offset, data)
    {
      hide CloneOf, Holding, View, Copied, WriteAt, Splits, InBlock, Start, SameOthers;
      SameOthersSelf(Contents(), id);
      var position := 0;
      WriteNothing(before, offset, data);
      assert chunks[0..] == chunks;
      for c := 0 to |chunks|
        invariant id in cow && Holding(base, id, cow[id], files, present)
        invariant SameOthers(Contents(), old(Contents()), id)
        invariant 0 <= position <= |data|
        invariant Splits(chunks[c..], base, offset + position, offset + |data|)
        invariant View(base, db.objects, Copied(id, cow[id], files)) == WriteAt(before, offset, data[..position])
      {
        NextChunk(chunks, base, c, offset + position, offset + |data|);
        var end := position + chunks[c].length;
        WriteMore(before, offset, data, position, end);
        ghost var middle := Contents();
        WriteChunk(db, id, chunks[c], data[position..end], base);
        SameOthersTwice(Contents(), middle, old(Contents()), id);
        position := end;
      }
      SplitsDone(chunks, base, offset + position, offset + |data|);
      assert data[..|data|] == data;
    }

    /** Writes a range inside the version: the same write on the session's byte array. */
    method Write(db: Database, id: VersionId, offset: nat, data: Bytes, ghost base: Version)
      requires CloneOf(db.versions, db.objects, base, id) && id in cow && Holding(base, id, cow[id], files, present)
      requires offset < base.size && offset + |data| <= base.size
      modifies this`cow, this`files, this`present
      ensures SameOthers(Contents(), old(Contents()), id)
      ensures id in cow && Holding(base, id, cow[id], files, present)
      ensures var before := View(base, db.objects, old(Copied(id, cow[id], files)));
              offset <= |before| && View(base, db.objects, Copied(id, cow[id], files)) == WriteAt(before, offset, data)
    {
      hide At, BlocksCount, Join, SizeAt, WriteAt;
      ghost var before := View(base, db.objects, Copied(id, cow[id], files));
      ViewShaped(base, db.objects, Copied(id, cow[id], files));
      var chunks := BlockList(db.versions[id], offset, |data|);
      SplitsSame(chunks, db.versions[id], base, offset, offset + |data|);
      WriteChunks(db, id, chunks, offset, data, base, before);
    }

    /**
     * Opens a copy-on-write session on a version: a clone of it, and nothing copied yet. Blocks of the
     * base that do not have the size that their index demands are lost.
     */
    method CreateCowVersion(db: Database, baseId: VersionId, id: VersionId) returns (r: Outcome)
      requires baseId in db.versions && HasData(db.versions[baseId], db.objects) && baseId != id
      requires FreshVersion(db.versions, db.objects, id)
      modifies this`cow, db`versions
      ensures r.Ok? <==> var base := old(db.versions)[baseId];
                         base.status.Valid? && base.storage == old(db.versions)[id].storage
      ensures r.Ok? ==> var base := old(db.versions)[baseId];
                        db.versions == old(db.versions)[id := Prepared(old(db.versions)[id], Some(base), base.size,
                            base.blockSize)]
      ensures r.Ok? ==> var base, v := old(db.versions)[baseId], db.versions[id];
                        && Session(db.versions, db.objects, v, id) && Count(v) == Count(base)
                        && Image(v, db.objects, Some(id)) == Content(v, db.objects)
                        && forall i :: 0 <= i < Count(base) ==>
                             DataAt(v, db.objects, i) == ClonedData(base, db.objects, i)
      ensures r.Ok? ==> var base := old(db.versions)[baseId];
                        WellSized(base) ==> Session(db.versions, db.objects, base, id)
                                            && Image(base, db.objects, Some(id)) == Content(base, db.objects)
      ensures r.Ok? ==> id in cow
      ensures !r.Ok? ==> cow == old(cow) && db.versions == old(db.versions)
      ensures forall other :: other in old(cow) && other != id ==> other in cow && cow[other] == old(cow)[other]
    {
      hide Restorable, View, Content, DataAt, BlocksCount, ClonedRows, SizeAt, HasData, WellSized, CloneOf, Holding,
        ClonedData, Copied, Intact;
      var base := db.versions[baseId];
      ghost var v := db.versions[id];
      r := UpdateVersion(db, id, Some(baseId), None, None, 10000);
      if r.Ok? {
        cow := cow[id := map[]];
        ClonedBlocks(v, base, db.objects);
        StartsSession(db.versions, db.objects, v, base, id, files, present);
      }
    }

    /**
     * Turns the session into a version of its own; the base and all other versions stay as they are.
     * A copy whose row cannot be set is lost, and the version becomes valid all the same.
     */
    method Fixate(db: Database, id: VersionId, hash: Hash, failing: set<nat>, ghost base: Version)
      requires CloneOf(db.versions, db.objects, base, id) && id in cow && Holding(base, id, cow[id], files, present)
      requires forall key :: key in db.objects ==> key.uid.left != id
      requires ZerosRecognised(Copied(id, cow[id], files), hash, base.blockSize)
      modifies this`cow, this`files, this`present, db`versions, db`objects
      ensures cow == old(cow) - {id} && SameOthers(Contents(), old(Contents()), id)
      ensures id in db.versions && db.versions == old(db.versions)[id := db.versions[id]]
      ensures db.versions[id] == old(db.versions)[id].(rows := db.versions[id].rows, status := Valid)
      ensures Extends(db.objects, old(db.objects))
      ensures FixedRows(db.versions[id], base, old(Copied(id, cow[id], files)) - failing, id, hash)
      ensures var copied := old(Copied(id, cow[id], files));
              var kept := copied - failing;
              && (WellSized(db.versions[id]) <==> !CopiesBareTail(base, kept))
              && (Content(db.versions[id], db.objects) == View(base, old(db.objects), kept) <==>
                    !CopiesBareTail(base, kept))
              && (Content(db.versions[id], db.objects) == View(base, old(db.objects), copied) <==>
                    !CopiesBareTail(base, kept) && SameAsBase(base, old(db.objects), copied, failing))
              && (!CopiesBareTail(base, kept) ==> Restorable(db.versions[id], db.objects))
    {
      hide BlocksCount, Restorable, Copies, Fixing, CloneOf, OnlyRows, ZerosRecognised, Holding, Unfixed,
        CopiesBareTail, FixedRows, Content, View, WellSized, SameAsBase;
      ghost var copied := Copied(id, cow[id], files);
      ghost var kept := copied - failing;
      StartFixing(db.versions, db.objects, base, id, kept, hash);
      StartUnfixed(cow[id], files, present, id, base);
      KeptFacts(base, copied, failing, hash);
      LostCopies(base, db.objects, copied, failing);
      files, present := FixateBlocks(db, id, cow[id], files, present, hash, failing, base, copied);
      FinishFixing(db.versions, db.objects, old(db.versions), base, old(db.objects), id, kept, hash);
      AllFixed(db.versions[id], db.objects, base, old(db.objects), id, kept, hash);
      db.versions := db.versions[id := db.versions[id].(status := Valid)];
      cow := cow - {id};
    }
  }

  /**
   * Fixates the copied blocks in any order, and drops each copy from the store. Where setting the
   * row fails the block's object is removed again, and the block stays that of the base.
   */
  method FixateBlocks(db: Database, id: VersionId, cow: map<nat, Row>, files: map<BlockUid, Bytes>,
                      present: set<BlockUid>, hash: Hash, failing: set<nat>, ghost base: Version,
                      ghost copied: map<nat, Bytes>)
    returns (filesLeft: map<BlockUid, Bytes>, presentLeft: set<BlockUid>)
    requires id in db.versions && Fixing(db.versions[id], db.objects, base, db.objects, id, copied - failing, hash, {})
    requires cow.Keys == copied.Keys && Unfixed(cow.Keys, cow, files, id, copied, base)
    requires ZerosRecognised(copied, hash, base.blockSize) && OnlyRows(db.versions, db.versions, id)
    modifies db`versions, db`objects
    ensures id in db.versions && OnlyRows(db.versions, old(db.versions), id)
    ensures Fixing(db.versions[id], db.objects, base, old(db.objects), id, copied - failing, hash,
                (copied - failing).Keys)
    ensures SameFiles(filesLeft, files, id) && forall uid: BlockUid :: uid.left != id ==>
              (uid in presentLeft <==> uid in present)
  {
    ghost var fixed: set<nat> := {};
    var rest := cow.Keys;
    filesLeft, presentLeft := files, present;
    hide Fixing, OnlyRows, ZerosRecognised, Unfixed;
    while rest != {}
      invariant id in db.versions && OnlyRows(db.versions, old(db.versions), id)
      invariant rest <= copied.Keys && fixed == copied.Keys - rest - failing
      invariant Fixing(db.versions[id], db.objects, base, old(db.objects), id, copied - failing, hash, fixed)
      invariant Unfixed(rest, cow, filesLeft, id, copied, base)
      invariant SameFiles(filesLeft, files, id) && forall uid: BlockUid :: uid.left != id ==>
                  (uid in presentLeft <==> uid in present)
      decreases rest
    {
      var i :| i in rest;
      NextUnfixed(rest, cow, filesLeft, id, copied, base, i);
      var uid := cow[i].uid.value;
      ghost var middle := db.versions;
      FixateBlock(db, id, i, filesLeft[uid], hash, i in failing, base, old(db.objects), copied, failing, fixed);
      OnlyRowsTwice(db.versions, middle, old(db.versions), id);
      filesLeft, presentLeft := filesLeft - {uid}, presentLeft - {uid};
      rest, fixed := rest - {i}, if i in failing then fixed else fixed + {i};
    }
    assert fixed == (copied - failing).Keys;
  }

  /** Stores one copied block and sets its row, or removes the object again if that fails. */
  method FixateBlock(db: Database, id: VersionId, i: nat, data: Bytes, hash: Hash, fails: bool, ghost base: Version,
                     ghost before: Objects, ghost copied: map<nat, Bytes>, ghost failing: set<nat>,
                     ghost fixed: set<nat>)
    requires id in db.versions && Fixing(db.versions[id], db.objects, base, before, id, copied - failing, hash, fixed)
    requires ZerosRecognised(copied, hash, base.blockSize) && (fails <==> i in failing)
    requires i in copied && data == copied[i] && i !in fixed && i < Count(base)
    modifies db`versions, db`objects
    ensures OnlyRows(db.versions, old(db.versions), id)
    ensures Fixing(db.versions[id], db.objects, base, before, id, copied - failing, hash,
                if fails then fixed else fixed + {i})
  {
    FixingFacts(db.versions[id], db.objects, base, before, id, copied - failing, hash, fixed);
    NotStored(db.versions[id], db.objects, base, before, id, copied - failing, hash, fixed, i);
    var uid := BlockUid(id, i + 1);
    var row := FixedRow(data, id, i, hash, db.versions[id].blockSize);
    ghost var more := if row.uid.None? then db.objects else db.objects[ObjectKey(base.storage, uid) := data];
    if !fails {
      FixBlock(db.versions[id], db.objects, base, before, id, copied - failing, hash, fixed, i, more);
    }
    hide Fixing;
    if row.uid.Some? {
      db.objects := db.objects[ObjectKey(db.versions[id].storage, uid) := data];
    }
    if fails {
      if row.uid.Some? {
        db.objects := db.objects - {ObjectKey(db.versions[id].storage, uid)};
      }
      assert db.objects == old(db.objects);
    } else {
      db.SetBlock(id, i, row);
    }
  }

  lemma {:induction false} NotStored(v: Version, objects: Objects, base: Version, before: Objects, id: VersionId,
                                     copied: map<nat, Bytes>, hash: Hash, fixed: set<nat>, i: nat)
    requires Fixing(v, objects, base, before, id, copied, hash, fixed) && i < Count(base) && i !in fixed
    ensures ObjectKey(base.storage, BlockUid(id, i + 1)) !in objects
  {
  }

  lemma {:induction false} KeptFacts(base: Version, copied: map<nat, Bytes>, failing: set<nat>, hash: Hash)
    ensures Copies(base, copied) ==> Copies(base, copied - failing)
    ensures ZerosRecognised(copied, hash, base.blockSize) ==> ZerosRecognised(copied - failing, hash, base.blockSize)
  {
  }

  /** The copies of these blocks hold what the base holds. */
  ghost predicate SameAsBase(base: Version, objects: Objects, copied: map<nat, Bytes>, blocks: set<nat>) {
    forall i :: i in blocks && i in copied ==> SessionBlock(base, objects, copied, i) == DataAt(base, objects, i)
  }

  /** Losing some copies leaves the image as it is if and only if they hold what the base holds. */
  lemma {:induction false} LostCopies(base: Version, objects: Objects, copied: map<nat, Bytes>, lost: set<nat>)
    requires Restorable(base, objects) && Copies(base, copied)
    ensures |View(base, objects, copied - lost)| == |View(base, objects, copied)| == base.size
    ensures View(base, objects, copied - lost) == View(base, objects, copied) <==>
            SameAsBase(base, objects, copied, lost)
  {
    var left := copied - lost;
    ViewShaped(base, objects, copied);
    ViewShaped(base, objects, left);
    JoinSame(SessionData(base, objects, left), SessionData(base, objects, copied), base.size, base.blockSize);
    SameBlocks(base, objects, copied, lost);
  }

  /** A version of one block, and its object. */
  function LoneBlock(data: Bytes): Version
    requires |data| > 0
  {
    Version(0, |data|, |data|, Valid, map[0 := Row(Some(BlockUid(1, 1)), Some(7), |data|, true)])
  }

  function LoneObject(data: Bytes): Objects {
    map[ObjectKey(0, BlockUid(1, 1)) := data]
  }

  /** A session that has overwritten the only block loses what it has written if the row cannot be set. */
  lemma {:induction false} LostCopyCase(data: Bytes, written: Bytes)
    requires |data| == |written| > 0 && data != written
    ensures var base, objects, copied := LoneBlock(data), LoneObject(data), map[0 := written];
            && Restorable(base, objects) && Copies(base, copied)
            && !CopiesBareTail(base, copied) && !SameAsBase(base, objects, copied, {0})
            && View(base, objects, copied - {0}) == data && View(base, objects, copied) == written
  {
    var base, objects, copied := LoneBlock(data), LoneObject(data), map[0 := written];
    assert Count(base) == 1 && SizeAt(base.size, base.blockSize, 0) == |data|;
    hide BlocksCount, SizeAt;
    assert DataAt(base, objects, 0) == data == data[..|data|] && written[..|data|] == written;
    assert SessionData(base, objects, copied) == [written] && SessionData(base, objects, copied - {0}) == [data];
    JoinOne(data);
    JoinOne(written);
  }

  lemma {:induction false} JoinOne(data: Bytes)
    ensures Join([data]) == data
  {
    assert [data][..0] == [] && Join([]) == [];
  }

  lemma {:induction false} SameBlocks(base: Version, objects: Objects, copied: map<nat, Bytes>, lost: set<nat>)
    requires Intact(base, objects) && forall i :: i in copied ==> i < Count(base)
    ensures SessionData(base, objects, copied - lost) == SessionData(base, objects, copied) <==>
            SameAsBase(base, objects, copied, lost)
  {
    hide BlocksCount, SizeAt, DataAt;
    assert forall i :: 0 <= i < Count(base) ==>
      Visible(DataAt(base, objects, i), SizeAt(base.size, base.blockSize, i)) == DataAt(base, objects, i);
    hide Visible;
    var a, b := SessionData(base, objects, copied - lost), SessionData(base, objects, copied);
    if a == b {
      forall i | i in lost && i in copied ensures SessionBlock(base, objects, copied, i) == DataAt(base, objects, i) {
        assert a[i] == b[i];
      }
    } else {
      var i :| 0 <= i < Count(base) && a[i] != b[i];
    }
  }

  lemma {:induction false} FinishFixing(versions: map<VersionId, Version>, objects: Objects,
                                        start: map<VersionId, Version>, base: Version, before: Objects, id: VersionId,
                                        copied: map<nat, Bytes>, hash: Hash)
    requires OnlyRows(versions, start, id) && Fixing(versions[id], objects, base, before, id, copied, hash, copied.Keys)
    requires ZerosRecognised(copied, hash, base.blockSize) && Restorable(base, before) && Copies(base, copied)
    ensures var w := versions[id].(status := Valid);
            && versions[id := w] == start[id := w] && Extends(objects, before)
            && w == start[id].(rows := w.rows, status := Valid)
            && (CopiesBareTail(base, copied) ==> |Content(w, objects)| != base.size)
            && (WellSized(w) <==> !CopiesBareTail(base, copied))
            && (!CopiesBareTail(base, copied) ==> Restorable(w, objects))
            && (Content(w, objects) == View(base, before, copied) <==> !CopiesBareTail(base, copied))
  {
    FixingFacts(versions[id], objects, base, before, id, copied, hash, copied.Keys);
    FixedContent(versions[id].(status := Valid), objects, base, before, id, copied, hash);
  }

  /** What a clone of the same size has of a block: its data, or zeros if its size was not the proper one. */
  function ClonedData(base: Version, objects: Objects, i: nat): Bytes {
    var n := SizeAt(base.size, base.blockSize, i);
    if BlockAt(base, i).size == n then DataAt(base, objects, i) else Zeros(Max(n, 0))
  }

  /** A clone is a session's version, of itself and of a well-sized base, with nothing copied. */
  lemma {:induction false} StartsSession(versions: map<VersionId, Version>, objects: Objects, v: Version, base: Version,
                                         id: VersionId, files: map<BlockUid, Bytes>, present: set<BlockUid>)
    requires id in versions && versions[id] == Prepared(v, Some(base), base.size, base.blockSize)
    requires Restorable(versions[id], objects) && v.storage == base.storage
    requires WellSized(base) ==> Restorable(base, objects) && Intact(base, objects)
    requires Intact(versions[id], objects)
    ensures CloneOf(versions, objects, versions[id], id) && (WellSized(base) ==> CloneOf(versions, objects, base, id))
    ensures Holding(versions[id], id, map[], files, present) && Holding(base, id, map[], files, present)
    ensures Copied(id, map[], files) == map[]
    ensures View(versions[id], objects, map[]) == Content(versions[id], objects)
    ensures WellSized(base) ==> View(base, objects, map[]) == Content(base, objects)
  {
    hide View, Content, DataAt, BlocksCount, ClonedRows, SizeAt, BlockAt, Intact;
    ContentIsView(versions[id], objects);
    if WellSized(base) {
      ContentIsView(base, objects);
      SameSizeClone(v, base);
    }
  }

  /** Blocks that the clone lost, and the session has not copied, are zeros in the part that lies inside the image. */
  ghost predicate NothingLost(base: Version, objects: Objects, copied: map<nat, Bytes>) {
    forall i :: 0 <= i < Count(base) && i !in copied ==>
      var n := SizeAt(base.size, base.blockSize, i);
      BlockAt(base, i).size != n ==> AllZero(Visible(DataAt(base, objects, i), n))
  }

  /**
   * A session reads uncopied blocks from its base, but copies, and keeps when it is fixated, those of the
   * clone. The image that it reads is the one that it keeps if and only if the clone has lost nothing.
   */
  lemma {:induction false} ReadsWhatItKeepsIff(v: Version, base: Version, objects: Objects, copied: map<nat, Bytes>)
    requires Fills(base, objects) && Restorable(v, objects) && Copies(v, copied)
    requires v.size == base.size && v.blockSize == base.blockSize
    requires forall i :: 0 <= i < Count(base) ==> DataAt(v, objects, i) == ClonedData(base, objects, i)
    ensures |View(base, objects, copied)| == |View(v, objects, copied)| == base.size
    ensures View(base, objects, copied) == View(v, objects, copied) <==> NothingLost(base, objects, copied)
  {
    SessionReads(v, objects, copied);
    assert CopiesReach(base, copied);
    ReadShaped(base, objects, copied);
    ViewShaped(v, objects, copied);
    JoinSame(SessionData(base, objects, copied), SessionData(v, objects, copied), base.size, base.blockSize);
    hide BlocksCount, Restorable, Copies, CopiesReach, View, SessionBlock, SizeAt, BlockAt, DataAt;
    forall i | 0 <= i < Count(base)
      ensures SessionBlock(base, objects, copied, i) == SessionBlock(v, objects, copied, i) <==>
              (i !in copied && BlockAt(base, i).size != SizeAt(base.size, base.blockSize, i) ==>
                 AllZero(Visible(DataAt(base, objects, i), SizeAt(base.size, base.blockSize, i))))
    {
      KeptBlockIff(v, base, objects, copied, i);
    }
    SameBlockwise(v, base, objects, copied);
  }

  lemma {:induction false} SameBlockwise(v: Version, base: Version, objects: Objects, copied: map<nat, Bytes>)
    requires Count(v) == Count(base)
    ensures SessionData(base, objects, copied) == SessionData(v, objects, copied) <==>
            forall i :: 0 <= i < Count(base) ==>
              SessionBlock(base, objects, copied, i) == SessionBlock(v, objects, copied, i)
  {
    hide SessionBlock, BlocksCount;
    var a, b := SessionData(base, objects, copied), SessionData(v, objects, copied);
    if a == b {
      forall i | 0 <= i < Count(base)
        ensures SessionBlock(base, objects, copied, i) == SessionBlock(v, objects, copied, i)
      {
        assert a[i] == b[i];
      }
    }
  }

  lemma {:induction false} KeptBlockIff(v: Version, base: Version, objects: Objects, copied: map<nat, Bytes>, i: nat)
    requires Fills(base, objects) && i < Count(base) && DataAt(v, objects, i) == ClonedData(base, objects, i)
    requires v.size == base.size && v.blockSize == base.blockSize
    ensures SessionBlock(base, objects, copied, i) == SessionBlock(v, objects, copied, i) <==>
            (i !in copied && BlockAt(base, i).size != SizeAt(base.size, base.blockSize, i) ==>
               AllZero(Visible(DataAt(base, objects, i), SizeAt(base.size, base.blockSize, i))))
  {
    hide DataAt;
    BlockInside(base.size, base.blockSize, i);
    var n := SizeAt(base.size, base.blockSize, i);
    var data := Visible(DataAt(base, objects, i), n);
    assert |data| == n && Visible(Zeros(n), n) == Zeros(n);
    hide BlocksCount, SizeAt;
    assert AllZero(data) <==> data == Zeros(n);
  }

  lemma {:induction false} ClonedBlocks(v: Version, base: Version, objects: Objects)
    requires HasData(base, objects) && v.storage == base.storage
    ensures var w := Prepared(v, Some(base), base.size, base.blockSize);
            && Restorable(w, objects) && Intact(w, objects)
            && (WellSized(base) ==> Restorable(base, objects) && Intact(base, objects))
            && forall i :: 0 <= i < Count(base) ==> DataAt(w, objects, i) == ClonedData(base, objects, i)
  {
    hide BlocksCount, ClonedRows;
    var w := Prepared(v, Some(base), base.size, base.blockSize);
    PreparedWellSized(v, Some(base), base.size, base.blockSize);
    forall i | 0 <= i < Count(base)
      ensures DataAt(w, objects, i) == ClonedData(base, objects, i)
      ensures |DataAt(w, objects, i)| == SizeAt(base.size, base.blockSize, i)
    {
      PreparedBlock(v, Some(base), base.size, base.blockSize, i);
      BlockInside(base.size, base.blockSize, i);
    }
  }

  lemma {:induction false} SameSizeClone(v: Version, base: Version)
    requires WellSized(base)
    ensures var w := Prepared(v, Some(base), base.size, base.blockSize);
            forall i :: 0 <= i < Count(base) ==> BlockAt(w, i) == BlockAt(base, i)
  {
    forall i | 0 <= i < Count(base)
      ensures BlockAt(Prepared(v, Some(base), base.size, base.blockSize), i) == BlockAt(base, i)
    {
      PreparedBlock(v, Some(base), base.size, base.blockSize, i);
    }
  }

  lemma {:induction false} WriteNothing(image: Bytes, offset: nat, data: Bytes)
    requires offset <= |image|
    ensures WriteAt(image, offset, data[..0]) == image
  {
  }

  lemma {:induction false} WriteMore(image: Bytes, offset: nat, data: Bytes, position: nat, end: nat)
    requires position <= end <= |data| && offset + |data| <= |image|
    ensures WriteAt(WriteAt(image, offset, data[..position]), offset + position, data[position..end]) ==
              WriteAt(image, offset, data[..end])
  {
    WriteTwice(image, offset, data[..position], data[position..end]);
    assert data[..position] + data[position..end] == data[..end];
  }
}
