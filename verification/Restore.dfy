/** The target of a restore, whatever the order in which writes complete. */
module Restore {
  import opened Arithmetic
  import opened Images
  import opened Tables
  import opened Clone

  /** The file or image that is written to; writing past its end extends it. */
  class Target {
    var image: Bytes

    constructor (image: Bytes)
      ensures this.image == image
    {
      this.image := image;
    }

    method Write(offset: nat, data: Bytes)
      requires offset <= |image|
      modifies this
      ensures image == WriteAt(old(image), offset, data)
    {
      var end := offset + |data|;
      image := image[..offset] + data + if end <= |image| then image[end..] else [];
    }
  }

  /** What is written for each block. */
  type Output = nat -> Bytes

  /** No block is written with more bytes than a block has. */
  ghost predicate Fitting(v: Version, out: Output) {
    forall i :: 0 <= i < Count(v) ==> |out(i)| <= v.blockSize
  }

  function EndOf(v: Version, out: Output, i: nat): nat {
    At(i, v.blockSize) + |out(i)|
  }

  /** The byte that the block's write puts at position `k`. */
  function WrittenByte(v: Version, out: Output, k: nat): Byte {
    var i := BlockOf(k, v.blockSize);
    var j := k - At(i, v.blockSize);
    if 0 <= j < |out(i)| then out(i)[j] else 0
  }

  predicate Covers(v: Version, out: Output, written: set<nat>, k: nat) {
    var i := BlockOf(k, v.blockSize);
    i in written && At(i, v.blockSize) <= k < EndOf(v, out, i)
  }

  /** The value of position `k` once some blocks have been written. */
  function Expected(before: Bytes, v: Version, out: Output, written: set<nat>, k: nat): Byte {
    if Covers(v, out, written, k) then WrittenByte(v, out, k)
    else if k < |before| then before[k] else 0
  }

  /** The target holds the written blocks and is as before elsewhere. */
  ghost predicate Holds(image: Bytes, before: Bytes, v: Version, out: Output, written: set<nat>) {
    && |before| <= |image|
    && (forall k :: |before| <= k < |image| ==> Covers(v, out, written, k))
    && (forall i :: i in written ==> i < Count(v) && EndOf(v, out, i) <= |image|)
    && (forall k :: 0 <= k < |image| ==> image[k] == Expected(before, v, out, written, k))
  }

  /** So it does, unless data that is too long has spilled into the next block. */
  ghost predicate HoldsFitting(image: Bytes, before: Bytes, v: Version, out: Output, written: set<nat>) {
    |before| <= |image| && (Fitting(v, out) ==> Holds(image, before, v, out, written))
  }

  /** The versions that can be restored: well-sized, and with all their objects. */
  ghost predicate Restorable(v: Version, objects: Objects) {
    WellSized(v) && Intact(v, objects)
  }

  /** Positions of a block's write lie in that block. */
  lemma {:induction false} WriteRange(v: Version, out: Output, i: nat, k: nat)
    requires Fitting(v, out) && i < Count(v)
    ensures At(i, v.blockSize) <= k < EndOf(v, out, i) ==> BlockOf(k, v.blockSize) == i
  {
    if At(i, v.blockSize) <= k < EndOf(v, out, i) {
      BlockOfUnique(k, v.blockSize, i);
    }
  }

  lemma {:induction false} CoversMore(v: Version, out: Output, written: set<nat>, i: nat, k: nat)
    requires Fitting(v, out) && i < Count(v)
    ensures Covers(v, out, written + {i}, k) <==>
            Covers(v, out, written, k) || At(i, v.blockSize) <= k < EndOf(v, out, i)
    ensures At(i, v.blockSize) <= k < EndOf(v, out, i) ==> WrittenByte(v, out, k) == out(i)[k - At(i, v.blockSize)]
  {
    WriteRange(v, out, i, k);
  }

  lemma {:induction false} WriteByte(image: Bytes, before: Bytes, v: Version, out: Output, written: set<nat>, i: nat,
                                     k: nat)
    requires Holds(image, before, v, out, written) && Fitting(v, out)
    requires i < Count(v) && At(i, v.blockSize) <= |image|
    requires k < |WriteAt(image, At(i, v.blockSize), out(i))|
    ensures |before| <= k ==> Covers(v, out, written + {i}, k)
    ensures WriteAt(image, At(i, v.blockSize), out(i))[k] == Expected(before, v, out, written + {i}, k)
  {
    CoversMore(v, out, written, i, k);
    WriteAtByte(image, At(i, v.blockSize), out(i), k);
    hide Covers, WrittenByte, WriteAt;
  }

  lemma {:induction false} WriteBlock(image: Bytes, before: Bytes, v: Version, out: Output, written: set<nat>, i: nat)
    requires Holds(image, before, v, out, written) && Fitting(v, out)
    requires i < Count(v) && At(i, v.blockSize) <= |image|
    ensures Holds(WriteAt(image, At(i, v.blockSize), out(i)), before, v, out, written + {i})
  {
    var r := WriteAt(image, At(i, v.blockSize), out(i));
    forall k | 0 <= k < |r|
      ensures |before| <= k ==> Covers(v, out, written + {i}, k)
      ensures r[k] == Expected(before, v, out, written + {i}, k)
    {
      WriteByte(image, before, v, out, written, i, k);
    }
    hide Covers, Expected, Fitting;
  }

  lemma {:induction false} WriteOne(image: Bytes, before: Bytes, v: Version, out: Output, written: set<nat>, i: nat)
    requires HoldsFitting(image, before, v, out, written) && i < Count(v) && v.size <= |before|
    ensures At(i, v.blockSize) <= |image|
    ensures HoldsFitting(WriteAt(image, At(i, v.blockSize), out(i)), before, v, out, written + {i})
  {
    BlockInside(v.size, v.blockSize, i);
    hide Holds, Fitting, BlocksCount;
    if Fitting(v, out) {
      WriteBlock(image, before, v, out, written, i);
    }
  }

  /** Completes queued block writes in any order: all of them, or as many as happen to be done. */
  method CompleteWrites(target: Target, v: Version, queue: map<nat, Bytes>, all: bool, ghost out: Output,
                        ghost before: Bytes, ghost written: set<nat>)
    returns (rest: map<nat, Bytes>, ghost more: set<nat>)
    requires HoldsFitting(target.image, before, v, out, written) && v.size <= |before|
    requires forall i :: i in queue ==> i < Count(v) && queue[i] == out(i)
    modifies target
    ensures HoldsFitting(target.image, before, v, out, more)
    ensures more + rest.Keys == written + queue.Keys && (all ==> rest == map[])
    ensures forall i :: i in rest ==> i in queue && rest[i] == queue[i]
  {
    hide HoldsFitting, BlocksCount;
    rest, more := queue, written;
    while rest != map[]
      invariant HoldsFitting(target.image, before, v, out, more)
      invariant more + rest.Keys == written + queue.Keys
      invariant forall i :: i in rest ==> i in queue && rest[i] == queue[i]
      decreases rest.Keys
    {
      var enough := *;
      if !all && enough { break; }
      var i :| i in rest;
      WriteOne(target.image, before, v, out, more, i);
      AtIsProduct(i, v.blockSize);
      target.Write(i * v.blockSize, rest[i]);
      rest, more := rest - {i}, more + {i};
    }
  }

  /** A block without uid is written as a full block of zeros, whatever its size. */
  ghost predicate ZerosOut(v: Version, out: Output) {
    forall i :: 0 <= i < Count(v) && BlockAt(v, i).uid.None? ==> out(i) == Zeros(v.blockSize)
  }

  lemma {:induction false} NothingWritten(image: Bytes, v: Version, out: Output)
    ensures HoldsFitting(image, image, v, out, {})
  {
  }

  /** Queues the reads; blocks without uid are written as zeros unless the restore is sparse. */
  method WriteSparseBlocks(target: Target, v: Version, sparse: bool, ghost out: Output)
    returns (unread: set<nat>, ghost written: set<nat>)
    requires v.size <= |target.image| && ZerosOut(v, out)
    modifies target
    ensures HoldsFitting(target.image, old(target.image), v, out, written)
    ensures forall i :: i in unread <==> 0 <= i < Count(v) && BlockAt(v, i).uid.Some?
    ensures forall i :: i in written <==> 0 <= i < Count(v) && BlockAt(v, i).uid.None? && !sparse
  {
    unread, written := {}, {};
    NothingWritten(target.image, v, out);
    var queue: map<nat, Bytes> := map[];
    var blocks := VersionTable.Blocks(v, 10000);
    hide HoldsFitting, BlocksCount;
    for n := 0 to |blocks|
      invariant HoldsFitting(target.image, old(target.image), v, out, written)
      invariant forall i :: i in unread <==> 0 <= i < n && BlockAt(v, i).uid.Some?
      invariant forall i :: i in written + queue.Keys <==> 0 <= i < n && BlockAt(v, i).uid.None? && !sparse
      invariant forall i :: i in queue ==> i < Count(v) && queue[i] == out(i)
    {
      if blocks[n].1.uid.Some? {
        unread := unread + {n};
      } else if !sparse {
        queue := queue[n := Zeros(v.blockSize)];
      }
      if !sparse {
        queue, written := CompleteWrites(target, v, queue, false, out, old(target.image), written);
      }
    }
    queue, written := CompleteWrites(target, v, queue, true, out, old(target.image), written);
  }

  // ---------------------------------------------------------------- what the target then holds

  /** A block that was written holds that data, one that was not is as before. */
  lemma {:induction false} TargetBlock(image: Bytes, before: Bytes, v: Version, out: Output, written: set<nat>, i: nat)
    requires Holds(image, before, v, out, written) && Fitting(v, out) && i < Count(v) && v.size <= |before|
    ensures 0 < SizeAt(v.size, v.blockSize, i) && At(i, v.blockSize) + SizeAt(v.size, v.blockSize, i) <= v.size
    ensures i in written ==> EndOf(v, out, i) <= |image| && image[At(i, v.blockSize)..EndOf(v, out, i)] == out(i)
    ensures var end := At(i, v.blockSize) + SizeAt(v.size, v.blockSize, i);
            i !in written ==> image[At(i, v.blockSize)..end] == before[At(i, v.blockSize)..end]
  {
    BlockInside(v.size, v.blockSize, i);
    hide BlocksCount;
    var at, end := At(i, v.blockSize), At(i, v.blockSize) + SizeAt(v.size, v.blockSize, i);
    if i in written {
      forall k | at <= k < EndOf(v, out, i) ensures image[k] == out(i)[k - at] {
        WriteRange(v, out, i, k);
      }
    } else {
      forall k | at <= k < end ensures image[k] == before[k] {
        BlockOfUnique(k, v.blockSize, i);
      }
    }
  }

  /** A block that has no uid although it is shorter than the block size. */
  ghost predicate HasBareTail(v: Version) {
    exists i :: 0 <= i < Count(v) && SizeAt(v.size, v.blockSize, i) != v.blockSize && BlockAt(v, i).uid.None?
  }

  ghost predicate AllBlocks(v: Version, written: set<nat>, sparse: bool) {
    forall i :: i in written <==> 0 <= i < Count(v) && (BlockAt(v, i).uid.Some? || !sparse)
  }

  /** All blocks with a uid are written with their data. */
  ghost predicate DataOut(v: Version, objects: Objects, out: Output) {
    && ZerosOut(v, out)
    && forall i :: 0 <= i < Count(v) && BlockAt(v, i).uid.Some? ==> out(i) == DataAt(v, objects, i)
  }

  lemma {:induction false} WrittenSize(v: Version, objects: Objects, out: Output, i: nat)
    requires Fills(v, objects) && DataOut(v, objects, out) && i < Count(v)
    ensures out(i) == if BlockAt(v, i).uid.None? then Zeros(v.blockSize) else DataAt(v, objects, i)
    ensures 0 < SizeAt(v.size, v.blockSize, i) <= |out(i)| <= v.blockSize
    ensures SizeAt(v.size, v.blockSize, i) <= |DataAt(v, objects, i)|
  {
    BlockInside(v.size, v.blockSize, i);
  }

  lemma {:induction false} DataFits(v: Version, objects: Objects, out: Output)
    requires Fills(v, objects) && DataOut(v, objects, out)
    ensures Fitting(v, out)
  {
    hide BlocksCount, Fills, DataOut;
    forall i | 0 <= i < Count(v) ensures |out(i)| <= v.blockSize {
      WrittenSize(v, objects, out, i);
    }
  }

  lemma {:induction false} RestoredByte(image: Bytes, before: Bytes, v: Version, objects: Objects, out: Output,
                                        written: set<nat>, sparse: bool, k: nat)
    requires Holds(image, before, v, out, written) && AllBlocks(v, written, sparse)
    requires Fills(v, objects) && DataOut(v, objects, out)
    requires v.size <= |before| && k < v.size
    requires !sparse || before[k] == 0
    ensures k < |Content(v, objects)| && image[k] == Content(v, objects)[k]
  {
    var i := BlockOf(k, v.blockSize);
    PositionInside(v.size, v.blockSize, k);
    WrittenSize(v, objects, out, i);
    FilledByte(v, objects, i, k - At(i, v.blockSize));
    hide BlocksCount, Content, Fills, SizeAt;
  }

  /** A position past the end that lies in a block lies in the last one, which the end lies in as well. */
  lemma {:induction false} PastEnd(size: nat, blockSize: Pos, k: nat)
    requires size <= k && BlockOf(k, blockSize) < BlocksCount(size, blockSize)
    ensures BlockOf(k, blockSize) == BlocksCount(size, blockSize) - 1
  {
    var i, n := BlockOf(k, blockSize), BlocksCount(size, blockSize);
    BlockOfBounds(k, blockSize);
    BlockInside(size, blockSize, i);
  }

  lemma {:induction false} LastBlock(size: nat, blockSize: Pos)
    requires BlocksCount(size, blockSize) > 0
    ensures var i := BlocksCount(size, blockSize) - 1;
            At(i, blockSize) + SizeAt(size, blockSize, i) == size && 0 < SizeAt(size, blockSize, i) <= blockSize
  {
    BlockInside(size, blockSize, BlocksCount(size, blockSize) - 1);
    CountBounds(size, blockSize);
  }

  /** What the write of the last block, if there is one, puts beyond the version's end. */
  function Tail(v: Version, objects: Objects, sparse: bool): Bytes {
    if Count(v) == 0 || (sparse && BlockAt(v, Count(v) - 1).uid.None?) then [] else
      var i := Count(v) - 1;
      Past(if BlockAt(v, i).uid.None? then Zeros(v.blockSize) else DataAt(v, objects, i),
           SizeAt(v.size, v.blockSize, i))
  }

  function Past(data: Bytes, size: int): Bytes {
    if 0 <= size <= |data| then data[size..] else []
  }

  /** The target beyond the version's end: the tail, and what was there before. */
  ghost predicate TailAfter(image: Bytes, before: Bytes, v: Version, tail: Bytes) {
    && |image| == Max(|before|, v.size + |tail|)
    && forall k :: v.size <= k < |image| ==>
         image[k] == if k < v.size + |tail| then tail[k - v.size] else if k < |before| then before[k] else 0
  }

  /** Beyond the version only the last block's write can reach. */
  lemma {:induction false} TailByte(v: Version, objects: Objects, out: Output, written: set<nat>, sparse: bool, k: nat)
    requires Fills(v, objects) && DataOut(v, objects, out) && AllBlocks(v, written, sparse) && v.size <= k
    ensures Covers(v, out, written, k) <==> k < v.size + |Tail(v, objects, sparse)|
    ensures Covers(v, out, written, k) ==> WrittenByte(v, out, k) == Tail(v, objects, sparse)[k - v.size]
  {
    hide BlocksCount, Fills, DataOut, DataAt, SizeAt;
    BlockOfBounds(k, v.blockSize);
    if Covers(v, out, written, k) {
      PastEnd(v.size, v.blockSize, k);
    }
    if Count(v) > 0 {
      var i := Count(v) - 1;
      LastBlock(v.size, v.blockSize);
      WrittenSize(v, objects, out, i);
      if k < v.size + |Tail(v, objects, sparse)| {
        BlockOfUnique(k, v.blockSize, i);
      }
    }
  }

  lemma {:induction false} RestoredTail(image: Bytes, before: Bytes, v: Version, objects: Objects, out: Output,
                                        written: set<nat>, sparse: bool)
    requires Holds(image, before, v, out, written) && AllBlocks(v, written, sparse)
    requires Fills(v, objects) && DataOut(v, objects, out)
    requires v.size <= |before|
    ensures TailAfter(image, before, v, Tail(v, objects, sparse))
  {
    hide BlocksCount, Fills, DataOut, Tail;
    var tail := Tail(v, objects, sparse);
    forall k | v.size <= k < |image|
      ensures Covers(v, out, written, k) <==> k < v.size + |tail|
      ensures Covers(v, out, written, k) ==> image[k] == tail[k - v.size]
      ensures !Covers(v, out, written, k) ==> k < |before| && image[k] == before[k]
    {
      TailByte(v, objects, out, written, sparse, k);
    }
    if tail != [] {
      TailEnd(v, objects, out, written, sparse);
    }
    if |before| < |image| {
      assert Covers(v, out, written, |image| - 1);
    }
  }

  lemma {:induction false} TailEnd(v: Version, objects: Objects, out: Output, written: set<nat>, sparse: bool)
    requires Fills(v, objects) && DataOut(v, objects, out) && AllBlocks(v, written, sparse)
    requires Tail(v, objects, sparse) != []
    ensures Count(v) > 0 && Count(v) - 1 in written
    ensures EndOf(v, out, Count(v) - 1) == v.size + |Tail(v, objects, sparse)|
  {
    hide BlocksCount, Fills, DataOut, DataAt, SizeAt;
    LastBlock(v.size, v.blockSize);
    WrittenSize(v, objects, out, Count(v) - 1);
  }

  /** If every block's data is written, the target starts with the content, and the rest is the tail. */
  lemma {:induction false} RestoredContent(image: Bytes, before: Bytes, v: Version, objects: Objects, out: Output,
                                           written: set<nat>, sparse: bool)
    requires HoldsFitting(image, before, v, out, written) && AllBlocks(v, written, sparse)
    requires Fills(v, objects) && DataOut(v, objects, out) && v.size <= |before|
    ensures v.size <= |image| && v.size <= |Content(v, objects)|
    ensures !sparse || AllZero(before[..v.size]) ==> image[..v.size] == Content(v, objects)[..v.size]
    ensures TailAfter(image, before, v, Tail(v, objects, sparse))
  {
    DataFits(v, objects, out);
    FilledLength(v, objects);
    RestoredTail(image, before, v, objects, out, written, sparse);
    hide Holds, BlocksCount, TailAfter, AllBlocks, Fills, DataOut, Tail, Content;
    forall k | 0 <= k < v.size && (!sparse || AllZero(before[..v.size])) ensures image[k] == Content(v, objects)[k] {
      assert before[..v.size][k] == before[k];
      RestoredByte(image, before, v, objects, out, written, sparse, k);
    }
  }

  lemma {:induction false} BareTailIsLast(v: Version)
    ensures HasBareTail(v) <==>
              Count(v) > 0 && SizeAt(v.size, v.blockSize, Count(v) - 1) != v.blockSize
              && BlockAt(v, Count(v) - 1).uid.None?
  {
    hide BlockAt;
    forall k | 0 <= k < Count(v) && SizeAt(v.size, v.blockSize, k) != v.blockSize ensures k == Count(v) - 1 {
      BlockInside(v.size, v.blockSize, k);
    }
  }

  /** Of a well-sized version the content is the image, and only a short last block without uid has a tail, of zeros. */
  lemma {:induction false} SizedTail(v: Version, objects: Objects)
    requires Restorable(v, objects)
    ensures Fills(v, objects) && |Content(v, objects)| == v.size <= At(Count(v), v.blockSize)
    ensures Tail(v, objects, true) == []
    ensures Tail(v, objects, false) == if HasBareTail(v) then Zeros(At(Count(v), v.blockSize) - v.size) else []
  {
    DataShaped(v, objects);
    CountBounds(v.size, v.blockSize);
    BareTailIsLast(v);
    hide HasBareTail, Content;
    if Count(v) > 0 {
      var i := Count(v) - 1;
      LastBlock(v.size, v.blockSize);
      assert At(i + 1, v.blockSize) == At(i, v.blockSize) + v.blockSize;
      assert |DataAt(v, objects, i)| == SizeAt(v.size, v.blockSize, i);
      hide BlocksCount, SizeAt, At, WellSized, Intact, DataAt;
    }
  }

  // ---------------------------------------------------------------- a short last block without uid

  /**
   * A version that has only been prepared, without a base, has a short last block without uid unless
   * blocks make up its size, and can be restored.
   */
  lemma {:induction false} PreparedHasBareTail(v: Version, size: nat, blockSize: Pos, objects: Objects)
    ensures var w := Prepared(v, None, size, blockSize);
            Restorable(w, objects) && (HasBareTail(w) <==> size != At(BlocksCount(size, blockSize), blockSize))
  {
    var w := Prepared(v, None, size, blockSize);
    PreparedWellSized(v, None, size, blockSize);
    CountBounds(size, blockSize);
    hide BlocksCount;
    var n := BlocksCount(size, blockSize);
    forall i: nat | i < n ensures BlockAt(w, i).uid.None? && SizeAt(size, blockSize, i) >= 0 {
      PreparedBlock(v, None, size, blockSize, i);
      BlockInside(size, blockSize, i);
    }
    if n > 0 {
      BlockInside(size, blockSize, n - 1);
      assert BlockAt(w, n - 1).uid.None?;
    }
    forall i: nat | i < n && SizeAt(size, blockSize, i) != blockSize ensures size != At(n, blockSize) {
      BlockInside(size, blockSize, i);
    }
  }

  /** Restoring such a version overwrites, or adds, the byte that follows the version with zero. */
  lemma {:induction false} BareTailOverwrites(image: Bytes, before: Bytes, v: Version, objects: Objects)
    requires Restorable(v, objects) && HasBareTail(v) && TailAfter(image, before, v, Tail(v, objects, false))
    ensures v.size < |image| && image[v.size] == 0
  {
    hide Tail, Restorable;
    SizedTail(v, objects);
    var i :| 0 <= i < Count(v) && SizeAt(v.size, v.blockSize, i) != v.blockSize && BlockAt(v, i).uid.None?;
    BlockInside(v.size, v.blockSize, i);
    CountBounds(v.size, v.blockSize);
  }
}
