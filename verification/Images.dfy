/** Images and the blocks they are cut into. */
module Images {
  import opened Arithmetic

  type Byte = b: nat | b < 256
  type Bytes = seq<Byte>

  function Zeros(n: nat): Bytes {
    seq(n, _ => 0)
  }

  predicate AllZero(data: Bytes) {
    forall j :: 0 <= j < |data| ==> data[j] == 0
  }

  // ---------------------------------------------------------------- geometry

  /** The number of blocks: the quotient of the sizes, rounded up. */
  function BlocksCount(size: nat, blockSize: Pos): nat {
    if size == 0 then 0 else if size <= blockSize then 1 else 1 + BlocksCount(size - blockSize, blockSize)
  }

  /** The size that block `i` of an image of `size` bytes has. */
  function SizeAt(size: nat, blockSize: Pos, i: nat): int {
    Min(blockSize, size - At(i, blockSize))
  }

  lemma {:induction false} CountBounds(size: nat, blockSize: Pos)
    ensures size <= At(BlocksCount(size, blockSize), blockSize) < size + blockSize
  {
    if size > blockSize {
      CountBounds(size - blockSize, blockSize);
    }
  }

  lemma {:induction false} BlocksCountIsCeiling(size: nat, blockSize: Pos)
    ensures BlocksCount(size, blockSize) == (size + blockSize - 1) / blockSize
  {
    CountBounds(size, blockSize);
    AtIsProduct(BlocksCount(size, blockSize), blockSize);
    DivUnique(size + blockSize - 1, blockSize, BlocksCount(size, blockSize));
  }

  /** Block indexes are exactly the `i` whose first byte lies in the image; each block is non-empty. */
  lemma {:induction false} BlockInside(size: nat, blockSize: Pos, i: nat)
    ensures i < BlocksCount(size, blockSize) <==> At(i, blockSize) < size
    ensures i < BlocksCount(size, blockSize) ==> 0 < SizeAt(size, blockSize, i) <= blockSize
    ensures i + 1 < BlocksCount(size, blockSize) ==> SizeAt(size, blockSize, i) == blockSize
  {
    var n := BlocksCount(size, blockSize);
    CountBounds(size, blockSize);
    if i < n { AtMono(i, n, blockSize); } else { AtMono(n, i, blockSize); }
    if i + 1 < n { AtMono(i + 1, n, blockSize); }
  }

  lemma {:induction false} FullCount(n: nat, blockSize: Pos)
    ensures BlocksCount(At(n, blockSize), blockSize) == n
  {
    if n > 0 {
      FullCount(n - 1, blockSize);
    }
  }

  /** Every byte position lies in exactly one block, at an offset below that block's size. */
  lemma {:induction false} PositionInside(size: nat, blockSize: Pos, k: nat)
    requires k < size
    ensures var i := BlockOf(k, blockSize);
            i < BlocksCount(size, blockSize) && 0 <= k - At(i, blockSize) < SizeAt(size, blockSize, i)
  {
    BlockOfBounds(k, blockSize);
    BlockInside(size, blockSize, BlockOf(k, blockSize));
  }

  // ---------------------------------------------------------------- cutting and joining

  /** Block `i` of an image. */
  function Slice(image: Bytes, blockSize: Pos, i: nat): (data: Bytes)
    requires i < BlocksCount(|image|, blockSize)
    ensures |data| == SizeAt(|image|, blockSize, i)
  {
    BlockInside(|image|, blockSize, i);
    image[At(i, blockSize)..At(i, blockSize) + SizeAt(|image|, blockSize, i)]
  }

  /** Two images are equal when all their blocks are. */
  lemma {:induction false} ImagesEqual(a: Bytes, b: Bytes, blockSize: Pos)
    requires |a| == |b|
    requires forall i :: 0 <= i < BlocksCount(|a|, blockSize) ==> Slice(a, blockSize, i) == Slice(b, blockSize, i)
    ensures a == b
  {
    forall k | 0 <= k < |a|
      ensures a[k] == b[k]
    {
      PositionInside(|a|, blockSize, k);
      var i := BlockOf(k, blockSize);
      assert a[k] == Slice(a, blockSize, i)[k - At(i, blockSize)];
      assert b[k] == Slice(b, blockSize, i)[k - At(i, blockSize)];
    }
  }

  /** The image that a sequence of blocks makes up. */
  function Join(blocks: seq<Bytes>): Bytes {
    if blocks == [] then [] else Join(blocks[..|blocks| - 1]) + blocks[|blocks| - 1]
  }

  /** The blocks have the sizes that the blocks of an image of `size` bytes have. */
  ghost predicate Shaped(blocks: seq<Bytes>, size: nat, blockSize: Pos) {
    && |blocks| == BlocksCount(size, blockSize)
    && forall i :: 0 <= i < |blocks| ==> |blocks[i]| == SizeAt(size, blockSize, i)
  }

  lemma {:induction false} JoinLast(blocks: seq<Bytes>, n: nat)
    requires 0 < n <= |blocks|
    ensures Join(blocks[..n]) == Join(blocks[..n - 1]) + blocks[n - 1]
  {
    assert blocks[..n][..n - 1] == blocks[..n - 1];
  }

  lemma {:induction false} SliceOfPrefix(image: Bytes, more: Bytes, lo: nat, hi: nat)
    requires lo <= hi <= |image|
    ensures (image + more)[lo..hi] == image[lo..hi]
  {
  }

  lemma {:induction false} JoinPrefix(blocks: seq<Bytes>, size: nat, blockSize: Pos, n: nat)
    requires Shaped(blocks, size, blockSize) && n <= |blocks|
    ensures |Join(blocks[..n])| == Min(At(n, blockSize), size)
  {
    if n == 0 {
    } else {
      JoinPrefix(blocks, size, blockSize, n - 1);
      JoinLast(blocks, n);
      BlockInside(size, blockSize, n - 1);
    }
  }

  lemma {:induction false} JoinLength(blocks: seq<Bytes>, size: nat, blockSize: Pos)
    requires Shaped(blocks, size, blockSize)
    ensures |Join(blocks)| == size
  {
    JoinPrefix(blocks, size, blockSize, |blocks|);
    CountBounds(size, blockSize);
    assert blocks[..|blocks|] == blocks;
  }

  lemma {:induction false} JoinPrefixSlice(blocks: seq<Bytes>, n: nat, i: nat)
    requires i < n <= |blocks|
    ensures |Join(blocks[..i])| + |blocks[i]| <= |Join(blocks[..n])|
    ensures Join(blocks[..n])[|Join(blocks[..i])|..|Join(blocks[..i])| + |blocks[i]|] == blocks[i]
  {
    var before, at := Join(blocks[..n - 1]), |Join(blocks[..i])|;
    JoinLast(blocks, n);
    if i < n - 1 {
      JoinPrefixSlice(blocks, n - 1, i);
      SliceOfPrefix(before, blocks[n - 1], at, at + |blocks[i]|);
    }
  }

  /** Cutting a joined image gives back its blocks. */
  lemma {:induction false} JoinSlice(blocks: seq<Bytes>, size: nat, blockSize: Pos, i: nat)
    requires Shaped(blocks, size, blockSize) && i < |blocks|
    ensures |Join(blocks)| == size && Slice(Join(blocks), blockSize, i) == blocks[i]
  {
    JoinLength(blocks, size, blockSize);
    JoinPrefix(blocks, size, blockSize, i);
    BlockInside(size, blockSize, i);
    JoinPrefixSlice(blocks, |blocks|, i);
    assert blocks[..|blocks|] == blocks;
  }

  /** A joined image is a given image exactly when its blocks are the slices of that image. */
  lemma {:induction false} JoinIs(blocks: seq<Bytes>, image: Bytes, blockSize: Pos)
    requires Shaped(blocks, |image|, blockSize)
    ensures Join(blocks) == image <==> forall i :: 0 <= i < |blocks| ==> blocks[i] == Slice(image, blockSize, i)
  {
    JoinLength(blocks, |image|, blockSize);
    forall i | 0 <= i < |blocks|
      ensures Slice(Join(blocks), blockSize, i) == blocks[i]
    {
      JoinSlice(blocks, |image|, blockSize, i);
    }
    if forall i :: 0 <= i < |blocks| ==> blocks[i] == Slice(image, blockSize, i) {
      ImagesEqual(Join(blocks), image, blockSize);
    }
  }

  /** Two images are the same if and only if their blocks are. */
  lemma {:induction false} JoinSame(a: seq<Bytes>, b: seq<Bytes>, size: nat, blockSize: Pos)
    requires Shaped(a, size, blockSize) && Shaped(b, size, blockSize)
    ensures Join(a) == Join(b) <==> a == b
  {
    hide Join, Slice;
    JoinLength(a, size, blockSize);
    JoinLength(b, size, blockSize);
    JoinIs(a, Join(a), blockSize);
    JoinIs(b, Join(b), blockSize);
    hide Shaped;
    if Join(a) == Join(b) {
      SameEverywhere(a, b);
    }
  }

  lemma {:induction false} SameEverywhere(a: seq<Bytes>, b: seq<Bytes>)
    requires |a| == |b| && forall i :: 0 <= i < |a| ==> a[i] == b[i]
    ensures a == b
  {
  }

  lemma {:induction false} JoinByte(blocks: seq<Bytes>, size: nat, blockSize: Pos, i: nat, j: nat)
    requires Shaped(blocks, size, blockSize) && i < |blocks| && j < |blocks[i]|
    ensures |Join(blocks)| == size && At(i, blockSize) + j < size
    ensures Join(blocks)[At(i, blockSize) + j] == blocks[i][j]
  {
    JoinSlice(blocks, size, blockSize, i);
    BlockInside(size, blockSize, i);
    assert blocks[i][j] == Slice(Join(blocks), blockSize, i)[j];
  }

  // ---------------------------------------------------------------- writing

  /** Overwrites part of an image, extending it if need be. */
  function WriteAt(image: Bytes, offset: nat, data: Bytes): (r: Bytes)
    requires offset <= |image|
    ensures |r| == Max(|image|, offset + |data|)
  {
    image[..offset] + data + if offset + |data| <= |image| then image[offset + |data|..] else []
  }

  lemma {:induction false} WriteAtByte(image: Bytes, offset: nat, data: Bytes, k: nat)
    requires offset <= |image| && k < |WriteAt(image, offset, data)|
    ensures WriteAt(image, offset, data)[k] == if offset <= k < offset + |data| then data[k - offset] else image[k]
  {
  }

  lemma {:induction false} WriteTwice(image: Bytes, offset: nat, a: Bytes, b: Bytes)
    requires offset + |a| + |b| <= |image|
    ensures WriteAt(WriteAt(image, offset, a), offset + |a|, b) == WriteAt(image, offset, a + b)
  {
  }

  lemma {:induction false} WritePrefix(image: Bytes, more: Bytes, offset: nat, data: Bytes)
    requires offset + |data| <= |image|
    ensures WriteAt(image, offset, data) + more == WriteAt(image + more, offset, data)
  {
  }

  lemma {:induction false} WriteSuffix(image: Bytes, more: Bytes, offset: nat, data: Bytes)
    requires offset + |data| <= |more|
    ensures image + WriteAt(more, offset, data) == WriteAt(image + more, |image| + offset, data)
  {
  }

  lemma {:induction false} JoinWritePrefix(blocks: seq<Bytes>, after: seq<Bytes>, n: nat, i: nat, offset: nat,
                                           data: Bytes)
    requires i < n <= |blocks| && offset + |data| <= |blocks[i]|
    requires after == blocks[i := WriteAt(blocks[i], offset, data)]
    ensures |Join(blocks[..i])| + offset + |data| <= |Join(blocks[..n])|
    ensures Join(after[..n]) == WriteAt(Join(blocks[..n]), |Join(blocks[..i])| + offset, data)
  {
    hide Join, WriteAt;
    JoinLast(blocks, n);
    JoinLast(after, n);
    var at, before, last := |Join(blocks[..i])|, Join(blocks[..n - 1]), blocks[n - 1];
    if i == n - 1 {
      assert after[..i] == blocks[..i];
      WriteSuffix(before, last, offset, data);
    } else {
      JoinWritePrefix(blocks, after, n - 1, i, offset, data);
      WritePrefix(before, last, at + offset, data);
    }
  }

  /** Writing inside one block is writing to that part of the joined image. */
  lemma {:induction false} JoinWrite(blocks: seq<Bytes>, size: nat, blockSize: Pos, i: nat, offset: nat, data: Bytes)
    requires Shaped(blocks, size, blockSize) && i < |blocks| && offset + |data| <= |blocks[i]|
    ensures At(i, blockSize) + offset + |data| <= |Join(blocks)|
    ensures Join(blocks[i := WriteAt(blocks[i], offset, data)]) ==
              WriteAt(Join(blocks), At(i, blockSize) + offset, data)
  {
    hide Join, WriteAt, At;
    var after := blocks[i := WriteAt(blocks[i], offset, data)];
    JoinPrefix(blocks, size, blockSize, i);
    BlockInside(size, blockSize, i);
    JoinWritePrefix(blocks, after, |blocks|, i, offset, data);
    assert blocks[..|blocks|] == blocks && after[..|blocks|] == after;
  }
}
