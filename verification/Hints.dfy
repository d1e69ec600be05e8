/** Which blocks of an image a list of change hints makes a backup read, and which it makes sparse. */
module Hints {
  import opened Arithmetic

  /** A byte range that changed; `present` is false where the range was discarded. */
  datatype Hint = Hint(offset: nat, length: nat, present: bool)

  predicate Inside(h: Hint, k: nat) {
    h.offset <= k < h.offset + h.length
  }

  function StartBlock(h: Hint, blockSize: Pos): int {
    h.offset / blockSize
  }

  /** Floor division: minus one for an empty range at offset zero. */
  function EndBlock(h: Hint, blockSize: Pos): int {
    (h.offset + h.length - 1) / blockSize
  }

  predicate Touches(h: Hint, blockSize: Pos, i: int) {
    StartBlock(h, blockSize) <= i <= EndBlock(h, blockSize)
  }

  /** The hint forces block `i` to be read: present data, or a range that ends inside the block. */
  predicate ForcesRead(h: Hint, blockSize: Pos, i: int) {
    if h.present then Touches(h, blockSize, i)
    else
      || (h.offset % blockSize > 0 && i == StartBlock(h, blockSize))
      || ((h.offset + h.length) % blockSize > 0 && i == EndBlock(h, blockSize))
  }

  ghost predicate ReadBy(hints: seq<Hint>, blockSize: Pos, i: int) {
    exists h :: h in hints && ForcesRead(h, blockSize, i)
  }

  ghost predicate SparseBy(hints: seq<Hint>, blockSize: Pos, i: int) {
    exists h :: h in hints && !h.present && Touches(h, blockSize, i)
  }

  method AddRange(blocks: set<int>, startBlock: int, endBlock: int) returns (more: set<int>)
    ensures forall k :: k in more <==> k in blocks || startBlock <= k <= endBlock
  {
    more := blocks;
    var i := startBlock;
    while i < endBlock + 1
      invariant forall k :: k in more <==> k in blocks || startBlock <= k < i
      invariant startBlock <= i && (i <= endBlock + 1 || i == startBlock)
    {
      more := more + {i};
      i := i + 1;
    }
  }

  /** Adds the blocks that one hint is about. */
  method AddHint(h: Hint, blockSize: Pos, sparse: set<int>, read: set<int>)
    returns (sparseBlocks: set<int>, readBlocks: set<int>)
    ensures forall i :: i in sparseBlocks <==> i in sparse || (!h.present && Touches(h, blockSize, i))
    ensures forall i :: i in readBlocks <==> i in read || ForcesRead(h, blockSize, i)
  {
    sparseBlocks, readBlocks := sparse, read;
    var startBlock, endBlock := h.offset / blockSize, (h.offset + h.length - 1) / blockSize;
    if h.present {
      readBlocks := AddRange(readBlocks, startBlock, endBlock);
    } else {
      if h.offset % blockSize > 0 {
        readBlocks := readBlocks + {startBlock};
      }
      if (h.offset + h.length) % blockSize > 0 {
        readBlocks := readBlocks + {endBlock};
      }
      sparseBlocks := AddRange(sparseBlocks, startBlock, endBlock);
    }
  }

  /** Splits the hints into the blocks to be made sparse and the blocks to be read. */
  method BlocksFromHints(hints: seq<Hint>, blockSize: Pos) returns (sparseBlocks: set<int>, readBlocks: set<int>)
    ensures forall i :: i in sparseBlocks <==> SparseBy(hints, blockSize, i)
    ensures forall i :: i in readBlocks <==> ReadBy(hints, blockSize, i)
  {
    hide Touches, ForcesRead;
    sparseBlocks, readBlocks := {}, {};
    for n := 0 to |hints|
      invariant forall i :: i in sparseBlocks <==> SparseBy(hints[..n], blockSize, i)
      invariant forall i :: i in readBlocks <==> ReadBy(hints[..n], blockSize, i)
    {
      sparseBlocks, readBlocks := AddHint(hints[n], blockSize, sparseBlocks, readBlocks);
      ExtendHints(hints, blockSize, n);
    }
    assert hints[..|hints|] == hints;
  }

  lemma {:induction false} ExtendHints(hints: seq<Hint>, blockSize: Pos, n: nat)
    requires n < |hints|
    ensures forall i :: ReadBy(hints[..n + 1], blockSize, i) <==>
              ReadBy(hints[..n], blockSize, i) || ForcesRead(hints[n], blockSize, i)
    ensures forall i :: SparseBy(hints[..n + 1], blockSize, i) <==>
                        SparseBy(hints[..n], blockSize, i) || (!hints[n].present && Touches(hints[n], blockSize, i))
  {
    assert hints[..n + 1] == hints[..n] + [hints[n]];
    assert hints[n] in hints[..n + 1];
    assert forall h :: h in hints[..n + 1] <==> h in hints[..n] || h == hints[n];
  }

  /** Every byte of a block that no hint reads or discards lies outside all hints. */
  lemma {:induction false} UntouchedBlock(hints: seq<Hint>, blockSize: Pos, i: nat, k: nat)
    requires !ReadBy(hints, blockSize, i) && !SparseBy(hints, blockSize, i)
    requires i * blockSize <= k < i * blockSize + blockSize
    ensures forall h :: h in hints ==> !Inside(h, k)
  {
    forall h | h in hints
      ensures !Inside(h, k)
    {
      if Inside(h, k) {
        DivUnique(k, blockSize, i);
        DivMono(h.offset, k, blockSize);
        DivMono(k, h.offset + h.length - 1, blockSize);
        assert Touches(h, blockSize, i);
      }
    }
  }

  /** A block that is discarded and not read lies wholly inside one discarded range. */
  lemma {:induction false} DiscardedBlock(hints: seq<Hint>, blockSize: Pos, i: nat, k: nat)
    requires SparseBy(hints, blockSize, i) && !ReadBy(hints, blockSize, i)
    requires i * blockSize <= k < i * blockSize + blockSize
    ensures exists h :: h in hints && !h.present && Inside(h, k)
  {
    var h :| h in hints && !h.present && Touches(h, blockSize, i);
    DiscardedRange(h, blockSize, i);
    assert Inside(h, k);
  }

  lemma {:induction false} DiscardedRange(h: Hint, blockSize: Pos, i: nat)
    requires !h.present && Touches(h, blockSize, i) && !ForcesRead(h, blockSize, i)
    ensures h.offset <= i * blockSize && i * blockSize + blockSize <= h.offset + h.length
  {
    var s, e := StartBlock(h, blockSize), EndBlock(h, blockSize);
    DivBounds(h.offset, blockSize);
    MulMono(s, i, blockSize);
    if s < i { MulMono(s + 1, i, blockSize); }
    EndsInside(h.offset + h.length, blockSize, i);
  }

  /** A range that reaches into block `i`, and past it unless it ends on its boundary, covers it. */
  lemma {:induction false} EndsInside(end: nat, blockSize: Pos, i: nat)
    requires i <= (end - 1) / blockSize
    requires i == (end - 1) / blockSize ==> end % blockSize == 0
    ensures i * blockSize + blockSize <= end
  {
    var e, q := (end - 1) / blockSize, end / blockSize;
    DivBounds(end - 1, blockSize);
    if i < e {
      MulMono(i + 1, e, blockSize);
    } else {
      assert q * blockSize == end;
      if q <= i { MulMono(q, i, blockSize); }
      MulMono(i + 1, q, blockSize);
    }
  }
}
