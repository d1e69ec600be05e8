/**
 * What a backup decides for each block, and when that reproduces the source.
 *
 * A plan fixes the source image, the base version, the objects at the start, and the blocks to
 * read and to make sparse. `Planned` is the data each block ends up with.
 */
module Plan {
  import opened Arithmetic
  import opened Images
  import opened Tables
  import opened Clone
  import opened Hints

  datatype Plan = Plan(base: Option<Version>, source: Bytes, blockSize: Pos, storage: StorageId,
                       objects: Objects, read: set<int>, sparse: set<int>)

  /** The plan of a backup: with no hints every block is read. */
  ghost function PlanOf(versions: map<VersionId, Version>, objects: Objects, storage: StorageId, source: Bytes,
                        blockSize: Pos, base: Option<VersionId>, hints: Option<seq<Hint>>): Plan {
    var all := Range(0, BlocksCount(|source|, blockSize));
    Plan(BaseOf(versions, base), source, blockSize, storage, objects,
         if hints.None? then all else set i | i in all && ReadBy(hints.value, blockSize, i),
         if hints.None? then {} else set i | i in all && SparseBy(hints.value, blockSize, i))
  }

  function Blocks(p: Plan): nat {
    BlocksCount(|p.source|, p.blockSize)
  }

  /** The row the backup starts from, as the dense array shows it. */
  function StartRow(p: Plan, i: nat): Row
    requires i < Blocks(p)
  {
    Normal(ClonedRow(p.base, |p.source|, p.blockSize, i), p.blockSize)
  }

  predicate IsRead(p: Plan, i: nat)
    requires i < Blocks(p)
  {
    i in p.read || !StartRow(p, i).valid
  }

  /** Read from the source, made sparse, or kept from the base. */
  function Planned(p: Plan, i: nat): Bytes
    requires i < Blocks(p)
  {
    if IsRead(p, i) then Slice(p.source, p.blockSize, i)
    else if i in p.sparse then Zeros(StartRow(p, i).size)
    else BlockData(StartRow(p, i), p.storage, p.objects)
  }

  ghost predicate Faithful(p: Plan) {
    forall i :: 0 <= i < Blocks(p) ==> Planned(p, i) == Slice(p.source, p.blockSize, i)
  }

  // ---------------------------------------------------------------- what hints promise

  /** Discarded ranges are zero in the source. */
  ghost predicate DiscardsAreZero(hints: seq<Hint>, source: Bytes) {
    forall h, k :: h in hints && !h.present && 0 <= k < |source| && Inside(h, k) ==> source[k] == 0
  }

  function BaseByte(p: Plan, k: nat): Byte {
    if p.base.Some? && k < p.base.value.size && k < |Content(p.base.value, p.objects)|
    then Content(p.base.value, p.objects)[k]
    else 0
  }

  /** Outside all hints the source still is what the base holds, and zero beyond the base. */
  ghost predicate OutsideUnchanged(hints: seq<Hint>, p: Plan) {
    forall k :: 0 <= k < |p.source| && (forall h :: h in hints ==> !Inside(h, k)) ==> p.source[k] == BaseByte(p, k)
  }

  ghost predicate FromHints(p: Plan, hints: seq<Hint>) {
    && (forall i :: 0 <= i < Blocks(p) ==> (i in p.read <==> ReadBy(hints, p.blockSize, i)))
    && (forall i :: 0 <= i < Blocks(p) ==> (i in p.sparse <==> SparseBy(hints, p.blockSize, i)))
  }

  ghost predicate GoodBase(p: Plan) {
    p.base.Some? ==>
      && p.base.value.blockSize == p.blockSize && p.base.value.storage == p.storage
      && Fills(p.base.value, p.objects)
  }

  /** Block `i` is the base's short last block and is a full block of the source. */
  predicate Grows(p: Plan, i: nat) {
    && p.base.Some? && i < Count(p.base.value)
    && BlockAt(p.base.value, i).size < p.blockSize
    && SizeAt(|p.source|, p.blockSize, i) == p.blockSize
  }

  /** The base's short last block grows, no hint touches it, and it holds something else than zeros. */
  ghost predicate LosesTail(p: Plan) {
    exists i :: 0 <= i < Blocks(p) && Grows(p, i) && i !in p.read && i !in p.sparse
                && !AllZero(DataAt(p.base.value, p.objects, i))
  }

  /** What block `i` of the base holds beyond the base's size. */
  function Overhang(p: Plan, i: nat): Bytes
    requires p.base.Some? && i < Count(p.base.value)
  {
    var data, n := DataAt(p.base.value, p.objects, i), SizeAt(p.base.value.size, p.blockSize, i);
    if 0 <= n <= |data| then data[n..] else []
  }

  /** A full block of the source is kept from the base, whose size ends before other bytes than zeros in it. */
  ghost predicate KeepsOverhang(p: Plan) {
    exists i :: 0 <= i < Blocks(p) && Overhangs(p, i)
  }

  ghost predicate Overhangs(p: Plan, i: nat)
    requires i < Blocks(p)
  {
    && p.base.Some? && i < Count(p.base.value) && i !in p.sparse && !IsRead(p, i)
    && BlockAt(p.base.value, i).size == SizeAt(|p.source|, p.blockSize, i) && !AllZero(Overhang(p, i))
  }

  /** A base whose blocks all have their proper size has nothing beyond its end. */
  lemma {:induction false} WellSizedFills(p: Plan)
    requires p.base.Some? ==> p.base.value.blockSize == p.blockSize && p.base.value.storage == p.storage
    requires p.base.Some? ==> WellSized(p.base.value) && Intact(p.base.value, p.objects)
    ensures GoodBase(p) && !KeepsOverhang(p)
  {
    hide BlocksCount, At, SizeAt, DataAt, BlockAt, StartRow, IsRead;
  }

  // ---------------------------------------------------------------- block by block

  lemma {:induction false} SourceByte(p: Plan, i: nat, j: nat)
    requires i < Blocks(p) && j < |Slice(p.source, p.blockSize, i)|
    ensures Slice(p.source, p.blockSize, i)[j] == p.source[At(i, p.blockSize) + j]
    ensures j < p.blockSize
  {
    BlockInside(|p.source|, p.blockSize, i);
  }

  lemma {:induction false} DiscardedByte(p: Plan, hints: seq<Hint>, i: nat, j: nat)
    requires FromHints(p, hints) && DiscardsAreZero(hints, p.source)
    requires i < Blocks(p) && i in p.sparse && i !in p.read
    requires j < |Slice(p.source, p.blockSize, i)|
    ensures Slice(p.source, p.blockSize, i)[j] == 0
  {
    SourceByte(p, i, j);
    BlockInside(|p.source|, p.blockSize, i);
    AtIsProduct(i, p.blockSize);
    DiscardedBlock(hints, p.blockSize, i, At(i, p.blockSize) + j);
  }

  lemma {:induction false} DiscardedIsZero(p: Plan, hints: seq<Hint>, i: nat)
    requires FromHints(p, hints) && DiscardsAreZero(hints, p.source)
    requires i < Blocks(p) && i in p.sparse && !IsRead(p, i)
    ensures Planned(p, i) == Slice(p.source, p.blockSize, i)
  {
    forall j | 0 <= j < |Slice(p.source, p.blockSize, i)|
      ensures Slice(p.source, p.blockSize, i)[j] == 0
    {
      DiscardedByte(p, hints, i, j);
    }
  }

  lemma {:induction false} UntouchedByte(p: Plan, hints: seq<Hint>, i: nat, j: nat)
    requires FromHints(p, hints) && OutsideUnchanged(hints, p)
    requires i < Blocks(p) && i !in p.sparse && i !in p.read
    requires j < |Slice(p.source, p.blockSize, i)|
    ensures Slice(p.source, p.blockSize, i)[j] == BaseByte(p, At(i, p.blockSize) + j)
  {
    SourceByte(p, i, j);
    BlockInside(|p.source|, p.blockSize, i);
    AtIsProduct(i, p.blockSize);
    UntouchedBlock(hints, p.blockSize, i, At(i, p.blockSize) + j);
  }

  /** Inside the base, the base's bytes are the data of its blocks; beyond it they are zero. */
  lemma {:induction false} BaseBlockByte(p: Plan, i: nat, j: nat)
    requires GoodBase(p) && p.base.Some? && i < Count(p.base.value) && j < p.blockSize
    ensures var data, n := DataAt(p.base.value, p.objects, i), SizeAt(p.base.value.size, p.blockSize, i);
            0 < n <= |data| && BaseByte(p, At(i, p.blockSize) + j) == if j < n then data[j] else 0
  {
    hide BlocksCount, DataAt, BlockAt;
    var size := FillsShaped(p.base.value, p.objects);
    BlockInside(p.base.value.size, p.blockSize, i);
    if j < SizeAt(p.base.value.size, p.blockSize, i) {
      JoinByte(Data(p.base.value, p.objects), size, p.blockSize, i, j);
    }
  }

  lemma {:induction false} BeyondBase(p: Plan, i: nat, j: nat)
    requires GoodBase(p) && (p.base.Some? ==> Count(p.base.value) <= i)
    ensures BaseByte(p, At(i, p.blockSize) + j) == 0
  {
    if p.base.Some? {
      BlockInside(p.base.value.size, p.blockSize, i);
    }
  }

  /** A kept block is lost by growing, holds something beyond the base's end, or is that of the source. */
  ghost predicate KeptIff(p: Plan, i: nat)
    requires i < Blocks(p)
  {
    && (Grows(p, i) ==> (Planned(p, i) == Slice(p.source, p.blockSize, i) <==>
                         AllZero(DataAt(p.base.value, p.objects, i))))
    && (!Grows(p, i) ==> (Planned(p, i) == Slice(p.source, p.blockSize, i) <==> !Overhangs(p, i)))
    && (Grows(p, i) ==> !Overhangs(p, i))
  }

  lemma {:induction false} KeptBlock(p: Plan, hints: seq<Hint>, i: nat)
    requires FromHints(p, hints) && OutsideUnchanged(hints, p) && GoodBase(p)
    requires i < Blocks(p) && i !in p.sparse && !IsRead(p, i)
    ensures KeptIff(p, i)
  {
    var s := Slice(p.source, p.blockSize, i);
    forall j | 0 <= j < |s|
      ensures s[j] == BaseByte(p, At(i, p.blockSize) + j)
      ensures j < p.blockSize
    {
      SourceByte(p, i, j);
      UntouchedByte(p, hints, i, j);
    }
    if p.base.None? || Count(p.base.value) <= i {
      forall j | 0 <= j < |s| ensures s[j] == 0 { BeyondBase(p, i, j); }
      assert Planned(p, i) == s;
    } else {
      KeptBaseBlock(p, i);
    }
  }

  lemma {:induction false} KeptBaseBlock(p: Plan, i: nat)
    requires GoodBase(p) && p.base.Some? && i < Count(p.base.value)
    requires i < Blocks(p) && i !in p.sparse && !IsRead(p, i)
    requires forall j :: 0 <= j < |Slice(p.source, p.blockSize, i)| ==>
               j < p.blockSize && Slice(p.source, p.blockSize, i)[j] == BaseByte(p, At(i, p.blockSize) + j)
    ensures KeptIff(p, i)
  {
    hide BaseByte, At, BlocksCount, Join, Slice;
    var s, data := Slice(p.source, p.blockSize, i), DataAt(p.base.value, p.objects, i);
    var n := SizeAt(p.base.value.size, p.blockSize, i);
    BlockInside(|p.source|, p.blockSize, i);
    BaseBlockByte(p, i, 0);
    forall j | 0 <= j < |s|
      ensures s[j] == if j < n then data[j] else 0
    {
      BaseBlockByte(p, i, j);
    }
    if Grows(p, i) {
      assert Planned(p, i) == Zeros(p.blockSize);
      assert Planned(p, i) == s ==> forall j :: 0 <= j < |data| ==> data[j] == s[j] == 0;
    } else {
      assert Planned(p, i) == data && |data| == |s|;
      SameUpTo(data, s, n);
    }
  }

  /** The data ends in zeros, if and only if it is what it starts with, followed by zeros. */
  lemma {:induction false} SameUpTo(data: Bytes, s: Bytes, n: nat)
    requires n <= |data| == |s| && forall j :: 0 <= j < |s| ==> s[j] == if j < n then data[j] else 0
    ensures data == s <==> AllZero(data[n..])
  {
    if AllZero(data[n..]) {
      forall j | 0 <= j < |s| ensures data[j] == s[j] {
        if j >= n { assert data[n..][j - n] == 0; }
      }
    }
  }

  /**
   * With truthful hints a plan reproduces the source exactly when it does not lose the base's grown
   * last block, and keeps no bytes that the base has beyond its end. The grown block loses its data
   * because the row that was to force its reread has full size and no uid, and such rows are dropped.
   */
  lemma {:induction false} FaithfulUnlessTailLost(p: Plan, hints: seq<Hint>)
    requires FromHints(p, hints) && GoodBase(p)
    requires DiscardsAreZero(hints, p.source) && OutsideUnchanged(hints, p)
    ensures Faithful(p) <==> !LosesTail(p) && !KeepsOverhang(p)
  {
    hide Overhangs;
    forall i | 0 <= i < Blocks(p)
      ensures Planned(p, i) == Slice(p.source, p.blockSize, i) <==>
              !(Grows(p, i) && i !in p.read && i !in p.sparse
                && !AllZero(DataAt(p.base.value, p.objects, i))) && !Overhangs(p, i)
    {
      BlockDecides(p, hints, i);
    }
  }

  lemma {:induction false} BlockDecides(p: Plan, hints: seq<Hint>, i: nat)
    requires FromHints(p, hints) && GoodBase(p) && i < Blocks(p)
    requires DiscardsAreZero(hints, p.source) && OutsideUnchanged(hints, p)
    ensures Planned(p, i) == Slice(p.source, p.blockSize, i) <==>
            !(Grows(p, i) && i !in p.read && i !in p.sparse && !AllZero(DataAt(p.base.value, p.objects, i)))
            && !Overhangs(p, i)
  {
    hide OutsideUnchanged, FromHints, DiscardsAreZero;
    BlockInside(|p.source|, p.blockSize, i);
    if !IsRead(p, i) {
      if i in p.sparse { DiscardedIsZero(p, hints, i); } else { KeptBlock(p, hints, i); }
    } else if Grows(p, i) {
      assert StartRow(p, i).valid;
    }
  }

  /** Without hints every block is read. */
  lemma {:induction false} FaithfulWithoutHints(p: Plan)
    requires forall i: nat :: i < Blocks(p) ==> i in p.read
    ensures Faithful(p)
  {
  }

  /** A base of one non-zero byte that grows to one full block of two bytes. */
  function GrowingBase(): Version {
    Version(0, 1, 2, Valid, map[0 := Row(Some(BlockUid(1, 1)), Some(7), 1, true)])
  }

  function GrowingPlan(b: Byte): Plan {
    Plan(Some(GrowingBase()), [b, 0], 2, 0, map[ObjectKey(0, BlockUid(1, 1)) := [b]], {}, {})
  }

  /** A version of a single stored block is well-sized and intact when that block is. */
  lemma {:induction false} SingleBlock(v: Version, objects: Objects)
    requires Count(v) == 1 && v.rows.Keys == {0} && Stored(v.rows[0], v.blockSize)
    requires v.rows[0].size == SizeAt(v.size, v.blockSize, 0) == |DataAt(v, objects, 0)|
    ensures WellSized(v) && Intact(v, objects)
  {
    forall i | 0 <= i < Count(v)
      ensures BlockAt(v, i).size == SizeAt(v.size, v.blockSize, i) == |DataAt(v, objects, i)|
    {
      assert i == 0;
    }
  }

  lemma {:induction false} FirstByte(v: Version, objects: Objects)
    requires Intact(v, objects) && 0 < Count(v) && 0 < |DataAt(v, objects, 0)|
    ensures |Content(v, objects)| == v.size && 0 < v.size
    ensures Content(v, objects)[0] == DataAt(v, objects, 0)[0]
  {
    ContentByte(v, objects, 0, 0);
  }

  lemma {:induction false} GrowingData(b: Byte)
    ensures DataAt(GrowingBase(), GrowingPlan(b).objects, 0) == [b]
  {
  }

  lemma {:induction false} GrowingCounts(b: Byte)
    ensures Count(GrowingBase()) == Blocks(GrowingPlan(b)) == 1
  {
    assert Count(GrowingBase()) == 1;
  }

  lemma {:induction false} GrowingBaseIsGood(b: Byte)
    ensures GoodBase(GrowingPlan(b))
  {
    GrowingCounts(b);
    GrowingData(b);
    SingleBlock(GrowingBase(), GrowingPlan(b).objects);
  }

  lemma {:induction false} GrowingPromises(b: Byte)
    ensures FromHints(GrowingPlan(b), [])
    ensures DiscardsAreZero([], GrowingPlan(b).source)
    ensures OutsideUnchanged([], GrowingPlan(b))
  {
    GrowingData(b);
    GrowingCounts(b);
    GrowingBaseIsGood(b);
    FirstByte(GrowingBase(), GrowingPlan(b).objects);
    assert BaseByte(GrowingPlan(b), 0) == b;
  }

  lemma {:induction false} GrowingRow(b: Byte)
    requires Count(GrowingBase()) == Blocks(GrowingPlan(b)) == 1
    ensures StartRow(GrowingPlan(b), 0) == SparseRow(2)
  {
    assert ClonedRow(Some(GrowingBase()), 2, 2, 0) == Row(None, None, 2, false);
  }

  lemma {:induction false} GrowingLoses(b: Byte)
    requires b != 0
    ensures !Faithful(GrowingPlan(b))
  {
    GrowingCounts(b);
    GrowingRow(b);
    assert Planned(GrowingPlan(b), 0) == Zeros(2);
    FirstSliceByte(GrowingPlan(b).source, 2);
  }

  lemma {:induction false} FirstSliceByte(image: Bytes, blockSize: Pos)
    requires 0 < BlocksCount(|image|, blockSize)
    ensures 0 < |Slice(image, blockSize, 0)| && 0 < |image| && Slice(image, blockSize, 0)[0] == image[0]
  {
    BlockInside(|image|, blockSize, 0);
  }

  /** With no hint at all every promise holds, and still the grown block comes out as zeros. */
  lemma {:induction false} GrownTailCounterexample(b: Byte)
    requires b != 0
    ensures FromHints(GrowingPlan(b), []) && GoodBase(GrowingPlan(b))
    ensures DiscardsAreZero([], GrowingPlan(b).source) && OutsideUnchanged([], GrowingPlan(b))
    ensures !Faithful(GrowingPlan(b))
  {
    GrowingBaseIsGood(b);
    GrowingPromises(b);
    GrowingLoses(b);
  }

  /** A base of one byte, whose only block holds two. */
  function OverhangBase(): Version {
    Version(0, 1, 2, Valid, map[0 := Row(Some(BlockUid(1, 1)), Some(7), 2, true)])
  }

  function OverhangPlan(b: Byte, c: Byte): Plan {
    Plan(Some(OverhangBase()), [b, 0], 2, 0, map[ObjectKey(0, BlockUid(1, 1)) := [b, c]], {}, {})
  }

  lemma {:induction false} OverhangFacts(b: Byte, c: Byte)
    ensures var p := OverhangPlan(b, c);
            && Count(OverhangBase()) == Blocks(p) == 1 && GoodBase(p) && DataAt(OverhangBase(), p.objects, 0) == [b, c]
            && SizeAt(1, 2, 0) == 1 && SizeAt(|p.source|, 2, 0) == 2
  {
    assert Count(OverhangBase()) == 1;
  }

  lemma {:induction false} OverhangPromises(b: Byte, c: Byte)
    ensures var p := OverhangPlan(b, c);
            FromHints(p, []) && DiscardsAreZero([], p.source) && OutsideUnchanged([], p)
  {
    hide BlocksCount, SizeAt, DataAt;
    var p := OverhangPlan(b, c);
    OverhangFacts(b, c);
    assert At(0, 2) == 0;
    hide At;
    BaseBlockByte(p, 0, 0);
    assert p.source[0] == BaseByte(p, 0) && p.source[1] == BaseByte(p, 1);
  }

  /** With no hint at all every promise holds, and still a byte comes out that the base has only beyond its end. */
  lemma {:induction false} OverhangCounterexample(b: Byte, c: Byte)
    requires c != 0
    ensures var p := OverhangPlan(b, c);
            && FromHints(p, []) && GoodBase(p) && DiscardsAreZero([], p.source) && OutsideUnchanged([], p)
            && !LosesTail(p) && !Faithful(p)
  {
    hide BlocksCount, SizeAt, DataAt, OutsideUnchanged, FromHints;
    var p := OverhangPlan(b, c);
    OverhangFacts(b, c);
    OverhangPromises(b, c);
    assert !AllZero(Overhang(p, 0)) by { assert Overhang(p, 0) == [c] && [c][0] != 0; }
    assert StartRow(p, 0) == OverhangBase().rows[0];
    FaithfulUnlessTailLost(p, []);
    assert Overhangs(p, 0);
  }
}
