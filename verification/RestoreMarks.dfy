/**
 * Restoring a version: what it leaves on the target and in the tables, whatever its reads bring.
 *
 * The loop over completed reads reports a failed one for the block that the loop's variable still
 * holds. That is the block of the last read that delivered data or, before there is one, the last
 * block of the version, left over from the loop that queued the reads.
 */
module RestoreMarks {
  import opened Arithmetic
  import opened Images
  import opened Tables
  import opened VersionTable
  import opened Clone
  import opened Hints
  import opened P = Plan
  import opened Backup
  import opened R = Restore
  import opened Validity
  import opened Scrub

  /**
   * How a read ends: with data, whose metadata and checksum may or may not fit, with a KeyError or
   * ValueError, as from a transform, or with any other exception.
   */
  datatype Reading = Delivered(fits: bool) | Failed | Raised

  datatype Ending = Restored | Interrupted

  /** The blocks are those to be read, each of them once, in the order in which their reads complete. */
  ghost predicate CompletionOrder(order: seq<nat>, v: Version) {
    && (forall i: nat :: i in order <==> i < Count(v) && BlockAt(v, i).uid.Some?)
    && (forall j, k :: 0 <= j < k < |order| ==> order[j] != order[k])
  }

  /** The block that the variable holds once the first `k` reads have been handled. */
  function Held(v: Version, order: seq<nat>, readings: nat -> Reading, k: nat): nat
    requires k <= |order| && Count(v) > 0
  {
    if k == 0 then Count(v) - 1
    else if readings(order[k - 1]).Delivered? then order[k - 1]
    else Held(v, order, readings, k - 1)
  }

  /** Marks the block's uid, or everything without uid if it has none, as invalid. */
  function MarkBlock(versions: Versions, row: Row): Versions {
    match row.uid
    case None => MarkBare(versions, false)
    case Some(uid) => Mark(versions, uid, false)
  }

  /** The tables after the `k`-th read has been handled. */
  function Handled(versions: Versions, v: Version, order: seq<nat>, readings: nat -> Reading, k: nat): Versions
    requires k < |order| && Count(v) > 0
  {
    match readings(order[k])
    case Delivered(true) => versions
    case Delivered(false) => MarkBlock(versions, BlockAt(v, order[k]))
    case _ => MarkBlock(versions, BlockAt(v, Held(v, order, readings, k)))
  }

  function AfterReads(versions: Versions, v: Version, order: seq<nat>, readings: nat -> Reading, k: nat): Versions
    requires k <= |order| && (k > 0 ==> Count(v) > 0)
  {
    if k == 0 then versions else Handled(AfterReads(versions, v, order, readings, k - 1), v, order, readings, k - 1)
  }

  /** The first read that ends with another exception; the number of reads if there is none. */
  function FirstRaised(order: seq<nat>, readings: nat -> Reading, from: nat): (k: nat)
    requires from <= |order|
    ensures from <= k <= |order| && (k < |order| ==> readings(order[k]).Raised?)
    ensures forall j :: from <= j < k ==> !readings(order[j]).Raised?
    decreases |order| - from
  {
    if from == |order| || readings(order[from]).Raised? then from else FirstRaised(order, readings, from + 1)
  }

  /** The blocks among the first `k` whose data was delivered. */
  function Delivering(order: seq<nat>, readings: nat -> Reading, k: nat): set<nat>
    requires k <= |order|
  {
    if k == 0 then {}
    else Delivering(order, readings, k - 1) + if readings(order[k - 1]).Delivered? then {order[k - 1]} else {}
  }

  /** The uids, or the lack of one, in a row are invalidated in all rows. */
  method SetInvalid(db: Database, row: Row)
    modifies db`versions
    ensures db.versions == MarkBlock(old(db.versions), row)
  {
    if row.uid.Some? {
      var affected := SetBlockValid(db, row.uid.value, false);
    } else {
      db.versions := map id | id in db.versions :: MarkBareVersion(db.versions[id], false);
    }
  }

  /**
   * What the read of a block brings: data, with metadata that fits or not, a KeyError or ValueError, or
   * another exception.
   */
  datatype Entry = Data(data: Bytes, metadataFits: bool) | Broken | Fatal

  type Entries = nat -> Entry

  function ReadingOf(row: Row, entry: Entry, hash: Hash): Reading {
    match entry
    case Data(data, metadataFits) => Delivered(metadataFits && row.checksum == Some(hash(data)))
    case Broken => Failed
    case Fatal => Raised
  }

  function Readings(v: Version, entries: Entries, hash: Hash): nat -> Reading {
    (i: nat) => ReadingOf(BlockAt(v, i), entries(i), hash)
  }

  /** A block is written with what was read, even if it does not fit; one without uid with zeros. */
  function Out(v: Version, entries: Entries): Output {
    (i: nat) => if BlockAt(v, i).uid.None? then Zeros(v.blockSize) else if entries(i).Data? then entries(i).data else []
  }

  /** The blocks that are written as zeros. */
  function Zeroed(v: Version, sparse: bool): set<nat> {
    set i | i in Range(0, Count(v)) && BlockAt(v, i).uid.None? && !sparse
  }

  /** The order in which reads happen to complete. */
  method AnyOrder(unread: set<nat>) returns (order: seq<nat>)
    ensures forall i :: i in order <==> i in unread
    ensures forall j, k :: 0 <= j < k < |order| ==> order[j] != order[k]
  {
    order := [];
    var rest := unread;
    while rest != {}
      invariant rest <= unread && forall i :: i in order <==> i in unread - rest
      invariant forall j, k :: 0 <= j < k < |order| ==> order[j] != order[k]
      decreases rest
    {
      var i :| i in rest;
      assert i !in order;
      order, rest := order + [i], rest - {i};
    }
  }

  /** The first `k` reads have been handled, none of them with another exception, and the variable holds `block`. */
  ghost predicate HandledUpTo(versions: Versions, start: Versions, v: Version, order: seq<nat>, entries: Entries,
                              hash: Hash, k: nat, block: Row) {
    var readings := Readings(v, entries, hash);
    && k <= |order| && (|order| > 0 ==> Count(v) > 0 && block == BlockAt(v, Held(v, order, readings, k)))
    && versions == AfterReads(start, v, order, readings, k) && (Consistent(start) ==> Consistent(versions))
    && FirstRaised(order, readings, 0) == FirstRaised(order, readings, k)
  }

  lemma {:induction false} NoneHandled(versions: Versions, v: Version, order: seq<nat>, entries: Entries, hash: Hash)
    requires CompletionOrder(order, v)
    ensures HandledUpTo(versions, versions, v, order, entries, hash, 0,
                BlockAt(v, if Count(v) > 0 then Count(v) - 1 else 0))
  {
    hide BlocksCount, BlockAt, Consistent;
    SomeBlock(v, order);
  }

  /** The loop ends with the first other exception, or with all reads handled. */
  lemma {:induction false} HandledAll(versions: Versions, start: Versions, v: Version, order: seq<nat>,
                                      entries: Entries, hash: Hash, k: nat, block: Row)
    requires HandledUpTo(versions, start, v, order, entries, hash, k, block)
    requires k < |order| ==> entries(order[k]).Fatal?
    ensures FirstRaised(order, Readings(v, entries, hash), 0) == k && (|order| > 0 ==> Count(v) > 0)
    ensures versions == AfterReads(start, v, order, Readings(v, entries, hash), k)
    ensures Consistent(start) ==> Consistent(versions)
  {
    hide BlocksCount, BlockAt, Consistent, AfterReads, Held;
  }

  /** Handles the `k`-th completed read; `block` is what the loop's variable holds, before and after. */
  method HandleEntry(db: Database, v: Version, order: seq<nat>, entries: Entries, hash: Hash, k: nat, block: Row,
                     ghost start: Versions)
    returns (next: Row)
    requires HandledUpTo(db.versions, start, v, order, entries, hash, k, block)
    requires k < |order| && !entries(order[k]).Fatal?
    modifies db`versions
    ensures HandledUpTo(db.versions, start, v, order, entries, hash, k + 1, next)
  {
    hide Consistent, MarkBlock, BlocksCount, BlockAt;
    ghost var readings := Readings(v, entries, hash);
    next := block;
    var entry := entries(order[k]);
    assert readings(order[k]) == ReadingOf(BlockAt(v, order[k]), entry, hash);
    if entry.Data? {
      next := BlockAt(v, order[k]);
    }
    PairwiseOf(db.versions);
    if Pairwise(db.versions) { MarkBlockKeeps(db.versions, next); }
    if entry.Broken? || !entry.metadataFits || next.checksum != Some(hash(entry.data)) {
      SetInvalid(db, next);
    }
  }

  /** What was read is on the target or queued. */
  ghost predicate Queued(queue: map<nat, Bytes>, v: Version, out: Output, written: set<nat>, zeroed: set<nat>,
                         order: seq<nat>, readings: nat -> Reading, k: nat) {
    && k <= |order| && written + queue.Keys == zeroed + Delivering(order, readings, k)
    && forall i :: i in queue ==> i < Count(v) && queue[i] == out(i)
  }

  lemma {:induction false} QueueOne(queue: map<nat, Bytes>, v: Version, written: set<nat>, zeroed: set<nat>,
                                    order: seq<nat>, entries: Entries, hash: Hash, k: nat)
    requires CompletionOrder(order, v) && k < |order|
    requires Queued(queue, v, Out(v, entries), written, zeroed, order, Readings(v, entries, hash), k)
    ensures var more := if entries(order[k]).Data? then queue[order[k] := entries(order[k]).data] else queue;
            Queued(more, v, Out(v, entries), written, zeroed, order, Readings(v, entries, hash), k + 1)
  {
    ReadIsBlock(v, order, entries, hash, k);
    hide BlocksCount, BlockAt, CompletionOrder, Out, Readings;
  }

  /** Any of the queued writes complete. */
  method WriteSome(target: Target, v: Version, queue: map<nat, Bytes>, all: bool, ghost out: Output,
                   ghost before: Bytes, ghost written: set<nat>, ghost zeroed: set<nat>, ghost order: seq<nat>,
                   ghost readings: nat -> Reading, ghost k: nat)
    returns (rest: map<nat, Bytes>, ghost more: set<nat>)
    requires HoldsFitting(target.image, before, v, out, written) && v.size <= |before|
    requires Queued(queue, v, out, written, zeroed, order, readings, k)
    modifies target
    ensures HoldsFitting(target.image, before, v, out, more)
    ensures Queued(rest, v, out, more, zeroed, order, readings, k)
    ensures more <= zeroed + Delivering(order, readings, k)
    ensures all ==> more == zeroed + Delivering(order, readings, k)
  {
    hide HoldsFitting, BlocksCount, Delivering;
    rest, more := R.CompleteWrites(target, v, queue, all, out, before, written);
    if all { assert rest.Keys == {}; }
  }

  /** The loop over completed reads. What was read is written, whether it fits or not. */
  method CompleteReads(db: Database, v: Version, target: Target, order: seq<nat>, entries: Entries, hash: Hash,
                       ghost before: Bytes, ghost zeroed: set<nat>)
    returns (r: Ending, ghost written: set<nat>)
    requires CompletionOrder(order, v) && v.size <= |before|
    requires HoldsFitting(target.image, before, v, Out(v, entries), zeroed)
    modifies db`versions, target
    ensures r.Restored? <==> forall k :: 0 <= k < |order| ==> !entries(order[k]).Fatal?
    ensures var readings := Readings(v, entries, hash);
            var n := FirstRaised(order, readings, 0);
            && (n > 0 ==> Count(v) > 0) && db.versions == AfterReads(old(db.versions), v, order, readings, n)
            && written <= zeroed + Delivering(order, readings, n)
            && (r.Restored? ==> n == |order| && written == zeroed + Delivering(order, readings, n))
    ensures HoldsFitting(target.image, before, v, Out(v, entries), written)
    ensures old(Consistent(db.versions)) ==> Consistent(db.versions)
  {
    hide Consistent, BlocksCount, BlockAt, HoldsFitting, HandledUpTo, Queued, AfterReads, Delivering, FirstRaised,
      CompletionOrder, Readings, Out;
    ghost var start, readings, out := db.versions, Readings(v, entries, hash), Out(v, entries);
    NoneHandled(start, v, order, entries, hash);
    NothingQueued(v, out, zeroed, order, readings);
    var block := BlockAt(v, if Count(v) > 0 then Count(v) - 1 else 0);
    var queue: map<nat, Bytes> := map[];
    written := zeroed;
    for k := 0 to |order|
      invariant HandledUpTo(db.versions, start, v, order, entries, hash, k, block)
      invariant forall j :: 0 <= j < k ==> !entries(order[j]).Fatal?
      invariant HoldsFitting(target.image, before, v, out, written)
      invariant Queued(queue, v, out, written, zeroed, order, readings, k)
    {
      if entries(order[k]).Fatal? {
        HandledAll(db.versions, start, v, order, entries, hash, k, block);
        queue, written := WriteSome(target, v, queue, false, out, before, written, zeroed, order, readings, k);
        return Interrupted, written;
      }
      QueueOne(queue, v, written, zeroed, order, entries, hash, k);
      if entries(order[k]).Data? {
        queue := queue[order[k] := entries(order[k]).data];
      }
      block := HandleEntry(db, v, order, entries, hash, k, block, start);
      queue, written := WriteSome(target, v, queue, false, out, before, written, zeroed, order, readings, k + 1);
    }
    HandledAll(db.versions, start, v, order, entries, hash, |order|, block);
    queue, written := WriteSome(target, v, queue, true, out, before, written, zeroed, order, readings, |order|);
    r := Restored;
  }

  lemma {:induction false} NothingQueued(v: Version, out: Output, zeroed: set<nat>, order: seq<nat>,
                                         readings: nat -> Reading)
    ensures Queued(map[], v, out, zeroed, zeroed, order, readings, 0)
  {
    var none: map<nat, Bytes> := map[];
    assert zeroed + none.Keys == zeroed;
  }

  lemma {:induction false} ReadIsBlock(v: Version, order: seq<nat>, entries: Entries, hash: Hash, k: nat)
    requires CompletionOrder(order, v) && k < |order|
    ensures order[k] < Count(v) && (entries(order[k]).Data? ==> Out(v, entries)(order[k]) == entries(order[k]).data)
    ensures var reading := Readings(v, entries, hash)(order[k]);
            && (reading.Raised? <==> entries(order[k]).Fatal?) && (reading.Delivered? <==> entries(order[k]).Data?)
  {
    hide BlocksCount, BlockAt;
    assert order[k] in order;
  }

  /** The storage delivers the data of all blocks, with metadata that fits. */
  ghost predicate Delivers(v: Version, objects: Objects, entries: Entries) {
    forall i :: 0 <= i < Count(v) && BlockAt(v, i).uid.Some? ==> entries(i) == Data(DataAt(v, objects, i), true)
  }

  /** The data of all blocks has the recorded checksum. */
  ghost predicate ChecksumsFit(v: Version, objects: Objects, hash: Hash) {
    forall i :: 0 <= i < Count(v) && BlockAt(v, i).uid.Some? ==>
      BlockAt(v, i).checksum == Some(hash(DataAt(v, objects, i)))
  }

  /**
   * Restores a version. The target then holds what was read, zeros for blocks without uid unless the
   * restore is sparse, and what it held before wherever a read failed. Failed reads and data that does
   * not fit leave their marks in the tables; any other exception ends the restore.
   *
   * If all data is delivered the target starts with the version's content, on any target if the
   * restore is not sparse, and on a zeroed one if it is. The rest of the target is then untouched
   * unless a block without uid is short: that one is written as a full block of zeros.
   */
  method Restore(db: Database, id: VersionId, target: Target, sparse: bool, entries: Entries, hash: Hash)
    returns (r: Ending, order: seq<nat>, ghost written: set<nat>)
    requires id in db.versions && db.versions[id].size <= |target.image|
    modifies db`versions, target
    ensures CompletionOrder(order, old(db.versions)[id])
    ensures r.Restored? <==> forall k :: 0 <= k < |order| ==> !entries(order[k]).Fatal?
    ensures var v := old(db.versions)[id];
            var readings := Readings(v, entries, hash);
            var n := FirstRaised(order, readings, 0);
            && (n > 0 ==> Count(v) > 0) && db.versions == AfterReads(old(db.versions), v, order, readings, n)
            && HoldsFitting(target.image, old(target.image), v, Out(v, entries), written)
            && written <= Zeroed(v, sparse) + Delivering(order, readings, n)
            && (r.Restored? ==> n == |order| && written == Zeroed(v, sparse) + Delivering(order, readings, n))
    ensures old(Consistent(db.versions)) ==> Consistent(db.versions)
    ensures var v := old(db.versions)[id];
            Fills(v, db.objects) && Delivers(v, db.objects, entries) ==>
              && r.Restored? && v.size <= |target.image| && v.size <= |Content(v, db.objects)|
              && (!sparse || AllZero(old(target.image)[..v.size]) ==>
                    target.image[..v.size] == Content(v, db.objects)[..v.size])
              && TailAfter(target.image, old(target.image), v, Tail(v, db.objects, sparse))
              && (ChecksumsFit(v, db.objects, hash) ==> db.versions == old(db.versions))
  {
    hide HoldsFitting, BlocksCount, Consistent, AfterReads, Delivers, ChecksumsFit, Fills, TailAfter, Content, Tail,
      BlockAt;
    var v := db.versions[id];
    OutZeros(v, entries);
    var unread, zeroed := WriteSparseBlocks(target, v, sparse, Out(v, entries));
    order := AnyOrder(unread);
    assert zeroed == Zeroed(v, sparse);
    r, written := CompleteReads(db, v, target, order, entries, hash, old(target.image), zeroed);
    if Fills(v, db.objects) && Delivers(v, db.objects, entries) {
      AllDelivered(old(db.versions), v, db.objects, order, entries, hash, sparse);
      RestoredContent(target.image, old(target.image), v, db.objects, Out(v, entries), written, sparse);
    }
  }

  lemma {:induction false} OutZeros(v: Version, entries: Entries)
    ensures ZerosOut(v, Out(v, entries))
  {
  }

  /** If all data is delivered all blocks are written, and if it fits nothing is marked. */
  lemma {:induction false} AllDelivered(versions: Versions, v: Version, objects: Objects, order: seq<nat>,
                                        entries: Entries, hash: Hash, sparse: bool)
    requires CompletionOrder(order, v) && Delivers(v, objects, entries)
    ensures forall k :: 0 <= k < |order| ==> !entries(order[k]).Fatal?
    ensures DataOut(v, objects, Out(v, entries))
    ensures AllBlocks(v, Zeroed(v, sparse) + Delivering(order, Readings(v, entries, hash), |order|), sparse)
    ensures |order| > 0 ==> Count(v) > 0
    ensures ChecksumsFit(v, objects, hash) ==>
              AfterReads(versions, v, order, Readings(v, entries, hash), |order|) == versions
  {
    hide BlocksCount, AfterReads, DataAt;
    SomeBlock(v, order);
    forall k | 0 <= k < |order|
      ensures entries(order[k]) == Data(DataAt(v, objects, order[k]), true)
    {
      assert order[k] in order;
    }
    AllInOrder(order, Readings(v, entries, hash), |order|);
    assert order[..|order|] == order;
    if ChecksumsFit(v, objects, hash) {
      forall k | 0 <= k < |order| ensures Readings(v, entries, hash)(order[k]) == Delivered(true) {
        assert order[k] in order;
      }
      NothingMarked(versions, v, order, Readings(v, entries, hash), |order|);
    }
  }

  lemma {:induction false} AllInOrder(order: seq<nat>, readings: nat -> Reading, n: nat)
    requires n <= |order| && forall k :: 0 <= k < n ==> readings(order[k]).Delivered?
    ensures forall i :: i in Delivering(order, readings, n) <==> i in order[..n]
  {
    if n > 0 {
      AllInOrder(order, readings, n - 1);
      assert order[..n] == order[..n - 1] + [order[n - 1]];
    }
  }

  lemma {:induction false} NothingMarked(versions: Versions, v: Version, order: seq<nat>, readings: nat -> Reading,
                                         n: nat)
    requires n <= |order| && (n > 0 ==> Count(v) > 0)
    requires forall k :: 0 <= k < n ==> readings(order[k]) == Delivered(true)
    ensures AfterReads(versions, v, order, readings, n) == versions
  {
    hide BlocksCount;
    if n > 0 {
      NothingMarked(versions, v, order, readings, n - 1);
    }
  }

  /** A block whose read failed is left on the target as it was. */
  lemma {:induction false} FailedReadKeepsTarget(image: Bytes, before: Bytes, v: Version, order: seq<nat>,
                                                 entries: Entries, hash: Hash, sparse: bool, written: set<nat>, k: nat)
    requires CompletionOrder(order, v) && k < |order| && v.size <= |before| && Fitting(v, Out(v, entries))
    requires HoldsFitting(image, before, v, Out(v, entries), written)
    requires written == Zeroed(v, sparse) + Delivering(order, Readings(v, entries, hash), |order|)
    ensures order[k] < Count(v) && 0 < SizeAt(v.size, v.blockSize, order[k])
    ensures var at, end := At(order[k], v.blockSize), At(order[k], v.blockSize) + SizeAt(v.size, v.blockSize, order[k]);
            && end <= v.size <= |image|
            && (entries(order[k]).Broken? ==> image[at..end] == before[at..end])
            && (entries(order[k]).Data? ==>
                  var data := entries(order[k]).data;
                  at + |data| <= |image| && image[at..at + |data|] == data)
  {
    hide BlocksCount, BlockAt, Holds, Fitting;
    assert order[k] in order;
    DeliveredIff(v, order, entries, hash, k, |order|);
    assert order[k] !in Zeroed(v, sparse);
    ReadIsBlock(v, order, entries, hash, k);
    TargetBlock(image, before, v, Out(v, entries), written, order[k]);
  }

  lemma {:induction false} DeliveredIff(v: Version, order: seq<nat>, entries: Entries, hash: Hash, k: nat, n: nat)
    requires CompletionOrder(order, v) && n <= |order| && k < |order|
    ensures order[k] in Delivering(order, Readings(v, entries, hash), n) <==> k < n && entries(order[k]).Data?
  {
    hide BlocksCount, BlockAt;
    if n > 0 {
      DeliveredIff(v, order, entries, hash, k, n - 1);
      ReadIsBlock(v, order, entries, hash, n - 1);
    }
  }

  lemma {:induction false} SomeBlock(v: Version, order: seq<nat>)
    requires CompletionOrder(order, v)
    ensures |order| > 0 ==> Count(v) > 0
  {
    assert |order| > 0 ==> order[0] in order;
  }

  lemma {:induction false} MarkBlockKeeps(versions: Versions, row: Row)
    requires Pairwise(versions)
    ensures Pairwise(MarkBlock(versions, row)) && (Consistent(versions) ==> Consistent(MarkBlock(versions, row)))
  {
    hide Agree, Sound, Mark, MarkBare, Pairwise;
    AgreeIsPairwise(versions);
    AgreeIsPairwise(MarkBlock(versions, row));
    var bad :| Agree(versions, bad);
    match row.uid
    case None => MarkBareKeeps(versions, false, bad);
    case Some(uid) => MarkKeeps(versions, uid, false, bad);
  }

  // ---------------------------------------------------------------- which block is marked

  /** The block that the variable holds is the version's last one, or one whose read has delivered data. */
  lemma {:induction false} HeldIs(v: Version, order: seq<nat>, readings: nat -> Reading, k: nat)
    requires k <= |order| && Count(v) > 0
    ensures var h := Held(v, order, readings, k);
            if forall j :: 0 <= j < k ==> !readings(order[j]).Delivered? then h == Count(v) - 1
            else exists j :: 0 <= j < k && order[j] == h && readings(h).Delivered?
  {
    if k > 0 && !readings(order[k - 1]).Delivered? {
      HeldIs(v, order, readings, k - 1);
    }
  }

  /**
   * A failed read invalidates its own block if and only if the block it is mistaken for has the same
   * uid. Among blocks of different uids that is the case exactly for the version's last block, and
   * only while no read has delivered data.
   */
  lemma {:induction false} FailureMarksItself(versions: Versions, v: Version, order: seq<nat>, readings: nat -> Reading,
                                              k: nat)
    requires CompletionOrder(order, v) && k < |order| && readings(order[k]).Failed?
    ensures Count(v) > 0
    ensures var own, held := BlockAt(v, order[k]), BlockAt(v, Held(v, order, readings, k));
            Handled(versions, v, order, readings, k) == MarkBlock(versions, held) &&
            (Unlike(v) ==> (held.uid == own.uid <==>
                            order[k] == Count(v) - 1 && forall j :: 0 <= j < k ==> !readings(order[j]).Delivered?))
  {
    assert order[k] in order;
    var h := Held(v, order, readings, k);
    HeldIs(v, order, readings, k);
    if Unlike(v) && BlockAt(v, h).uid == BlockAt(v, order[k]).uid {
      assert h == order[k];
    }
  }

  /** No two blocks share a uid. */
  ghost predicate Unlike(v: Version) {
    forall i, j :: 0 <= i < j < Count(v) ==> BlockAt(v, i).uid.None? || BlockAt(v, i).uid != BlockAt(v, j).uid
  }

  /**
   * A failed read makes the version that is restored invalid if and only if the block it is mistaken
   * for has a uid, or some short block of the version has none.
   */
  lemma {:induction false} FailureInvalidates(versions: Versions, id: VersionId, v: Version, order: seq<nat>,
                                              readings: nat -> Reading, k: nat)
    requires k < |order| && Count(v) > 0 && readings(order[k]).Failed?
    requires id in versions && SameUids(versions[id], v) && RowsInside(v) && !versions[id].status.Invalid?
    ensures id in Handled(versions, v, order, readings, k)
    ensures Handled(versions, v, order, readings, k)[id].status.Invalid? <==>
            BlockAt(v, Held(v, order, readings, k)).uid.Some? || HasBareRow(v)
  {
    var held := BlockAt(v, Held(v, order, readings, k));
    match held.uid
    case Some(uid) =>
      HeldHasRow(v, order, readings, k);
      assert versions[id].rows[Held(v, order, readings, k)].uid == Some(uid);
      assert Uses(versions[id], uid);
    case None =>
      assert HasBareRow(versions[id]) <==> HasBareRow(v);
  }

  lemma {:induction false} HeldHasRow(v: Version, order: seq<nat>, readings: nat -> Reading, k: nat)
    requires k <= |order| && Count(v) > 0 && BlockAt(v, Held(v, order, readings, k)).uid.Some?
    ensures Held(v, order, readings, k) in v.rows
  {
  }

  // ---------------------------------------------------------------- two cases

  function TwoBlocks(a: BlockUid, b: Option<BlockUid>): Version {
    var rows: map<nat, Row> := map[0 := Row(Some(a), Some(1), 1, true)];
    Version(0, 2, 1, Valid, if b.Some? then rows[1 := Row(b, Some(2), 1, true)] else rows)
  }

  lemma {:induction false} TwoBlocksCount(v: Version)
    requires v.size == 2 && v.blockSize == 1
    ensures Count(v) == 2
  {
    assert At(1, 1) == 1 && At(2, 1) == 2;
    CountBounds(2, 1);
    BlockInside(2, 1, 0);
    BlocksCountIsCeiling(2, 1);
  }

  /** The second of two reads fails: the first block is marked invalid, and the second stays valid. */
  lemma {:induction false} WrongBlockMarked(a: BlockUid, b: BlockUid)
    requires a != b
    ensures var v := TwoBlocks(a, Some(b)); var readings := i => if i == 0 then Delivered(true) else Failed;
            && CompletionOrder([0, 1], v)
            && var after := AfterReads(map[7 := v], v, [0, 1], readings, 2);
            7 in after && after[7].status.Invalid?
              && after[7].rows.Keys == {0, 1} && !after[7].rows[0].valid && after[7].rows[1].valid
  {
    var v := TwoBlocks(a, Some(b));
    var readings := i => if i == 0 then Delivered(true) else Failed;
    TwoBlocksCount(v);
    assert [0, 1][0] == 0 && [0, 1][1] == 1;
    assert v.rows.Keys == {0, 1};
    assert AfterReads(map[7 := v], v, [0, 1], readings, 1) == map[7 := v];
    assert Held(v, [0, 1], readings, 1) == 0;
    var after := AfterReads(map[7 := v], v, [0, 1], readings, 2);
    assert after == Mark(map[7 := v], a, false);
    assert v.rows[0].uid == Some(a);
    assert after[7].rows[0] == MarkRow(v.rows[0], a, false) && after[7].rows[1] == MarkRow(v.rows[1], a, false);
  }

  /** The only read fails, and the last block is sparse: nothing is marked at all. */
  lemma {:induction false} FailureUnnoticed(a: BlockUid)
    ensures var v := TwoBlocks(a, None);
            CompletionOrder([0], v) && AfterReads(map[7 := v], v, [0], i => Failed, 1) == map[7 := v] && v.status.Valid?
  {
    var v := TwoBlocks(a, None);
    TwoBlocksCount(v);
    assert [0][0] == 0;
    var versions := map[7 := v];
    assert MarkBareVersion(v, false).rows == v.rows;
    assert MarkBare(versions, false) == versions;
  }

  // ---------------------------------------------------------------- the round trip

  lemma {:induction false} TruthfulChecksums(versions: Versions, objects: Objects, hash: Hash, id: VersionId)
    requires Truthful(versions, objects, hash) && id in versions && Intact(versions[id], objects)
    requires forall i :: 0 <= i < Count(versions[id]) ==> BlockAt(versions[id], i).valid
    ensures ChecksumsFit(versions[id], objects, hash)
  {
    hide BlocksCount, SizeAt;
    var v := versions[id];
    forall i | 0 <= i < Count(v) && BlockAt(v, i).uid.Some?
      ensures BlockAt(v, i).checksum == Some(hash(DataAt(v, objects, i)))
    {
      assert TruthfulRow(v.rows[i], v.storage, objects, hash);
    }
  }

  /**
   * Backing up and restoring reproduces the source, for every size and order of completions, and marks
   * nothing: always without hints, and with truthful hints exactly if no grown tail is lost. The rest of
   * the target stays, unless the base has a short block without uid that the version still has.
   */
  method BackupAndRestore(db: Database, id: VersionId, source: Bytes, blockSize: Pos, hints: Option<seq<Hint>>,
                          base: Option<VersionId>, hash: Hash, sample: set<nat>, date: int, faults: Faults,
                          target: Target, sparse: bool)
    returns (r: Outcome)
    requires FreshVersion(db.versions, db.objects, id) && Truthful(db.versions, db.objects, hash)
    requires CollisionFree(hash, PlanOf(db.versions, db.objects, db.versions[id].storage, source, blockSize, base,
                 hints))
    requires |source| <= |target.image| && (sparse ==> AllZero(target.image))
    modifies db`versions, db`objects, db`deleted, target
    ensures r.Ok? ==> BaseFits(old(db.versions), id, base, blockSize)
    ensures r.Ok? ==> id in db.versions && db.versions == old(db.versions)[id := db.versions[id]]
    ensures r.Ok? ==> |source| <= |target.image| && db.versions[id].size == |source|
                      && TailAfter(target.image, old(target.image), db.versions[id],
                             Tail(db.versions[id], db.objects, sparse))
    ensures r.Ok? && hints.None? ==> target.image[..|source|] == source
    ensures r.Ok? && hints.Some? ==>
              var p := PlanOf(old(db.versions), old(db.objects), old(db.versions)[id].storage, source, blockSize, base,
                  hints);
              GoodBase(p) && DiscardsAreZero(hints.value, source) && OutsideUnchanged(hints.value, p) ==>
                (target.image[..|source|] == source <==> !LosesTail(p) && !KeepsOverhang(p))
    ensures r.Ok? && (base.Some? ==> ShortHasUid(old(db.versions)[base.value])) ==>
              && Tail(db.versions[id], db.objects, sparse) == []
              && target.image == target.image[..|source|] + old(target.image)[|source|..]
  {
    hide Truthful, CollisionFree, OutsideUnchanged, DiscardsAreZero, LosesTail, KeepsOverhang, GoodBase, Sourced,
      RemovalRecorded, SampleAgrees, SampleFails, ReadFails, WriteFails, HalfDone, OnlyRows, AfterFailure, PlanOf,
      BlocksCount, At, HoldsFitting, Consistent, AfterReads, Extends;
    r := Backup.Backup(db, id, source, blockSize, hints, base, hash, sample, date, faults);
    if r.Ok? {
      var v, objects := db.versions[id], db.objects;
      TruthfulChecksums(db.versions, objects, hash, id);
      var entries := (i: nat) => Data(DataAt(v, objects, i), true);
      assert Delivers(v, objects, entries);
      var ending, order, written := Restore(db, id, target, sparse, entries, hash);
      SizedTail(v, objects);
      assert ShortHasUid(v) ==> !HasBareTail(v);
      hide Content, TailAfter, HasBareTail, ShortHasUid, WellSized, Intact, Tail, Fills;
      assert Content(v, objects)[..v.size] == Content(v, objects);
      if !HasBareTail(v) { RestEquals(target.image, old(target.image), v); }
    }
  }

  lemma {:induction false} RestEquals(image: Bytes, before: Bytes, v: Version)
    requires v.size <= |before| && v.size <= |image|
    requires TailAfter(image, before, v, [])
    ensures image == image[..v.size] + before[v.size..]
  {
    assert image[v.size..] == before[v.size..];
    assert image == image[..v.size] + image[v.size..];
  }
}
