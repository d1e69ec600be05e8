/**
 * The sizes of blocks over runs of operations: which versions have blocks that do not make up their
 * size, and what the usage report then makes of them.
 */
module BlockSizes {
  import opened Arithmetic
  import opened Images
  import opened Tables
  import opened Clone
  import opened Backup
  import opened Validity
  import opened Scrub
  import opened RestoreMarks
  import opened Nbd
  import opened Operations
  import opened Unfinished
  import Usage

  /** The versions that have a block which does not have its proper size. */
  ghost function IllSized(versions: Versions): set<VersionId> {
    set id | id in versions && !WellSized(versions[id])
  }

  /** Only fixating a session that has copied a bare tail adds one, or creating a version that already is one. */
  ghost predicate Overfills(op: Operation) {
    match op
    case CreateVersion(_, v) => !WellSized(v)
    case FixateVersion(_, base, copied, _) => CopiesBareTail(base, copied)
    case _ => false
  }

  ghost function IllSizedAfter(t: State, s: State, op: Operation, before: set<VersionId>): set<VersionId> {
    if Overfills(op) then before + {op.id}
    else if op.RemoveVersion? || ((op.BackUpVersion? || op.OpenSession?) && t != s) then before - {op.id}
    else before
  }

  /** All of them have their blocks filled, the last one beyond the image's end if need be. */
  ghost predicate AllFilling(versions: Versions) {
    forall id :: id in versions ==> Filling(versions[id])
  }

  // ---------------------------------------------------------------- each operation

  lemma {:induction false} SameSizes(w: Version, v: Version)
    requires SameUids(w, v)
    ensures (WellSized(w) <==> WellSized(v)) && (Filling(w) <==> Filling(v))
  {
    hide BlocksCount, SizeAt;
    assert forall i: nat :: BlockAt(w, i).size == BlockAt(v, i).size;
  }

  lemma {:induction false} SameTablesSizes(t: Versions, s: Versions)
    requires SameTables(t, s)
    ensures IllSized(t) == IllSized(s) && (AllFilling(s) ==> AllFilling(t))
  {
    hide SameUids, WellSized, Filling;
    forall id | id in s ensures (WellSized(t[id]) <==> WellSized(s[id])) && (Filling(t[id]) <==> Filling(s[id])) {
      SameSizes(t[id], s[id]);
    }
  }

  lemma {:induction false} MarksKeepTables(versions: Versions, row: Row)
    ensures SameTables(MarkBlock(versions, row), versions)
  {
    assert SameTables(versions, versions);
    hide SameTables, Mark, MarkBare;
    match row.uid
    case None => MarkBareSameTables(versions, false);
    case Some(uid) => MarkSameUids(versions, versions, uid, false);
  }

  lemma {:induction false} SameTwice(a: Versions, b: Versions, c: Versions)
    requires SameTables(a, b) && SameTables(b, c)
    ensures SameTables(a, c)
  {
    forall id | id in c ensures SameUids(a[id], c[id]) {
      assert SameUids(a[id], b[id]) && SameUids(b[id], c[id]);
    }
  }

  lemma {:induction false} ReadsKeepTables(versions: Versions, v: Version, order: seq<nat>, readings: nat -> Reading,
                                           n: nat)
    requires n <= |order| && (n > 0 ==> Count(v) > 0)
    ensures SameTables(AfterReads(versions, v, order, readings, n), versions)
  {
    hide MarkBlock, SameUids;
    if n == 0 {
      assert SameTables(versions, versions) by { Scrub.Unchanged(versions); }
    } else {
      hide SameTables;
      var before := AfterReads(versions, v, order, readings, n - 1);
      var row, held := BlockAt(v, order[n - 1]), BlockAt(v, Held(v, order, readings, n - 1));
      Scrub.Unchanged(before);
      ReadsKeepTables(versions, v, order, readings, n - 1);
      MarksKeepTables(before, row);
      MarksKeepTables(before, held);
      SameTwice(AfterReads(versions, v, order, readings, n), before, versions);
    }
  }

  /** One version is replaced by a well-sized one, or goes. */
  lemma {:induction false} OneReplaced(t: Versions, s: Versions, id: VersionId)
    requires t == s - {id} || (id in t && t == s[id := t[id]] && WellSized(t[id]))
    ensures IllSized(t) == IllSized(s) - {id} && (AllFilling(s) ==> AllFilling(t))
  {
    hide BlocksCount, SizeAt, BlockAt;
  }

  lemma {:induction false} BackUpBlocks(s: Versions, t: Versions, id: VersionId, base: Option<VersionId>, size: nat,
                                        blockSize: Pos)
    requires BackUpEffect(s, t, id, base, size, blockSize)
    ensures IllSized(t) == (if t == s then IllSized(s) else IllSized(s) - {id}) && (AllFilling(s) ==> AllFilling(t))
  {
    hide Unminted, NewSizesAlike, WellSized, Filling, RowsFrom, Sourced;
    if t != s { OneReplaced(t, s, id); }
  }

  /** A created version has no rows, so that all its blocks are full. */
  lemma {:induction false} CreatedBlocks(s: Versions, id: VersionId, v: Version)
    requires id !in s && v.rows == map[]
    ensures IllSized(s[id := v]) == (if WellSized(v) then IllSized(s) else IllSized(s) + {id})
    ensures AllFilling(s) ==> AllFilling(s[id := v])
  {
    hide WellSized, BlocksCount, SizeAt;
    assert Filling(v);
    hide Filling;
  }

  /** A fixated version has blocks of proper size, or full ones where a bare tail was copied. */
  lemma {:induction false} FixatedSizes(s: Versions, t: Versions, id: VersionId, base: Version, copied: map<nat, Bytes>,
                                        hash: Hash)
    requires FixateEffect(s, t, id, base, copied, hash)
    ensures Filling(t[id]) && WellSized(s[id]) && (WellSized(t[id]) <==> !CopiesBareTail(base, copied))
  {
    hide BlocksCount, SizeAt, Unminted;
    var w, b := t[id], base.blockSize;
    forall k | 0 <= k < Count(w)
      ensures BlockAt(w, k).size == if k in copied then CopySize(base, k) else SizeAt(base.size, b, k)
      ensures BlockAt(base, k).size == SizeAt(base.size, b, k)
    {
      FixatedSize(s, t, id, base, copied, hash, k);
    }
    if CopiesBareTail(base, copied) {
      var i :| i in copied && BlockAt(base, i).uid.None? && SizeAt(base.size, b, i) != b;
      assert i < Count(w) && BlockAt(w, i).size == b;
    }
  }

  lemma {:induction false} FixatedSize(s: Versions, t: Versions, id: VersionId, base: Version, copied: map<nat, Bytes>,
                                       hash: Hash, k: nat)
    requires FixateEffect(s, t, id, base, copied, hash) && k < Count(t[id])
    ensures k < Count(base) && BlockAt(base, k).size == SizeAt(base.size, base.blockSize, k)
    ensures BlockAt(t[id], k).size ==
            if k in copied then CopySize(base, k) else SizeAt(base.size, base.blockSize, k)
  {
    hide BlocksCount, SizeAt, Unminted;
    assert BlockAt(t[id], k) == BlockFixed(base, copied, id, hash, k);
    assert BlockAt(s[id], k) == BlockAt(base, k);
    if k in copied { assert |copied[k]| == CopySize(base, k); }
  }

  lemma {:induction false} FixateBlockSizes(s: Versions, t: Versions, id: VersionId, base: Version,
                                            copied: map<nat, Bytes>, hash: Hash)
    requires FixateEffect(s, t, id, base, copied, hash)
    ensures IllSized(t) == (if CopiesBareTail(base, copied) then IllSized(s) + {id} else IllSized(s))
    ensures AllFilling(s) ==> AllFilling(t)
  {
    FixatedSizes(s, t, id, base, copied, hash);
    hide FixedRows, WellSized, Filling, Unminted, CopiesBareTail, Copies, BlockAt, BlocksCount;
  }

  /** What an operation makes of the versions with blocks of other than their proper size. */
  lemma {:induction false} OperationSizes(s: State, t: State, op: Operation)
    requires Effect(s, t, op)
    ensures IllSized(t.versions) == IllSizedAfter(t, s, op, IllSized(s.versions))
    ensures AllFilling(s.versions) ==> AllFilling(t.versions)
  {
    hide BackUpEffect, OpenEffect, FixateEffect, SameTables, AfterReads, CompletionOrder, Unminted, WellSized, Filling,
      CopiesBareTail, IllSized, AllFilling;
    match op
    case CreateVersion(id, v) => CreatedBlocks(s.versions, id, v);
    case BackUpVersion(id, base, size, blockSize) => BackUpBlocks(s.versions, t.versions, id, base, size, blockSize);
    case StartBatch =>
    case ScrubOne(id, left, verdicts) => SameTablesSizes(t.versions, s.versions);
    case DeepScrubOne(id, left, full, verdicts) => SameTablesSizes(t.versions, s.versions);
    case RestoreVersion(id, order, readings) =>
      ReadsKeepTables(s.versions, s.versions[id], order, readings, FirstRaised(order, readings, 0));
      SameTablesSizes(t.versions, s.versions);
    case RemoveVersion(id) => OneReplaced(t.versions, s.versions, id);
    case OpenSession(id, base) =>
      OpenIsBackUp(s.versions, t.versions, id, base);
      BackUpBlocks(s.versions, t.versions, id, Some(base), s.versions[base].size, s.versions[base].blockSize);
    case FixateVersion(id, base, copied, hash) => FixateBlockSizes(s.versions, t.versions, id, base, copied, hash);
  }

  // ---------------------------------------------------------------- runs

  /** The versions that operations have left with blocks of other than their proper size, after the first `n`. */
  ghost function IllSizedAt(states: seq<State>, ops: seq<Operation>, n: nat): set<VersionId>
    requires IsRun(states, ops) && n <= |ops|
  {
    if n == 0 then IllSized(states[0].versions)
    else IllSizedAfter(states[n], states[n - 1], ops[n - 1], IllSizedAt(states, ops, n - 1))
  }

  /**
   * Over every sequence of operations, the versions whose blocks do not have their proper sizes are
   * those that were fixated with a copied bare tail, or created so, and not removed or filled since;
   * their last block is a full one.
   */
  lemma {:induction false} RunSizes(states: seq<State>, ops: seq<Operation>, n: nat)
    requires IsRun(states, ops) && n <= |ops|
    ensures IllSized(states[n].versions) == IllSizedAt(states, ops, n)
    ensures AllFilling(states[0].versions) ==> AllFilling(states[n].versions)
  {
    hide Effect, IllSized, AllFilling, IllSizedAfter;
    if n > 0 {
      RunSizes(states, ops, n - 1);
      OperationSizes(states[n - 1], states[n], ops[n - 1]);
    }
  }

  /** All versions are well-sized all the time, if and only if no operation overfills one. */
  lemma {:induction false} RunWellSizedIff(states: seq<State>, ops: seq<Operation>, n: nat)
    requires IsRun(states, ops) && n <= |ops| && IllSized(states[0].versions) == {}
    ensures (forall k :: 0 <= k <= n ==> IllSized(states[k].versions) == {}) <==>
            forall k :: 0 <= k < n ==> !Overfills(ops[k])
  {
    hide Effect, IllSized, Overfills;
    if n > 0 {
      RunWellSizedIff(states, ops, n - 1);
      OperationSizes(states[n - 1], states[n], ops[n - 1]);
    }
  }

  /** In such tables every valid version has all its data, and can be the base of a backup or a session. */
  lemma {:induction false} ValidVersionsFill(versions: Versions, objects: Objects, hash: Hash, id: VersionId)
    requires Truthful(versions, objects, hash) && Consistent(versions) && AllFilling(versions)
    requires id in versions && versions[id].status.Valid?
    ensures Fills(versions[id], objects)
  {
    hide BlocksCount, SizeAt;
    var v := versions[id];
    assert AllValid(v) && Filling(v);
    forall i | 0 <= i < Count(v) ensures |DataAt(v, objects, i)| == BlockAt(v, i).size {
      if i in v.rows { assert TruthfulRow(v.rows[i], v.storage, objects, hash); }
    }
  }

  // ---------------------------------------------------------------- a report of less than nothing

  /** The run that approves an unfinished version goes on with a session on that version. */
  function SessionTables(): Versions {
    ApprovedTables()[3 := Version(0, 0, 2, Incomplete, map[])]
  }

  function ClonedTables(): Versions {
    ApprovedTables()[3 := Version(0, 3, 2, Incomplete, HalfDoneVersion().rows)]
  }

  /** The session copies the short last block, and is fixated. */
  function FixatedVersion(copy: Bytes, hash: Hash): Version {
    var row := FixedRow(copy, 3, 1, hash, 2);
    Version(0, 3, 2, Valid, if row.uid.Some? then map[0 := SharedRow(), 1 := row] else map[0 := SharedRow()])
  }

  function FixatedTables(copy: Bytes, hash: Hash): Versions {
    ApprovedTables()[3 := FixatedVersion(copy, hash)]
  }

  function SessionOps(copy: Bytes, hash: Hash): seq<Operation> {
    [CreateVersion(3, SessionTables()[3]), OpenSession(3, 2),
     FixateVersion(3, ClonedTables()[3], map[1 := copy], hash)]
  }

  function SessionStates(copy: Bytes, hash: Hash): seq<State> {
    var history: History := {(0, SHARED)};
    [State(ApprovedTables(), history), State(SessionTables(), history), State(ClonedTables(), history),
     State(FixatedTables(copy, hash), history)]
  }

  lemma {:induction false} ApprovedVersions()
    ensures ApprovedTables() == map[1 := OneBlock().(status := Invalid), 2 := HalfDoneVersion().(status := Valid)]
  {
    hide MarkVersion;
    SecondVersions();
    MarkFirst(OneBlock(), false);
    MarkFirst(ScrubbedTables()[1], true);
    assert RevalidatedTables()[1].rows == OneBlock().rows;
  }

  lemma {:induction false} Creates()
    ensures 3 !in ApprovedTables() && Unminted(ApprovedTables(), 3)
  {
    ApprovedVersions();
    hide ApprovedTables;
  }

  lemma {:induction false} Clones()
    ensures PreparedTables(SessionTables(), 3, Some(2), 3, 2) == ClonedTables()
  {
    hide ApprovedTables, BlocksCount, SizeAt;
    ApprovedVersions();
    Sizes(3, 2);
    var base := HalfDoneVersion().(status := Valid);
    assert ClonedRow(Some(base), 3, 2, 0) == SharedRow();
    assert ClonedRow(Some(base), 3, 2, 1) == Row(None, None, 1, false);
    assert ClonedRows(Some(base), 3, 2, 2) == HalfDoneVersion().rows;
  }

  lemma {:induction false} Opens()
    ensures OpenEffect(SessionTables(), ClonedTables(), 3, 2)
  {
    hide ApprovedTables, BlocksCount, SizeAt, PreparedTables, ClonedTables;
    Clones();
    ApprovedVersions();
  }

  lemma {:induction false} Fixed(copy: Bytes, hash: Hash)
    requires |copy| == 2
    ensures var base := ClonedTables()[3];
            && WellSized(base) && Copies(base, map[1 := copy]) && CopiesBareTail(base, map[1 := copy])
            && FixedRows(FixatedVersion(copy, hash), base, map[1 := copy], 3, hash)
  {
    hide ApprovedTables, BlocksCount, SizeAt;
    Sizes(3, 2);
    var base, w := ClonedTables()[3], FixatedVersion(copy, hash);
    assert BlockAt(base, 1).uid.None?;
    assert forall k: nat :: k < 2 ==> BlockAt(w, k) == BlockFixed(base, map[1 := copy], 3, hash, k);
  }

  lemma {:induction false} Fixates(copy: Bytes, hash: Hash)
    requires |copy| == 2
    ensures FixateEffect(ClonedTables(), FixatedTables(copy, hash), 3, ClonedTables()[3], map[1 := copy], hash)
  {
    hide ApprovedTables, BlocksCount, SizeAt, FixedRows, WellSized, Copies, CopiesBareTail, FixedRow, BlockAt;
    ApprovedVersions();
    Fixed(copy, hash);
    assert ClonedTables()[3 := FixatedVersion(copy, hash)] == FixatedTables(copy, hash);
  }

  /** From there, three operations lead to a valid version that an NBD session was fixated to. */
  lemma {:induction false} SessionRuns(copy: Bytes, hash: Hash)
    requires |copy| == 2
    ensures var states, ops := SessionStates(copy, hash), SessionOps(copy, hash);
            IsRun(states, ops) && states[0] == ApprovalStates()[3] && Overfills(ops[2])
  {
    hide ApprovedTables, BlocksCount, SizeAt, OpenEffect, FixateEffect, FixatedTables, ClonedTables, Unminted,
      CopiesBareTail;
    Creates();
    Opens();
    Fixed(copy, hash);
    Fixates(copy, hash);
  }

  /** What is reported as sparse for one version, and the size of its blocks without uid. */
  ghost predicate Reports(versions: Versions, id: VersionId, reported: int, sparse: nat)
    requires id in versions
  {
    var storage := versions[id].storage;
    && Usage.Remainder(versions, {id}, storage) == reported
    && Usage.Sum({id}, Usage.SparsePart(versions, storage)) == sparse
  }

  /**
   * If what the session has written to the short last block is not zero, the report has -1 for the
   * size of the version's blocks without uid, of which there are none; else it has 1, and there is
   * one, of size 2.
   */
  lemma {:induction false} NegativeReport(copy: Bytes, hash: Hash)
    requires |copy| == 2
    ensures FixedRow(copy, 3, 1, hash, 2).uid.Some? ==> Reports(FixatedTables(copy, hash), 3, -1, 0)
    ensures FixedRow(copy, 3, 1, hash, 2).uid.None? ==> Reports(FixatedTables(copy, hash), 3, 1, 2)
  {
    hide ApprovedTables, BlocksCount, SizeAt;
    Sizes(3, 2);
    var t, w, row := FixatedTables(copy, hash), FixatedVersion(copy, hash), FixedRow(copy, 3, 1, hash, 2);
    assert t[3] == w && RowsInside(w) && Dense(w) == [SharedRow(), row] && row.size == 2;
    hide FixatedTables, FixatedVersion, FixedRow, Dense, RowsInside;
    Usage.OneVersion(t, 3);
    TwoRows(SharedRow(), row);
  }

  lemma {:induction false} TwoRows(a: Row, b: Row)
    ensures Usage.UidSizes([a, b]) == (if a.uid.Some? then a.size else 0) + if b.uid.Some? then b.size else 0
    ensures Usage.SparseSizes([a, b]) == (if a.uid.None? then a.size else 0) + if b.uid.None? then b.size else 0
  {
    assert [a, b][..1] == [a] && [a][..0] == [];
    assert Usage.UidSizes([a]) == if a.uid.Some? then a.size else 0;
    assert Usage.SparseSizes([a]) == if a.uid.None? then a.size else 0;
  }
}
