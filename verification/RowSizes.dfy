/**
 * Rows that share a uid share its size, over every run of operations and whatever the rows' validity;
 * so that the usage report tells what a removal frees.
 */
module RowSizes {
  import opened Arithmetic
  import opened Images
  import opened Tables
  import opened Clone
  import opened Backup
  import opened Validity
  import opened Scrub
  import opened RestoreMarks
  import opened Nbd
  import opened Operations
  import BlockSizes
  import Usage

  /** If two rows share a uid, they share its size. */
  ghost predicate SameSize(a: Row, b: Row) {
    a.uid.Some? && a.uid == b.uid ==> a.size == b.size
  }

  ghost predicate SizesAlike(versions: Versions) {
    forall k, l, i, j :: k in versions && l in versions && i in versions[k].rows && j in versions[l].rows ==>
      SameSize(versions[k].rows[i], versions[l].rows[j])
  }

  /** Some row has this uid and size. */
  ghost predicate Recorded(versions: Versions, uid: BlockUid, size: nat) {
    exists k, i :: k in versions && i in versions[k].rows
      && versions[k].rows[i].uid == Some(uid) && versions[k].rows[i].size == size
  }

  // ---------------------------------------------------------------- each operation

  lemma {:induction false} FewerRows(s: Versions, id: VersionId)
    requires SizesAlike(s)
    ensures SizesAlike(s - {id})
  {
  }

  lemma {:induction false} SameRows(t: Versions, s: Versions)
    requires SizesAlike(s) && SameTables(t, s)
    ensures SizesAlike(t)
  {
    forall k, l, i, j | k in t && l in t && i in t[k].rows && j in t[l].rows
      ensures SameSize(t[k].rows[i], t[l].rows[j])
    {
      assert SameUids(t[k], s[k]) && SameUids(t[l], s[l]);
      assert SameSize(s[k].rows[i], s[l].rows[j]);
    }
  }

  /** Each row of the version is recorded already, or has a uid that the version has minted, of one size. */
  ghost predicate Filled(v: Version, s: Versions, id: VersionId) {
    && NewSizesAlike(v, id)
    && forall i :: i in v.rows && v.rows[i].uid.Some? ==>
         MintedBy(v.rows[i], id) || Recorded(s, v.rows[i].uid.value, v.rows[i].size)
  }

  lemma {:induction false} OneRecord(s: Versions, uid: BlockUid, a: nat, b: nat)
    requires SizesAlike(s) && Recorded(s, uid, a) && Recorded(s, uid, b)
    ensures a == b
  {
    var k, i :| k in s && i in s[k].rows && s[k].rows[i].uid == Some(uid) && s[k].rows[i].size == a;
    var l, j :| l in s && j in s[l].rows && s[l].rows[j].uid == Some(uid) && s[l].rows[j].size == b;
    assert SameSize(s[k].rows[i], s[l].rows[j]);
  }

  lemma {:induction false} RecordOf(t: Versions, s: Versions, id: VersionId, v: Version, k: VersionId, i: nat)
    requires t == s[id := v] && Unminted(s, id) && Filled(v, s, id)
    requires k in t && i in t[k].rows && t[k].rows[i].uid.Some?
    ensures MintedBy(t[k].rows[i], id) ==> k == id
    ensures !MintedBy(t[k].rows[i], id) ==> Recorded(s, t[k].rows[i].uid.value, t[k].rows[i].size)
  {
    hide NewSizesAlike;
    if k != id {
      assert s[k].rows[i] == t[k].rows[i];
    }
  }

  lemma {:induction false} FilledAlike(t: Versions, s: Versions, id: VersionId, v: Version)
    requires SizesAlike(s) && t == s[id := v] && Unminted(s, id) && Filled(v, s, id)
    ensures SizesAlike(t)
  {
    hide Unminted, Recorded, MintedBy;
    forall k, l, i, j | k in t && l in t && i in t[k].rows && j in t[l].rows
      ensures SameSize(t[k].rows[i], t[l].rows[j])
    {
      var a, b := t[k].rows[i], t[l].rows[j];
      if a.uid.Some? && a.uid == b.uid {
        hide SizesAlike, Filled;
        RecordOf(t, s, id, v, k, i);
        RecordOf(t, s, id, v, l, j);
        SameMint(a, b, id);
        if MintedBy(a, id) {
          NewAlike(v, s, id, i, j);
        } else {
          OneRecord(s, a.uid.value, a.size, b.size);
        }
      }
    }
  }

  lemma {:induction false} SameMint(a: Row, b: Row, id: VersionId)
    requires a.uid == b.uid
    ensures MintedBy(a, id) <==> MintedBy(b, id)
  {
  }

  lemma {:induction false} NewAlike(v: Version, s: Versions, id: VersionId, i: nat, j: nat)
    requires Filled(v, s, id) && i in v.rows && j in v.rows && MintedBy(v.rows[i], id) && v.rows[j].uid == v.rows[i].uid
    ensures v.rows[i].size == v.rows[j].size
  {
  }

  lemma {:induction false} KnownRecorded(s: Versions, storage: StorageId, row: Row)
    requires Known(s, storage, row) && row.uid.Some?
    ensures Recorded(s, row.uid.value, row.size)
  {
    var k, i :| k in s && s[k].storage == storage && i in s[k].rows && s[k].rows[i] == row;
  }

  lemma {:induction false} SourcedRecorded(row: Row, s: Versions, id: VersionId)
    requires id in s && Sourced(row, s, id) && row.uid.Some?
    ensures MintedBy(row, id) || Recorded(s, row.uid.value, row.size)
  {
    hide Known, Recorded;
    if row.uid.value.left != id { KnownRecorded(s, s[id].storage, row); }
  }

  lemma {:induction false} SucceededFilled(s: Versions, t: Versions, id: VersionId)
    requires id in s && Succeeds(s, t, id)
    ensures Filled(t[id], s, id)
  {
    hide Recorded, NewSizesAlike, Sourced, MintedBy;
    forall i | i in t[id].rows && t[id].rows[i].uid.Some?
      ensures MintedBy(t[id].rows[i], id) || Recorded(s, t[id].rows[i].uid.value, t[id].rows[i].size)
    {
      SourcedRecorded(t[id].rows[i], s, id);
    }
  }

  lemma {:induction false} GivenUpFilled(s: Versions, t: Versions, id: VersionId, base: Option<VersionId>, size: nat,
                                         blockSize: Pos)
    requires id in s && GivesUp(s, t, id, base, size, blockSize)
    ensures t == s[id := t[id]] && Filled(t[id], s, id)
  {
    hide Recorded, NewSizesAlike, Known, ClonedRows, MintedBy;
    var v := Prepared(s[id], BaseOf(s, base), size, blockSize);
    assert PreparedTables(s, id, base, size, blockSize) == s[id := v];
    forall i | i in t[id].rows && t[id].rows[i].uid.Some?
      ensures MintedBy(t[id].rows[i], id) || Recorded(s, t[id].rows[i].uid.value, t[id].rows[i].size)
    {
      var row := t[id].rows[i];
      if i in v.rows && row == v.rows[i] {
        ClonedSource(s, base, id, size, blockSize, i);
        KnownRecorded(s, s[id].storage, row);
      } else {
        SourcedRow(s, base, id, size, blockSize, row, i);
        SourcedRecorded(row, s, id);
      }
    }
  }

  lemma {:induction false} BackUpSizes(s: Versions, t: Versions, id: VersionId, base: Option<VersionId>, size: nat,
                                       blockSize: Pos)
    requires SizesAlike(s) && BackUpEffect(s, t, id, base, size, blockSize)
    ensures SizesAlike(t)
  {
    hide SizesAlike, Unminted, Filled, GivesUp;
    if t == s {
    } else if t == s - {id} {
      FewerRows(s, id);
    } else {
      if GivesUp(s, t, id, base, size, blockSize) {
        GivenUpFilled(s, t, id, base, size, blockSize);
      } else {
        SucceededFilled(s, t, id);
      }
      FilledAlike(t, s, id, t[id]);
    }
  }

  /** A fixated row is a copy's, with a uid of its own, or the base's. */
  lemma {:induction false} FixatedFilled(s: Versions, t: Versions, id: VersionId, base: Version,
                                         copied: map<nat, Bytes>, hash: Hash)
    requires FixateEffect(s, t, id, base, copied, hash)
    ensures Filled(t[id], s, id)
  {
    hide BlocksCount, FixedRows, BlockAt, Unminted;
    var v := t[id];
    forall i | i in v.rows && v.rows[i].uid.Some?
      ensures if i in copied then v.rows[i].uid == Some(BlockUid(id, i + 1))
              else i in s[id].rows && v.rows[i] == s[id].rows[i]
    {
      FixatedRow(s[id], v, base, copied, id, hash, i);
    }
    forall i | i in v.rows && MintedBy(v.rows[i], id) ensures v.rows[i].uid == Some(BlockUid(id, i + 1)) {
      if i !in copied { UnmintedRow(s, id, id, i); }
    }
  }

  lemma {:induction false} MarkBlockSizes(versions: Versions, row: Row)
    requires SizesAlike(versions)
    ensures SizesAlike(MarkBlock(versions, row))
  {
    hide SizesAlike, Mark, MarkBare;
    assert SameTables(versions, versions);
    hide SameTables;
    match row.uid
    case None =>
      MarkBareSameTables(versions, false);
      SameRows(MarkBare(versions, false), versions);
    case Some(uid) =>
      MarkSameUids(versions, versions, uid, false);
      SameRows(Mark(versions, uid, false), versions);
  }

  lemma {:induction false} RestoreSizes(versions: Versions, v: Version, order: seq<nat>, readings: nat -> Reading,
                                        n: nat)
    requires SizesAlike(versions) && n <= |order| && (n > 0 ==> Count(v) > 0)
    ensures SizesAlike(AfterReads(versions, v, order, readings, n))
  {
    hide SizesAlike, MarkBlock;
    if n > 0 {
      var before := AfterReads(versions, v, order, readings, n - 1);
      RestoreSizes(versions, v, order, readings, n - 1);
      MarkBlockSizes(before, BlockAt(v, order[n - 1]));
      MarkBlockSizes(before, BlockAt(v, Held(v, order, readings, n - 1)));
    }
  }

  /** Every operation keeps the agreement on sizes, also where it breaks the consistency of flags. */
  lemma {:induction false} OperationKeepsSizes(s: State, t: State, op: Operation)
    requires SizesAlike(s.versions) && Effect(s, t, op)
    ensures SizesAlike(t.versions)
  {
    hide SizesAlike, BackUpEffect, OpenEffect, FixateEffect, SameTables, AfterReads, CompletionOrder, Unminted;
    match op
    case CreateVersion(id, v) => CreateSizes(s.versions, id, v);
    case BackUpVersion(id, base, size, blockSize) => BackUpSizes(s.versions, t.versions, id, base, size, blockSize);
    case StartBatch =>
    case ScrubOne(id, left, verdicts) => SameRows(t.versions, s.versions);
    case DeepScrubOne(id, left, full, verdicts) => SameRows(t.versions, s.versions);
    case RestoreVersion(id, order, readings) =>
      RestoreSizes(s.versions, s.versions[id], order, readings, FirstRaised(order, readings, 0));
    case RemoveVersion(id) => FewerRows(s.versions, id);
    case OpenSession(id, base) =>
      OpenIsBackUp(s.versions, t.versions, id, base);
      BackUpSizes(s.versions, t.versions, id, Some(base), s.versions[base].size, s.versions[base].blockSize);
    case FixateVersion(id, base, copied, hash) => FixateSizes(s.versions, t.versions, id, base, copied, hash);
  }

  lemma {:induction false} CreateSizes(s: Versions, id: VersionId, v: Version)
    requires SizesAlike(s) && v.rows == map[]
    ensures SizesAlike(s[id := v])
  {
  }

  lemma {:induction false} FixateSizes(s: Versions, t: Versions, id: VersionId, base: Version, copied: map<nat, Bytes>,
                                       hash: Hash)
    requires SizesAlike(s) && FixateEffect(s, t, id, base, copied, hash)
    ensures SizesAlike(t)
  {
    hide SizesAlike, FixedRows, Unminted, Filled, BlockAt, BlocksCount;
    FixatedFilled(s, t, id, base, copied, hash);
    FilledAlike(t, s, id, t[id]);
  }

  /** Over every sequence of operations that starts with agreeing sizes, all rows of a uid always agree on its size. */
  lemma {:induction false} RunKeepsSizes(states: seq<State>, ops: seq<Operation>, n: nat)
    requires IsRun(states, ops) && SizesAlike(states[0].versions) && n <= |ops|
    ensures SizesAlike(states[n].versions)
  {
    hide SizesAlike, Effect;
    if n > 0 {
      RunKeepsSizes(states, ops, n - 1);
      OperationKeepsSizes(states[n - 1], states[n], ops[n - 1]);
    }
  }

  // ---------------------------------------------------------------- the usage report

  /** The size that the rows of a uid record. */
  ghost function RecordedSize(versions: Versions): BlockUid -> nat {
    uid => if exists size :: Recorded(versions, uid, size) then var size :| Recorded(versions, uid, size); size else 0
  }

  lemma {:induction false} AlikeAgree(versions: Versions, storage: StorageId)
    requires SizesAlike(versions)
    ensures Usage.SizesAgree(versions, storage, RecordedSize(versions))
  {
    hide SizesAlike, Recorded;
    forall id, i | Usage.IsRef(versions, storage, Usage.Ref(id, i))
      ensures versions[id].rows[i].size == RecordedSize(versions)(versions[id].rows[i].uid.value)
    {
      var uid := versions[id].rows[i].uid.value;
      IsRecorded(versions, id, i);
      OneRecord(versions, uid, versions[id].rows[i].size, RecordedSize(versions)(uid));
    }
  }

  lemma {:induction false} IsRecorded(versions: Versions, id: VersionId, i: nat)
    requires id in versions && i in versions[id].rows && versions[id].rows[i].uid.Some?
    ensures Recorded(versions, versions[id].rows[i].uid.value, versions[id].rows[i].size)
  {
  }

  /** The recorded size of a uid of which some row is valid is that of its object. */
  lemma {:induction false} RecordedIsObjectSize(versions: Versions, objects: Objects, hash: Hash, id: VersionId, i: nat)
    requires SizesAlike(versions) && Truthful(versions, objects, hash)
    requires id in versions && i in versions[id].rows && versions[id].rows[i].uid.Some? && versions[id].rows[i].valid
    ensures var uid := versions[id].rows[i].uid.value;
            RecordedSize(versions)(uid) == Usage.ObjectSize(objects, versions[id].storage)(uid)
  {
    hide SizesAlike, Truthful, RecordedSize;
    AlikeAgree(versions, versions[id].storage);
    Usage.TruthfulSizes(versions, objects, hash, versions[id].storage, RecordedSize(versions));
    assert Usage.IsRef(versions, versions[id].storage, Usage.Ref(id, i));
  }

  /** Some selected version of the storage has been left with blocks of other than their proper size. */
  ghost predicate Overfilled(engine: Engine, ids: set<VersionId>, storage: StorageId)
    reads engine, engine.db
    requires engine.Valid()
  {
    exists id :: id in BlockSizes.IllSizedAt(engine.states, engine.ops, |engine.ops|)
                 && id in ids && id in engine.db.versions && engine.db.versions[id].storage == storage
  }

  /**
   * After every run of operations, what is reported as deduplicated and exclusive is the recorded
   * size of all objects that become unreferenced when exactly the selected versions are removed, with
   * no condition on the flags of any row. What is reported as sparse is never more than the size of all
   * blocks without uid, and less exactly if some selected version was fixated with a copied bare tail.
   */
  method Report(engine: Engine, selection: Option<set<VersionId>>, storage: StorageId)
    returns (r: Usage.Report)
    requires engine.Valid() && SizesAlike(engine.states[0].versions)
    ensures r.deduplicatedExclusive ==
            Usage.Sum(Usage.Freed(engine.db.versions, Usage.Selected(engine.db.versions, selection), storage),
                      RecordedSize(engine.db.versions))
    ensures var ids := Usage.Selected(engine.db.versions, selection);
            var sparse := Usage.Sum(ids, Usage.SparsePart(engine.db.versions, storage));
            BlockSizes.AllFilling(engine.states[0].versions) ==>
              r.sparse <= sparse && (r.sparse == sparse <==> !Overfilled(engine, ids, storage))
  {
    hide SizesAlike, Consistent, IsRun, BlockSizes.IllSizedAt, Usage.SparsePart, Usage.Freed, Filling, WellSized;
    RunKeepsSizes(engine.states, engine.ops, |engine.ops|);
    BlockSizes.RunSizes(engine.states, engine.ops, |engine.ops|);
    AlikeAgree(engine.db.versions, storage);
    r := Usage.StorageUsage(engine.db.versions, selection, storage, RecordedSize(engine.db.versions));
    ghost var ids := Usage.Selected(engine.db.versions, selection);
    assert Usage.AllWellSized(engine.db.versions, ids, storage) <==> !Overfilled(engine, ids, storage);
  }
}
