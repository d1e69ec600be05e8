/**
 * Validity flags of block rows, and the status of the versions that hold them.
 *
 * `bad` is the set of uids that are known to be invalid; the flags of all rows follow from it.
 */
module Validity {
  import opened Arithmetic
  import opened Images
  import opened Tables
  import opened VersionTable
  import opened Clone
  import opened Hints
  import opened P = Plan
  import opened Backup

  type Versions = map<VersionId, Version>

  /** Rows that share a uid agree on its validity. */
  ghost predicate Agree(versions: Versions, bad: set<BlockUid>) {
    forall id :: id in versions ==> RowsAgree(versions[id].rows, bad)
  }

  ghost predicate RowsAgree(rows: map<nat, Row>, bad: set<BlockUid>) {
    forall i :: i in rows && rows[i].uid.Some? ==> (rows[i].valid <==> rows[i].uid.value !in bad)
  }

  /** No row that has a uid is marked invalid. */
  ghost predicate AllValid(v: Version) {
    forall i :: i in v.rows && v.rows[i].uid.Some? ==> v.rows[i].valid
  }

  /** No version of status valid holds a row with a uid that is marked invalid. */
  ghost predicate Sound(versions: Versions) {
    forall id :: id in versions && versions[id].status.Valid? ==> AllValid(versions[id])
  }

  ghost predicate Consistent(versions: Versions) {
    (exists bad :: Agree(versions, bad)) && Sound(versions)
  }

  /** If two rows share a uid, they share its validity. */
  ghost predicate SameFlag(a: Row, b: Row) {
    a.uid.Some? && a.uid == b.uid ==> a.valid == b.valid
  }

  ghost predicate Pairwise(versions: Versions) {
    forall k, l, i, j :: k in versions && l in versions && i in versions[k].rows && j in versions[l].rows ==>
      SameFlag(versions[k].rows[i], versions[l].rows[j])
  }

  /** Agreement is a matter of any two rows. */
  lemma {:induction false} AgreeIsPairwise(versions: Versions)
    ensures (exists bad :: Agree(versions, bad)) <==> Pairwise(versions)
  {
    if Pairwise(versions) {
      PairwiseAgree(versions);
    }
  }

  lemma {:induction false} PairwiseOf(versions: Versions)
    ensures Consistent(versions) <==> Pairwise(versions) && Sound(versions)
  {
    AgreeIsPairwise(versions);
  }

  /** The bad uids can be read off the rows. */
  lemma {:induction false} PairwiseAgree(versions: Versions)
    requires Pairwise(versions)
    ensures Agree(versions, BadUids(versions))
  {
    forall k, i | k in versions && i in versions[k].rows && versions[k].rows[i].uid.Some? && !versions[k].rows[i].valid
      ensures versions[k].rows[i].uid.value in BadUids(versions)
    {
    }
  }

  function BadUids(versions: Versions): set<BlockUid> {
    set k, i | k in versions && i in versions[k].rows && versions[k].rows[i].uid.Some? && !versions[k].rows[i].valid ::
      versions[k].rows[i].uid.value
  }

  // ---------------------------------------------------------------- marking a uid

  predicate Uses(v: Version, uid: BlockUid) {
    exists i :: i in v.rows && v.rows[i].uid == Some(uid)
  }

  function MarkRow(row: Row, uid: BlockUid, valid: bool): Row {
    if row.uid == Some(uid) then row.(valid := valid) else row
  }

  /** The version with all rows of a uid marked; an invalid uid also makes the version invalid. */
  function MarkVersion(v: Version, uid: BlockUid, valid: bool): Version {
    v.(rows := map i | i in v.rows :: MarkRow(v.rows[i], uid, valid),
       status := if !valid && Uses(v, uid) then Invalid else v.status)
  }

  function Mark(versions: Versions, uid: BlockUid, valid: bool): Versions {
    map id | id in versions :: MarkVersion(versions[id], uid, valid)
  }

  function Marked(bad: set<BlockUid>, uid: BlockUid, valid: bool): set<BlockUid> {
    if valid then bad - {uid} else bad + {uid}
  }

  lemma {:induction false} MarkRows(v: Version, uid: BlockUid, valid: bool, bad: set<BlockUid>)
    requires RowsAgree(v.rows, bad)
    ensures RowsAgree(MarkVersion(v, uid, valid).rows, Marked(bad, uid, valid))
  {
    var w := MarkVersion(v, uid, valid);
    forall i | i in w.rows && w.rows[i].uid.Some?
      ensures w.rows[i].valid <==> w.rows[i].uid.value !in Marked(bad, uid, valid)
    {
      assert w.rows[i] == MarkRow(v.rows[i], uid, valid);
    }
  }

  lemma {:induction false} MarkSound(v: Version, uid: BlockUid, valid: bool)
    requires v.status.Valid? ==> AllValid(v)
    ensures var w := MarkVersion(v, uid, valid); w.status.Valid? ==> AllValid(w)
  {
    var w := MarkVersion(v, uid, valid);
    if w.status.Valid? {
      forall i | i in w.rows && w.rows[i].uid.Some? ensures w.rows[i].valid {
        assert w.rows[i] == MarkRow(v.rows[i], uid, valid);
        assert !valid ==> v.rows[i].uid != Some(uid);
      }
    }
  }

  /** Marking a uid, either way, keeps the tables consistent. */
  lemma {:induction false} MarkKeeps(versions: Versions, uid: BlockUid, valid: bool, bad: set<BlockUid>)
    requires Agree(versions, bad)
    ensures Agree(Mark(versions, uid, valid), Marked(bad, uid, valid))
    ensures Sound(versions) ==> Sound(Mark(versions, uid, valid))
  {
    hide MarkVersion, RowsAgree, AllValid, Marked;
    var after := Mark(versions, uid, valid);
    forall id | id in after ensures RowsAgree(after[id].rows, Marked(bad, uid, valid)) {
      MarkRows(versions[id], uid, valid, bad);
    }
    if Sound(versions) {
      forall id | id in after && after[id].status.Valid? ensures AllValid(after[id]) {
        MarkSound(versions[id], uid, valid);
      }
    }
  }

  // ---------------------------------------------------------------- marking blocks without uid

  /** Some row, which then is that of a short block, has no uid. */
  predicate HasBareRow(v: Version) {
    exists i :: i in v.rows && v.rows[i].uid.None?
  }

  function MarkBareRow(row: Row, valid: bool): Row {
    if row.uid.None? then row.(valid := valid) else row
  }

  function MarkBareVersion(v: Version, valid: bool): Version {
    v.(rows := map i | i in v.rows :: MarkBareRow(v.rows[i], valid),
       status := if !valid && HasBareRow(v) then Invalid else v.status)
  }

  /** Marking "no uid" marks the rows of all versions that have none. */
  function MarkBare(versions: Versions, valid: bool): Versions {
    map id | id in versions :: MarkBareVersion(versions[id], valid)
  }

  lemma {:induction false} MarkBareKeeps(versions: Versions, valid: bool, bad: set<BlockUid>)
    requires Agree(versions, bad)
    ensures Agree(MarkBare(versions, valid), bad)
    ensures Sound(versions) ==> Sound(MarkBare(versions, valid))
  {
    var after := MarkBare(versions, valid);
    forall id | id in after
      ensures RowsAgree(after[id].rows, bad) && (AllValid(versions[id]) ==> AllValid(after[id]))
    {
      assert RowsAgree(versions[id].rows, bad);
      forall i | i in after[id].rows ensures after[id].rows[i] == MarkBareRow(versions[id].rows[i], valid) {}
    }
    assert forall id :: id in after && after[id].status.Valid? ==> versions[id].status.Valid?;
  }

  // ---------------------------------------------------------------- runs

  /**
   * What operations do to the tables: a version is created, filled by a backup, approved by a
   * successful deep scrub, or removed; a uid is found invalid, or passes revalidation.
   */
  datatype Event = Create(id: VersionId, v: Version) | BackUp(id: VersionId, v: Version) | Approve(id: VersionId)
                 | Remove(id: VersionId) | Fail(uid: BlockUid) | Pass(uid: BlockUid)

  /** No row references a uid minted by the version. */
  ghost predicate Unminted(versions: Versions, id: VersionId) {
    forall k, i :: k in versions && i in versions[k].rows && versions[k].rows[i].uid.Some? ==>
      versions[k].rows[i].uid.value.left != id
  }

  ghost predicate Enabled(versions: Versions, e: Event) {
    match e
    case Create(id, v) => id !in versions && Unminted(versions, id) && v.status.Incomplete? && v.rows == map[]
    case BackUp(id, v) => id in versions && Unminted(versions, id) && forall i :: i in v.rows ==>
      Sourced(v.rows[i], versions, id)
    case Approve(id) => id in versions && AllValid(versions[id])
    case Remove(id) => id in versions
    case _ => true
  }

  function After(versions: Versions, e: Event): Versions {
    match e
    case Create(id, v) => versions[id := v]
    case BackUp(id, v) => versions[id := v]
    case Approve(id) => if id in versions then versions[id := versions[id].(status := Valid)] else versions
    case Remove(id) => versions - {id}
    case Fail(uid) => Mark(versions, uid, false)
    case Pass(uid) => Mark(versions, uid, true)
  }

  /** The uid of a valid row is not bad. */
  lemma {:induction false} KnownIsGood(versions: Versions, bad: set<BlockUid>, storage: StorageId, row: Row)
    requires Agree(versions, bad) && Known(versions, storage, row) && row.uid.Some? && row.valid
    ensures row.uid.value !in bad
  {
    var k, j :| k in versions && versions[k].storage == storage && j in versions[k].rows && versions[k].rows[j] == row;
    assert RowsAgree(versions[k].rows, bad);
  }

  /** The bad uids, without those that a version is about to mint. */
  function Without(bad: set<BlockUid>, id: VersionId): set<BlockUid> {
    set uid | uid in bad && uid.left != id
  }

  lemma {:induction false} BackUpKeeps(versions: Versions, id: VersionId, v: Version, bad: set<BlockUid>)
    requires Agree(versions, bad) && Enabled(versions, BackUp(id, v))
    ensures Agree(versions[id := v], Without(bad, id)) && (Sound(versions) ==> Sound(versions[id := v]))
  {
    hide Known;
    var good := Without(bad, id);
    forall i | i in v.rows && v.rows[i].uid.Some? ensures v.rows[i].valid && v.rows[i].uid.value !in good {
      assert Sourced(v.rows[i], versions, id);
      if v.rows[i].uid.value.left != id { KnownIsGood(versions, bad, versions[id].storage, v.rows[i]); }
    }
    forall k | k in versions ensures RowsAgree(versions[k].rows, good) {
      assert RowsAgree(versions[k].rows, bad);
    }
  }

  lemma {:induction false} StepKeeps(versions: Versions, e: Event)
    requires Consistent(versions) && Enabled(versions, e)
    ensures Consistent(After(versions, e))
  {
    hide RowsAgree, AllValid, Mark, Known;
    var bad :| Agree(versions, bad);
    match e
    case Fail(uid) => MarkKeeps(versions, uid, false, bad);
    case Pass(uid) => MarkKeeps(versions, uid, true, bad);
    case BackUp(id, v) => BackUpKeeps(versions, id, v, bad);
    case Create(id, v) => assert Agree(versions[id := v], bad) by { NoRowsAgree(v, bad); }
    case Approve(id) => ApproveKeeps(versions, id, bad);
    case Remove(id) => assert Agree(versions - {id}, bad);
  }

  lemma {:induction false} NoRowsAgree(v: Version, bad: set<BlockUid>)
    requires v.rows == map[]
    ensures RowsAgree(v.rows, bad)
  {
  }

  /** Giving a version the status valid keeps the tables consistent exactly when none of its uids is marked invalid. */
  lemma {:induction false} ApproveKeeps(versions: Versions, id: VersionId, bad: set<BlockUid>)
    requires Agree(versions, bad) && id in versions
    ensures var after := versions[id := versions[id].(status := Valid)];
            Agree(after, bad) && (Sound(versions) ==> (Sound(after) <==> AllValid(versions[id])))
  {
    var after := versions[id := versions[id].(status := Valid)];
    assert AllValid(after[id]) <==> AllValid(versions[id]);
    assert Sound(after) ==> AllValid(after[id]);
  }

  ghost predicate Possible(versions: Versions, es: seq<Event>)
    decreases |es|
  {
    es == [] || (Enabled(versions, es[0]) && Possible(After(versions, es[0]), es[1..]))
  }

  function AfterAll(versions: Versions, es: seq<Event>): Versions
    decreases |es|
  {
    if es == [] then versions else AfterAll(After(versions, es[0]), es[1..])
  }

  /** The tables are consistent after every run. */
  lemma {:induction false} RunKeeps(versions: Versions, es: seq<Event>)
    requires Consistent(versions) && Possible(versions, es)
    ensures Consistent(AfterAll(versions, es))
    decreases |es|
  {
    hide Consistent, Enabled, After;
    if es != [] {
      StepKeeps(versions, es[0]);
      RunKeeps(After(versions, es[0]), es[1..]);
    }
  }

  /** A version that has been prepared from a valid base, or without one, keeps the tables consistent. */
  lemma {:induction false} PreparedKeeps(versions: Versions, id: VersionId, base: Option<VersionId>, size: nat,
                                         blockSize: Pos, bad: set<BlockUid>)
    requires Agree(versions, bad) && Sound(versions) && id in versions && versions[id].status.Incomplete?
    ensures var after := versions[id := Updated(versions, id, base, Some(size), Some(blockSize))];
            Agree(after, bad) && Sound(after)
  {
    var v := Updated(versions, id, base, Some(size), Some(blockSize));
    if base.Some? && base.value in versions {
      assert RowsAgree(versions[base.value].rows, bad);
    }
    assert RowsAgree(v.rows, bad);
  }

  /** What a backup that gives up leaves: rows with a uid are valid, because those of the base are. */
  lemma {:induction false} GivenUpSourced(versions: Versions, after: Versions, id: VersionId, base: Option<VersionId>,
                                          size: nat, blockSize: Pos)
    requires Sound(versions) && BaseFits(versions, id, base, blockSize)
    requires OnlyRows(after, PreparedTables(versions, id, base, size, blockSize), id)
    ensures id in after && after == versions[id := after[id]]
    ensures forall i :: i in after[id].rows ==> Sourced(after[id].rows[i], versions, id)
  {
    hide Known, SizeAt, BlocksCount, Sourced, ClonedRows;
    var v := Prepared(versions[id], BaseOf(versions, base), size, blockSize);
    assert PreparedTables(versions, id, base, size, blockSize) == versions[id := v];
    forall i | i in after[id].rows ensures Sourced(after[id].rows[i], versions, id) {
      var row := after[id].rows[i];
      if row.uid.None? {
        BareSourced(row, versions, id);
      } else {
        GivenUpValid(versions, id, base, size, blockSize, row, i);
        SourcedRow(versions, base, id, size, blockSize, row, i);
      }
    }
  }

  lemma {:induction false} BareSourced(row: Row, versions: Versions, id: VersionId)
    requires row.uid.None? && id in versions
    ensures Sourced(row, versions, id)
  {
  }

  lemma {:induction false} GivenUpValid(versions: Versions, id: VersionId, base: Option<VersionId>, size: nat,
                                        blockSize: Pos, row: Row, i: nat)
    requires Sound(versions) && BaseFits(versions, id, base, blockSize) && row.uid.Some?
    requires var v := Prepared(versions[id], BaseOf(versions, base), size, blockSize);
             (i in v.rows && row == v.rows[i]) || Sourced(row, versions[id := v], id)
    ensures row.valid
  {
    var v := Prepared(versions[id], BaseOf(versions, base), size, blockSize);
    if i in v.rows && row == v.rows[i] {
      assert base.Some? && i in versions[base.value].rows && versions[base.value].rows[i] == row;
      assert AllValid(versions[base.value]);
    }
  }

  /** A backup keeps the tables consistent, whether it succeeds, fails or gives up. */
  method BackUpConsistently(db: Database, id: VersionId, source: Bytes, blockSize: Pos, hints: Option<seq<Hint>>,
                            base: Option<VersionId>, hash: Hash, sample: set<nat>, date: int, faults: Faults)
    returns (r: Outcome)
    requires FreshVersion(db.versions, db.objects, id) && Truthful(db.versions, db.objects, hash)
    requires CollisionFree(hash, PlanOf(db.versions, db.objects, db.versions[id].storage, source, blockSize, base,
                 hints))
    requires Consistent(db.versions) && Unminted(db.versions, id)
    modifies db`versions, db`objects, db`deleted
    ensures Consistent(db.versions)
  {
    hide Truthful, WellSized, CollisionFree, Unminted, Sourced, Content, GoodBase, LosesTail, KeepsOverhang, Agree,
      Sound, DiscardsAreZero, OutsideUnchanged, ShortHasUid, Intact, Updated, RemovalRecorded, SampleAgrees,
      SampleFails, ReadFails, WriteFails, HalfDone, OnlyRows, PreparedTables, PlanOf;
    ghost var bad :| Agree(db.versions, bad);
    r := Backup.Backup(db, id, source, blockSize, hints, base, hash, sample, date, faults);
    if r.Ok? {
      StepKeeps(old(db.versions), BackUp(id, db.versions[id]));
    } else if r.IOError? {
      GivenUpSourced(old(db.versions), db.versions, id, base, |source|, blockSize);
      StepKeeps(old(db.versions), BackUp(id, db.versions[id]));
    } else {
      PreparedKeeps(old(db.versions), id, base, |source|, blockSize, bad);
      StepKeeps(old(db.versions), Remove(id));
    }
  }
}
