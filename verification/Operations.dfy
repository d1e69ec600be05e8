/**
 * Runs of whole operations, one after another: backups, scrubs, deep scrubs with a shared history,
 * restores, removals and fixations of NBD sessions.
 *
 * What an operation does to the tables is what the contract of its method says. Whether the tables
 * stay consistent then follows, and is decided exactly.
 */
module Operations {
  import opened Arithmetic
  import opened Images
  import opened Tables
  import opened VersionTable
  import opened Clone
  import opened Hints
  import opened P = Plan
  import opened Backup
  import opened Validity
  import opened Scrub
  import opened R = Restore
  import opened RestoreMarks
  import opened Nbd
  import Cleanup

  /** The versions, and the history of the current batch of scrubs. */
  datatype State = State(versions: Versions, history: History)

  datatype Operation =
    | CreateVersion(id: VersionId, v: Version)
    | BackUpVersion(id: VersionId, base: Option<VersionId>, size: nat, blockSize: Pos)
    | StartBatch
    | ScrubOne(id: VersionId, left: set<nat>, verdicts: nat -> Verdict)
    | DeepScrubOne(id: VersionId, left: set<nat>, full: bool, verdicts: nat -> Verdict)
    | RestoreVersion(id: VersionId, order: seq<nat>, readings: nat -> Reading)
    | RemoveVersion(id: VersionId)
    | OpenSession(id: VersionId, origin: VersionId)
    | FixateVersion(id: VersionId, source: Version, copied: map<nat, Bytes>, hash: Hash)

  // ---------------------------------------------------------------- effects

  /**
   * A backup leaves the tables as they were, or removes the version; or each row of the version is as
   * prepared or sourced; or it succeeds, which makes the version valid.
   */
  ghost predicate BackUpEffect(s: Versions, t: Versions, id: VersionId, base: Option<VersionId>, size: nat,
                               blockSize: Pos) {
    && id in s && s[id].status.Incomplete? && Unminted(s, id)
    && (t == s || t == s - {id} || GivesUp(s, t, id, base, size, blockSize) || Succeeds(s, t, id))
  }

  ghost predicate GivesUp(s: Versions, t: Versions, id: VersionId, base: Option<VersionId>, size: nat, blockSize: Pos)
    requires id in s
  {
    && BaseFits(s, id, base, blockSize) && OnlyRows(t, PreparedTables(s, id, base, size, blockSize), id)
    && WellSized(t[id]) && NewSizesAlike(t[id], id)
  }

  ghost predicate Succeeds(s: Versions, t: Versions, id: VersionId)
    requires id in s
  {
    && id in t && t == s[id := t[id]] && t[id].status.Valid? && WellSized(t[id])
    && (forall i :: i in t[id].rows ==> Sourced(t[id].rows[i], s, id)) && NewSizesAlike(t[id], id)
  }

  predicate MintedBy(row: Row, id: VersionId) {
    row.uid.Some? && row.uid.value.left == id
  }

  /** Rows of the version that share a uid that it has minted share the size. */
  ghost predicate NewSizesAlike(v: Version, id: VersionId) {
    forall i, j :: i in v.rows && j in v.rows && MintedBy(v.rows[i], id) && v.rows[j].uid == v.rows[i].uid ==>
      v.rows[j].size == v.rows[i].size
  }

  ghost predicate ScrubEffect(s: State, t: State, id: VersionId, left: set<nat>, verdicts: nat -> Verdict) {
    && id in s.versions && SameTables(t.versions, s.versions) && Pairwise(t.versions)
    && exists done ::
         && done <= Jobs(s.versions[id], s.history, left)
         && Condemns(BadUids(t.versions), BadUids(s.versions), s.versions[id], done, verdicts)
         && Statuses(t.versions, s.versions, s.versions[id], done, verdicts)
         && Remembers(t.history, s.history, s.versions[id], done, verdicts)
  }

  /** The deep scrub reads everything it should, finds nothing wrong, and leaves no block out. */
  ghost predicate Approves(s: State, id: VersionId, left: set<nat>, full: bool, verdicts: nat -> Verdict)
    requires id in s.versions
  {
    var v := s.versions[id];
    full && !v.status.Incomplete? && Verdicts(v, s.history, left, verdicts) <= {Good}
  }

  ghost predicate DeepScrubEffect(s: State, t: State, id: VersionId, left: set<nat>, full: bool,
                                  verdicts: nat -> Verdict) {
    && id in s.versions && RowsInside(s.versions[id]) && (full ==> left == {})
    && SameTables(t.versions, s.versions) && Pairwise(t.versions) && id in t.versions
    && (Approves(s, id, left, full, verdicts) ==> t.versions[id].status.Valid?)
    && exists done ::
         && done <= Jobs(s.versions[id], s.history, left)
         && (Approves(s, id, left, full, verdicts) ==> done == Jobs(s.versions[id], s.history, left))
         && Flags(t.versions, s.versions, s.versions[id], done, verdicts)
         && Statuses(Disapproved(t.versions, s.versions, id, Approves(s, id, left, full, verdicts)),
                     s.versions, s.versions[id], done, verdicts)
         && Remembers(t.history, s.history, s.versions[id], done, verdicts)
  }

  ghost predicate RestoreEffect(s: Versions, t: Versions, id: VersionId, order: seq<nat>, readings: nat -> Reading) {
    && id in s && CompletionOrder(order, s[id])
    && var n := FirstRaised(order, readings, 0);
       (n > 0 ==> Count(s[id]) > 0) && t == AfterReads(s, s[id], order, readings, n)
  }

  /** A session starts with a clone of its base, if that is valid and in the storage of the new version. */
  ghost predicate OpenEffect(s: Versions, t: Versions, id: VersionId, base: VersionId) {
    && id in s && base in s && s[id].status.Incomplete? && Unminted(s, id)
    && (t == s || (BaseFits(s, id, Some(base), s[base].blockSize)
                   && t == PreparedTables(s, id, Some(base), s[base].size, s[base].blockSize)))
  }

  /** The version, which was a clone of the base, gets the rows of the copied blocks. */
  ghost predicate FixateEffect(s: Versions, t: Versions, id: VersionId, base: Version, copied: map<nat, Bytes>,
                               hash: Hash) {
    && id in s && id in t && t == s[id := s[id].(rows := t[id].rows, status := Valid)] && Unminted(s, id)
    && FixedRows(t[id], base, copied, id, hash) && Copies(base, copied)
    && WellSized(s[id]) && s[id].size == base.size && s[id].blockSize == base.blockSize
    && forall k :: 0 <= k < Count(base) ==> BlockAt(s[id], k) == BlockAt(base, k)
  }

  /** What the operation does. */
  ghost predicate Effect(s: State, t: State, op: Operation) {
    match op
    case CreateVersion(id, v) =>
      && id !in s.versions && Unminted(s.versions, id) && v.status.Incomplete? && v.rows == map[]
      && t == s.(versions := s.versions[id := v])
    case BackUpVersion(id, base, size, blockSize) =>
      t.history == s.history && BackUpEffect(s.versions, t.versions, id, base, size, blockSize)
    case StartBatch => t == s.(history := {})
    case ScrubOne(id, left, verdicts) => ScrubEffect(s, t, id, left, verdicts)
    case DeepScrubOne(id, left, full, verdicts) => DeepScrubEffect(s, t, id, left, full, verdicts)
    case RestoreVersion(id, order, readings) =>
      t.history == s.history && RestoreEffect(s.versions, t.versions, id, order, readings)
    case RemoveVersion(id) => id in s.versions && t == s.(versions := s.versions - {id})
    case OpenSession(id, base) => t.history == s.history && OpenEffect(s.versions, t.versions, id, base)
    case FixateVersion(id, base, copied, hash) =>
      t.history == s.history && FixateEffect(s.versions, t.versions, id, base, copied, hash)
  }

  /** A block that the session did not copy is marked invalid. */
  ghost predicate KeepsInvalid(v: Version, copied: map<nat, Bytes>) {
    exists k :: k in v.rows && k !in copied && v.rows[k].uid.Some? && !v.rows[k].valid
  }

  /**
   * The operation makes a version valid that holds a block marked invalid: a deep scrub approves a
   * version although a uid that it skipped is marked invalid, or a session is fixated although a
   * block that it did not copy is.
   */
  ghost predicate Breaks(s: State, op: Operation) {
    match op
    case DeepScrubOne(id, left, full, verdicts) =>
      id in s.versions && Approves(s, id, left, full, verdicts) && SkipsInvalid(s.versions[id], s.history)
    case FixateVersion(id, base, copied, hash) => id in s.versions && KeepsInvalid(s.versions[id], copied)
    case _ => false
  }

  // ---------------------------------------------------------------- each operation

  lemma {:induction false} BackUpStep(s: Versions, t: Versions, id: VersionId, base: Option<VersionId>, size: nat,
                                      blockSize: Pos)
    requires Consistent(s) && BackUpEffect(s, t, id, base, size, blockSize)
    ensures Consistent(t)
  {
    hide Agree, Sound, Unminted, Sourced, OnlyRows, PreparedTables, NewSizesAlike, BaseFits;
    if t == s {
    } else if t == s - {id} {
      StepKeeps(s, Remove(id));
    } else {
      if GivesUp(s, t, id, base, size, blockSize) { GivenUpSourced(s, t, id, base, size, blockSize); }
      StepKeeps(s, BackUp(id, t[id]));
    }
  }

  /** What opening a session does to the tables, a backup that gives up at once does too. */
  lemma {:induction false} OpenIsBackUp(s: Versions, t: Versions, id: VersionId, base: VersionId)
    requires OpenEffect(s, t, id, base)
    ensures base in s && BackUpEffect(s, t, id, Some(base), s[base].size, s[base].blockSize)
  {
    hide Unminted, WellSized, ClonedRows;
    if t != s {
      var size, blockSize := s[base].size, s[base].blockSize;
      Backup.NoRows(t, id);
      PreparedWellSized(s[id], BaseOf(s, Some(base)), size, blockSize);
      forall i | i in t[id].rows && t[id].rows[i].uid.Some? ensures t[id].rows[i].uid.value.left != id {
        PreparedUnminted(s, id, Some(base), size, blockSize, i);
      }
    }
  }

  /** A bad uid shows in a row, and a good one in none. */
  lemma {:induction false} BadShows(versions: Versions, id: VersionId, i: nat)
    requires Pairwise(versions) && id in versions && i in versions[id].rows && versions[id].rows[i].uid.Some?
    ensures versions[id].rows[i].valid <==> versions[id].rows[i].uid.value !in BadUids(versions)
  {
    PairwiseAgree(versions);
    assert RowsAgree(versions[id].rows, BadUids(versions));
  }

  /** If no uid of the version was found invalid, its rows are valid exactly if they were, or passed. */
  lemma {:induction false} UndemotedRows(t: Versions, s: Versions, k: VersionId, v: Version, done: set<nat>,
                                         verdicts: nat -> Verdict)
    requires SameTables(t, s) && Pairwise(t) && Pairwise(s) && k in s && !Demoted(s[k], v, done, verdicts)
    requires forall uid :: !Condemned(v, done, verdicts, uid) && uid in BadUids(t) ==> uid in BadUids(s)
    ensures k in t && (AllValid(s[k]) ==> AllValid(t[k]))
  {
    hide Pairwise, BadUids;
    assert SameUids(t[k], s[k]);
    forall i | i in t[k].rows && t[k].rows[i].uid.Some? && AllValid(s[k]) ensures t[k].rows[i].valid {
      BadShows(t, k, i);
      BadShows(s, k, i);
      NotCondemned(s[k], v, done, verdicts, i);
    }
  }

  lemma {:induction false} NotCondemned(w: Version, v: Version, done: set<nat>, verdicts: nat -> Verdict, i: nat)
    requires !Demoted(w, v, done, verdicts) && i in w.rows && w.rows[i].uid.Some?
    ensures !Condemned(v, done, verdicts, w.rows[i].uid.value)
  {
    assert Uses(w, w.rows[i].uid.value);
  }

  lemma {:induction false} ScrubStep(s: State, t: State, id: VersionId, left: set<nat>, verdicts: nat -> Verdict)
    requires Consistent(s.versions) && ScrubEffect(s, t, id, left, verdicts)
    ensures Consistent(t.versions)
  {
    hide Pairwise, BadUids, AllValid, Demoted, Condemned, Jobs, Remembers, SameTables;
    PairwiseOf(s.versions);
    PairwiseOf(t.versions);
    var v := s.versions[id];
    var done :|
      && done <= Jobs(v, s.history, left) && Condemns(BadUids(t.versions), BadUids(s.versions), v, done, verdicts)
      && Statuses(t.versions, s.versions, v, done, verdicts) && Remembers(t.history, s.history, v, done, verdicts);
    forall k | k in t.versions && t.versions[k].status.Valid? ensures AllValid(t.versions[k]) {
      UndemotedRows(t.versions, s.versions, k, v, done, verdicts);
    }
  }

  lemma {:induction false} NewBadWasCondemned(t: Versions, s: Versions, v: Version, done: set<nat>,
                                              verdicts: nat -> Verdict)
    requires Flags(t, s, v, done, verdicts)
    ensures forall uid :: !Condemned(v, done, verdicts, uid) && uid in BadUids(t) ==> uid in BadUids(s)
  {
    hide Condemned, Touched, BadUids, Passed;
  }

  /** A version all of whose jobs passed has valid rows exactly if those skipped by the history were valid. */
  lemma {:induction false} ApprovedRows(t: Versions, s: State, id: VersionId, verdicts: nat -> Verdict)
    requires id in s.versions && RowsInside(s.versions[id]) && SameTables(t, s.versions) && id in t
    requires Pairwise(t) && Pairwise(s.versions)
    requires var v := s.versions[id]; var done := Jobs(v, s.history, {});
             Flags(t, s.versions, v, done, verdicts) && Verdicts(v, s.history, {}, verdicts) <= {Good}
    ensures AllValid(t[id]) <==> !SkipsInvalid(s.versions[id], s.history)
  {
    hide Pairwise, BadUids, Verdicts, Flags;
    var v := s.versions[id];
    var done := Jobs(v, s.history, {});
    assert SameUids(t[id], v);
    forall i | i in v.rows && v.rows[i].uid.Some?
      ensures t[id].rows[i].valid <==> v.rows[i].valid || (v.storage, v.rows[i].uid.value) !in s.history
    {
      BadShows(t, id, i);
      BadShows(s.versions, id, i);
      ApprovedRow(t, s, id, verdicts, i);
    }
  }

  lemma {:induction false} ApprovedRow(t: Versions, s: State, id: VersionId, verdicts: nat -> Verdict, i: nat)
    requires id in s.versions && i in s.versions[id].rows && s.versions[id].rows[i].uid.Some?
    requires RowsInside(s.versions[id])
    requires var v := s.versions[id]; var done := Jobs(v, s.history, {});
             Flags(t, s.versions, v, done, verdicts) && Verdicts(v, s.history, {}, verdicts) <= {Good}
    ensures var v := s.versions[id]; var uid := v.rows[i].uid.value;
            uid in BadUids(t) <==> (v.storage, uid) in s.history && uid in BadUids(s.versions)
  {
    hide BadUids;
    var v := s.versions[id];
    var uid, done := v.rows[i].uid.value, Jobs(v, s.history, {});
    if (v.storage, uid) in s.history {
      assert !Touched(v, done, uid);
    } else {
      assert i in done && Touched(v, done, uid);
      forall j | j in done && j in v.rows && v.rows[j].uid == Some(uid) ensures verdicts(j).Good? {
        assert verdicts(j) in Verdicts(v, s.history, {}, verdicts);
      }
      assert !Condemned(v, done, verdicts, uid);
    }
  }

  lemma {:induction false} DeepScrubStep(s: State, t: State, id: VersionId, left: set<nat>, full: bool,
                                         verdicts: nat -> Verdict)
    requires Consistent(s.versions) && DeepScrubEffect(s, t, id, left, full, verdicts)
    ensures Consistent(t.versions) <==>
              !(Approves(s, id, left, full, verdicts) && SkipsInvalid(s.versions[id], s.history))
  {
    hide Pairwise, BadUids, AllValid, Demoted, Condemned, Jobs, Remembers, SameTables, Flags, SkipsInvalid, RowsInside,
      Verdicts;
    PairwiseOf(s.versions);
    PairwiseOf(t.versions);
    var v, approved := s.versions[id], Approves(s, id, left, full, verdicts);
    var done :|
      && done <= Jobs(v, s.history, left)
      && (approved ==> done == Jobs(v, s.history, left))
      && Flags(t.versions, s.versions, v, done, verdicts)
      && Statuses(Disapproved(t.versions, s.versions, id, approved), s.versions, v, done, verdicts)
      && Remembers(t.history, s.history, v, done, verdicts);
    NewBadWasCondemned(t.versions, s.versions, v, done, verdicts);
    forall k | k in t.versions && t.versions[k].status.Valid? && !(approved && k == id)
      ensures AllValid(t.versions[k])
    {
      UndemotedRows(t.versions, s.versions, k, v, done, verdicts);
    }
    if approved {
      ApprovedRows(t.versions, s, id, verdicts);
    }
  }

  lemma {:induction false} RestoreStep(versions: Versions, v: Version, order: seq<nat>, readings: nat -> Reading,
                                       n: nat)
    requires Consistent(versions) && n <= |order| && (n > 0 ==> Count(v) > 0)
    ensures Consistent(AfterReads(versions, v, order, readings, n))
  {
    hide Consistent, MarkBlock, Pairwise;
    if n > 0 {
      RestoreStep(versions, v, order, readings, n - 1);
      PairwiseOf(AfterReads(versions, v, order, readings, n - 1));
      PairwiseOf(MarkBlock(AfterReads(versions, v, order, readings, n - 1), BlockAt(v, order[n - 1])));
      MarkBlockKeeps(AfterReads(versions, v, order, readings, n - 1), BlockAt(v, order[n - 1]));
      MarkBlockKeeps(AfterReads(versions, v, order, readings, n - 1), BlockAt(v, Held(v, order, readings, n - 1)));
    }
  }

  /** Rows of a fixated version: minted and valid, or the clone's. */
  lemma {:induction false} FixatedRow(v: Version, w: Version, base: Version, copied: map<nat, Bytes>, id: VersionId,
                                      hash: Hash, k: nat)
    requires FixedRows(w, base, copied, id, hash)
    requires (forall j :: j in v.rows ==> j < Count(base)) && forall j :: 0 <= j < Count(base) ==>
               BlockAt(v, j) == BlockAt(base, j)
    ensures k in w.rows && w.rows[k].uid.Some? ==>
              if k in copied then w.rows[k].valid && w.rows[k].uid == Some(BlockUid(id, k + 1))
              else k in v.rows && w.rows[k] == v.rows[k]
    ensures k in v.rows && v.rows[k].uid.Some? && k !in copied ==> k in w.rows && w.rows[k] == v.rows[k]
  {
    if k < Count(base) {
      assert BlockAt(w, k) == BlockFixed(base, copied, id, hash, k) && BlockAt(v, k) == BlockAt(base, k);
    }
  }

  lemma {:induction false} FixateStep(s: Versions, t: Versions, id: VersionId, base: Version, copied: map<nat, Bytes>,
                                      hash: Hash)
    requires Consistent(s) && FixateEffect(s, t, id, base, copied, hash)
    ensures Consistent(t) <==> !KeepsInvalid(s[id], copied)
  {
    hide FixedRows, Unminted, BlockAt, BlocksCount, SizeAt, Agree;
    var bad :| Agree(s, bad);
    FixatedAgree(s, t, id, base, copied, hash, bad);
    forall k | k in t[id].rows && t[id].rows[k].uid.Some?
      ensures if k in copied then t[id].rows[k].valid && t[id].rows[k].uid.value.left == id
              else k in s[id].rows && t[id].rows[k] == s[id].rows[k]
    {
      FixatedRow(s[id], t[id], base, copied, id, hash, k);
    }
    forall k | k in s[id].rows && s[id].rows[k].uid.Some? && k !in copied
      ensures k in t[id].rows && t[id].rows[k] == s[id].rows[k]
    {
      FixatedRow(s[id], t[id], base, copied, id, hash, k);
    }
    assert AllValid(t[id]) <==> !KeepsInvalid(s[id], copied);
    assert Sound(t) <==> AllValid(t[id]);
  }

  lemma {:induction false} FixatedAgree(s: Versions, t: Versions, id: VersionId, base: Version, copied: map<nat, Bytes>,
                                        hash: Hash, bad: set<BlockUid>)
    requires Agree(s, bad) && FixateEffect(s, t, id, base, copied, hash)
    ensures Agree(t, Validity.Without(bad, id))
  {
    hide FixedRows, Unminted, BlockAt, BlocksCount, SizeAt;
    var good := Validity.Without(bad, id);
    UnmintedAgree(s, bad, id);
    assert RowsAgree(s[id].rows, good);
    forall k | k in t[id].rows && t[id].rows[k].uid.Some?
      ensures if k in copied then t[id].rows[k].valid && t[id].rows[k].uid.value.left == id
              else k in s[id].rows && t[id].rows[k] == s[id].rows[k]
    {
      FixatedRow(s[id], t[id], base, copied, id, hash, k);
    }
    assert RowsAgree(t[id].rows, good);
  }

  /** A version of one block and its clone after the block has been found invalid. */
  function InvalidClone(n: Pos): Versions {
    var row := Row(Some(BlockUid(1, 1)), Some(7), n, false);
    map[1 := Version(0, n, n, Invalid, map[0 := row]), 2 := Version(0, n, n, Invalid, map[0 := row])]
  }

  /** A session on the clone that has copied nothing is fixated: the clone becomes valid with an invalid block. */
  lemma {:induction false} InvalidBlockFixated(n: Pos, hash: Hash)
    ensures var s := InvalidClone(n);
            var t := s[2 := s[2].(status := Valid)];
            Consistent(s) && FixateEffect(s, t, 2, s[2], map[], hash) && !Consistent(t)
  {
    var s := InvalidClone(n);
    assert Agree(s, {BlockUid(1, 1)});
    var t := s[2 := s[2].(status := Valid)];
    assert BlocksCount(n, n) == 1 && SizeAt(n, n, 0) == n;
    hide BlocksCount, SizeAt;
    assert forall i: nat :: BlockAt(t[2], i) == BlockAt(s[2], i);
    assert 0 in t[2].rows && !AllValid(t[2]);
  }

  /** Uids that no row references need not be counted as bad. */
  lemma {:induction false} UnmintedAgree(versions: Versions, bad: set<BlockUid>, id: VersionId)
    requires Agree(versions, bad) && Unminted(versions, id)
    ensures Agree(versions, Validity.Without(bad, id))
  {
    forall k | k in versions ensures RowsAgree(versions[k].rows, Validity.Without(bad, id)) {
      assert RowsAgree(versions[k].rows, bad);
    }
  }

  /** An operation keeps the tables consistent if and only if it does not break them. */
  lemma {:induction false} OperationKeepsIff(s: State, t: State, op: Operation)
    requires Consistent(s.versions) && Effect(s, t, op)
    ensures Consistent(t.versions) <==> !Breaks(s, op)
  {
    hide Consistent, BackUpEffect, ScrubEffect, DeepScrubEffect, FixateEffect, Approves, SkipsInvalid, KeepsInvalid,
      Unminted, AfterReads, CompletionOrder;
    EffectHasVersion(s, t, op);
    match op
    case CreateVersion(id, v) => StepKeeps(s.versions, Create(id, v));
    case BackUpVersion(id, base, size, blockSize) => BackUpStep(s.versions, t.versions, id, base, size, blockSize);
    case StartBatch =>
    case ScrubOne(id, left, verdicts) => ScrubStep(s, t, id, left, verdicts);
    case DeepScrubOne(id, left, full, verdicts) => DeepScrubStep(s, t, id, left, full, verdicts);
    case RestoreVersion(id, order, readings) =>
      RestoreStep(s.versions, s.versions[id], order, readings, FirstRaised(order, readings, 0));
    case RemoveVersion(id) => StepKeeps(s.versions, Remove(id));
    case OpenSession(id, base) =>
      OpenIsBackUp(s.versions, t.versions, id, base);
      BackUpStep(s.versions, t.versions, id, Some(base), s.versions[base].size, s.versions[base].blockSize);
    case FixateVersion(id, base, copied, hash) => FixateStep(s.versions, t.versions, id, base, copied, hash);
  }

  lemma {:induction false} EffectHasVersion(s: State, t: State, op: Operation)
    requires Effect(s, t, op)
    ensures op.DeepScrubOne? || op.FixateVersion? ==> op.id in s.versions
  {
  }

  // ---------------------------------------------------------------- agreement, whatever breaks

  lemma {:induction false} GivenUpRow(s: Versions, t: Versions, id: VersionId, base: Option<VersionId>, size: nat,
                                      blockSize: Pos, i: nat, bad: set<BlockUid>)
    requires Agree(s, bad) && id in s && Unminted(s, id) && GivesUp(s, t, id, base, size, blockSize)
    requires i in t[id].rows && t[id].rows[i].uid.Some?
    ensures t[id].rows[i].valid <==> t[id].rows[i].uid.value !in Validity.Without(bad, id)
  {
    hide Known, ClonedRows, NewSizesAlike, WellSized, Unminted, RowsAgree;
    var v := Prepared(s[id], BaseOf(s, base), size, blockSize);
    assert PreparedTables(s, id, base, size, blockSize) == s[id := v];
    var row := t[id].rows[i];
    if i in v.rows && row == v.rows[i] {
      ClonedSource(s, base, id, size, blockSize, i);
      OldRow(s, id, s[id].storage, row, bad);
    } else {
      SourcedRow(s, base, id, size, blockSize, row, i);
      if row.uid.value.left != id { KnownIsGood(s, bad, s[id].storage, row); }
    }
  }

  lemma {:induction false} GivenUpRows(s: Versions, t: Versions, id: VersionId, base: Option<VersionId>, size: nat,
                                       blockSize: Pos, bad: set<BlockUid>)
    requires Agree(s, bad) && id in s && Unminted(s, id) && GivesUp(s, t, id, base, size, blockSize)
    ensures RowsAgree(t[id].rows, Validity.Without(bad, id))
  {
    hide Agree, Unminted, RowsFrom, WellSized, NewSizesAlike, Validity.Without;
    forall i | i in t[id].rows && t[id].rows[i].uid.Some?
      ensures t[id].rows[i].valid <==> t[id].rows[i].uid.value !in Validity.Without(bad, id)
    {
      GivenUpRow(s, t, id, base, size, blockSize, i, bad);
    }
  }

  /** The flag of a row that is there already. */
  lemma {:induction false} OldRow(s: Versions, id: VersionId, storage: StorageId, row: Row, bad: set<BlockUid>)
    requires Agree(s, bad) && Unminted(s, id) && Known(s, storage, row) && row.uid.Some?
    ensures row.valid <==> row.uid.value !in Validity.Without(bad, id)
  {
    var k, j :| k in s && s[k].storage == storage && j in s[k].rows && s[k].rows[j] == row;
    assert RowsAgree(s[k].rows, bad);
    UnmintedRow(s, id, k, j);
  }

  lemma {:induction false} BackUpPairwise(s: Versions, t: Versions, id: VersionId, base: Option<VersionId>, size: nat,
                                          blockSize: Pos)
    requires Pairwise(s) && BackUpEffect(s, t, id, base, size, blockSize)
    ensures Pairwise(t)
  {
    hide Pairwise, Unminted, Sourced, NewSizesAlike, WellSized, RowsAgree;
    AgreeIsPairwise(s);
    AgreeIsPairwise(t);
    var bad :| Agree(s, bad);
    if t == s {
    } else if t == s - {id} {
      assert Agree(t, bad);
    } else if GivesUp(s, t, id, base, size, blockSize) {
      UnmintedAgree(s, bad, id);
      GivenUpRows(s, t, id, base, size, blockSize, bad);
      assert Agree(t, Validity.Without(bad, id));
    } else {
      BackUpKeeps(s, id, t[id], bad);
    }
  }

  lemma {:induction false} RestorePairwise(versions: Versions, v: Version, order: seq<nat>, readings: nat -> Reading,
                                           n: nat)
    requires Pairwise(versions) && n <= |order| && (n > 0 ==> Count(v) > 0)
    ensures Pairwise(AfterReads(versions, v, order, readings, n))
  {
    hide Pairwise, MarkBlock;
    if n > 0 {
      RestorePairwise(versions, v, order, readings, n - 1);
      MarkBlockKeeps(AfterReads(versions, v, order, readings, n - 1), BlockAt(v, order[n - 1]));
      MarkBlockKeeps(AfterReads(versions, v, order, readings, n - 1), BlockAt(v, Held(v, order, readings, n - 1)));
    }
  }

  lemma {:induction false} OthersPairwise(s: Versions, t: Versions, id: VersionId, v: Version)
    requires Pairwise(s) && (t == s - {id} || (t == s[id := v] && v.rows == map[]))
    ensures Pairwise(t)
  {
  }

  lemma {:induction false} FixatePairwise(s: Versions, t: Versions, id: VersionId, base: Version,
                                          copied: map<nat, Bytes>, hash: Hash)
    requires Pairwise(s) && FixateEffect(s, t, id, base, copied, hash)
    ensures Pairwise(t)
  {
    hide Pairwise, FixateEffect, Agree;
    AgreeIsPairwise(s);
    AgreeIsPairwise(t);
    var bad :| Agree(s, bad);
    FixatedAgree(s, t, id, base, copied, hash, bad);
  }

  /** Every operation keeps rows that share a uid in agreement on its validity, also where it breaks consistency. */
  lemma {:induction false} OperationKeepsPairwise(s: State, t: State, op: Operation)
    requires Pairwise(s.versions) && Effect(s, t, op)
    ensures Pairwise(t.versions)
  {
    hide Pairwise, BackUpEffect, OpenEffect, FixateEffect, AfterReads, CompletionOrder, Unminted, SameTables;
    match op
    case CreateVersion(id, v) => OthersPairwise(s.versions, t.versions, id, v);
    case BackUpVersion(id, base, size, blockSize) => BackUpPairwise(s.versions, t.versions, id, base, size, blockSize);
    case StartBatch =>
    case ScrubOne(id, left, verdicts) =>
    case DeepScrubOne(id, left, full, verdicts) =>
    case RestoreVersion(id, order, readings) =>
      RestorePairwise(s.versions, s.versions[id], order, readings, FirstRaised(order, readings, 0));
    case RemoveVersion(id) => OthersPairwise(s.versions, t.versions, id, s.versions[id]);
    case OpenSession(id, base) =>
      OpenIsBackUp(s.versions, t.versions, id, base);
      BackUpPairwise(s.versions, t.versions, id, Some(base), s.versions[base].size, s.versions[base].blockSize);
    case FixateVersion(id, base, copied, hash) => FixatePairwise(s.versions, t.versions, id, base, copied, hash);
  }

  // ---------------------------------------------------------------- runs

  /** Over every sequence of operations, rows that share a uid agree on its validity. */
  lemma {:induction false} RunKeepsPairwise(states: seq<State>, ops: seq<Operation>, n: nat)
    requires IsRun(states, ops) && Pairwise(states[0].versions) && n <= |ops|
    ensures Pairwise(states[n].versions)
  {
    hide Pairwise, Effect;
    if n > 0 {
      RunKeepsPairwise(states, ops, n - 1);
      OperationKeepsPairwise(states[n - 1], states[n], ops[n - 1]);
    }
  }

  /** The states before, between and after the operations. */
  ghost predicate IsRun(states: seq<State>, ops: seq<Operation>) {
    |states| == |ops| + 1 && forall k :: 0 <= k < |ops| ==> Effect(states[k], states[k + 1], ops[k])
  }

  /**
   * Over every sequence of operations that starts with consistent tables, rows that share a uid
   * agree and no valid version holds a block marked invalid, all the time, if and only if no
   * operation breaks this.
   */
  lemma {:induction false} RunConsistentIff(states: seq<State>, ops: seq<Operation>)
    requires IsRun(states, ops) && Consistent(states[0].versions)
    ensures (forall k :: 0 <= k < |states| ==> Consistent(states[k].versions)) <==>
            forall k :: 0 <= k < |ops| ==> !Breaks(states[k], ops[k])
    decreases |ops|
  {
    hide Consistent, Effect, Breaks;
    if ops != [] {
      var n := |ops| - 1;
      RunConsistentIff(states[..n + 1], ops[..n]);
      assert forall k :: 0 <= k < n ==> states[..n + 1][k] == states[k] && ops[..n][k] == ops[k];
      assert states[..n + 1][n] == states[n] && Effect(states[n], states[n + 1], ops[n]);
      if Consistent(states[n].versions) {
        OperationKeepsIff(states[n], states[n + 1], ops[n]);
      }
    }
  }

  lemma {:induction false} RunMore(states: seq<State>, ops: seq<Operation>, t: State, op: Operation)
    requires IsRun(states, ops) && Effect(states[|ops|], t, op)
    ensures IsRun(states + [t], ops + [op])
  {
    hide Effect;
  }

  lemma {:induction false} ApprovesIff(s: State, id: VersionId, left: set<nat>, full: bool, verdicts: nat -> Verdict,
                                       r: ScrubOutcome)
    requires id in s.versions
    requires r.Success? <==>
               !s.versions[id].status.Incomplete? && Verdicts(s.versions[id], s.history, left, verdicts) <= {Good}
    ensures Approves(s, id, left, full, verdicts) <==> r.Success? && full
  {
  }

  /** Valid rows that share a uid share the size of its object. */
  lemma {:induction false} NewSizes(t: Versions, objects: Objects, hash: Hash, id: VersionId)
    requires Truthful(t, objects, hash) && id in t
    requires forall i :: i in t[id].rows && t[id].rows[i].uid.Some? && t[id].rows[i].uid.value.left == id ==>
               t[id].rows[i].valid
    ensures NewSizesAlike(t[id], id)
  {
    var v := t[id];
    forall i | i in v.rows && v.rows[i].uid.Some? && v.rows[i].uid.value.left == id
      ensures var key := ObjectKey(v.storage, v.rows[i].uid.value); key in objects && |objects[key]| == v.rows[i].size
    {
      assert TruthfulRow(v.rows[i], v.storage, objects, hash);
    }
  }

  /** No prepared row has a uid of the version that is prepared. */
  lemma {:induction false} PreparedUnminted(s: Versions, id: VersionId, base: Option<VersionId>, size: nat,
                                            blockSize: Pos, i: nat)
    requires BaseFits(s, id, base, blockSize) && Unminted(s, id)
    requires i in Prepared(s[id], BaseOf(s, base), size, blockSize).rows
    ensures var row := Prepared(s[id], BaseOf(s, base), size, blockSize).rows[i];
            row.uid.Some? ==> row.uid.value.left != id
  {
    hide Unminted;
    ClonedSource(s, base, id, size, blockSize, i);
    hide Prepared;
    var row := Prepared(s[id], BaseOf(s, base), size, blockSize).rows[i];
    if row.uid.Some? {
      var k, j :| k in s && s[k].storage == s[id].storage && j in s[k].rows && s[k].rows[j] == row;
      UnmintedRow(s, id, k, j);
    }
  }

  lemma {:induction false} UnmintedRow(s: Versions, id: VersionId, k: VersionId, j: nat)
    requires Unminted(s, id) && k in s && j in s[k].rows && s[k].rows[j].uid.Some?
    ensures s[k].rows[j].uid.value.left != id
  {
  }

  lemma {:induction false} GaveUp(s: Versions, t: Versions, objects: Objects, hash: Hash, id: VersionId,
                                  base: Option<VersionId>, size: nat, blockSize: Pos)
    requires BaseFits(s, id, base, blockSize) && Unminted(s, id) && Truthful(t, objects, hash)
    requires OnlyRows(t, PreparedTables(s, id, base, size, blockSize), id) && WellSized(t[id])
    ensures GivesUp(s, t, id, base, size, blockSize)
  {
    hide Truthful, Unminted, NewSizesAlike, ClonedRows, Known, WellSized;
    var v := Prepared(s[id], BaseOf(s, base), size, blockSize);
    assert PreparedTables(s, id, base, size, blockSize) == s[id := v];
    forall i | i in t[id].rows && t[id].rows[i].uid.Some? && t[id].rows[i].uid.value.left == id
      ensures t[id].rows[i].valid
    {
      if i in v.rows { PreparedUnminted(s, id, base, size, blockSize, i); }
    }
    NewSizes(t, objects, hash, id);
  }

  /** What the contract of a backup says is the effect. */
  lemma {:induction false} BackedUp(s: Versions, t: Versions, objects: Objects, id: VersionId, base: Option<VersionId>,
                                    size: nat, blockSize: Pos, hints: Option<seq<Hint>>, hash: Hash, r: Outcome)
    requires id in s && s[id].status.Incomplete? && Unminted(s, id) && Truthful(t, objects, hash)
    requires r.Ok? ==> id in t && t == s[id := t[id]] && t[id].status.Valid? && WellSized(t[id])
    requires r.Ok? ==> forall i :: 0 <= i < Count(t[id]) ==> BlockAt(t[id], i).valid
    requires r.Ok? ==> forall i :: i in t[id].rows ==> Sourced(t[id].rows[i], s, id)
    requires r.IOError? ==> BaseFits(s, id, base, blockSize)
                            && OnlyRows(t, PreparedTables(s, id, base, size, blockSize), id) && WellSized(t[id])
    requires !r.Ok? && !r.IOError? ==> t == AfterFailure(s, id, base, size, blockSize, hints)
    ensures BackUpEffect(s, t, id, base, size, blockSize)
  {
    hide Truthful, Unminted, NewSizesAlike, OnlyRows, Sourced, SizeAt, BlocksCount, Prepared, HintsFit;
    if r.Ok? {
      forall i | i in t[id].rows ensures t[id].rows[i].valid {
        assert BlockAt(t[id], i).valid;
      }
      NewSizes(t, objects, hash, id);
    } else if r.IOError? {
      GaveUp(s, t, objects, hash, id, base, size, blockSize);
    } else if BaseFits(s, id, base, blockSize) && !HintsFit(hints, size) {
      Backup.NoRows(t, id);
      PreparedWellSized(s[id], BaseOf(s, base), size, blockSize);
      GaveUp(s, t, objects, hash, id, base, size, blockSize);
    }
  }

  /** The operations as their methods perform them, on one database, with the run so far. */
  class Engine {
    const db: Database
    const store: BenjiStore
    var history: History
    ghost var states: seq<State>
    ghost var ops: seq<Operation>

    ghost function Now(): State
      reads this, db
    {
      State(db.versions, history)
    }

    ghost predicate Valid()
      reads this, db
    {
      IsRun(states, ops) && states[|ops|] == Now() && Consistent(states[0].versions)
    }

    /** Starts with consistent tables. */
    constructor (db: Database, store: BenjiStore)
      requires Consistent(db.versions)
      ensures Valid() && ops == [] && this.db == db && this.store == store && db.versions == old(db.versions)
    {
      this.db, this.store, history := db, store, {};
      states, ops := [State(db.versions, {})], [];
    }

    /** The tables have been consistent all along if and only if no operation so far has broken them. */
    lemma {:induction false} StaysConsistentIff()
      requires Valid()
      ensures (forall k :: 0 <= k < |states| ==> Consistent(states[k].versions)) <==>
              forall k :: 0 <= k < |ops| ==> !Breaks(states[k], ops[k])
    {
      hide IsRun, Consistent, Breaks;
      RunConsistentIff(states, ops);
    }

    /** Notes an operation that has just taken place. */
    ghost method Note(op: Operation)
      requires IsRun(states, ops) && Effect(states[|ops|], Now(), op) && Consistent(states[0].versions)
      modifies this`states, this`ops
      ensures Valid() && ops == old(ops) + [op] && states == old(states) + [Now()]
    {
      RunMore(states, ops, Now(), op);
      states, ops := states + [Now()], ops + [op];
    }

    /** Whatever has broken consistency, rows that share a uid agree. */
    lemma {:induction false} RowsStayAlike()
      requires Valid()
      ensures Pairwise(db.versions)
    {
      assert |states| == |ops| + 1;
      hide IsRun, Pairwise, Consistent;
      PairwiseOf(states[0].versions);
      RunKeepsPairwise(states, ops, |ops|);
    }

    method ScrubOnce(id: VersionId, left: set<nat>, verdicts: nat -> Verdict) returns (r: ScrubOutcome)
      requires Valid() && id in db.versions
      modifies this, db`versions
      ensures Valid() && ops == old(ops) + [ScrubOne(id, left, verdicts)]
      ensures old(Consistent(db.versions)) ==> Consistent(db.versions)
    {
      ghost var s := Now();
      ghost var done;
      hide Consistent, Condemns, Statuses, Remembers, SameTables, Pairwise, IsRun, Jobs, Verdicts;
      RowsStayAlike();
      r, history, done := ScrubVersion(db, id, history, left, verdicts);
      Note(ScrubOne(id, left, verdicts));
    }

    /** Deep-scrubs a version with the batch's history. */
    method DeepScrubOnce(id: VersionId, left: set<nat>, full: bool, verdicts: nat -> Verdict) returns (r: ScrubOutcome)
      requires Valid() && id in db.versions && RowsInside(db.versions[id]) && (full ==> left == {})
      modifies this, db`versions
      ensures Valid() && ops == old(ops) + [DeepScrubOne(id, left, full, verdicts)]
      ensures old(Consistent(db.versions)) ==>
                (Consistent(db.versions) <==> !old(Breaks(Now(), DeepScrubOne(id, left, full, verdicts))))
    {
      ghost var s := Now();
      ghost var done;
      hide Consistent, Flags, Statuses, Remembers, SameTables, Pairwise, IsRun, Jobs, Verdicts, RowsInside,
        SkipsInvalid, GoodHistory, HistoryAtHome, Steady, Approves;
      RowsStayAlike();
      r, history, done := DeepScrub(db, id, history, left, full, verdicts, _ => 0);
      ApprovesIff(s, id, left, full, verdicts, r);
      SameKeys(db.versions, s.versions);
      Note(DeepScrubOne(id, left, full, verdicts));
    }

    method StartBatch()
      requires Valid()
      modifies this
      ensures Valid() && ops == old(ops) + [Operation.StartBatch] && db.versions == old(db.versions) && history == {}
    {
      history := {};
      Note(Operation.StartBatch);
    }

    /** Restores a version; its reads complete in any order, and bring anything. */
    method Restore(id: VersionId, target: Target, sparse: bool, entries: Entries, hash: Hash)
      returns (r: Ending, order: seq<nat>)
      requires Valid() && id in db.versions && db.versions[id].size <= |target.image|
      modifies this, target, db`versions
      ensures Valid()
      ensures ops == old(ops) + [RestoreVersion(id, order, Readings(old(db.versions)[id], entries, hash))]
      ensures old(Consistent(db.versions)) ==> Consistent(db.versions)
    {
      hide Consistent, IsRun, CompletionOrder, Fills, Delivers, Content, TailAfter, Tail, HoldsFitting, ChecksumsFit;
      ghost var written;
      ghost var readings := Readings(db.versions[id], entries, hash);
      r, order, written := RestoreMarks.Restore(db, id, target, sparse, entries, hash);
      Note(RestoreVersion(id, order, readings));
    }

    method Remove(id: VersionId, date: int)
      requires Valid() && id in db.versions
      modifies this, db`versions, db`deleted
      ensures Valid() && ops == old(ops) + [RemoveVersion(id)]
      ensures old(Consistent(db.versions)) ==> Consistent(db.versions)
    {
      hide IsRun, Consistent;
      if Consistent(db.versions) { StepKeeps(db.versions, Event.Remove(id)); }
      var count := Cleanup.Remove(db, id, date);
      Note(RemoveVersion(id));
    }

    method BackUp(id: VersionId, source: Bytes, blockSize: Pos, hints: Option<seq<Hint>>, base: Option<VersionId>,
                  hash: Hash, sample: set<nat>, date: int, faults: Faults)
      returns (r: Outcome)
      requires FreshVersion(db.versions, db.objects, id) && Truthful(db.versions, db.objects, hash)
      requires CollisionFree(hash, PlanOf(db.versions, db.objects, db.versions[id].storage, source, blockSize, base,
                   hints))
      requires Valid() && Unminted(db.versions, id)
      modifies this, db`versions, db`objects, db`deleted
      ensures Valid() && ops == old(ops) + [BackUpVersion(id, base, |source|, blockSize)]
      ensures old(Consistent(db.versions)) ==> Consistent(db.versions)
    {
      hide Truthful, WellSized, CollisionFree, Unminted, Sourced, Content, GoodBase, LosesTail, KeepsOverhang,
        Consistent, IsRun, DiscardsAreZero, OutsideUnchanged, ShortHasUid, Intact, RemovalRecorded, SampleAgrees,
        SampleFails, ReadFails, WriteFails, HalfDone, NewSizesAlike, PlanOf;
      ghost var s := Now();
      r := Backup.Backup(db, id, source, blockSize, hints, base, hash, sample, date, faults);
      if r.IOError? {
        HalfDoneSized(db.versions[id], db.objects,
            PlanOf(s.versions, old(db.objects), s.versions[id].storage, source, blockSize, base, hints));
      }
      BackedUp(s.versions, db.versions, db.objects, id, base, |source|, blockSize, hints, hash, r);
      if Consistent(s.versions) { BackUpStep(s.versions, db.versions, id, base, |source|, blockSize); }
      Note(BackUpVersion(id, base, |source|, blockSize));
    }

    /** Opens a session of the NBD store on a version. */
    method OpenSession(id: VersionId, baseId: VersionId) returns (r: Outcome)
      requires FreshVersion(db.versions, db.objects, id) && Unminted(db.versions, id)
      requires baseId in db.versions && HasData(db.versions[baseId], db.objects) && baseId != id
      requires Valid()
      modifies this, store`cow, db`versions
      ensures Valid() && ops == old(ops) + [Operation.OpenSession(id, baseId)]
      ensures old(Consistent(db.versions)) ==> Consistent(db.versions)
      ensures r.Ok? ==> id in db.versions && store.Session(db.versions, db.objects, db.versions[id], id)
    {
      hide Consistent, Unminted, HasData, WellSized, Content, ClonedData, ClonedRows, IsRun;
      ghost var s := Now();
      r := store.CreateCowVersion(db, baseId, id);
      OpenIsBackUp(s.versions, db.versions, id, baseId);
      if Consistent(s.versions) {
        BackUpStep(s.versions, db.versions, id, Some(baseId), s.versions[baseId].size, s.versions[baseId].blockSize);
      }
      Note(Operation.OpenSession(id, baseId));
    }

    /** Fixates a session, whose version is no longer consistent if the session kept an invalid block. */
    method Fixate(id: VersionId, hash: Hash, failing: set<nat>, ghost base: Version)
      requires Valid() && Unminted(db.versions, id)
      requires store.Session(db.versions, db.objects, base, id) && forall key :: key in db.objects ==>
                 key.uid.left != id
      requires ZerosRecognised(Copied(id, store.cow[id], store.files), hash, base.blockSize)
      modifies this, store, db`versions, db`objects
      ensures Valid()
      ensures ops == old(ops) + [FixateVersion(id, base, old(Copied(id, store.cow[id], store.files)) - failing, hash)]
      ensures old(Consistent(db.versions)) ==>
                (Consistent(db.versions) <==>
                 !KeepsInvalid(old(db.versions)[id], old(Copied(id, store.cow[id], store.files)) - failing))
    {
      hide Consistent, Unminted, ZerosRecognised, FixedRows, Holding, Copied, IsRun, KeepsInvalid, View, Content,
        CopiesBareTail, SameOthers, SameAsBase;
      ghost var s, copied := Now(), Copied(id, store.cow[id], store.files) - failing;
      CloneRows(db.versions, db.objects, base, id);
      StartUnfixed(store.cow[id], store.files, store.present, id, base);
      KeptFacts(base, Copied(id, store.cow[id], store.files), failing, hash);
      store.Fixate(db, id, hash, failing, base);
      Note(FixateVersion(id, base, copied, hash));
      if Consistent(s.versions) { FixateStep(s.versions, db.versions, id, base, copied, hash); }
    }
  }

  lemma {:induction false} SameKeys(versions: Versions, before: Versions)
    requires SameTables(versions, before)
    ensures versions.Keys == before.Keys
  {
  }

  lemma {:induction false} CloneRows(versions: Versions, objects: Objects, base: Version, id: VersionId)
    requires CloneOf(versions, objects, base, id)
    ensures id in versions && WellSized(versions[id])
    ensures versions[id].size == base.size && versions[id].blockSize == base.blockSize
    ensures forall k :: 0 <= k < Count(base) ==> BlockAt(versions[id], k) == BlockAt(base, k)
  {
  }
}
