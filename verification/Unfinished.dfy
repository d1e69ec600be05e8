/**
 * Versions that no backup or fixation has finished.
 *
 * Such a version is to stay incomplete. But a uid that is found invalid makes all versions that use it
 * invalid, unfinished ones included, and a deep scrub takes an invalid version for one that was
 * finished once.
 */
module Unfinished {
  import opened Arithmetic
  import opened Images
  import opened Tables
  import opened Clone
  import opened Backup
  import opened Restore
  import opened Validity
  import opened Scrub
  import opened RestoreMarks
  import opened Nbd
  import opened Operations

  /** A backup that succeeds and a fixation finish a version; a new one is not finished. */
  function FinishedBy(t: Versions, op: Operation, finished: set<VersionId>): set<VersionId> {
    match op
    case BackUpVersion(id, _, _, _) => if id in t && t[id].status.Valid? then finished + {id} else finished
    case FixateVersion(id, _, _, _) => finished + {id}
    case CreateVersion(id, _) => finished - {id}
    case _ => finished
  }

  /** The finished versions after the first `n` operations of a run. */
  ghost function Finished(states: seq<State>, ops: seq<Operation>, n: nat, start: set<VersionId>): set<VersionId>
    requires IsRun(states, ops) && n <= |ops|
  {
    if n == 0 then start else FinishedBy(states[n].versions, ops[n - 1], Finished(states, ops, n - 1, start))
  }

  /** No version is valid but those that were finished. */
  ghost predicate OnlyFinished(versions: Versions, finished: set<VersionId>) {
    forall id :: id in versions && versions[id].status.Valid? ==> id in finished
  }

  /** A deep scrub approves a version that nothing has finished. */
  ghost predicate ApprovesUnfinished(s: State, op: Operation, finished: set<VersionId>) {
    && op.DeepScrubOne? && op.id in s.versions && op.id !in finished
    && Approves(s, op.id, op.left, op.full, op.verdicts)
  }

  // ---------------------------------------------------------------- each operation

  /** Every version of the later tables was there before, and is valid only if it was. */
  ghost predicate NoneApproved(t: Versions, s: Versions) {
    forall id :: id in t ==> id in s && (t[id].status.Valid? ==> s[id].status.Valid?)
  }

  lemma {:induction false} MarkBlockApproves(versions: Versions, row: Row)
    ensures NoneApproved(MarkBlock(versions, row), versions)
  {
  }

  lemma {:induction false} ReadsApprove(versions: Versions, v: Version, order: seq<nat>, readings: nat -> Reading,
                                        n: nat)
    requires n <= |order| && (n > 0 ==> Count(v) > 0)
    ensures NoneApproved(AfterReads(versions, v, order, readings, n), versions)
  {
    hide MarkBlock;
    if n > 0 {
      ReadsApprove(versions, v, order, readings, n - 1);
      var before := AfterReads(versions, v, order, readings, n - 1);
      MarkBlockApproves(before, BlockAt(v, order[n - 1]));
      MarkBlockApproves(before, BlockAt(v, Held(v, order, readings, n - 1)));
    }
  }

  lemma {:induction false} BackUpApproves(s: Versions, t: Versions, id: VersionId, base: Option<VersionId>, size: nat,
                                          blockSize: Pos)
    requires BackUpEffect(s, t, id, base, size, blockSize)
    ensures forall k :: k in t && t[k].status.Valid? && k != id ==> k in s && s[k].status.Valid?
  {
    hide Unminted, NewSizesAlike, RowsFrom, Sourced, Prepared;
  }

  lemma {:induction false} DeepScrubApproves(s: State, t: State, id: VersionId, left: set<nat>, full: bool,
                                             verdicts: nat -> Verdict)
    requires DeepScrubEffect(s, t, id, left, full, verdicts)
    ensures id in s.versions
    ensures var approved := Approves(s, id, left, full, verdicts);
            && id in t.versions && (approved ==> t.versions[id].status.Valid?)
            && forall k :: k in t.versions && t.versions[k].status.Valid? && !(approved && k == id) ==>
                 k in s.versions && s.versions[k].status.Valid?
  {
    hide Approves, Flags, Remembers, Demoted, Pairwise, RowsInside, Jobs;
  }

  lemma {:induction false} ScrubApproves(s: State, t: State, id: VersionId, left: set<nat>, verdicts: nat -> Verdict)
    requires ScrubEffect(s, t, id, left, verdicts)
    ensures NoneApproved(t.versions, s.versions)
  {
    hide Condemns, Remembers, Demoted, Pairwise, Jobs;
  }

  /** An operation leaves only finished versions valid if and only if it is no deep scrub that approves another one. */
  lemma {:induction false} OperationFinishesIff(s: State, t: State, op: Operation, finished: set<VersionId>)
    requires OnlyFinished(s.versions, finished) && Effect(s, t, op)
    ensures OnlyFinished(t.versions, FinishedBy(t.versions, op, finished)) <==> !ApprovesUnfinished(s, op, finished)
  {
    hide BackUpEffect, ScrubEffect, DeepScrubEffect, AfterReads, CompletionOrder, Approves, Unminted, FixedRows;
    match op
    case CreateVersion(id, v) =>
    case BackUpVersion(id, base, size, blockSize) => BackUpApproves(s.versions, t.versions, id, base, size, blockSize);
    case StartBatch =>
    case ScrubOne(id, left, verdicts) => ScrubApproves(s, t, id, left, verdicts);
    case DeepScrubOne(id, left, full, verdicts) => DeepScrubApproves(s, t, id, left, full, verdicts);
    case RestoreVersion(id, order, readings) =>
      ReadsApprove(s.versions, s.versions[id], order, readings, FirstRaised(order, readings, 0));
    case RemoveVersion(id) =>
    case OpenSession(id, base) =>
      OpenIsBackUp(s.versions, t.versions, id, base);
      BackUpApproves(s.versions, t.versions, id, Some(base), s.versions[base].size, s.versions[base].blockSize);
    case FixateVersion(id, base, copied, hash) =>
  }

  /**
   * Over every sequence of operations, versions are valid only once a backup or a fixation has
   * finished them, if and only if no deep scrub approves a version that nothing has finished.
   */
  lemma {:induction false} RunFinishesIff(states: seq<State>, ops: seq<Operation>, start: set<VersionId>)
    requires IsRun(states, ops) && OnlyFinished(states[0].versions, start)
    ensures (forall k :: 0 <= k <= |ops| ==> OnlyFinished(states[k].versions, Finished(states, ops, k, start))) <==>
            forall k :: 0 <= k < |ops| ==> !ApprovesUnfinished(states[k], ops[k], Finished(states, ops, k, start))
  {
    hide OnlyFinished, ApprovesUnfinished, Effect;
    UpTo(states, ops, start, |ops|);
  }

  lemma {:induction false} UpTo(states: seq<State>, ops: seq<Operation>, start: set<VersionId>, n: nat)
    requires IsRun(states, ops) && OnlyFinished(states[0].versions, start) && n <= |ops|
    ensures (forall k :: 0 <= k <= n ==> OnlyFinished(states[k].versions, Finished(states, ops, k, start))) <==>
            forall k :: 0 <= k < n ==> !ApprovesUnfinished(states[k], ops[k], Finished(states, ops, k, start))
  {
    hide OnlyFinished, ApprovesUnfinished, Effect, FinishedBy;
    if n > 0 {
      UpTo(states, ops, start, n - 1);
      var before := Finished(states, ops, n - 1, start);
      assert Finished(states, ops, n, start) == FinishedBy(states[n].versions, ops[n - 1], before);
      if OnlyFinished(states[n - 1].versions, before) {
        OperationFinishesIff(states[n - 1], states[n], ops[n - 1], before);
      }
    }
  }

  // ---------------------------------------------------------------- how an unfinished version gets approved

  /** A deep scrub leaves an incomplete version alone: one that it approves although unfinished has become invalid. */
  lemma {:induction false} ApprovedWasInvalid(s: State, op: Operation, finished: set<VersionId>)
    requires OnlyFinished(s.versions, finished) && ApprovesUnfinished(s, op, finished)
    ensures s.versions[op.id].status.Invalid?
  {
  }

  /** And only scrubs, deep scrubs and restores make an incomplete version invalid. */
  lemma {:induction false} MarksInvalidate(s: State, t: State, op: Operation, id: VersionId)
    requires Effect(s, t, op) && id in s.versions && s.versions[id].status.Incomplete?
    requires id in t.versions && t.versions[id].status.Invalid?
    ensures op.ScrubOne? || op.DeepScrubOne? || op.RestoreVersion?
  {
    hide ScrubEffect, DeepScrubEffect, RestoreEffect, Unminted, NewSizesAlike, RowsFrom, Sourced, FixedRows, ClonedRows;
  }

  // ---------------------------------------------------------------- a run that approves an unfinished version

  const SHARED := BlockUid(1, 1)

  function SharedRow(): Row {
    Row(Some(SHARED), Some(7), 2, true)
  }

  function OneBlock(): Version {
    Version(0, 2, 2, Valid, map[0 := SharedRow()])
  }

  /** Version 2 has just been created; version 1, its base to be, has one block. */
  function CreatedTables(): Versions {
    map[1 := OneBlock(), 2 := Version(0, 0, 2, Incomplete, map[])]
  }

  /** A backup of three bytes has prepared version 2 and given up. */
  function HalfDoneVersion(): Version {
    Version(0, 3, 2, Incomplete, map[0 := SharedRow(), 1 := Row(None, None, 1, false)])
  }

  function GivenUpTables(): Versions {
    map[1 := OneBlock(), 2 := HalfDoneVersion()]
  }

  /** A scrub of version 1 has found its block invalid. */
  function ScrubbedTables(): Versions {
    Mark(GivenUpTables(), SHARED, false)
  }

  /** A deep scrub of version 2 has found the block valid again, and approves the version. */
  function RevalidatedTables(): Versions {
    Mark(ScrubbedTables(), SHARED, true)
  }

  function ApprovedTables(): Versions {
    RevalidatedTables()[2 := HalfDoneVersion().(status := Valid)]
  }

  function AllBad(): nat -> Verdict {
    _ => BadBlock
  }

  function AllGood(): nat -> Verdict {
    _ => Good
  }

  function ApprovalOps(): seq<Operation> {
    [BackUpVersion(2, Some(1), 3, 2), ScrubOne(1, {}, AllBad()), DeepScrubOne(2, {}, true, AllGood())]
  }

  function ApprovalStates(): seq<State> {
    [State(CreatedTables(), {}), State(GivenUpTables(), {}), State(ScrubbedTables(), {}),
     State(ApprovedTables(), {(0, SHARED)})]
  }

  /** The blocks of an image of one block, and of one that has a byte more. */
  lemma {:induction false} Sizes(size: nat, b: Pos)
    requires size == b + 1
    ensures BlocksCount(b, b) == 1 && BlocksCount(size, b) == 2
    ensures SizeAt(b, b, 0) == b && SizeAt(size, b, 0) == b && SizeAt(size, b, 1) == 1
  {
    assert At(0, b) == 0 && At(1, b) == b;
    assert BlocksCount(1, b) == 1;
  }

  lemma {:induction false} PreparedRows()
    ensures BaseOf(CreatedTables(), Some(1)) == Some(OneBlock())
    ensures Prepared(CreatedTables()[2], Some(OneBlock()), 3, 2) == HalfDoneVersion()
  {
    hide BlocksCount, SizeAt;
    Sizes(3, 2);
    assert ClonedRow(Some(OneBlock()), 3, 2, 0) == SharedRow();
    assert ClonedRow(Some(OneBlock()), 3, 2, 1) == Row(None, None, 1, false);
    assert ClonedRows(Some(OneBlock()), 3, 2, 2) == HalfDoneVersion().rows;
  }

  lemma {:induction false} GivesUpFirst()
    ensures BackUpEffect(CreatedTables(), GivenUpTables(), 2, Some(1), 3, 2)
  {
    PreparedRows();
    hide Prepared, Known;
    assert PreparedTables(CreatedTables(), 2, Some(1), 3, 2) == GivenUpTables();
    Backup.NoRows(GivenUpTables(), 2);
  }

  lemma {:induction false} PreparedConsistent()
    ensures Consistent(GivenUpTables())
  {
    assert Agree(GivenUpTables(), {});
  }

  /** A scrub of a version with one block that is to be read, and that it finds invalid. */
  lemma {:induction false} ScrubFinds(versions: Versions, id: VersionId, uid: BlockUid, verdicts: nat -> Verdict)
    requires Consistent(versions) && id in versions && Jobs(versions[id], {}, {}) == {0} && verdicts(0).BadBlock?
    requires 0 in versions[id].rows && versions[id].rows[0].uid == Some(uid)
    ensures ScrubEffect(State(versions, {}), State(Mark(versions, uid, false), {}), id, {}, verdicts)
  {
    hide Mark, Condemns, Statuses, Remembers, SameTables, BadUids, Checking, Consistent, Jobs;
    PairwiseOf(versions);
    StartChecking(versions, id, {}, verdicts);
    CheckOne(versions, BadUids(versions), versions, versions[id], {}, {}, {}, verdicts, 0);
    assert {} + {0} == {0};
    Checked(Mark(versions, uid, false), BadUids(versions) + {uid}, versions, id, {}, {}, {0}, verdicts);
  }

  lemma {:induction false} JobsAre(v: Version)
    requires Jobs(v, {}, {}) == {0}
    ensures forall i :: i in {0} <==> IsJob(v, {}, {}, i)
  {
    forall i | IsJob(v, {}, {}, i) ensures i in Jobs(v, {}, {}) {}
  }

  lemma {:induction false} VerdictsGood(v: Version, verdicts: nat -> Verdict)
    requires Jobs(v, {}, {}) == {0} && verdicts(0).Good?
    ensures Verdicts(v, {}, {}, verdicts) <= {Good}
  {
    JobsAre(v);
  }

  /** A full deep scrub of an invalid version whose only block to be read has become valid again. */
  lemma {:induction false} DeepScrubPasses(versions: Versions, id: VersionId, uid: BlockUid, verdicts: nat -> Verdict)
    requires Consistent(versions) && id in versions && versions[id].status.Invalid? && RowsInside(versions[id])
    requires Jobs(versions[id], {}, {}) == {0} && verdicts(0).Good? && versions[id].storage == 0
    requires 0 in versions[id].rows && versions[id].rows[0].uid == Some(uid) && !versions[id].rows[0].valid
    ensures var marked := Mark(versions, uid, true);
            && id in marked && Approves(State(versions, {}), id, {}, true, verdicts)
            && DeepScrubEffect(State(versions, {}), State(marked[id := marked[id].(status := Valid)], {(0, uid)}), id,
                   {}, true, verdicts)
  {
    hide Mark, Flags, Statuses, Remembers, SameTables, BadUids, Scrubbing, Consistent, Jobs, RowsAgree, RowsInside,
      Verdicts, Pairwise, SkipsInvalid, GoodHistory;
    var v, marked := versions[id], Mark(versions, uid, true);
    VerdictsGood(v, verdicts);
    JobsAre(v);
    PairwiseOf(versions);
    StartScrubbing(versions, id, {}, verdicts);
    var next := ReadKeeps(versions, BadUids(versions), versions, v, {}, {}, {}, verdicts, 0);
    assert {} + {0} == {0} && {} + {(0, uid)} == {(0, uid)};
    ReadIs(versions, v.rows[0], verdicts(0));
    Scrub.Scrubbed(marked, next, versions, id, {(0, uid)}, {}, {}, {0}, verdicts, _ => 0);
    Scrub.Approved(marked, next, versions, id, {(0, uid)}, {}, {0}, verdicts);
  }

  lemma {:induction false} OnlyJob(v: Version)
    requires v.storage == 0 && 0 in v.rows && v.rows[0].uid.Some? && 0 < Count(v)
    requires forall i :: i in v.rows && i > 0 ==> v.rows[i].uid.None?
    ensures Jobs(v, {}, {}) == {0}
  {
    hide BlocksCount;
  }

  lemma {:induction false} FirstJobs()
    ensures Jobs(OneBlock(), {}, {}) == {0} && Jobs(HalfDoneVersion(), {}, {}) == {0}
    ensures Count(OneBlock()) == 1 && Count(HalfDoneVersion()) == 2
  {
    hide BlocksCount, Jobs, SizeAt, At;
    Sizes(3, 2);
    OnlyJob(OneBlock());
    OnlyJob(HalfDoneVersion());
  }

  lemma {:induction false} ScrubbedFirst()
    ensures ScrubEffect(State(GivenUpTables(), {}), State(ScrubbedTables(), {}), 1, {}, AllBad())
  {
    hide ScrubEffect, Mark, Consistent, Jobs, BlocksCount;
    FirstJobs();
    PreparedConsistent();
    ScrubFinds(GivenUpTables(), 1, SHARED, AllBad());
  }

  /** Marking the shared uid in a version that has it in its first row only. */
  lemma {:induction false} MarkFirst(v: Version, valid: bool)
    requires 0 in v.rows && v.rows[0].uid == Some(SHARED)
    requires forall i :: i in v.rows && i > 0 ==> v.rows[i].uid.None?
    ensures MarkVersion(v, SHARED, valid) ==
            v.(rows := v.rows[0 := v.rows[0].(valid := valid)], status := if valid then v.status else Invalid)
  {
    assert MarkVersion(v, SHARED, valid).rows == v.rows[0 := v.rows[0].(valid := valid)];
  }

  /** The second version, after the scrub and after the deep scrub. */
  lemma {:induction false} SecondVersions()
    ensures ScrubbedTables().Keys == {1, 2} == RevalidatedTables().Keys
    ensures ScrubbedTables()[2] ==
            HalfDoneVersion().(rows := HalfDoneVersion().rows[0 := SharedRow().(valid := false)], status := Invalid)
    ensures RevalidatedTables()[2] == HalfDoneVersion().(status := Invalid)
  {
    hide MarkVersion;
    MarkFirst(HalfDoneVersion(), false);
    MarkFirst(ScrubbedTables()[2], true);
    assert RevalidatedTables()[2].rows == HalfDoneVersion().rows;
  }

  lemma {:induction false} ScrubbedConsistent()
    ensures Consistent(ScrubbedTables())
  {
    hide Mark;
    assert Agree(GivenUpTables(), {}) && Sound(GivenUpTables());
    MarkKeeps(GivenUpTables(), SHARED, false, {});
  }

  lemma {:induction false} SameJobs(v: Version, w: Version)
    requires SameUids(v, w)
    ensures Jobs(v, {}, {}) == Jobs(w, {}, {}) && (RowsInside(v) <==> RowsInside(w))
  {
    hide BlocksCount;
  }

  lemma {:induction false} ApprovedLast()
    ensures Approves(State(ScrubbedTables(), {}), 2, {}, true, AllGood())
    ensures DeepScrubEffect(State(ScrubbedTables(), {}), State(ApprovedTables(), {(0, SHARED)}), 2, {}, true, AllGood())
  {
    hide DeepScrubEffect, Mark, Consistent, Approves, Jobs, BlocksCount;
    FirstJobs();
    SecondVersions();
    ScrubbedConsistent();
    SameJobs(ScrubbedTables()[2], HalfDoneVersion());
    hide ScrubbedTables;
    DeepScrubPasses(ScrubbedTables(), 2, SHARED, AllGood());
  }

  /**
   * A backup gives up. A scrub finds a block invalid that the unfinished version shares with its base;
   * a deep scrub then finds that block valid again, and makes the unfinished version valid.
   */
  lemma {:induction false} UnfinishedApproved()
    ensures var states, ops := ApprovalStates(), ApprovalOps();
            && IsRun(states, ops) && OnlyFinished(states[0].versions, {1}) && Finished(states, ops, 3, {1}) == {1}
            && 2 in states[3].versions && states[3].versions[2] == HalfDoneVersion().(status := Valid)
  {
    hide BackUpEffect, ScrubEffect, DeepScrubEffect, ScrubbedTables;
    GivesUpFirst();
    ScrubbedFirst();
    ApprovedLast();
    var states, ops := ApprovalStates(), ApprovalOps();
    assert Effect(states[0], states[1], ops[0]) && Effect(states[1], states[2], ops[1]);
    assert Effect(states[2], states[3], ops[2]);
    assert Finished(states, ops, 1, {1}) == {1};
    assert Finished(states, ops, 2, {1}) == {1};
  }

  /** The objects of that run: the shared block's. */
  function SharedObjects(): Objects {
    map[ObjectKey(0, SHARED) := [1, 1]]
  }

  /**
   * The version that is now valid can be restored, or served by the NBD store, although its short last
   * block has no uid; a write to that block copies it.
   */
  lemma {:induction false} ValidBareTail(copy: Bytes)
    requires |copy| == 2
    ensures var v := HalfDoneVersion().(status := Valid);
            && Restorable(v, SharedObjects()) && HasBareTail(v)
            && Copies(v, map[1 := copy]) && CopiesBareTail(v, map[1 := copy])
  {
    hide BlocksCount, SizeAt;
    Sizes(3, 2);
    var v := HalfDoneVersion().(status := Valid);
    assert Count(v) == 2 && BlockAt(v, 1).uid.None? && SizeAt(v.size, v.blockSize, 1) == 1;
    assert 1 in map[1 := copy];
  }
}
