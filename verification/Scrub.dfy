/** Scrubbing and deep-scrubbing versions, with a history of uids that have been seen. */
module Scrub {
  import opened Tables
  import opened VersionTable
  import opened Validity

  /** What reading a block's object, or its metadata, brings to light. */
  datatype Verdict = Good | BadBlock | SourceMismatch | OtherError

  datatype ScrubOutcome = Success | ScrubbingError | NotScrubbable | Aborted

  type History = set<(StorageId, BlockUid)>

  /** Marks a uid in all rows; an invalid one also marks the versions that hold it. */
  method SetBlockValid(db: Database, uid: BlockUid, valid: bool) returns (affected: set<VersionId>)
    modifies db`versions
    ensures db.versions == Mark(old(db.versions), uid, valid)
    ensures forall id :: id in affected <==> id in old(db.versions) && Uses(old(db.versions)[id], uid)
  {
    affected := set id | id in db.versions && Uses(db.versions[id], uid);
    var rows := map id | id in db.versions ::
      map i | i in db.versions[id].rows :: MarkRow(db.versions[id].rows[i], uid, valid);
    db.versions := map id | id in db.versions ::
      db.versions[id].(rows := rows[id],
                       status := if !valid && id in affected then Invalid else db.versions[id].status);
  }

  /** The block is read: it has a uid, the history has not seen it, and sampling did not leave it out. */
  predicate IsJob(v: Version, history: History, left: set<nat>, i: nat) {
    && i in v.rows && i < Count(v) && v.rows[i].uid.Some?
    && (v.storage, v.rows[i].uid.value) !in history && i !in left
  }

  function Jobs(v: Version, history: History, left: set<nat>): set<nat> {
    set i | i in v.rows && IsJob(v, history, left, i)
  }

  /** The verdicts on the blocks that are read. */
  function Verdicts(v: Version, history: History, left: set<nat>, verdicts: nat -> Verdict): set<Verdict> {
    set i | i in v.rows && IsJob(v, history, left, i) :: verdicts(i)
  }

  /** The verdicts on all jobs are those on the jobs done, once all are done. */
  lemma {:induction false} VerdictsOf(v: Version, history: History, left: set<nat>, verdicts: nat -> Verdict,
                                      jobs: set<nat>)
    requires forall i :: i in jobs <==> IsJob(v, history, left, i)
    ensures Verdicts(v, history, left, verdicts) == set i | i in jobs :: verdicts(i)
    ensures forall i :: i in jobs ==> verdicts(i) in Verdicts(v, history, left, verdicts)
  {
  }

  /** Queues the blocks to be read. */
  method Prepare(v: Version, history: History, left: set<nat>) returns (jobs: set<nat>)
    ensures jobs == Jobs(v, history, left) && forall i :: i in jobs <==> IsJob(v, history, left, i)
  {
    jobs := {};
    var blocks := Blocks(v, 10000);
    for i := 0 to |blocks|
      invariant forall k: nat :: k in jobs <==> k < i && IsJob(v, history, left, k)
    {
      var row := blocks[i].1;
      if row.uid.Some? && (v.storage, row.uid.value) !in history && i !in left {
        jobs := jobs + {i};
      }
    }
  }

  lemma {:induction false} JobHasUid(v: Version, history: History, left: set<nat>, i: nat)
    requires IsJob(v, history, left, i)
    ensures i in v.rows && v.rows[i].uid.Some?
  {
  }

  // ---------------------------------------------------------------- deep scrub

  /** Some of the given blocks has the uid. */
  ghost predicate Touched(v: Version, done: set<nat>, uid: BlockUid) {
    exists i :: i in done && i in v.rows && v.rows[i].uid == Some(uid)
  }

  /** Some of the given blocks has the uid and was found invalid. */
  ghost predicate Condemned(v: Version, done: set<nat>, verdicts: nat -> Verdict, uid: BlockUid) {
    exists i :: i in done && i in v.rows && v.rows[i].uid == Some(uid) && verdicts(i).BadBlock?
  }

  /**
   * How the bad uids have developed: only those of blocks done change, one that was never condemned
   * is good, and one that never passed is bad.
   */
  ghost predicate Tracks(bad: set<BlockUid>, start: set<BlockUid>, v: Version, done: set<nat>,
                         verdicts: nat -> Verdict) {
    && (forall uid :: !Condemned(v, done, verdicts, uid) && uid in bad ==> uid in start && !Touched(v, done, uid))
    && (forall uid :: !Touched(v, done, uid) && uid in start ==> uid in bad)
    && (forall uid :: Condemned(v, done, verdicts, uid) && !Passed(v, done, verdicts, uid) ==> uid in bad)
  }

  /** The history has gained the uids of the blocks done that were not found invalid. */
  ghost predicate Remembers(seen: History, history: History, v: Version, done: set<nat>, verdicts: nat -> Verdict) {
    forall h :: h in seen <==> h in history || (h.0 == v.storage && Passed(v, done, verdicts, h.1))
  }

  ghost predicate Passed(v: Version, done: set<nat>, verdicts: nat -> Verdict, uid: BlockUid) {
    exists i :: i in done && i in v.rows && v.rows[i].uid == Some(uid) && !verdicts(i).BadBlock?
  }

  /** The version has the rows it had, up to validity. */
  ghost predicate SameUids(w: Version, v: Version) {
    && w.storage == v.storage && w.size == v.size && w.blockSize == v.blockSize && w.rows.Keys == v.rows.Keys
    && forall i :: i in v.rows ==> w.rows[i].uid == v.rows[i].uid && w.rows[i].size == v.rows[i].size
  }

  ghost predicate SameTables(versions: Versions, before: Versions) {
    versions.Keys == before.Keys && forall id :: id in before ==> SameUids(versions[id], before[id])
  }

  lemma {:induction false} MarkSameUids(versions: Versions, before: Versions, uid: BlockUid, valid: bool)
    requires SameTables(versions, before)
    ensures SameTables(Mark(versions, uid, valid), before)
  {
    hide MarkRow;
    forall id | id in before ensures SameUids(Mark(versions, uid, valid)[id], before[id]) {
      MarkedUids(versions[id], uid, valid);
    }
  }

  lemma {:induction false} MarkBareSameTables(versions: Versions, valid: bool)
    ensures SameTables(MarkBare(versions, valid), versions)
  {
    forall id | id in versions ensures SameUids(MarkBare(versions, valid)[id], versions[id]) {
      var v := versions[id];
      forall i | i in v.rows ensures MarkBareVersion(v, valid).rows[i] == MarkBareRow(v.rows[i], valid) {}
    }
  }

  /** The version uses a uid that was found invalid. */
  ghost predicate Demoted(w: Version, v: Version, done: set<nat>, verdicts: nat -> Verdict) {
    exists i :: i in done && i in v.rows && v.rows[i].uid.Some? && verdicts(i).BadBlock? && Uses(w, v.rows[i].uid.value)
  }

  /** Versions that use a uid found invalid have become invalid; the status of all others is as before. */
  ghost predicate Statuses(versions: Versions, before: Versions, v: Version, done: set<nat>, verdicts: nat -> Verdict) {
    && versions.Keys == before.Keys
    && forall id :: id in before ==>
      versions[id].status == if Demoted(before[id], v, done, verdicts) then Invalid else before[id].status
  }

  lemma {:induction false} SameUses(w: Version, v: Version, uid: BlockUid)
    requires SameUids(w, v)
    ensures Uses(w, uid) <==> Uses(v, uid)
  {
  }

  lemma {:induction false} StatusesRead(versions: Versions, after: Versions, before: Versions, v: Version,
                                        done: set<nat>, verdicts: nat -> Verdict, i: nat)
    requires Statuses(versions, before, v, done, verdicts) && SameTables(versions, before) && i in v.rows
    requires v.rows[i].uid.Some?
    requires if verdicts(i).BadBlock? then after == Mark(versions, v.rows[i].uid.value, false)
             else after == versions || after == Mark(versions, v.rows[i].uid.value, true)
    ensures Statuses(after, before, v, done + {i}, verdicts)
  {
    hide Uses, SameUids;
    var uid := v.rows[i].uid.value;
    forall id | id in before
      ensures after[id].status == if Demoted(before[id], v, done + {i}, verdicts) then Invalid else before[id].status
    {
      SameUses(versions[id], before[id], uid);
      assert Demoted(before[id], v, done + {i}, verdicts) <==>
             Demoted(before[id], v, done, verdicts) || (verdicts(i).BadBlock? && Uses(before[id], uid));
    }
  }

  /** The flags after some blocks were read, by uid. */
  ghost predicate Flags(versions: Versions, before: Versions, v: Version, done: set<nat>, verdicts: nat -> Verdict) {
    forall uid ::
      && (!Touched(v, done, uid) ==> (uid in BadUids(versions) <==> uid in BadUids(before)))
      && (Touched(v, done, uid) && !Condemned(v, done, verdicts, uid) ==> uid !in BadUids(versions))
      && (Condemned(v, done, verdicts, uid) && !Passed(v, done, verdicts, uid) ==> uid in BadUids(versions))
  }

  /** A bad uid that some row references shows in that row. */
  lemma {:induction false} ShowsBad(versions: Versions, bad: set<BlockUid>, id: VersionId, i: nat)
    requires Agree(versions, bad) && id in versions && i in versions[id].rows && versions[id].rows[i].uid.Some?
    ensures versions[id].rows[i].uid.value in bad ==> versions[id].rows[i].uid.value in BadUids(versions)
  {
    assert RowsAgree(versions[id].rows, bad);
  }

  lemma {:induction false} FlagsFollow(versions: Versions, bad: set<BlockUid>, before: Versions, id: VersionId,
                                       done: set<nat>, verdicts: nat -> Verdict)
    requires Agree(versions, bad) && SameTables(versions, before) && id in before
    requires Tracks(bad, BadUids(before), before[id], done, verdicts)
    ensures Flags(versions, before, before[id], done, verdicts)
  {
    BadAreBad(versions, bad);
    hide Agree, BadUids;
    var v := before[id];
    forall uid
      ensures !Touched(v, done, uid) && uid in BadUids(before) ==> uid in BadUids(versions)
      ensures Condemned(v, done, verdicts, uid) && !Passed(v, done, verdicts, uid) ==> uid in BadUids(versions)
    {
      if !Touched(v, done, uid) && uid in BadUids(before) {
        var k, i := BadRow(before, uid);
        assert SameUids(versions[k], before[k]);
        ShowsBad(versions, bad, k, i);
      }
      if Condemned(v, done, verdicts, uid) && !Passed(v, done, verdicts, uid) {
        var i :| i in done && i in v.rows && v.rows[i].uid == Some(uid) && verdicts(i).BadBlock?;
        assert SameUids(versions[id], v);
        ShowsBad(versions, bad, id, i);
      }
    }
    forall uid | Condemned(v, done, verdicts, uid) ensures Touched(v, done, uid) {}
  }

  lemma {:induction false} BadRow(versions: Versions, uid: BlockUid) returns (k: VersionId, i: nat)
    requires uid in BadUids(versions)
    ensures k in versions && i in versions[k].rows && versions[k].rows[i].uid == Some(uid) && !versions[k].rows[i].valid
  {
    k, i :| k in versions && i in versions[k].rows
      && versions[k].rows[i].uid == Some(uid) && !versions[k].rows[i].valid;
  }

  lemma {:induction false} MarkedUids(v: Version, uid: BlockUid, valid: bool)
    ensures SameUids(MarkVersion(v, uid, valid), v)
  {
  }

  /** A block found invalid. */
  lemma {:induction false} TrackBad(bad: set<BlockUid>, start: set<BlockUid>, v: Version, done: set<nat>,
                                    verdicts: nat -> Verdict, i: nat)
    requires Tracks(bad, start, v, done, verdicts) && i in v.rows && v.rows[i].uid.Some? && verdicts(i).BadBlock?
    ensures Tracks(bad + {v.rows[i].uid.value}, start, v, done + {i}, verdicts)
  {
    var uid := v.rows[i].uid.value;
    assert Condemned(v, done + {i}, verdicts, uid);
    forall u | u != uid ensures Touched(v, done + {i}, u) <==> Touched(v, done, u) {}
    forall u | Condemned(v, done, verdicts, u) ensures Condemned(v, done + {i}, verdicts, u) {}
    forall u | Touched(v, done, u) ensures Touched(v, done + {i}, u) {}
    forall u | Passed(v, done, verdicts, u) ensures Passed(v, done + {i}, verdicts, u) {}
    forall u | u != uid && Condemned(v, done + {i}, verdicts, u) ensures Condemned(v, done, verdicts, u) {}
  }

  /** A block that passes: it was valid to begin with, or it is marked valid now. */
  lemma {:induction false} TrackGood(bad: set<BlockUid>, start: set<BlockUid>, v: Version, done: set<nat>,
                                     verdicts: nat -> Verdict, i: nat)
    requires Tracks(bad, start, v, done, verdicts) && RowsAgree(v.rows, start)
    requires i in v.rows && v.rows[i].uid.Some? && !verdicts(i).BadBlock?
    ensures Tracks(if v.rows[i].valid then bad else bad - {v.rows[i].uid.value}, start, v, done + {i}, verdicts)
  {
    var uid := v.rows[i].uid.value;
    assert Touched(v, done + {i}, uid) && Passed(v, done + {i}, verdicts, uid);
    forall u | Passed(v, done, verdicts, u) ensures Passed(v, done + {i}, verdicts, u) {}
    forall u ensures Condemned(v, done + {i}, verdicts, u) <==> Condemned(v, done, verdicts, u) {}
    forall u | u != uid ensures Touched(v, done + {i}, u) <==> Touched(v, done, u) {}
    forall u | Touched(v, done, u) ensures Touched(v, done + {i}, u) {}
  }

  lemma {:induction false} RememberOne(seen: History, history: History, v: Version, done: set<nat>,
                                       verdicts: nat -> Verdict, i: nat)
    requires Remembers(seen, history, v, done, verdicts) && i in v.rows && v.rows[i].uid.Some?
    ensures Remembers(if verdicts(i).BadBlock? then seen else seen + {(v.storage, v.rows[i].uid.value)},
                      history, v, done + {i}, verdicts)
  {
    forall u ensures Passed(v, done + {i}, verdicts, u) <==>
                       Passed(v, done, verdicts, u) || (!verdicts(i).BadBlock? && v.rows[i].uid == Some(u)) {}
  }

  /** A uid of the version was skipped because the history has seen it, although it is marked invalid. */
  ghost predicate SkipsInvalid(v: Version, history: History) {
    exists i :: i in v.rows && v.rows[i].uid.Some? && (v.storage, v.rows[i].uid.value) in history && !v.rows[i].valid
  }

  /** After a deep scrub of all blocks in which all jobs passed, every uid is valid but those skipped while invalid. */
  lemma {:induction false} AllPassed(w: Version, v: Version, history: History, jobs: set<nat>, verdicts: nat -> Verdict,
                                     bad: set<BlockUid>, start: set<BlockUid>)
    requires forall i :: i in jobs <==> IsJob(v, history, {}, i)
    requires RowsInside(v) && RowsAgree(v.rows, start) && SameUids(w, v) && RowsAgree(w.rows, bad)
    requires Tracks(bad, start, v, jobs, verdicts) && forall i :: i in jobs ==> verdicts(i).Good?
    ensures AllValid(w) <==> !SkipsInvalid(v, history)
  {
    forall i | i in v.rows && v.rows[i].uid.Some?
      ensures w.rows[i].valid <==> v.rows[i].valid || i in jobs
    {
      var uid := v.rows[i].uid.value;
      assert !Condemned(v, jobs, verdicts, uid);
      if i in jobs {
        assert Touched(v, jobs, uid);
      } else {
        assert (v.storage, uid) in history;
        assert !Touched(v, jobs, uid);
      }
    }
  }

  /** The state between two completed reads of a deep scrub. */
  ghost predicate Scrubbing(versions: Versions, bad: set<BlockUid>, before: Versions, v: Version, seen: History,
                            history: History, done: set<nat>, verdicts: nat -> Verdict) {
    var start := BadUids(before);
    && Agree(versions, bad) && (Sound(before) ==> Sound(versions)) && SameTables(versions, before)
    && Statuses(versions, before, v, done, verdicts)
    && Tracks(bad, start, v, done, verdicts) && Remembers(seen, history, v, done, verdicts)
  }

  lemma {:induction false} StartScrubbing(versions: Versions, id: VersionId, history: History, verdicts: nat -> Verdict)
    requires id in versions && Pairwise(versions)
    ensures Scrubbing(versions, BadUids(versions), versions, versions[id], history, history, {}, verdicts)
    ensures RowsAgree(versions[id].rows, BadUids(versions))
  {
    hide RowsAgree, AllValid, BadUids;
    AgreeIsPairwise(versions);
    PairwiseAgree(versions);
  }

  /** The tables after one completed read, and the history. */
  function AfterRead(versions: Versions, row: Row, verdict: Verdict): Versions
    requires row.uid.Some?
  {
    if verdict.BadBlock? then Mark(versions, row.uid.value, false)
    else if !row.valid then Mark(versions, row.uid.value, true)
    else versions
  }

  lemma {:induction false} ReadKeeps(versions: Versions, bad: set<BlockUid>, before: Versions, v: Version,
                                     seen: History, history: History, done: set<nat>, verdicts: nat -> Verdict, i: nat)
    returns (next: set<BlockUid>)
    requires Scrubbing(versions, bad, before, v, seen, history, done, verdicts)
    requires RowsAgree(v.rows, BadUids(before)) && i in v.rows && v.rows[i].uid.Some?
    ensures Scrubbing(AfterRead(versions, v.rows[i], verdicts(i)), next, before, v,
                      if verdicts(i).BadBlock? then seen else seen + {(v.storage, v.rows[i].uid.value)},
                      history, done + {i}, verdicts)
  {
    hide RowsAgree, AllValid, Mark, Agree, Sound, SameTables, Tracks, Remembers, BadUids, Statuses;
    var uid := v.rows[i].uid.value;
    StatusesRead(versions, AfterRead(versions, v.rows[i], verdicts(i)), before, v, done, verdicts, i);
    RememberOne(seen, history, v, done, verdicts, i);
    next := if verdicts(i).BadBlock? then bad + {uid} else if v.rows[i].valid then bad else bad - {uid};
    if verdicts(i).BadBlock? {
      TrackBad(bad, BadUids(before), v, done, verdicts, i);
      MarkKeeps(versions, uid, false, bad);
      MarkSameUids(versions, before, uid, false);
    } else {
      TrackGood(bad, BadUids(before), v, done, verdicts, i);
      MarkKeeps(versions, uid, true, bad);
      MarkSameUids(versions, before, uid, true);
    }
  }

  // ---------------------------------------------------------------- the history

  function Uids(history: History): set<BlockUid> {
    set h | h in history :: h.1
  }

  /** No row whose uid the history has seen is marked invalid. */
  ghost predicate GoodHistory(versions: Versions, history: History) {
    Uids(history) !! BadUids(versions)
  }

  /** Each uid belongs to one storage, where all versions that use it are. */
  ghost predicate AtHome(versions: Versions, home: BlockUid -> StorageId) {
    forall id, i :: id in versions && i in versions[id].rows && versions[id].rows[i].uid.Some? ==>
      versions[id].storage == home(versions[id].rows[i].uid.value)
  }

  ghost predicate HistoryAtHome(history: History, home: BlockUid -> StorageId) {
    forall h :: h in history ==> h.0 == home(h.1)
  }

  /** Blocks that share a uid are found invalid together, or not at all. */
  ghost predicate Steady(v: Version, verdicts: nat -> Verdict) {
    forall i, j :: i in v.rows && j in v.rows && v.rows[i].uid == v.rows[j].uid ==>
      verdicts(i).BadBlock? == verdicts(j).BadBlock?
  }

  /** With steady verdicts, what a deep scrub remembers is not marked invalid. */
  lemma {:induction false} HistoryStaysGood(versions: Versions, bad: set<BlockUid>, before: Versions, v: Version,
                                            seen: History, history: History, left: set<nat>, done: set<nat>,
                                            verdicts: nat -> Verdict, home: BlockUid -> StorageId)
    requires Agree(versions, bad) && Tracks(bad, BadUids(before), v, done, verdicts)
    requires Remembers(seen, history, v, done, verdicts)
    requires forall i :: i in done ==> IsJob(v, history, left, i)
    requires Steady(v, verdicts) && HistoryAtHome(history, home) && GoodHistory(before, history)
    requires forall i :: i in v.rows && v.rows[i].uid.Some? ==> v.storage == home(v.rows[i].uid.value)
    ensures GoodHistory(versions, seen) && HistoryAtHome(seen, home)
  {
    BadAreBad(versions, bad);
    hide BadUids, Agree;
    forall h | h in seen ensures h.1 !in bad && h.0 == home(h.1) {
      if h in history {
        assert h.1 in Uids(history);
        assert !Touched(v, done, h.1);
      } else {
        var i :| i in done && i in v.rows && v.rows[i].uid == Some(h.1) && !verdicts(i).BadBlock?;
        assert Touched(v, done, h.1);
        assert !Condemned(v, done, verdicts, h.1);
      }
    }
  }

  lemma {:induction false} BadAreBad(versions: Versions, bad: set<BlockUid>)
    requires Agree(versions, bad)
    ensures BadUids(versions) <= bad
  {
    forall uid | uid in BadUids(versions) ensures uid in bad {
      var k, i :| k in versions && i in versions[k].rows
        && versions[k].rows[i].uid == Some(uid) && !versions[k].rows[i].valid;
      assert RowsAgree(versions[k].rows, bad);
    }
  }

  // ---------------------------------------------------------------- the operation

  /** The tables as they were just before the version was given the status valid, if it was. */
  function Disapproved(versions: Versions, before: Versions, id: VersionId, approved: bool): Versions
    requires id in before && id in versions
  {
    if approved then versions[id := versions[id].(status := before[id].status)] else versions
  }

  /**
   * Reads and checks all blocks that are not skipped. If all pass, and the scrub is one of the full
   * version, which leaves no block out, the version becomes valid. The tables stay consistent exactly
   * unless that happens although a skipped uid is marked invalid.
   */
  method DeepScrub(db: Database, id: VersionId, history: History, left: set<nat>, full: bool, verdicts: nat -> Verdict,
                   ghost home: BlockUid -> StorageId)
    returns (r: ScrubOutcome, seen: History, ghost done: set<nat>)
    requires id in db.versions && RowsInside(db.versions[id]) && Pairwise(db.versions) && (full ==> left == {})
    modifies db`versions
    ensures SameTables(db.versions, old(db.versions)) && Pairwise(db.versions)
    ensures old(Consistent(db.versions)) ==>
              (Consistent(db.versions) <==> !(r.Success? && full && SkipsInvalid(old(db.versions)[id], history)))
    ensures var v := old(db.versions)[id]; var jobs := Verdicts(v, history, left, verdicts);
            && (r.NotScrubbable? <==> v.status.Incomplete?)
            && (r.Aborted? <==> !v.status.Incomplete? && OtherError in jobs)
            && (r.Success? <==> !v.status.Incomplete? && jobs <= {Good})
    ensures done <= Jobs(old(db.versions)[id], history, left)
    ensures r.NotScrubbable? ==> done == {}
    ensures r.Success? || r.ScrubbingError? ==> done == Jobs(old(db.versions)[id], history, left)
    ensures var before := old(db.versions); var v := before[id];
            && Flags(db.versions, before, v, done, verdicts) && Remembers(seen, history, v, done, verdicts)
            && Statuses(Disapproved(db.versions, before, id, r.Success? && full), before, v, done, verdicts)
    ensures r.Success? && full ==> db.versions[id].status.Valid?
    ensures Steady(old(db.versions)[id], verdicts) && AtHome(old(db.versions), home) && HistoryAtHome(history, home)
            && GoodHistory(old(db.versions), history) ==>
              GoodHistory(db.versions, seen) && HistoryAtHome(seen, home)
  {
    hide IsJob, Mark, Verdicts, Scrubbing, Agree, Sound, RowsAgree, SkipsInvalid, AllValid, Pairwise, BadUids,
      SameTables, GoodHistory, HistoryAtHome, AtHome, Steady, AfterRead, RowsInside, Flags, Remembers, Statuses, Jobs;
    var v := db.versions[id];
    ghost var before := db.versions;
    ghost var bad := BadUids(before);
    seen := history;
    Unchanged(before);
    done := {};
    StartScrubbing(before, id, history, verdicts);
    Scrubbed(before, bad, before, id, seen, history, left, done, verdicts, home);
    if v.status.Incomplete? { return NotScrubbable, seen, done; }
    var jobs := Prepare(v, history, left);
    VerdictsOf(v, history, left, verdicts, jobs);
    var todo, valid := jobs, true;
    assert jobs - todo == {};
    while todo != {}
      invariant todo <= jobs && Scrubbing(db.versions, bad, before, v, seen, history, jobs - todo, verdicts)
      invariant valid <==> forall i :: i in jobs - todo ==> verdicts(i) == Good
      invariant forall i :: i in jobs - todo ==> verdicts(i) != OtherError
      decreases todo
    {
      var i :| i in todo;
      JobHasUid(v, history, left, i);
      var row := v.rows[i];
      if verdicts(i).OtherError? {
        Scrubbed(db.versions, bad, before, id, seen, history, left, jobs - todo, verdicts, home);
        return Aborted, seen, jobs - todo;
      }
      ghost var next := ReadKeeps(db.versions, bad, before, v, seen, history, jobs - todo, verdicts, i);
      ReadIs(db.versions, row, verdicts(i));
      assert jobs - (todo - {i}) == jobs - todo + {i};
      if verdicts(i).BadBlock? {
        var affected := SetBlockValid(db, row.uid.value, false);
        valid := false;
      } else {
        if verdicts(i).SourceMismatch? { valid := false; }
        if !row.valid {
          var affected := SetBlockValid(db, row.uid.value, true);
        }
        seen := seen + {(v.storage, row.uid.value)};
      }
      bad := next;
      todo := todo - {i};
    }
    assert jobs - todo == jobs;
    Scrubbed(db.versions, bad, before, id, seen, history, left, jobs, verdicts, home);
    done := jobs;
    r := if valid then Success else ScrubbingError;
    if valid && full {
      Approved(db.versions, bad, before, id, seen, history, jobs, verdicts);
      db.versions := db.versions[id := db.versions[id].(status := Valid)];
    }
  }

  lemma {:induction false} Unchanged(versions: Versions)
    ensures SameTables(versions, versions)
  {
  }

  lemma {:induction false} ReadIs(versions: Versions, row: Row, verdict: Verdict)
    requires row.uid.Some?
    ensures AfterRead(versions, row, verdict) ==
            if verdict.BadBlock? then Mark(versions, row.uid.value, false)
            else if !row.valid then Mark(versions, row.uid.value, true) else versions
  {
  }

  /** What holds once some or all jobs are done. */
  lemma {:induction false} Scrubbed(versions: Versions, bad: set<BlockUid>, before: Versions, id: VersionId,
                                    seen: History, history: History, left: set<nat>, done: set<nat>,
                                    verdicts: nat -> Verdict, home: BlockUid -> StorageId)
    requires id in before && Scrubbing(versions, bad, before, before[id], seen, history, done, verdicts)
    requires forall i :: i in done ==> IsJob(before[id], history, left, i)
    ensures Pairwise(versions) && (Consistent(before) ==> Consistent(versions))
    ensures SameTables(versions, before) && id in versions
    ensures Flags(versions, before, before[id], done, verdicts) && Remembers(seen, history, before[id], done, verdicts)
    ensures Statuses(versions, before, before[id], done, verdicts)
    ensures Steady(before[id], verdicts) && AtHome(before, home) && HistoryAtHome(history, home)
              && GoodHistory(before, history) ==>
              GoodHistory(versions, seen) && HistoryAtHome(seen, home)
  {
    hide Agree, Sound, Tracks, Remembers, Steady, GoodHistory, HistoryAtHome, Pairwise, BadUids, IsJob, Flags, Statuses;
    AgreeIsPairwise(versions);
    FlagsFollow(versions, bad, before, id, done, verdicts);
    if Steady(before[id], verdicts) && AtHome(before, home) && HistoryAtHome(history, home)
      && GoodHistory(before, history) {
      HistoryStaysGood(versions, bad, before, before[id], seen, history, left, done, verdicts, home);
    }
  }

  /** What holds once the version has been given the status valid. */
  lemma {:induction false} Approved(versions: Versions, bad: set<BlockUid>, before: Versions, id: VersionId,
                                    seen: History, history: History, jobs: set<nat>, verdicts: nat -> Verdict)
    requires id in before && Scrubbing(versions, bad, before, before[id], seen, history, jobs, verdicts)
    requires RowsInside(before[id]) && RowsAgree(before[id].rows, BadUids(before))
    requires (forall i :: i in jobs <==> IsJob(before[id], history, {}, i)) && forall i :: i in jobs ==>
               verdicts(i).Good?
    ensures id in versions
    ensures var after := versions[id := versions[id].(status := Valid)];
            && SameTables(after, before) && Pairwise(after)
            && (Consistent(before) ==> (Consistent(after) <==> !SkipsInvalid(before[id], history)))
            && (GoodHistory(versions, seen) ==> GoodHistory(after, seen))
            && Flags(after, before, before[id], jobs, verdicts)
            && Statuses(after[id := after[id].(status := before[id].status)], before, before[id], jobs, verdicts)
  {
    hide Sound, Tracks, Remembers, Pairwise, IsJob, AllValid, SkipsInvalid, RowsInside, RowsAgree, BadUids, Flags,
      Statuses;
    var after := versions[id := versions[id].(status := Valid)];
    AllPassed(versions[id], before[id], history, jobs, verdicts, bad, BadUids(before));
    ApproveKeeps(versions, id, bad);
    AgreeIsPairwise(after);
    SameBad(versions, id);
    FlagsFollow(after, bad, before, id, jobs, verdicts);
    StatusRestored(versions, before, id, jobs, verdicts);
    assert after[id := after[id].(status := before[id].status)] ==
      versions[id := versions[id].(status := before[id].status)];
  }

  /** If no block was found invalid, the version had its status all along. */
  lemma {:induction false} StatusRestored(versions: Versions, before: Versions, id: VersionId, jobs: set<nat>,
                                          verdicts: nat -> Verdict)
    requires id in before
    requires Statuses(versions, before, before[id], jobs, verdicts) && forall i :: i in jobs ==> verdicts(i).Good?
    ensures id in versions && versions[id := versions[id].(status := before[id].status)] == versions
  {
    assert versions[id].status == before[id].status;
  }

  lemma {:induction false} SameBad(versions: Versions, id: VersionId)
    requires id in versions
    ensures BadUids(versions[id := versions[id].(status := Valid)]) == BadUids(versions)
  {
    var after := versions[id := versions[id].(status := Valid)];
    forall k | k in versions ensures after[k].rows == versions[k].rows {}
    assert forall uid :: uid in BadUids(versions) ==> uid in BadUids(after);
    assert forall uid :: uid in BadUids(after) ==> uid in BadUids(versions);
  }

  // ---------------------------------------------------------------- scrub

  /** The state between two completed reads of a scrub, which never takes a mark back. */
  ghost predicate Checking(versions: Versions, bad: set<BlockUid>, before: Versions, v: Version, seen: History,
                           history: History, done: set<nat>, verdicts: nat -> Verdict) {
    && Agree(versions, bad) && (Sound(before) ==> Sound(versions)) && SameTables(versions, before)
    && Statuses(versions, before, v, done, verdicts) && Remembers(seen, history, v, done, verdicts)
    && Condemns(bad, BadUids(before), v, done, verdicts)
  }

  /** Exactly the condemned uids have joined those that were bad before. */
  ghost predicate Condemns(bad: set<BlockUid>, start: set<BlockUid>, v: Version, done: set<nat>,
                           verdicts: nat -> Verdict) {
    forall uid :: uid in bad <==> uid in start || Condemned(v, done, verdicts, uid)
  }

  lemma {:induction false} CondemnOne(bad: set<BlockUid>, start: set<BlockUid>, v: Version, done: set<nat>,
                                      verdicts: nat -> Verdict, i: nat)
    requires Condemns(bad, start, v, done, verdicts) && i in v.rows && v.rows[i].uid.Some?
    ensures Condemns(if verdicts(i).BadBlock? then bad + {v.rows[i].uid.value} else bad, start, v, done + {i}, verdicts)
  {
    forall uid ensures Condemned(v, done + {i}, verdicts, uid) <==>
                         Condemned(v, done, verdicts, uid) || (verdicts(i).BadBlock? && v.rows[i].uid == Some(uid)) {}
  }

  lemma {:induction false} CheckOne(versions: Versions, bad: set<BlockUid>, before: Versions, v: Version, seen: History,
                                    history: History, done: set<nat>, verdicts: nat -> Verdict, i: nat)
    requires Checking(versions, bad, before, v, seen, history, done, verdicts) && i in v.rows && v.rows[i].uid.Some?
    ensures var uid := v.rows[i].uid.value;
            if verdicts(i).BadBlock?
            then Checking(Mark(versions, uid, false), bad + {uid}, before, v, seen, history, done + {i}, verdicts)
            else Checking(versions, bad, before, v, seen + {(v.storage, uid)}, history, done + {i}, verdicts)
  {
    hide Mark, Agree, Sound, SameTables, Statuses, Remembers, Condemns, BadUids;
    var uid := v.rows[i].uid.value;
    CondemnOne(bad, BadUids(before), v, done, verdicts, i);
    RememberOne(seen, history, v, done, verdicts, i);
    StatusesRead(versions, if verdicts(i).BadBlock? then Mark(versions, uid, false) else versions, before, v, done,
        verdicts, i);
    MarkKeeps(versions, uid, false, bad);
    MarkSameUids(versions, before, uid, false);
  }

  lemma {:induction false} StartChecking(versions: Versions, id: VersionId, history: History, verdicts: nat -> Verdict)
    requires id in versions && Pairwise(versions)
    ensures Checking(versions, BadUids(versions), versions, versions[id], history, history, {}, verdicts)
  {
    hide RowsAgree, AllValid, BadUids;
    AgreeIsPairwise(versions);
    PairwiseAgree(versions);
  }

  lemma {:induction false} Checked(versions: Versions, bad: set<BlockUid>, before: Versions, id: VersionId,
                                   seen: History, history: History, done: set<nat>, verdicts: nat -> Verdict)
    requires id in before && Checking(versions, bad, before, before[id], seen, history, done, verdicts)
    ensures Pairwise(versions) && (Consistent(before) ==> Consistent(versions)) && SameTables(versions, before)
    ensures Statuses(versions, before, before[id], done, verdicts)
    ensures Remembers(seen, history, before[id], done, verdicts)
    ensures Condemns(BadUids(versions), BadUids(before), before[id], done, verdicts)
  {
    BadAreBad(versions, bad);
    AgreeIsPairwise(versions);
    hide Agree, BadUids, Sound, Statuses, Remembers, Pairwise;
    var v := before[id];
    forall uid | uid in bad ensures uid in BadUids(versions) {
      if uid in BadUids(before) {
        var k, i := BadRow(before, uid);
        assert SameUids(versions[k], before[k]);
        ShowsBad(versions, bad, k, i);
      } else {
        var i :| i in done && i in v.rows && v.rows[i].uid == Some(uid) && verdicts(i).BadBlock?;
        assert SameUids(versions[id], v);
        ShowsBad(versions, bad, id, i);
      }
    }
  }

  /**
   * Reads metadata only. It marks exactly the uids found invalid and the versions that use them,
   * never takes a mark back, and keeps the tables consistent.
   */
  method ScrubVersion(db: Database, id: VersionId, history: History, left: set<nat>, verdicts: nat -> Verdict)
    returns (r: ScrubOutcome, seen: History, ghost done: set<nat>)
    requires id in db.versions && Pairwise(db.versions)
    modifies db`versions
    ensures Pairwise(db.versions) && (old(Consistent(db.versions)) ==> Consistent(db.versions))
    ensures SameTables(db.versions, old(db.versions))
    ensures var v := old(db.versions)[id]; var jobs := Verdicts(v, history, left, verdicts);
            && (r.NotScrubbable? <==> !v.status.Valid?)
            && (r.Aborted? <==> v.status.Valid? && OtherError in jobs)
            && (r.Success? <==> v.status.Valid? && OtherError !in jobs && BadBlock !in jobs)
    ensures done <= Jobs(old(db.versions)[id], history, left)
    ensures r.NotScrubbable? ==> done == {}
    ensures r.Success? || r.ScrubbingError? ==> done == Jobs(old(db.versions)[id], history, left)
    ensures var before := old(db.versions); var v := before[id];
            && Condemns(BadUids(db.versions), BadUids(before), v, done, verdicts)
            && Statuses(db.versions, before, v, done, verdicts) && Remembers(seen, history, v, done, verdicts)
  {
    hide IsJob, Mark, Verdicts, Jobs, Checking, Consistent, SameTables, Statuses, Remembers, Condemns, BadUids;
    var v := db.versions[id];
    ghost var before := db.versions;
    ghost var bad := BadUids(before);
    seen := history;
    Unchanged(before);
    done := {};
    StartChecking(before, id, history, verdicts);
    Checked(before, bad, before, id, seen, history, done, verdicts);
    if !v.status.Valid? { return NotScrubbable, seen, done; }
    var jobs := Prepare(v, history, left);
    VerdictsOf(v, history, left, verdicts, jobs);
    var todo, valid := jobs, true;
    assert jobs - todo == {};
    while todo != {}
      invariant todo <= jobs && Checking(db.versions, bad, before, v, seen, history, jobs - todo, verdicts)
      invariant valid <==> forall i :: i in jobs - todo ==> verdicts(i) != BadBlock
      invariant forall i :: i in jobs - todo ==> verdicts(i) != OtherError
      decreases todo
    {
      var i :| i in todo;
      JobHasUid(v, history, left, i);
      var uid := v.rows[i].uid.value;
      if verdicts(i).OtherError? {
        Checked(db.versions, bad, before, id, seen, history, jobs - todo, verdicts);
        return Aborted, seen, jobs - todo;
      }
      CheckOne(db.versions, bad, before, v, seen, history, jobs - todo, verdicts, i);
      assert jobs - (todo - {i}) == jobs - todo + {i};
      if verdicts(i).BadBlock? {
        var affected := SetBlockValid(db, uid, false);
        valid := false;
        bad := bad + {uid};
      } else {
        seen := seen + {(v.storage, uid)};
      }
      todo := todo - {i};
    }
    assert jobs - todo == jobs;
    Checked(db.versions, bad, before, id, seen, history, jobs, verdicts);
    done := jobs;
    r := if valid then Success else ScrubbingError;
  }

  // ---------------------------------------------------------------- batches

  lemma {:induction false} GoodHistorySkipsValid(versions: Versions, history: History, id: VersionId)
    requires GoodHistory(versions, history) && id in versions
    ensures !SkipsInvalid(versions[id], history)
  {
    forall i | i in versions[id].rows && versions[id].rows[i].uid.Some? && !versions[id].rows[i].valid
      ensures (versions[id].storage, versions[id].rows[i].uid.value) !in history
    {
      assert versions[id].rows[i].uid.value in BadUids(versions);
      assert versions[id].rows[i].uid.value !in Uids(history);
    }
  }

  lemma {:induction false} NoHistory(versions: Versions, home: BlockUid -> StorageId)
    ensures GoodHistory(versions, {}) && HistoryAtHome({}, home)
  {
  }

  lemma {:induction false} SameHomes(versions: Versions, before: Versions, home: BlockUid -> StorageId)
    requires SameTables(versions, before) && AtHome(before, home)
    ensures AtHome(versions, home)
  {
    forall id, i | id in versions && i in versions[id].rows && versions[id].rows[i].uid.Some?
      ensures versions[id].storage == home(versions[id].rows[i].uid.value)
    {
      assert SameUids(versions[id], before[id]);
    }
  }

  lemma {:induction false} SameInside(versions: Versions, before: Versions)
    requires SameTables(versions, before) && forall id :: id in before ==> RowsInside(before[id])
    ensures forall id :: id in versions ==> RowsInside(versions[id])
  {
    forall id | id in versions ensures RowsInside(versions[id]) {
      assert SameUids(versions[id], before[id]);
    }
  }

  function ByUid(v: Version, verdict: BlockUid -> Verdict): nat -> Verdict {
    i => if i in v.rows && v.rows[i].uid.Some? then verdict(v.rows[i].uid.value) else Good
  }

  /**
   * Deep-scrubs versions in any order, skipping some because they are locked, with one history for
   * all. As long as a uid gets the same verdict throughout, consistent tables stay consistent.
   */
  method BatchDeepScrub(db: Database, ids: set<VersionId>, left: VersionId -> set<nat>, full: bool,
                        verdict: BlockUid -> Verdict, ghost home: BlockUid -> StorageId)
    returns (errors: set<VersionId>)
    requires ids <= db.versions.Keys && forall id :: id in db.versions ==> RowsInside(db.versions[id])
    requires Pairwise(db.versions) && AtHome(db.versions, home)
    requires (full ==> forall id :: id in ids ==> left(id) == {})
    modifies db`versions
    ensures Pairwise(db.versions) && (old(Consistent(db.versions)) ==> Consistent(db.versions))
    ensures db.versions.Keys == old(db.versions).Keys && errors <= ids
  {
    hide Consistent, GoodHistory, HistoryAtHome, AtHome, Pairwise, RowsInside, SkipsInvalid, Verdicts, Steady, SameUids;
    var history: History := {};
    NoHistory(db.versions, home);
    errors := {};
    var rest := ids;
    while rest != {}
      invariant rest <= ids && errors <= ids && db.versions.Keys == old(db.versions).Keys
      invariant forall id :: id in db.versions ==> RowsInside(db.versions[id])
      invariant Pairwise(db.versions) && AtHome(db.versions, home)
      invariant old(Consistent(db.versions)) ==> Consistent(db.versions)
      invariant GoodHistory(db.versions, history) && HistoryAtHome(history, home)
      decreases rest
    {
      var id :| id in rest;
      rest := rest - {id};
      var locked: bool := *;
      if !locked {
        ghost var before := db.versions;
        ByUidIsSteady(db.versions[id], verdict);
        GoodHistorySkipsValid(db.versions, history, id);
        var r, seen, _ := DeepScrub(db, id, history, left(id), full, ByUid(db.versions[id], verdict), home);
        history := seen;
        SameHomes(db.versions, before, home);
        SameInside(db.versions, before);
        if r.Aborted? { return; }
        if !r.Success? { errors := errors + {id}; }
      }
    }
  }

  lemma {:induction false} ByUidIsSteady(v: Version, verdict: BlockUid -> Verdict)
    ensures Steady(v, ByUid(v, verdict))
  {
  }

  /** Two valid versions that share their only block. */
  function Twins(uid: BlockUid): Versions {
    var v := Version(0, 1, 1, Valid, map[0 := Row(Some(uid), Some(0), 1, true)]);
    map[1 := v, 2 := v]
  }

  /**
   * A deep scrub of the first twin puts the uid into the history. If the uid is then found invalid
   * elsewhere, a deep scrub of the second twin with that history reads nothing, succeeds, and
   * leaves a version of status valid with a block that is marked invalid.
   */
  lemma {:induction false} StaleHistoryBreaks(uid: BlockUid, verdicts: nat -> Verdict)
    ensures Consistent(Twins(uid)) && Consistent(Mark(Twins(uid), uid, false))
    ensures var failed, history := Mark(Twins(uid), uid, false), {(0, uid)};
            && failed[2].status.Invalid?
              && Verdicts(failed[2], history, {}, verdicts) == {} && SkipsInvalid(failed[2], history)
            && !Consistent(failed[2 := failed[2].(status := Valid)])
  {
    var twins := Twins(uid);
    var failed := Mark(twins, uid, false);
    assert twins[2].rows[0].uid == Some(uid);
    assert failed[2].rows[0] == MarkRow(twins[2].rows[0], uid, false);
    assert Agree(twins, {});
    MarkKeeps(twins, uid, false, {});
    var after := failed[2 := failed[2].(status := Valid)];
    assert after[2].rows == failed[2].rows;
    assert !AllValid(after[2]);
  }
}
