/**
 * Objects that nobody knows of.
 *
 * An object is tracked while a row, a candidate, a clean-up or a backup knows of it. Which steps
 * lose track of an object is decided exactly, for every step and for every run.
 */
module Leaks {
  import opened Images
  import opened Tables
  import opened Collector

  /** The block has been written and its row is about to be set. */
  predicate Awaits(s: State, uid: BlockUid) {
    uid.right > 0 && RowKey(uid.left, uid.right - 1) in s.stored
  }

  ghost predicate Tracked(s: State, key: ObjectKey) {
    key in s.deleted || key in s.hits || Awaits(s, key.uid) || Referenced(s, key.uid)
  }

  /** The row is the only one that references the object, which is no candidate either. */
  ghost predicate LastRow(s: State, p: RowKey, key: ObjectKey) {
    && p in s.rows && s.rows[p] == key.uid && key !in s.deleted
    && forall q :: q in s.rows && s.rows[q] == key.uid ==> q == p
  }

  /**
   * The step gives up on a written block, completes a write that nobody attends to, or overwrites
   * the last row of an object that is no candidate.
   */
  ghost predicate DropsLast(s: State, step: Step, key: ObjectKey) {
    match step
    case Abort(id) => Awaits(s, key.uid) && key.uid.left == id
    case Land(p, _) => Mint(p) == key.uid
    case Sparse(p) => LastRow(s, p, key)
    case Deduplicate(p, existing) => LastRow(s, p, key) && existing != p
    case SetRow(p) => LastRow(s, p, key)
    case _ => false
  }

  // ---------------------------------------------------------------- what a step does to the books

  /** Two keys of one uid are the same key, because a uid lives in one storage. */
  lemma {:induction false} OneHome(s: State, a: ObjectKey, b: ObjectKey)
    requires AtHome(s, a) && AtHome(s, b) && a.uid == b.uid
    ensures a == b
  {
  }

  /** Only removals and clean-ups change candidates and hits. */
  lemma {:induction false} SameKeys(s: State, step: Step)
    requires Enabled(s, step) && !step.Remove? && !step.RemoveOwn? && !step.Check? && !step.Delete?
    ensures Apply(s, step).deleted == s.deleted && Apply(s, step).hits == s.hits
  {
    hide Open, Referenced, NotCloned, Mint, Created, CloneBegun, WindowRead, Inserted, CloneEnded, CloneAborted,
      Released;
  }

  lemma {:induction false} RemoveChange(s: State, step: Step)
    requires Enabled(s, step) && (step.Remove? || step.RemoveOwn?)
    ensures step.id in s.home && Apply(s, step).deleted == s.deleted + Candidates(s, step.id)
    ensures Apply(s, step).hits == s.hits
  {
    hide Others, Own, Open, Candidates;
  }

  /** Candidates come from removed rows, and go when a candidate of the same uid is checked. */
  lemma {:induction false} CandidateChange(s: State, step: Step, key: ObjectKey)
    requires Enabled(s, step)
    ensures var t := Apply(s, step);
            && (key in t.deleted && key !in s.deleted ==>
                  (step.Remove? || step.RemoveOwn?) && step.id in s.home && key in Candidates(s, step.id))
            && (key in s.deleted && key !in t.deleted ==> step.Check? && step.key.uid == key.uid)
  {
    if step.Remove? || step.RemoveOwn? {
      RemoveChange(s, step);
    } else if !step.Check? && !step.Delete? {
      SameKeys(s, step);
    }
  }

  /** Hits come from checked candidates that nothing references, and go when they are deleted. */
  lemma {:induction false} HitChange(s: State, step: Step, key: ObjectKey)
    requires Enabled(s, step)
    ensures var t := Apply(s, step);
            && (key in t.hits ==> key in s.hits || (step == Check(key) && !Referenced(s, key.uid)))
            && (key in s.hits ==> key in t.hits || step == Delete(key))
            && (step == Check(key) && !Referenced(s, key.uid) ==> key in t.hits)
  {
    if step.Remove? || step.RemoveOwn? {
      RemoveChange(s, step);
    } else if !step.Check? && !step.Delete? {
      SameKeys(s, step);
    }
  }

  lemma {:induction false} KeyChange(s: State, step: Step, key: ObjectKey)
    requires Enabled(s, step)
    ensures var t := Apply(s, step);
            && (key in t.deleted && key !in s.deleted ==>
                  (step.Remove? || step.RemoveOwn?) && step.id in s.home && key in Candidates(s, step.id))
            && (key in s.deleted && key !in t.deleted ==> step.Check? && step.key.uid == key.uid)
            && (key in t.hits ==> key in s.hits || (step == Check(key) && !Referenced(s, key.uid)))
            && (key in s.hits ==> key in t.hits || step == Delete(key))
            && (step == Check(key) && !Referenced(s, key.uid) ==> key in t.hits)
  {
    hide Apply, Enabled;
    CandidateChange(s, step, key);
    HitChange(s, step, key);
  }

  lemma {:induction false} StoredChange(s: State, step: Step, p: RowKey)
    requires Enabled(s, step)
    ensures var t := Apply(s, step);
            && (p in t.stored ==> p in s.stored || (step.Store? && step.p == p))
            && (p in s.stored ==> p in t.stored || step == SetRow(p) || step == Abort(p.id) || step == TakeBack(p))
            && (step == Abort(p.id) ==> p !in t.stored)
            && (step == SetRow(p) ==> p in t.rows && t.rows[p] == Mint(p))
  {
    hide Referenced, NotCloned, Mint, Created, CloneBegun, WindowRead, Inserted, CloneEnded, CloneAborted,
      WithoutVersion, Checked;
    if p in s.stored {
      assert Open(s, p);
    }
  }

  /** A row stays unless its version is removed or its block is decided. */
  lemma {:induction false} RowKept(s: State, step: Step, p: RowKey)
    requires Enabled(s, step) && p in s.rows
    requires !((step.Remove? || step.RemoveOwn?) && step.id == p.id) && !(step.CloneInsert? && step.id == p.id)
    requires !((step.Sparse? || step.Deduplicate? || step.SetRow?) && step.p == p)
    ensures p in Apply(s, step).rows && Apply(s, step).rows[p] == s.rows[p]
  {
    RowsFollow(s, step);
    hide Apply, Enabled, Candidates, Open, Mint;
  }

  /** A decided block's row afterwards. */
  lemma {:induction false} RowDecided(s: State, step: Step, p: RowKey)
    requires Enabled(s, step) && (step.Sparse? || step.Deduplicate? || step.SetRow?) && step.p == p
    ensures var rows := Apply(s, step).rows;
            && (step.Sparse? ==> p !in rows)
            && (step.Deduplicate? ==> step.existing in s.rows && p in rows && rows[p] == s.rows[step.existing])
            && (step.SetRow? ==> p in rows && rows[p] == Mint(p))
  {
  }

  lemma {:induction false} RemovedRow(s: State, step: Step, key: ObjectKey, p: RowKey)
    requires Housed(s) && Enabled(s, step) && AtHome(s, key) && p in s.rows && s.rows[p] == key.uid
    requires (step.Remove? || step.RemoveOwn?) && step.id == p.id
    ensures key in Apply(s, step).deleted
  {
    OneHome(s, key, ObjectKey(s.home[p.id], s.rows[p]));
    assert key in Candidates(s, p.id);
  }

  // ---------------------------------------------------------------- no object comes back

  /** An object that exists has been stored: its uid awaits its row, or is not open at all. */
  lemma {:induction false} StoredUid(s: State, key: ObjectKey)
    requires Inv(s) && key in s.objects
    ensures AtHome(s, key) && key.uid.left !in s.clones
    ensures Unset(s, key.uid) <==> Awaits(s, key.uid)
  {
    hide Safe, Locked, Held, Doomed;
  }

  /** A uid that awaits its row is mentioned nowhere else. */
  lemma {:induction false} AwaitsAlone(s: State, key: ObjectKey)
    requires Inv(s) && Awaits(s, key.uid)
    ensures !Referenced(s, key.uid) && key !in s.deleted && key !in s.hits
  {
    hide Safe, Housed, Locked, Held, Doomed;
    assert Open(s, RowKey(key.uid.left, key.uid.right - 1)) && Unset(s, key.uid);
  }

  /** What is tracked after a step was tracked before, or has just been stored. */
  lemma {:induction false} TrackedBefore(s: State, step: Step, key: ObjectKey)
    requires Inv(s) && Enabled(s, step) && key in s.objects && Tracked(Apply(s, step), key)
    ensures Tracked(s, key)
  {
    hide Safe, Housed, Locked, Held, Fresh, Doomed, Apply, Enabled;
    StoredUid(s, key);
    KeyChange(s, step, key);
    var t := Apply(s, step);
    if key in t.deleted && key !in s.deleted {
      CandidateReferenced(s, step.id, key);
    } else if Awaits(t, key.uid) {
      StoredChange(s, step, RowKey(key.uid.left, key.uid.right - 1));
      StoresNew(s, step, key);
    } else if Referenced(t, key.uid) {
      var q :| q in t.rows && t.rows[q] == key.uid;
      RowOrigin(s, step, q);
    } else if key in t.hits && key !in s.hits {
      CheckedCandidate(s, key);
    }
  }

  lemma {:induction false} CheckedCandidate(s: State, key: ObjectKey)
    requires Enabled(s, Check(key))
    ensures key in s.deleted
  {
  }

  lemma {:induction false} CandidateReferenced(s: State, id: VersionId, key: ObjectKey)
    requires id in s.home && key in Candidates(s, id)
    ensures Referenced(s, key.uid)
  {
  }

  /** A write that completes is not that of an object that exists. */
  lemma {:induction false} StoresNew(s: State, step: Step, key: ObjectKey)
    requires Inv(s) && Enabled(s, step) && key in s.objects
    ensures step.Store? || step.Land? ==> Mint(step.p) != key.uid
  {
    hide Safe, Locked, Held, Doomed;
    if step.Store? || step.Land? {
      assert Unstored(s, Mint(step.p));
    }
  }

  // ---------------------------------------------------------------- every step, exactly

  lemma {:induction false} DropsAll(s: State, step: Step, key: ObjectKey)
    requires Inv(s) && Enabled(s, step) && DropsLast(s, step, key)
    ensures !Tracked(Apply(s, step), key)
  {
    hide Safe, Housed, Locked, Held, Fresh, Doomed, Apply;
    var t := Apply(s, step);
    KeyChange(s, step, key);
    match step
    case Abort(id) =>
      AwaitsAlone(s, key);
      StoredChange(s, step, RowKey(key.uid.left, key.uid.right - 1));
      NotReferenced(s, step, key);
    case Land(p, _) =>
      OrphanAlone(s, p);
      StoredChange(s, step, p);
      NotReferenced(s, step, key);
    case _ => OverwritesLast(s, step, key);
  }

  lemma {:induction false} OrphanAlone(s: State, p: RowKey)
    requires Inv(s) && p in s.orphans
    ensures !Referenced(s, Mint(p)) && p !in s.stored
    ensures forall key :: key in s.deleted || key in s.hits ==> key.uid != Mint(p)
  {
    hide Safe, Housed, Held, Doomed;
    assert Unset(s, Mint(p));
    assert p in s.stored ==> Open(s, p);
  }

  lemma {:induction false} NotReferenced(s: State, step: Step, key: ObjectKey)
    requires Enabled(s, step) && (step.Abort? || step.Land?) && !Referenced(s, key.uid)
    ensures !Referenced(Apply(s, step), key.uid)
  {
    hide Apply, Enabled;
    if q :| q in Apply(s, step).rows && Apply(s, step).rows[q] == key.uid {
      RowChange(s, step, q);
    }
  }

  lemma {:induction false} OverwritesLast(s: State, step: Step, key: ObjectKey)
    requires Inv(s) && Enabled(s, step) && DropsLast(s, step, key)
    requires step.Sparse? || step.Deduplicate? || step.SetRow?
    ensures !Tracked(Apply(s, step), key)
  {
    hide Safe, Housed, Locked, Held, Fresh, Doomed, Apply, Enabled;
    var t := Apply(s, step);
    KeyChange(s, step, key);
    LastRowAlone(s, step.p, key);
    if Awaits(t, key.uid) {
      StoredChange(s, step, RowKey(key.uid.left, key.uid.right - 1));
    }
    RowDecided(s, step, step.p);
    MintedOther(s, step, key);
    if q :| q in t.rows && t.rows[q] == key.uid {
      RowChange(s, step, q);
    }
  }

  lemma {:induction false} LastRowAlone(s: State, p: RowKey, key: ObjectKey)
    requires Inv(s) && LastRow(s, p, key)
    ensures key !in s.hits && !Awaits(s, key.uid)
  {
    hide Safe, Housed, Locked, Held;
    if Awaits(s, key.uid) { AwaitsAlone(s, key); }
  }

  /** A uid that is set for the first time is not one that a row holds. */
  lemma {:induction false} MintedOther(s: State, step: Step, key: ObjectKey)
    requires Inv(s) && Enabled(s, step) && Referenced(s, key.uid)
    ensures step.SetRow? ==> Mint(step.p) != key.uid
  {
    hide Safe, Housed, Locked, Held, Doomed;
    if step.SetRow? {
      assert Open(s, step.p) && Unset(s, Mint(step.p));
    }
  }

  /** A tracked object stays tracked, unless the step drops the last that was known of it. */
  lemma {:induction false} StaysTracked(s: State, step: Step, key: ObjectKey)
    requires Inv(s) && Enabled(s, step) && key in s.objects && Tracked(s, key) && !DropsLast(s, step, key)
    requires key in Apply(s, step).objects
    ensures Tracked(Apply(s, step), key)
  {
    hide Safe, Housed, Locked, Held, Fresh, Doomed, Apply, Enabled, DropsLast;
    StoredUid(s, key);
    KeyChange(s, step, key);
    var t := Apply(s, step);
    if key in s.hits {
      if step == Delete(key) { DeletedIsGone(s, step, key); }
    } else if p :| p in s.rows && s.rows[p] == key.uid {
      RowTracks(s, step, key, p);
    } else if key in s.deleted {
      if step.Check? && step.key.uid == key.uid {
        CheckedCandidate(s, step.key);
        CandidateHome(s, step.key);
        OneHome(s, key, step.key);
      }
    } else {
      if step.TakeBack? && Mint(step.p) == key.uid { TakenBackIsGone(s, step, key); }
      AwaitsTracks(s, step, key);
    }
  }

  lemma {:induction false} CandidateHome(s: State, key: ObjectKey)
    requires Inv(s) && key in s.deleted
    ensures AtHome(s, key)
  {
    hide Safe, Locked, Held, Fresh, Doomed;
  }

  lemma {:induction false} DeletedIsGone(s: State, step: Step, key: ObjectKey)
    requires Enabled(s, step) && step == Delete(key)
    ensures key !in Apply(s, step).objects
  {
  }

  /** The object that a fixation takes back is gone. */
  lemma {:induction false} TakenBackIsGone(s: State, step: Step, key: ObjectKey)
    requires Enabled(s, step) && AtHome(s, key) && step.TakeBack? && Mint(step.p) == key.uid
    ensures key !in Apply(s, step).objects
  {
    hide Apply;
    ObjectChange(s, step, key);
  }

  lemma {:induction false} AwaitsTracks(s: State, step: Step, key: ObjectKey)
    requires Enabled(s, step) && Awaits(s, key.uid) && !DropsLast(s, step, key)
    requires step.TakeBack? ==> Mint(step.p) != key.uid
    ensures Tracked(Apply(s, step), key)
  {
    hide Apply, Enabled;
    StoredChange(s, step, RowKey(key.uid.left, key.uid.right - 1));
  }

  lemma {:induction false} RowTracks(s: State, step: Step, key: ObjectKey, p: RowKey)
    requires Inv(s) && Enabled(s, step) && AtHome(s, key) && p in s.rows && s.rows[p] == key.uid
    requires !DropsLast(s, step, key)
    ensures Tracked(Apply(s, step), key)
  {
    hide Safe, Fresh, Doomed, Apply, AtHome;
    if (step.Remove? || step.RemoveOwn?) && step.id == p.id {
      RemovedRow(s, step, key, p);
    } else if step.CloneInsert? && step.id == p.id {
      assert InBase(s, p, s.rows[p]);
      RowKept(s, step, RowKey(s.clones[p.id], p.i));
    } else if (step.Sparse? || step.Deduplicate? || step.SetRow?) && step.p == p {
      DecidedTracks(s, step, key, p);
    } else {
      RowKept(s, step, p);
    }
  }

  lemma {:induction false} DecidedTracks(s: State, step: Step, key: ObjectKey, p: RowKey)
    requires Enabled(s, step) && p in s.rows && s.rows[p] == key.uid && !DropsLast(s, step, key)
    requires (step.Sparse? || step.Deduplicate? || step.SetRow?) && step.p == p
    ensures Tracked(Apply(s, step), key)
  {
    hide Apply;
    KeyChange(s, step, key);
    RowDecided(s, step, p);
    if !LastRow(s, p, key) && key !in s.deleted {
      var q :| q in s.rows && s.rows[q] == key.uid && q != p;
      RowKept(s, step, q);
    }
  }

  /**
   * After every step, an object is tracked if and only if it was tracked or has just been stored,
   * and the step did not drop the last that was known of it.
   */
  lemma {:induction false} StepTracks(s: State, step: Step, key: ObjectKey)
    requires Inv(s) && Enabled(s, step) && key in Apply(s, step).objects
    ensures Tracked(Apply(s, step), key) <==> (key in s.objects ==> Tracked(s, key)) && !DropsLast(s, step, key)
  {
    hide Inv, Apply, Enabled, DropsLast;
    if DropsLast(s, step, key) {
      DropsAll(s, step, key);
    } else if key in s.objects {
      if Tracked(s, key) { StaysTracked(s, step, key); }
      if Tracked(Apply(s, step), key) { TrackedBefore(s, step, key); }
    } else {
      ObjectChange(s, step, key);
      NewIsTracked(s, step, key);
    }
  }

  lemma {:induction false} NewIsTracked(s: State, step: Step, key: ObjectKey)
    requires Enabled(s, step) && (step.Store? || step.Land?) && Mint(step.p) == key.uid && !DropsLast(s, step, key)
    requires step.Store? ==> step.p in Apply(s, step).stored
    ensures Tracked(Apply(s, step), key)
  {
    hide Apply, Enabled;
  }

  // ---------------------------------------------------------------- every run, exactly

  /** Some step of the run drops the last that was known of the object. */
  ghost predicate Leaks(s: State, steps: seq<Step>, key: ObjectKey)
    requires Runs(s, steps)
    decreases |steps|
  {
    steps != [] &&
    var t := Apply(s, steps[0]);
    (key in t.objects && DropsLast(s, steps[0], key)) || Leaks(t, steps[1..], key)
  }

  /** An object that nobody knows of stays, and stays unknown. */
  lemma {:induction false} UntrackedForever(s: State, steps: seq<Step>, key: ObjectKey)
    requires Inv(s) && Runs(s, steps) && key in s.objects && !Tracked(s, key)
    ensures key in After(s, steps).objects && !Tracked(After(s, steps), key)
    decreases |steps|
  {
    hide Inv, Apply, Enabled, DropsLast, Tracked;
    if steps != [] {
      StepKeeps(s, steps[0]);
      UntrackedStays(s, steps[0], key);
      StepTracks(s, steps[0], key);
      UntrackedForever(Apply(s, steps[0]), steps[1..], key);
    }
  }

  lemma {:induction false} UntrackedStays(s: State, step: Step, key: ObjectKey)
    requires Inv(s) && Enabled(s, step) && key in s.objects && !Tracked(s, key)
    ensures key in Apply(s, step).objects
  {
    hide Apply, Inv;
    ObjectChange(s, step, key);
    StoresNew(s, step, key);
  }

  /** After every run, the objects that nobody knows of are exactly those of which a step dropped the last trace. */
  lemma {:induction false} RunLeaks(s: State, steps: seq<Step>, key: ObjectKey)
    requires Inv(s) && Runs(s, steps) && (key in s.objects ==> Tracked(s, key))
    ensures Leaks(s, steps, key) <==> key in After(s, steps).objects && !Tracked(After(s, steps), key)
    decreases |steps|
  {
    hide Inv, Apply, Enabled, DropsLast, Tracked;
    if steps != [] {
      var t := Apply(s, steps[0]);
      StepKeeps(s, steps[0]);
      if key in t.objects {
        StepTracks(s, steps[0], key);
        if DropsLast(s, steps[0], key) {
          UntrackedForever(t, steps[1..], key);
        } else {
          RunLeaks(t, steps[1..], key);
        }
      } else {
        RunLeaks(t, steps[1..], key);
      }
    }
  }

  lemma {:induction false} LeaksExactly(steps: seq<Step>, key: ObjectKey)
    requires Runs(EMPTY, steps)
    ensures Leaks(EMPTY, steps, key) <==> key in After(EMPTY, steps).objects && !Tracked(After(EMPTY, steps), key)
  {
    assert Inv(EMPTY);
    RunLeaks(EMPTY, steps, key);
  }

  /** A backup that gives up leaves behind every object it has written without row. */
  lemma {:induction false} AbortLeaksStored(s: State, id: VersionId, p: RowKey)
    requires Inv(s) && id in s.busy && p.id == id && p in s.stored
    ensures p.id in s.home && Enabled(s, Abort(id))
    ensures var t, key := Apply(s, Abort(id)), ObjectKey(s.home[id], Mint(p)); key in t.objects && !Tracked(t, key)
  {
    BusyAtHome(s, id);
    Aborted(s, id, p);
    hide Inv, Tracked, DropsLast, Apply, Mint;
    StepTracks(s, Abort(id), ObjectKey(s.home[id], Mint(p)));
  }

  lemma {:induction false} BusyAtHome(s: State, id: VersionId)
    requires Inv(s) && id in s.busy
    ensures id in s.home
  {
    hide Safe, Held, Fresh, Doomed;
  }

  /** And every one whose write is still in flight, once it gets there. */
  lemma {:induction false} AbortLeaksQueued(s: State, id: VersionId, p: RowKey, data: Bytes)
    requires Inv(s) && id in s.busy && p.id == id && p in s.queued
    ensures p.id in s.home && Enabled(s, Abort(id)) && Enabled(Apply(s, Abort(id)), Land(p, data))
    ensures var u := Apply(Apply(s, Abort(id)), Land(p, data));
            var key := ObjectKey(s.home[id], Mint(p));
            key in u.objects && !Tracked(u, key)
  {
    BusyAtHome(s, id);
    Aborted(s, id, p);
    StepKeeps(s, Abort(id));
    hide Inv, Tracked, DropsLast, Apply, Mint;
    var t := Apply(s, Abort(id));
    Landed(t, p, data);
    StepTracks(t, Land(p, data), ObjectKey(s.home[id], Mint(p)));
  }

  lemma {:induction false} Aborted(s: State, id: VersionId, p: RowKey)
    requires Inv(s) && id in s.busy && id in s.home && p.id == id && (p in s.stored || p in s.queued)
    ensures var t, key := Apply(s, Abort(id)), ObjectKey(s.home[id], Mint(p));
            && t.home == s.home && (p in s.queued ==> p in t.orphans)
            && (p in s.stored ==> key in t.objects && DropsLast(s, Abort(id), key))
  {
    hide Safe, Housed, Held, Doomed;
  }

  lemma {:induction false} Landed(t: State, p: RowKey, data: Bytes)
    requires p in t.orphans && p.id in t.home
    ensures var key := ObjectKey(t.home[p.id], Mint(p));
            key in Apply(t, Land(p, data)).objects && DropsLast(t, Land(p, data), key)
  {
  }

  // ---------------------------------------------------------------- clean-ups that wait for backups

  ghost predicate Resting(s: State) {
    s.clones == map[] && s.busy == {}
  }

  /** Candidates are checked only while nothing is cloned or backed up, and no backup gives up. */
  ghost predicate InTurn(s: State, steps: seq<Step>)
    requires Runs(s, steps)
    decreases |steps|
  {
    steps != [] ==>
      && (steps[0].Check? ==> Resting(s)) && !steps[0].Abort? && !steps[0].Land?
      && InTurn(Apply(s, steps[0]), steps[1..])
  }

  /** A row that its version will not overwrite any more. */
  predicate Settled(s: State, p: RowKey) {
    p in s.rows && p.id !in s.clones && !Open(s, p)
  }

  /** As tracked, but rows that may still be overwritten do not count. */
  ghost predicate Anchored(s: State, key: ObjectKey) {
    || key in s.deleted || key in s.hits || Awaits(s, key.uid)
    || exists p :: Settled(s, p) && s.rows[p] == key.uid
  }

  lemma {:induction false} SettledKept(s: State, step: Step, p: RowKey)
    requires Inv(s) && Enabled(s, step) && Settled(s, p) && !((step.Remove? || step.RemoveOwn?) && step.id == p.id)
    ensures Settled(Apply(s, step), p) && Apply(s, step).rows[p] == s.rows[p]
  {
    hide Inv, Apply, Enabled;
    SettledUntouched(s, step, p);
    SettledAtHome(s, p);
    RowKept(s, step, p);
    HomeOrigin(s, step, p.id);
    OpenOrigin(s, step, p);
  }

  lemma {:induction false} SettledUntouched(s: State, step: Step, p: RowKey)
    requires Enabled(s, step) && Settled(s, p)
    ensures !((step.Sparse? || step.Deduplicate? || step.SetRow?) && step.p == p)
    ensures !(step.CloneInsert? && step.id == p.id)
  {
    hide NotCloned, Referenced, Mint;
  }

  lemma {:induction false} SettledAtHome(s: State, p: RowKey)
    requires Inv(s) && Settled(s, p)
    ensures p.id in s.home && p.id != s.nextId
  {
    hide Locked, Held, Fresh, Doomed, Open, AtHome;
  }

  lemma {:induction false} SettledAnchors(s: State, step: Step, key: ObjectKey, p: RowKey)
    requires Inv(s) && Enabled(s, step) && AtHome(s, key) && Settled(s, p) && s.rows[p] == key.uid
    ensures Anchored(Apply(s, step), key)
  {
    hide Safe, Locked, Held, Fresh, Doomed, Apply, AtHome, Enabled;
    if (step.Remove? || step.RemoveOwn?) && step.id == p.id {
      RemovedRow(s, step, key, p);
    } else {
      SettledKept(s, step, p);
    }
  }

  lemma {:induction false} AwaitsAnchors(s: State, step: Step, key: ObjectKey)
    requires Inv(s) && Enabled(s, step) && !step.Abort? && Awaits(s, key.uid)
    requires step.TakeBack? ==> Mint(step.p) != key.uid
    ensures Anchored(Apply(s, step), key)
  {
    hide Safe, Housed, Held, Fresh, Doomed;
    var t, p := Apply(s, step), RowKey(key.uid.left, key.uid.right - 1);
    StoredChange(s, step, p);
    if step == SetRow(p) {
      assert Open(s, p);
      assert Settled(t, p) && t.rows[p] == key.uid;
    }
  }

  lemma {:induction false} CheckAnchors(s: State, key: ObjectKey, checked: ObjectKey)
    requires Inv(s) && Resting(s) && key in s.deleted && checked in s.deleted
    ensures Anchored(Checked(s, checked), key)
  {
    hide Safe, Held, Fresh, Doomed;
    var t := Checked(s, checked);
    if key.uid == checked.uid {
      OneHome(s, key, checked);
      if Referenced(s, key.uid) {
        var p :| p in s.rows && s.rows[p] == key.uid;
        assert Settled(t, p) && t.rows[p] == key.uid;
      }
    } else {
      assert key in t.deleted;
    }
  }

  lemma {:induction false} StepAnchors(s: State, step: Step, key: ObjectKey)
    requires Inv(s) && Enabled(s, step) && (step.Check? ==> Resting(s)) && !step.Abort? && !step.Land?
    requires key in Apply(s, step).objects && (key in s.objects ==> Anchored(s, key))
    ensures Anchored(Apply(s, step), key)
  {
    hide Safe, Housed, Locked, Held, Fresh, Doomed, Apply, Enabled, AtHome;
    ObjectChange(s, step, key);
    if key in s.objects {
      StoredUid(s, key);
      KeyChange(s, step, key);
      if p :| Settled(s, p) && s.rows[p] == key.uid {
        SettledAnchors(s, step, key, p);
      } else if Awaits(s, key.uid) {
        if step.TakeBack? && Mint(step.p) == key.uid { TakenBackIsGone(s, step, key); }
        AwaitsAnchors(s, step, key);
      } else if key in s.hits {
        if step == Delete(key) { DeletedIsGone(s, step, key); }
      } else if step.Check? {
        CheckedCandidate(s, step.key);
        CheckAnchors(s, key, step.key);
        CheckApplies(s, step.key);
      }
    }
  }

  lemma {:induction false} CheckApplies(s: State, key: ObjectKey)
    requires Enabled(s, Check(key))
    ensures Apply(s, Check(key)) == Checked(s, key)
  {
  }

  lemma {:induction false} RunAnchors(s: State, steps: seq<Step>)
    requires Inv(s) && Runs(s, steps) && InTurn(s, steps) && forall key :: key in s.objects ==> Anchored(s, key)
    ensures Inv(After(s, steps)) && forall key :: key in After(s, steps).objects ==> Anchored(After(s, steps), key)
    decreases |steps|
  {
    hide Inv, Apply, Enabled, Anchored, Resting;
    if steps != [] {
      StepKeeps(s, steps[0]);
      forall key | key in Apply(s, steps[0]).objects ensures Anchored(Apply(s, steps[0]), key) {
        StepAnchors(s, steps[0], key);
      }
      RunAnchors(Apply(s, steps[0]), steps[1..]);
    }
  }

  /**
   * If clean-ups check candidates only while nothing is cloned or backed up, and no backup gives up,
   * as with successful operations one after another, no object is ever lost; and at rest every
   * object is referenced, a candidate, or about to be deleted.
   */
  lemma {:induction false} InTurnNeverLeaks(steps: seq<Step>, key: ObjectKey)
    requires Runs(EMPTY, steps) && InTurn(EMPTY, steps) && key in After(EMPTY, steps).objects
    ensures Tracked(After(EMPTY, steps), key) && !Leaks(EMPTY, steps, key)
    ensures var t := After(EMPTY, steps);
            Resting(t) ==> Referenced(t, key.uid) || key in t.deleted || key in t.hits
  {
    hide Apply, Enabled, Runs, After, Leaks, InTurn;
    var t := After(EMPTY, steps);
    RunAnchors(EMPTY, steps);
    LeaksExactly(steps, key);
    assert Anchored(t, key);
    assert Awaits(t, key.uid) ==> Open(t, RowKey(key.uid.left, key.uid.right - 1));
  }

  // ---------------------------------------------------------------- a leak under interleaving

  function LeakedUid(): BlockUid {
    BlockUid(0, 1)
  }

  function LeakedKey(): ObjectKey {
    ObjectKey(0, LeakedUid())
  }

  /** A removal and a clean-up check fall between a clone and the decision on the cloned block. */
  function LeakSteps(): seq<Step> {
    [
      Create(0, {0}), Queue(RowKey(0, 0)), Store(RowKey(0, 0), [7]), SetRow(RowKey(0, 0)), Finish(0),
      BeginClone(0), CloneRead(1, {0}), CloneInsert(1, {0}), EndClone(1, {0}),
      Remove(0), Check(LeakedKey()), Sparse(RowKey(1, 0)), Finish(1)]
  }

  /** The states of that run while there is one version. */
  function FirstStates(k: nat): State {
    var a := RowKey(0, 0);
    var one := EMPTY.(nextId := 1, home := map[0 := 0], versions := {0});
    var writing := one.(locks := {0}, busy := {0});
    var stored := writing.(objects := map[LeakedKey() := [7]]);
    if k == 0 then EMPTY
    else if k == 1 then writing.(pending := {a})
    else if k == 2 then writing.(queued := {a})
    else if k == 3 then stored.(stored := {a})
    else if k == 4 then stored.(rows := map[a := LeakedUid()])
    else stored.(rows := map[a := LeakedUid()], locks := {}, busy := {})
  }

  /** And while there are two. */
  function LastStates(k: nat): State {
    var a, b := RowKey(0, 0), RowKey(1, 0);
    var two := EMPTY.(nextId := 2, home := map[0 := 0, 1 := 0], versions := {0, 1}, rows := map[a := LeakedUid()],
                      objects := map[LeakedKey() := [7]]);
    var cloning := two.(locks := {0, 1}, clones := map[1 := 0]);
    var writing := two.(versions := {1}, locks := {1}, busy := {1}, pending := {b}, rows := map[b := LeakedUid()]);
    if k == 6 then cloning
    else if k == 7 then cloning.(buffer := map[b := LeakedUid()])
    else if k == 8 then cloning.(rows := map[a := LeakedUid(), b := LeakedUid()])
    else if k == 9 then writing.(versions := {0, 1}, rows := map[a := LeakedUid(), b := LeakedUid()])
    else if k == 10 then writing.(deleted := {LeakedKey()})
    else if k == 11 then writing
    else if k == 12 then writing.(rows := map[], pending := {})
    else writing.(rows := map[], pending := {}, locks := {}, busy := {})
  }

  function LeakState(k: nat): State {
    if k < 6 then FirstStates(k) else LastStates(k)
  }

  ghost predicate Leads(k: nat, step: Step) {
    Enabled(LeakState(k), step) && Apply(LeakState(k), step) == LeakState(k + 1)
  }

  lemma {:induction false} LeakCreate()
    ensures Leads(0, Create(0, {0})) && Leads(1, Queue(RowKey(0, 0)))
  {
  }

  lemma {:induction false} LeakWrite()
    ensures Leads(2, Store(RowKey(0, 0), [7])) && Leads(3, SetRow(RowKey(0, 0)))
  {
  }

  lemma {:induction false} LeakFinish()
    ensures Leads(4, Finish(0))
  {
  }

  lemma {:induction false} LeakBeginClone()
    ensures Leads(5, BeginClone(0))
  {
  }

  lemma {:induction false} LeakRead()
    ensures Leads(6, CloneRead(1, {0}))
  {
  }

  lemma {:induction false} LeakInsert()
    ensures Leads(7, CloneInsert(1, {0}))
  {
  }

  lemma {:induction false} LeakCloned()
    ensures Leads(8, EndClone(1, {0}))
  {
  }

  lemma {:induction false} LeakRemove()
    ensures Leads(9, Remove(0))
  {
  }

  lemma {:induction false} LeakCheck()
    ensures Leads(10, Check(LeakedKey()))
  {
    assert RowKey(1, 0) in LeakState(10).rows && LeakState(10).rows[RowKey(1, 0)] == LeakedUid();
  }

  lemma {:induction false} LeakSparse()
    ensures Leads(11, Sparse(RowKey(1, 0)))
  {
  }

  lemma {:induction false} LeakEnd()
    ensures Leads(12, Finish(1))
  {
  }

  lemma {:induction false} AllLead(k: nat)
    requires k < |LeakSteps()|
    ensures Leads(k, LeakSteps()[k])
  {
    LeakCreate();
    LeakWrite();
    LeakFinish();
    LeakBeginClone();
    LeakRead();
    LeakInsert();
    LeakCloned();
    LeakRemove();
    LeakCheck();
    LeakSparse();
    LeakEnd();
    hide Leads, LeakedKey;
  }

  lemma {:induction false} LeakRun(k: nat)
    requires k <= |LeakSteps()|
    ensures Runs(LeakState(k), LeakSteps()[k..]) && After(LeakState(k), LeakSteps()[k..]) == LeakState(|LeakSteps()|)
    decreases |LeakSteps()| - k
  {
    hide Apply, Enabled, LeakState;
    if k < |LeakSteps()| {
      AllLead(k);
      LeakRun(k + 1);
      assert LeakSteps()[k..][1..] == LeakSteps()[k + 1..] && LeakSteps()[k..][0] == LeakSteps()[k];
    }
  }

  /** After that run, with all operations over, an object is left that nobody knows of. */
  lemma {:induction false} InterleavedCleanupLeaks()
    ensures Runs(EMPTY, LeakSteps()) && Leaks(EMPTY, LeakSteps(), LeakedKey())
    ensures var s := After(EMPTY, LeakSteps()); Resting(s) && LeakedKey() in s.objects && !Tracked(s, LeakedKey())
  {
    hide Apply, Enabled, Runs, After, Leaks;
    LeakRun(0);
    assert LeakSteps()[0..] == LeakSteps() && LeakState(0) == EMPTY;
    LeaksExactly(LeakSteps(), LeakedKey());
  }
}
