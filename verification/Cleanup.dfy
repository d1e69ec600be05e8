/** Removing versions, and the clean-up that deletes the objects nothing references any more. */
module Cleanup {
  import opened Tables
  import opened VersionTable

  predicate Referenced(versions: map<VersionId, Version>, uid: BlockUid) {
    exists id, i :: id in versions && i in versions[id].rows && versions[id].rows[i].uid == Some(uid)
  }

  // ---------------------------------------------------------------- removal

  /** The rows of a version that reference a uid. */
  function RowsOf(v: Version, uid: BlockUid): set<nat> {
    set i | i in v.rows && v.rows[i].uid == Some(uid)
  }

  /** How many candidates equal to `c` the removal of the given rows records. */
  function Recorded(v: Version, date: int, done: set<nat>, c: Candidate): nat {
    if c.storage == v.storage && c.date == date then |RowsOf(v, c.uid) * done| else 0
  }

  lemma {:induction false} RecordOne(v: Version, date: int, done: set<nat>, i: nat, c: Candidate)
    requires i in v.rows && i !in done
    ensures Recorded(v, date, done + {i}, c) == Recorded(v, date, done, c) +
              if v.rows[i].uid.Some? && c == Candidate(v.storage, v.rows[i].uid.value, date) then 1 else 0
  {
    var rows := RowsOf(v, c.uid);
    if v.rows[i].uid == Some(c.uid) {
      assert rows * (done + {i}) == rows * done + {i};
    } else {
      assert rows * (done + {i}) == rows * done;
    }
  }

  /** Removes a version and its rows; each row with a uid leaves one candidate. */
  method Remove(db: Database, id: VersionId, date: int) returns (count: nat)
    requires id in db.versions
    modifies db`versions, db`deleted
    ensures db.versions == old(db.versions) - {id}
    ensures count == |old(db.versions)[id].rows|
    ensures forall c :: db.deleted[c] == old(db.deleted)[c] +
              Recorded(old(db.versions)[id], date, old(db.versions)[id].rows.Keys, c)
  {
    hide Recorded;
    var v := db.versions[id];
    count := |v.rows|;
    var rest, done: set<nat> := v.rows.Keys, {};
    forall c ensures Recorded(v, date, {}, c) == 0 { NothingRecorded(v, date, c); }
    while rest != {}
      invariant rest + done == v.rows.Keys && rest !! done && db.versions == old(db.versions)
      invariant forall c :: db.deleted[c] == old(db.deleted)[c] + Recorded(v, date, done, c)
      decreases rest
    {
      var i :| i in rest;
      forall c ensures Recorded(v, date, done + {i}, c) == Recorded(v, date, done, c) +
                         if v.rows[i].uid.Some? && c == Candidate(v.storage, v.rows[i].uid.value, date) then 1 else 0
      {
        RecordOne(v, date, done, i, c);
      }
      if v.rows[i].uid.Some? {
        db.deleted := db.deleted + multiset{Candidate(v.storage, v.rows[i].uid.value, date)};
      }
      rest, done := rest - {i}, done + {i};
    }
    assert done == v.rows.Keys;
    db.versions := db.versions - {id};
  }

  lemma {:induction false} NothingRecorded(v: Version, date: int, c: Candidate)
    ensures Recorded(v, date, {}, c) == 0
  {
    assert RowsOf(v, c.uid) * {} == {};
  }

  // ---------------------------------------------------------------- clean-up

  const BATCH_LIMIT: nat := 250

  /** A storage id of zero counts as none; the age limit applies only without a storage id. */
  predicate ByStorage(storage: Option<StorageId>) {
    storage.Some? && storage.value != 0
  }

  predicate Matches(c: Candidate, storage: Option<StorageId>, cutOff: int) {
    if ByStorage(storage) then c.storage == storage.value else c.date < cutOff
  }

  /** One query for candidates: all of a storage's, or a limited number of those old enough, in any order. */
  method Query(deleted: multiset<Candidate>, storage: Option<StorageId>, cutOff: int) returns (batch: seq<Candidate>)
    ensures forall c :: c in batch ==> c in deleted && Matches(c, storage, cutOff)
    ensures batch == [] ==> forall c :: c in deleted ==> !Matches(c, storage, cutOff)
    ensures |batch| < BATCH_LIMIT || ByStorage(storage) ==>
              forall c :: c in deleted && Matches(c, storage, cutOff) ==> c in batch
    ensures !ByStorage(storage) ==> |batch| <= BATCH_LIMIT
  {
    var rest := deleted;
    batch := [];
    while (ByStorage(storage) || |batch| < BATCH_LIMIT) && exists c :: c in rest && Matches(c, storage, cutOff)
      invariant rest <= deleted
      invariant forall c :: c in batch ==> c in deleted && Matches(c, storage, cutOff)
      invariant forall c :: c in deleted ==> c in rest || c in batch
      invariant !ByStorage(storage) ==> |batch| <= BATCH_LIMIT
      decreases |rest|
    {
      var c :| c in rest && Matches(c, storage, cutOff);
      rest, batch := rest - multiset{c}, batch + [c];
    }
  }

  /** Deletes all candidate rows of the given uids, whatever their storage or date. */
  method DeleteCandidates(deleted: multiset<Candidate>, uids: set<BlockUid>) returns (left: multiset<Candidate>)
    ensures forall c :: left[c] == if c.uid in uids then 0 else deleted[c]
  {
    left := deleted;
    while exists c :: c in left && c.uid in uids
      invariant forall c :: left[c] == deleted[c] || (c.uid in uids && left[c] == 0)
      invariant left <= deleted
      decreases |left|
    {
      var c :| c in left && c.uid in uids;
      left := Without(left, c);
    }
  }

  function Without(m: multiset<Candidate>, c: Candidate): (r: multiset<Candidate>)
    ensures r <= m
    ensures c in m ==> |r| < |m|
    ensures forall d :: r[d] == if d == c then 0 else m[d]
  {
    assert m == m[c := 0] + multiset{}[c := m[c]];
    m[c := 0]
  }

  function KeyOf(c: Candidate): ObjectKey {
    ObjectKey(c.storage, c.uid)
  }

  /** Splits a batch into uids that are still referenced and the objects that nothing references. */
  method Classify(versions: map<VersionId, Version>, batch: seq<Candidate>)
    returns (falsePositives: set<BlockUid>, hits: set<ObjectKey>)
    ensures Split(versions, batch, falsePositives, hits)
  {
    hide Referenced;
    falsePositives, hits := {}, {};
    for n := 0 to |batch|
      invariant Split(versions, batch[..n], falsePositives, hits)
    {
      ghost var c := batch[n];
      assert batch[..n + 1] == batch[..n] + [c];
      assert c in batch[..n + 1];
      if Referenced(versions, batch[n].uid) {
        falsePositives := falsePositives + {batch[n].uid};
      } else {
        hits := hits + {KeyOf(batch[n])};
      }
    }
    assert batch[..|batch|] == batch;
  }

  /** Some candidate of the uid is selected by the clean-up. */
  ghost predicate Selected(deleted: multiset<Candidate>, storage: Option<StorageId>, cutOff: int, uid: BlockUid) {
    exists c :: c in deleted && c.uid == uid && Matches(c, storage, cutOff)
  }

  /** The uids whose candidate rows earlier rounds have deleted. */
  ghost predicate Remaining(before: multiset<Candidate>, now: multiset<Candidate>, done: set<BlockUid>) {
    forall c :: now[c] == if c.uid in done then 0 else before[c]
  }

  /** All candidates of one uid name the same storage. */
  ghost predicate OneStorage(deleted: multiset<Candidate>) {
    forall c, d :: c in deleted && d in deleted && c.uid == d.uid ==> c.storage == d.storage
  }

  lemma {:induction false} RemainingStep(before: multiset<Candidate>, now: multiset<Candidate>,
                                         next: multiset<Candidate>, done: set<BlockUid>, uids: set<BlockUid>)
    requires Remaining(before, now, done)
    requires forall c :: next[c] == if c.uid in uids then 0 else now[c]
    ensures Remaining(before, next, done + uids)
  {
  }

  /** A deletion of candidates that includes a present one leaves fewer. */
  lemma {:induction false} Fewer(now: multiset<Candidate>, next: multiset<Candidate>, c: Candidate)
    requires forall d :: next[d] <= now[d]
    requires c in now && c !in next
    ensures |next| < |now|
  {
    assert now == next + (now - next);
    assert c in now - next;
  }

  /** When no selected candidate remains, the uids dealt with are exactly the selected ones. */
  lemma {:induction false} DoneIsSelected(before: multiset<Candidate>, now: multiset<Candidate>, done: set<BlockUid>,
                                          storage: Option<StorageId>, cutOff: int, uid: BlockUid)
    requires Remaining(before, now, done)
    requires forall c :: c in now ==> !Matches(c, storage, cutOff)
    requires forall u :: u in done ==> Selected(before, storage, cutOff, u)
    ensures uid in done <==> Selected(before, storage, cutOff, uid)
  {
    if Selected(before, storage, cutOff, uid) {
      var c :| c in before && c.uid == uid && Matches(c, storage, cutOff);
      assert c !in now;
    }
  }

  /** The object was yielded in some round. */
  ghost predicate Yields(rounds: seq<set<ObjectKey>>, key: ObjectKey) {
    exists r :: 0 <= r < |rounds| && key in rounds[r]
  }

  /** No uid is yielded in two rounds. */
  ghost predicate Once(rounds: seq<set<ObjectKey>>) {
    forall q, r, key, other :: 0 <= q < r < |rounds| && key in rounds[q] && other in rounds[r] ==> key.uid != other.uid
  }

  /** The rounds so far and another one, which is not yielded when it is empty. */
  function More(rounds: seq<set<ObjectKey>>, hits: set<ObjectKey>): seq<set<ObjectKey>> {
    if hits == {} then rounds else rounds + [hits]
  }

  function UidsOf(keys: set<ObjectKey>): set<BlockUid> {
    set key | key in keys :: key.uid
  }

  lemma {:induction false} YieldsMore(rounds: seq<set<ObjectKey>>, hits: set<ObjectKey>, key: ObjectKey)
    ensures Yields(More(rounds, hits), key) <==> Yields(rounds, key) || key in hits
  {
    var more := More(rounds, hits);
    if Yields(rounds, key) {
      var r :| 0 <= r < |rounds| && key in rounds[r];
      assert key in more[r];
    } else if key in hits {
      assert key in more[|rounds|];
    }
  }

  /** The rounds yield, of the uids dealt with, those that nothing references, and only candidates. */
  ghost predicate Sound(versions: map<VersionId, Version>, before: multiset<Candidate>, done: set<BlockUid>,
                        rounds: seq<set<ObjectKey>>) {
    && (forall key :: Yields(rounds, key) ==>
        key.uid in done && !Referenced(versions, key.uid) && IsCandidate(before, key))
    && (forall uid :: uid in done && !Referenced(versions, uid) ==> YieldsUid(rounds, uid))
  }

  ghost predicate YieldsUid(rounds: seq<set<ObjectKey>>, uid: BlockUid) {
    exists key :: Yields(rounds, key) && key.uid == uid
  }

  ghost predicate IsCandidate(deleted: multiset<Candidate>, key: ObjectKey) {
    exists c :: c in deleted && KeyOf(c) == key
  }

  lemma {:induction false} StillSound(versions: map<VersionId, Version>, before: multiset<Candidate>,
                                      done: set<BlockUid>, rounds: seq<set<ObjectKey>>, falsePositives: set<BlockUid>,
                                      hits: set<ObjectKey>)
    requires Sound(versions, before, done, rounds)
    requires forall uid :: uid in falsePositives ==> Referenced(versions, uid)
    requires forall key :: key in hits ==> !Referenced(versions, key.uid) && IsCandidate(before, key)
    ensures Sound(versions, before, done + falsePositives + UidsOf(hits), More(rounds, hits))
  {
    hide Referenced, Yields, More, IsCandidate;
    var next, more := done + falsePositives + UidsOf(hits), More(rounds, hits);
    forall key | Yields(more, key)
      ensures key.uid in next && !Referenced(versions, key.uid) && IsCandidate(before, key)
    {
      YieldsMore(rounds, hits, key);
    }
    forall uid | uid in next && !Referenced(versions, uid)
      ensures YieldsUid(more, uid)
    {
      assert uid in done ==> YieldsUid(rounds, uid);
      var key: ObjectKey :| (Yields(rounds, key) || key in hits) && key.uid == uid;
      YieldsMore(rounds, hits, key);
    }
  }

  lemma {:induction false} StillOnce(done: set<BlockUid>, rounds: seq<set<ObjectKey>>, hits: set<ObjectKey>)
    requires Once(rounds)
    requires forall key :: Yields(rounds, key) ==> key.uid in done
    requires forall key :: key in hits ==> key.uid !in done
    ensures Once(More(rounds, hits))
  {
    forall r, key | 0 <= r < |rounds| && key in rounds[r] ensures key.uid in done {
      assert Yields(rounds, key);
    }
  }

  lemma {:induction false} Present(before: multiset<Candidate>, now: multiset<Candidate>, done: set<BlockUid>,
                                   key: ObjectKey)
    requires Remaining(before, now, done) && IsCandidate(now, key)
    ensures IsCandidate(before, key) && key.uid !in done
  {
    var c :| c in now && KeyOf(c) == key;
    assert c in before;
  }

  /** What holds between rounds: `done` are the uids dealt with, `now` the candidates that are left. */
  ghost predicate Progress(versions: map<VersionId, Version>, before: multiset<Candidate>, now: multiset<Candidate>,
                           storage: Option<StorageId>, cutOff: int, done: set<BlockUid>, rounds: seq<set<ObjectKey>>) {
    && Remaining(before, now, done)
    && (forall uid :: uid in done ==> Selected(before, storage, cutOff, uid))
    && Sound(versions, before, done, rounds)
    && Once(rounds)
  }

  /** A batch was split into uids that are referenced and objects that are not. */
  ghost predicate Split(versions: map<VersionId, Version>, batch: seq<Candidate>, falsePositives: set<BlockUid>,
                        hits: set<ObjectKey>) {
    && (forall uid :: uid in falsePositives ==> Referenced(versions, uid) && exists c :: c in batch && c.uid == uid)
    && (forall key :: key in hits ==> !Referenced(versions, key.uid) && exists c :: c in batch && KeyOf(c) == key)
    && (forall c :: c in batch ==> c.uid in falsePositives || KeyOf(c) in hits)
  }

  lemma {:induction false} RoundKeeps(versions: map<VersionId, Version>, before: multiset<Candidate>,
                                      now: multiset<Candidate>, storage: Option<StorageId>, cutOff: int,
                                      done: set<BlockUid>, rounds: seq<set<ObjectKey>>, batch: seq<Candidate>,
                                      falsePositives: set<BlockUid>, hits: set<ObjectKey>, next: multiset<Candidate>)
    requires Progress(versions, before, now, storage, cutOff, done, rounds)
    requires forall c :: c in batch ==> c in now && Matches(c, storage, cutOff)
    requires Split(versions, batch, falsePositives, hits)
    requires forall c :: next[c] == if c.uid in falsePositives + UidsOf(hits) then 0 else now[c]
    ensures Progress(versions, before, next, storage, cutOff, done + falsePositives + UidsOf(hits), More(rounds, hits))
    ensures batch != [] ==> |next| < |now|
  {
    hide Referenced, Yields, More, IsCandidate, Once, Sound, Matches;
    var uids := UidsOf(hits);
    forall uid | uid in falsePositives + uids ensures Selected(before, storage, cutOff, uid) {
      var c :| c in batch && c.uid == uid;
      assert c in before;
    }
    forall key | key in hits ensures IsCandidate(before, key) && key.uid !in done {
      HitIsCandidate(now, batch, key);
      Present(before, now, done, key);
    }
    SoundYields(versions, before, done, rounds);
    StillOnce(done, rounds, hits);
    StillSound(versions, before, done, rounds, falsePositives, hits);
    RemainingStep(before, now, next, done, falsePositives + uids);
    assert done + falsePositives + uids == done + (falsePositives + uids);
    if batch != [] {
      assert batch[0] in batch && batch[0].uid in falsePositives + uids;
      Fewer(now, next, batch[0]);
    }
  }

  lemma {:induction false} SoundYields(versions: map<VersionId, Version>, before: multiset<Candidate>,
                                       done: set<BlockUid>, rounds: seq<set<ObjectKey>>)
    requires Sound(versions, before, done, rounds)
    ensures forall key :: Yields(rounds, key) ==> key.uid in done
  {
  }

  lemma {:induction false} HitIsCandidate(now: multiset<Candidate>, batch: seq<Candidate>, key: ObjectKey)
    requires forall c :: c in batch ==> c in now
    requires exists c :: c in batch && KeyOf(c) == key
    ensures IsCandidate(now, key)
  {
  }

  lemma {:induction false} Started(versions: map<VersionId, Version>, before: multiset<Candidate>,
                                   storage: Option<StorageId>, cutOff: int)
    ensures Progress(versions, before, before, storage, cutOff, {}, [])
    ensures forall key :: !Yields([], key)
  {
  }

  lemma {:induction false} Finished(versions: map<VersionId, Version>, before: multiset<Candidate>,
                                    now: multiset<Candidate>, storage: Option<StorageId>, cutOff: int,
                                    done: set<BlockUid>, rounds: seq<set<ObjectKey>>)
    requires Progress(versions, before, now, storage, cutOff, done, rounds)
    requires forall c :: c in now ==> !Matches(c, storage, cutOff)
    ensures forall c :: now[c] == if Selected(before, storage, cutOff, c.uid) then 0 else before[c]
    ensures forall key :: Yields(rounds, key) ==> !Referenced(versions, key.uid) && IsCandidate(before, key)
    ensures forall uid :: YieldsUid(rounds, uid) <==>
              Selected(before, storage, cutOff, uid) && !Referenced(versions, uid)
    ensures Once(rounds)
  {
    hide Referenced, Yields, IsCandidate, Selected, Matches, Once;
    forall uid ensures uid in done <==> Selected(before, storage, cutOff, uid) {
      DoneIsSelected(before, now, done, storage, cutOff, uid);
    }
  }

  /** With one storage per uid, an object is yielded when its uid is. */
  lemma {:induction false} KeyFollowsUid(deleted: multiset<Candidate>, rounds: seq<set<ObjectKey>>, key: ObjectKey)
    requires OneStorage(deleted)
    requires forall k :: Yields(rounds, k) ==> IsCandidate(deleted, k)
    ensures Yields(rounds, key) <==> YieldsUid(rounds, key.uid) && IsCandidate(deleted, key)
  {
    hide Yields;
    if YieldsUid(rounds, key.uid) && IsCandidate(deleted, key) {
      var other: ObjectKey :| Yields(rounds, other) && other.uid == key.uid;
      var c :| c in deleted && KeyOf(c) == other;
      var d :| d in deleted && KeyOf(d) == key;
    }
  }

  /**
   * The whole clean-up. It ends, since each round deletes candidate rows; it deletes the candidate
   * rows of exactly the selected uids, and yields, each in one round only, exactly those of them that
   * nothing references; the yielded objects and no others are deleted.
   */
  method Cleanup(db: Database, storage: Option<StorageId>, cutOff: int) returns (rounds: seq<set<ObjectKey>>)
    modifies db`deleted, db`objects
    ensures forall c :: db.deleted[c] ==
              if Selected(old(db.deleted), storage, cutOff, c.uid) then 0 else old(db.deleted)[c]
    ensures forall key :: Yields(rounds, key) ==>
              !Referenced(db.versions, key.uid) && IsCandidate(old(db.deleted), key)
    ensures forall uid :: YieldsUid(rounds, uid) <==>
              Selected(old(db.deleted), storage, cutOff, uid) && !Referenced(db.versions, uid)
    ensures OneStorage(old(db.deleted)) ==> forall key :: Yields(rounds, key) <==>
              IsCandidate(old(db.deleted), key) && Selected(old(db.deleted), storage, cutOff, key.uid)
                && !Referenced(db.versions, key.uid)
    ensures Once(rounds)
    ensures forall key :: key in db.objects <==> key in old(db.objects) && !Yields(rounds, key)
    ensures forall key :: key in db.objects ==> db.objects[key] == old(db.objects)[key]
  {
    hide Referenced, Yields, YieldsUid, More, IsCandidate, Selected, Matches, Progress, Split, Once;
    rounds := [];
    ghost var done: set<BlockUid> := {};
    ghost var before := db.deleted;
    Started(db.versions, before, storage, cutOff);
    while true
      invariant Progress(db.versions, before, db.deleted, storage, cutOff, done, rounds)
      invariant db.versions == old(db.versions)
      invariant forall key :: key in db.objects <==> key in old(db.objects) && !Yields(rounds, key)
      invariant forall key :: key in db.objects ==> db.objects[key] == old(db.objects)[key]
      decreases |db.deleted|
    {
      ghost var now := db.deleted;
      var batch := Query(db.deleted, storage, cutOff);
      if batch == [] { break; }
      var falsePositives, hits := Classify(db.versions, batch);
      ghost var more := More(rounds, hits);
      forall key ensures Yields(more, key) <==> Yields(rounds, key) || key in hits {
        YieldsMore(rounds, hits, key);
      }
      db.deleted := DeleteCandidates(db.deleted, falsePositives);
      if hits != {} {
        db.deleted := DeleteCandidates(db.deleted, UidsOf(hits));
        db.objects := map key | key in db.objects && key !in hits :: db.objects[key];
      }
      RoundKeeps(db.versions, before, now, storage, cutOff, done, rounds, batch, falsePositives, hits, db.deleted);
      done := done + falsePositives + UidsOf(hits);
      rounds := More(rounds, hits);
    }
    Finished(db.versions, before, db.deleted, storage, cutOff, done, rounds);
    if OneStorage(before) {
      forall key ensures Yields(rounds, key) <==>
                           IsCandidate(before, key) && Selected(before, storage, cutOff, key.uid)
                             && !Referenced(db.versions, key.uid)
      {
        KeyFollowsUid(before, rounds, key);
      }
    }
  }
}
