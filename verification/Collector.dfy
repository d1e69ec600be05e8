/**
 * Reference tracking and clean-up as interleaved steps.
 *
 * Backups clone a base under its lock, write objects before the rows that reference them, and
 * copy uids from existing rows; removals record the removed uids as candidates; a clean-up checks
 * candidates and deletes objects later. Steps of any number of these run in any order.
 */
module Collector {
  import opened Images
  import opened Tables

  /** The key of a block row. */
  datatype RowKey = RowKey(id: VersionId, i: nat)

  datatype State = State(
    nextId: VersionId,
    home: map<VersionId, StorageId>,    // the storage of every version there ever was
    versions: set<VersionId>,
    rows: map<RowKey, BlockUid>,        // the block rows that have a uid
    objects: Objects,
    deleted: set<ObjectKey>,            // candidates
    hits: set<ObjectKey>,               // found unreferenced, not yet deleted
    locks: set<VersionId>,
    held: set<VersionId>,               // those of them taken by NBD sessions, scrubs and restores
    clones: map<VersionId, VersionId>,  // the base of each clone in progress
    buffer: map<RowKey, BlockUid>,      // rows read from a base and not yet inserted
    busy: set<VersionId>,               // versions being backed up
    pending: set<RowKey>,               // blocks of these that are not decided yet
    queued: set<RowKey>,                // blocks queued for writing
    stored: set<RowKey>,                // blocks written, without row
    orphans: set<RowKey>)               // writes in flight whose backup has given up

  datatype Step =
    | Create(storage: StorageId, blocks: set<nat>)
    | Lock(id: VersionId)
    | Unlock(id: VersionId)
    | BeginClone(base: VersionId)
    | BeginCow(base: VersionId)
    | CloneRead(id: VersionId, window: set<nat>)
    | CloneInsert(id: VersionId, keep: set<nat>)
    | EndClone(id: VersionId, blocks: set<nat>)
    | AbortClone(id: VersionId)
    | Sparse(p: RowKey)
    | Deduplicate(p: RowKey, existing: RowKey)
    | Queue(p: RowKey)
    | Store(p: RowKey, data: Bytes)
    | SetRow(p: RowKey)
    | TakeBack(p: RowKey)
    | Finish(id: VersionId)
    | Abort(id: VersionId)
    | Land(p: RowKey, data: Bytes)
    | Remove(id: VersionId)
    | RemoveOwn(id: VersionId)
    | Check(key: ObjectKey)
    | Delete(key: ObjectKey)

  /** A new uid combines the version's id and the block's index. */
  function Mint(p: RowKey): BlockUid {
    BlockUid(p.id, p.i + 1)
  }

  /** The block is being written, and its row is not settled yet. */
  predicate Open(s: State, p: RowKey) {
    p in s.pending || p in s.queued || p in s.stored
  }

  ghost predicate Referenced(s: State, uid: BlockUid) {
    exists p :: p in s.rows && s.rows[p] == uid
  }

  const EMPTY := State(0, map[], {}, map[], map[], {}, {}, {}, {}, map[], map[], {}, {}, {}, {}, {})

  /** No clone is reading from the version. */
  predicate NotCloned(s: State, base: VersionId) {
    forall id :: id in s.clones ==> s.clones[id] != base
  }

  // ---------------------------------------------------------------- the steps

  ghost predicate Enabled(s: State, step: Step) {
    match step
    case Create(_, _) => true
    case Lock(id) => id in s.home && id !in s.locks
    case Unlock(id) => id in s.held && NotCloned(s, id)
    case BeginClone(base) => base in s.home && base !in s.locks
    case BeginCow(base) => base in s.home && base in s.held && NotCloned(s, base)
    case CloneRead(id, _) => id in s.clones
    case CloneInsert(id, _) => id in s.clones
    case EndClone(id, _) => id in s.clones && forall p :: p in s.buffer ==> p.id != id
    case Sparse(p) => p in s.pending
    case Deduplicate(p, existing) =>
      p in s.pending && existing in s.rows && p.id in s.home && existing.id in s.home
        && s.home[existing.id] == s.home[p.id]
    case Queue(p) => p in s.pending
    case Store(p, _) => p in s.queued && p.id in s.home
    case SetRow(p) => p in s.stored
    case TakeBack(p) => p in s.stored && p.id in s.home
    case Finish(id) => id in s.busy && forall p :: Open(s, p) ==> p.id != id
    case AbortClone(id) => id in s.clones
    case Abort(id) => id in s.busy
    case Land(p, _) => p in s.orphans && p.id in s.home
    case Remove(id) => id in s.versions && id in s.home && id !in s.locks
    case RemoveOwn(id) => id in s.busy && id in s.home && forall p :: p in s.queued + s.stored ==> p.id != id
    case Check(key) => key in s.deleted
    case Delete(key) => key in s.hits
  }

  function BlocksOf(id: VersionId, blocks: set<nat>): set<RowKey> {
    set i | i in blocks :: RowKey(id, i)
  }

  /** The candidates that removing a version records. */
  function Candidates(s: State, id: VersionId): set<ObjectKey>
    requires id in s.home
  {
    set p | p in s.rows && p.id == id :: ObjectKey(s.home[id], s.rows[p])
  }

  function WithoutVersion(s: State, id: VersionId): (t: State)
    requires id in s.home
    ensures t == s.(versions := t.versions, rows := t.rows, deleted := t.deleted)
  {
    s.(versions := s.versions - {id}, rows := map p | p in s.rows && p.id != id :: s.rows[p],
       deleted := s.deleted + Candidates(s, id))
  }

  /** Those of some blocks that are not of a version, and those that are. */
  function Others(keys: set<RowKey>, id: VersionId): set<RowKey> {
    set p | p in keys && p.id != id
  }

  function Own(keys: set<RowKey>, id: VersionId): set<RowKey> {
    set p | p in keys && p.id == id
  }

  /** The lock is released. Undecided blocks keep the rows they have, and writes in flight go on unattended. */
  function Released(s: State, id: VersionId): (t: State)
    ensures t == s.(locks := t.locks, busy := t.busy, pending := t.pending, queued := t.queued, stored := t.stored,
                    orphans := t.orphans)
  {
    s.(locks := s.locks - {id}, busy := s.busy - {id}, pending := Others(s.pending, id), queued := Others(s.queued, id),
       stored := Others(s.stored, id), orphans := s.orphans + Own(s.queued, id))
  }

  /** The lock of a base is released with the clone, unless it was taken before. */
  function WithoutBase(s: State, base: VersionId): set<VersionId> {
    if base in s.held then s.locks else s.locks - {base}
  }

  /** A clone that fails leaves the rows inserted so far and releases its locks. */
  function CloneAborted(s: State, id: VersionId): (t: State)
    requires id in s.clones
    ensures t == s.(locks := t.locks, clones := t.clones, buffer := t.buffer)
  {
    s.(locks := WithoutBase(s, s.clones[id]) - {id}, clones := s.clones - {id},
       buffer := map p | p in s.buffer && p.id != id :: s.buffer[p])
  }

  function Created(s: State, storage: StorageId, blocks: set<nat>): (t: State)
    ensures t == s.(nextId := t.nextId, home := t.home, versions := t.versions, locks := t.locks, busy := t.busy,
                    pending := t.pending)
  {
    var id := s.nextId;
    s.(nextId := id + 1, home := s.home[id := storage], versions := s.versions + {id}, locks := s.locks + {id},
       busy := s.busy + {id}, pending := s.pending + BlocksOf(id, blocks))
  }

  function CloneBegun(s: State, base: VersionId): (t: State)
    requires base in s.home
    ensures t == s.(nextId := t.nextId, home := t.home, versions := t.versions, locks := t.locks, clones := t.clones)
  {
    var id := s.nextId;
    s.(nextId := id + 1, home := s.home[id := s.home[base]], versions := s.versions + {id},
        locks := s.locks + {id, base},
       clones := s.clones[id := base])
  }

  /** A window of the base's rows is read; a base that is gone has none. */
  function WindowRead(s: State, id: VersionId, window: set<nat>): (t: State)
    requires id in s.clones
    ensures t == s.(buffer := t.buffer)
  {
    var base := s.clones[id];
    s.(buffer := s.buffer + map p | p in BlocksOf(id, window) && RowKey(base, p.i) in s.rows ::
                              s.rows[RowKey(base, p.i)])
  }

  /** The buffered rows are inserted, but for blocks whose size changed. */
  function Inserted(s: State, id: VersionId, keep: set<nat>): (t: State)
    ensures t == s.(rows := t.rows, buffer := t.buffer)
  {
    s.(rows := s.rows + (map p | p in s.buffer && p.id == id && p.i in keep :: s.buffer[p]),
       buffer := map p | p in s.buffer && p.id != id :: s.buffer[p])
  }

  function CloneEnded(s: State, id: VersionId, blocks: set<nat>): (t: State)
    requires id in s.clones
    ensures t == s.(locks := t.locks, clones := t.clones, busy := t.busy, pending := t.pending)
  {
    s.(locks := WithoutBase(s, s.clones[id]), clones := s.clones - {id}, busy := s.busy + {id},
       pending := s.pending + BlocksOf(id, blocks))
  }

  /** The check of one candidate: rows of any storage count as references. */
  ghost function Checked(s: State, key: ObjectKey): (t: State)
    ensures t == s.(deleted := t.deleted, hits := t.hits)
  {
    var rest := set k | k in s.deleted && k.uid != key.uid;
    if Referenced(s, key.uid) then s.(deleted := rest) else s.(deleted := rest, hits := s.hits + {key})
  }

  ghost function Apply(s: State, step: Step): State
    requires Enabled(s, step)
  {
    match step
    case Create(storage, blocks) => Created(s, storage, blocks)
    case Lock(id) => s.(locks := s.locks + {id}, held := s.held + {id})
    case Unlock(id) => s.(locks := s.locks - {id}, held := s.held - {id})
    case BeginClone(base) => CloneBegun(s, base)
    case BeginCow(base) => CloneBegun(s, base)
    case CloneRead(id, window) => WindowRead(s, id, window)
    case CloneInsert(id, keep) => Inserted(s, id, keep)
    case EndClone(id, blocks) => CloneEnded(s, id, blocks)
    case AbortClone(id) => CloneAborted(s, id)
    case Sparse(p) => s.(rows := s.rows - {p}, pending := s.pending - {p})
    case Deduplicate(p, existing) => s.(rows := s.rows[p := s.rows[existing]], pending := s.pending - {p})
    case Queue(p) => s.(pending := s.pending - {p}, queued := s.queued + {p})
    case Store(p, data) =>
      s.(objects := s.objects[ObjectKey(s.home[p.id], Mint(p)) := data], queued := s.queued - {p},
          stored := s.stored + {p})
    case SetRow(p) => s.(rows := s.rows[p := Mint(p)], stored := s.stored - {p})
    case TakeBack(p) => s.(objects := s.objects - {ObjectKey(s.home[p.id], Mint(p))}, stored := s.stored - {p})
    case Finish(id) => Released(s, id)
    case Abort(id) => Released(s, id)
    case Land(p, data) => s.(objects := s.objects[ObjectKey(s.home[p.id], Mint(p)) := data], orphans := s.orphans - {p})
    case Remove(id) => WithoutVersion(s, id)
    case RemoveOwn(id) => Released(WithoutVersion(s, id), id)
    case Check(key) => Checked(s, key)
    case Delete(key) => s.(objects := s.objects - {key}, hits := s.hits - {key})
  }

  /** All steps of a run are enabled in turn. */
  ghost predicate Runs(s: State, steps: seq<Step>)
    decreases |steps|
  {
    steps == [] || (Enabled(s, steps[0]) && Runs(Apply(s, steps[0]), steps[1..]))
  }

  ghost function After(s: State, steps: seq<Step>): State
    requires Runs(s, steps)
    decreases |steps|
  {
    if steps == [] then s else After(Apply(s, steps[0]), steps[1..])
  }

  // ---------------------------------------------------------------- the invariant

  /** Every row's uid has its object, in the storage of the row's version. */
  ghost predicate Safe(s: State) {
    forall p :: p in s.rows ==> p.id in s.home && ObjectKey(s.home[p.id], s.rows[p]) in s.objects
  }

  ghost predicate AtHome(s: State, key: ObjectKey) {
    key.uid.left in s.home && s.home[key.uid.left] == key.storage
  }

  /** Ids are never reused, and a uid lives in the storage of the version that minted it. */
  ghost predicate Housed(s: State) {
    && (forall id :: id in s.home ==> id < s.nextId)
    && s.versions <= s.home.Keys
    && (forall p :: p in s.rows ==> p.id in s.versions && AtHome(s, ObjectKey(s.home[p.id], s.rows[p])))
    && (forall key :: key in s.deleted ==> AtHome(s, key))
    && (forall key :: key in s.hits ==> AtHome(s, key))
    && (forall key :: key in s.objects ==> AtHome(s, key))
  }

  /** Every version that is written to is locked by its writer, and a clone holds its base's lock. */
  ghost predicate Locked(s: State) {
    && s.clones.Keys !! s.busy && s.clones.Keys + s.busy <= s.locks && s.clones.Keys + s.busy <= s.versions
    && (forall id :: id in s.clones ==>
          var base := s.clones[id];
          base in s.locks && base in s.home && id in s.home
            && s.home[base] == s.home[id] && base !in s.clones && base !in s.busy)
    && (forall a, b :: a in s.clones && b in s.clones && s.clones[a] == s.clones[b] ==> a == b)
    && (forall p :: p in s.buffer ==> p.id in s.clones)
    && (forall p :: Open(s, p) ==> p.id in s.busy)
    && s.pending !! s.queued && s.pending !! s.stored && s.queued !! s.stored
    && (forall p :: p in s.orphans ==> p.id in s.home && p.id !in s.clones && p.id !in s.busy)
    && s.held <= s.locks && s.held <= s.home.Keys && s.held !! s.clones.Keys && s.held !! s.busy
  }

  /** What a clone has read or inserted is still in its base. */
  ghost predicate Held(s: State) {
    && (forall p :: p in s.buffer && p.id in s.clones ==> InBase(s, p, s.buffer[p]))
    && (forall p :: p in s.rows && p.id in s.clones ==> InBase(s, p, s.rows[p]))
  }

  predicate InBase(s: State, p: RowKey, uid: BlockUid)
    requires p.id in s.clones
  {
    var q := RowKey(s.clones[p.id], p.i); q in s.rows && s.rows[q] == uid
  }

  /** Uids still to be minted, or minted without row, are mentioned nowhere. */
  ghost predicate Fresh(s: State) {
    && (forall p :: p in s.rows ==> s.rows[p].left !in s.clones && !Unset(s, s.rows[p]))
    && (forall key :: key in s.deleted ==> key.uid.left !in s.clones && !Unset(s, key.uid))
    && (forall key :: key in s.hits ==> key.uid.left !in s.clones && !Unset(s, key.uid))
    && (forall key :: key in s.objects ==> key.uid.left !in s.clones && !Unstored(s, key.uid))
    && (forall p :: p in s.stored ==> p.id in s.home && ObjectKey(s.home[p.id], Mint(p)) in s.objects)
  }

  /** The uid is still to be set in a row, or belongs to a write that nobody attends to. */
  predicate Unset(s: State, uid: BlockUid) {
    uid.right > 0 && var p := RowKey(uid.left, uid.right - 1); Open(s, p) || p in s.orphans
  }

  predicate Unstored(s: State, uid: BlockUid) {
    uid.right > 0 && var p := RowKey(uid.left, uid.right - 1); p in s.pending || p in s.queued || p in s.orphans
  }

  /** A uid on the hit list is in no row. */
  ghost predicate Doomed(s: State) {
    forall key, p :: key in s.hits && p in s.rows ==> s.rows[p] != key.uid
  }

  ghost predicate Inv(s: State) {
    Safe(s) && Housed(s) && Locked(s) && Held(s) && Fresh(s) && Doomed(s)
  }

  // ---------------------------------------------------------------- each step keeps it

  /** Safe, Housed and Doomed look at the tables and objects only. */
  lemma {:induction false} SameTables(s: State, t: State)
    requires t == s.(locks := t.locks, held := t.held, clones := t.clones, buffer := t.buffer, busy := t.busy,
                     pending := t.pending, queued := t.queued, stored := t.stored, orphans := t.orphans)
    ensures Safe(s) && Housed(s) && Doomed(s) ==> Safe(t) && Housed(t) && Doomed(t)
  {
  }

  /** Locked and Held look at neither objects, candidates nor hits. */
  lemma {:induction false} SameWork(s: State, t: State)
    requires t == s.(objects := t.objects, deleted := t.deleted, hits := t.hits)
    ensures Locked(s) && Held(s) ==> Locked(t) && Held(t)
  {
  }

  /** Rows may be added for a version that is being written, if their uids are stored, set and not doomed. */
  lemma {:induction false} AddRows(s: State, more: map<RowKey, BlockUid>)
    requires Inv(s)
    requires forall p :: p in more ==> p.id in s.clones || p.id in s.busy
    requires forall p :: p in more ==> p.id in s.home && ObjectKey(s.home[p.id], more[p]) in s.objects
    requires forall p :: p in more ==> more[p].left !in s.clones && !Unset(s, more[p])
    requires forall key, p :: key in s.hits && p in more ==> more[p] != key.uid
    requires forall p :: p in more && p.id in s.clones ==> InBase(s, p, more[p])
    ensures Inv(s.(rows := s.rows + more))
  {
    hide Safe, Housed, Doomed, AtHome, Fresh, Unset;
    AddRowsToTables(s, more);
    FreshRows(s, more);
    HeldRows(s, more);
  }

  lemma {:induction false} AddRow(s: State, p: RowKey, uid: BlockUid)
    requires Inv(s) && p.id in s.busy && p.id !in s.clones && p.id in s.home
    requires ObjectKey(s.home[p.id], uid) in s.objects && uid.left !in s.clones && !Unset(s, uid)
    requires forall key :: key in s.hits ==> key.uid != uid
    ensures Inv(s.(rows := s.rows[p := uid]))
  {
    hide Inv, Unset;
    AddRows(s, map[p := uid]);
    assert s.rows + map[p := uid] == s.rows[p := uid];
  }

  lemma {:induction false} HeldRows(s: State, more: map<RowKey, BlockUid>)
    requires Held(s) && Locked(s) && forall p :: p in more ==> p.id in s.clones || p.id in s.busy
    requires forall p :: p in more && p.id in s.clones ==> InBase(s, p, more[p])
    ensures Held(s.(rows := s.rows + more))
  {
  }

  lemma {:induction false} FreshRows(s: State, more: map<RowKey, BlockUid>)
    requires Fresh(s) && forall p :: p in more ==> more[p].left !in s.clones && !Unset(s, more[p])
    ensures Fresh(s.(rows := s.rows + more))
  {
  }

  lemma {:induction false} AddRowsToTables(s: State, more: map<RowKey, BlockUid>)
    requires Safe(s) && Housed(s) && Doomed(s) && s.clones.Keys + s.busy <= s.versions
    requires forall p :: p in more ==> p.id in s.clones || p.id in s.busy
    requires forall p :: p in more ==> p.id in s.home && ObjectKey(s.home[p.id], more[p]) in s.objects
    requires forall key, p :: key in s.hits && p in more ==> more[p] != key.uid
    ensures var t := s.(rows := s.rows + more); Safe(t) && Housed(t) && Doomed(t)
  {
    HousedRows(s, more);
    hide Housed;
  }

  lemma {:induction false} HousedRows(s: State, more: map<RowKey, BlockUid>)
    requires Housed(s) && s.clones.Keys + s.busy <= s.versions
    requires forall p :: p in more ==> p.id in s.clones || p.id in s.busy
    requires forall p :: p in more ==> p.id in s.home && ObjectKey(s.home[p.id], more[p]) in s.objects
    ensures Housed(s.(rows := s.rows + more))
  {
    forall key ensures AtHome(s.(rows := s.rows + more), key) <==> AtHome(s, key) {}
    hide AtHome;
  }

  lemma {:induction false} AddBuffer(s: State, more: map<RowKey, BlockUid>)
    requires Inv(s)
    requires forall p :: p in more ==>
               p.id in s.clones && RowKey(s.clones[p.id], p.i) in s.rows
                 && s.rows[RowKey(s.clones[p.id], p.i)] == more[p]
    ensures Inv(s.(buffer := s.buffer + more))
  {
    hide Safe, Housed, Doomed, Fresh, Locked, Held;
    LockedBuffer(s, more);
    HeldBuffer(s, more);
    SameTables(s, s.(buffer := s.buffer + more));
    FreshBuffer(s, s.buffer + more);
  }

  lemma {:induction false} LockedBuffer(s: State, more: map<RowKey, BlockUid>)
    requires Locked(s) && forall p :: p in more ==> p.id in s.clones
    ensures Locked(s.(buffer := s.buffer + more))
  {
    var t := s.(buffer := s.buffer + more);
    forall p ensures Open(t, p) <==> Open(s, p) {}
    hide Open;
  }

  lemma {:induction false} HeldBuffer(s: State, more: map<RowKey, BlockUid>)
    requires Held(s) && forall p :: p in more ==> p.id in s.clones && InBase(s, p, more[p])
    ensures Held(s.(buffer := s.buffer + more))
  {
    var t := s.(buffer := s.buffer + more);
    forall p: RowKey, uid: BlockUid | p.id in s.clones ensures InBase(t, p, uid) <==> InBase(s, p, uid) {}
    hide InBase;
  }

  lemma {:induction false} FreshBuffer(s: State, buffer: map<RowKey, BlockUid>)
    requires Fresh(s)
    ensures Fresh(s.(buffer := buffer))
  {
  }

  /** Forgetting buffered rows, open blocks, candidates or hits is harmless. */
  lemma {:induction false} Forget(s: State, t: State)
    requires Inv(s)
    requires t == s.(buffer := t.buffer, pending := t.pending, queued := t.queued, stored := t.stored,
                 deleted := t.deleted, hits := t.hits)
    requires t.buffer.Keys <= s.buffer.Keys && forall p :: p in t.buffer ==> t.buffer[p] == s.buffer[p]
    requires t.pending <= s.pending && t.queued <= s.queued && t.stored <= s.stored && t.deleted <= s.deleted
    requires t.hits <= s.hits
    ensures Inv(t)
  {
    ForgetWork(s, t.(deleted := s.deleted, hits := s.hits));
    ForgetKeys(t.(deleted := s.deleted, hits := s.hits), t);
  }

  /** Some buffered rows and open blocks have been forgotten. */
  ghost predicate LessWork(s: State, t: State) {
    && t == s.(buffer := t.buffer, pending := t.pending, queued := t.queued, stored := t.stored)
    && t.buffer.Keys <= s.buffer.Keys && (forall p :: p in t.buffer ==> t.buffer[p] == s.buffer[p])
    && t.pending <= s.pending && t.queued <= s.queued && t.stored <= s.stored
  }

  lemma {:induction false} ForgetWork(s: State, t: State)
    requires Inv(s) && LessWork(s, t)
    ensures Inv(t)
  {
    hide Safe, Housed, Doomed, Fresh, Locked, Held;
    LessLocked(s, t);
    LessHeld(s, t);
    LessFresh(s, t);
    SameTables(s, t);
  }

  lemma {:induction false} LessLocked(s: State, t: State)
    requires Locked(s) && LessWork(s, t)
    ensures Locked(t)
  {
    forall p | Open(t, p) ensures Open(s, p) {}
    hide Open;
  }

  lemma {:induction false} LessHeld(s: State, t: State)
    requires Held(s) && LessWork(s, t)
    ensures Held(t)
  {
  }

  lemma {:induction false} LessFresh(s: State, t: State)
    requires Fresh(s) && LessWork(s, t)
    ensures Fresh(t)
  {
    forall uid ensures (Unset(t, uid) ==> Unset(s, uid)) && (Unstored(t, uid) ==> Unstored(s, uid)) {}
    hide Unset, Unstored;
  }

  lemma {:induction false} ForgetKeys(s: State, t: State)
    requires Inv(s)
    requires t == s.(deleted := t.deleted, hits := t.hits) && t.deleted <= s.deleted && t.hits <= s.hits
    ensures Inv(t)
  {
    hide Locked, Held;
    SameWork(s, t);
  }

  /** Nothing was minted under the id. */
  ghost predicate Unused(s: State, id: VersionId) {
    && (forall p :: p in s.rows ==> s.rows[p].left != id)
    && (forall key :: key in s.deleted ==> key.uid.left != id)
    && (forall key :: key in s.hits ==> key.uid.left != id)
    && (forall key :: key in s.objects ==> key.uid.left != id)
    && (forall p :: p in s.orphans ==> p.id != id)
  }

  /** The version exists and is locked, but nobody writes to it and no clone reads it. */
  ghost predicate Idle(s: State, id: VersionId) {
    && id in s.versions && id in s.locks && id !in s.held && id !in s.clones && id !in s.busy && NotCloned(s, id)
  }

  function WithNewVersion(s: State, storage: StorageId): State {
    s.(nextId := s.nextId + 1, home := s.home[s.nextId := storage], versions := s.versions + {s.nextId},
        locks := s.locks + {s.nextId})
  }

  lemma {:induction false} NewVersionKeeps(s: State, storage: StorageId)
    requires Inv(s)
    ensures var t := WithNewVersion(s, storage); Inv(t) && Idle(t, s.nextId) && Unused(t, s.nextId)
    ensures forall p :: p in s.rows ==> p.id != s.nextId
  {
    hide Fresh, Unused, Locked, Held, Idle;
    NewVersionLocked(s, storage);
    NewIdUnused(s, storage);
  }

  lemma {:induction false} NewVersionLocked(s: State, storage: StorageId)
    requires Locked(s) && Held(s) && Housed(s)
    ensures var t := WithNewVersion(s, storage); Locked(t) && Held(t) && Idle(t, s.nextId)
    ensures forall p :: p in s.orphans ==> p.id in s.home
  {
    hide AtHome;
  }

  lemma {:induction false} NewIdUnused(s: State, storage: StorageId)
    requires Fresh(s) && Housed(s) && forall p :: p in s.orphans ==> p.id in s.home
    ensures var t := WithNewVersion(s, storage); Fresh(t) && Unused(t, s.nextId)
  {
    assert forall p :: p in s.stored ==> p.id in s.home;
  }

  /** Blocks of an unused version may be opened for writing. */
  lemma {:induction false} OpenBlocks(s: State, id: VersionId, blocks: set<nat>)
    requires Inv(s) && Idle(s, id) && Unused(s, id)
    ensures Inv(s.(busy := s.busy + {id}, pending := s.pending + BlocksOf(id, blocks)))
  {
    hide Safe, Housed, Doomed, Fresh;
    var t := s.(busy := s.busy + {id}, pending := s.pending + BlocksOf(id, blocks));
    SameTables(s, t);
    FreshOpen(s, id, blocks);
    LockedOpen(s, id, blocks);
  }

  lemma {:induction false} FreshOpen(s: State, id: VersionId, blocks: set<nat>)
    requires Fresh(s) && Unused(s, id)
    ensures Fresh(s.(busy := s.busy + {id}, pending := s.pending + BlocksOf(id, blocks)))
  {
  }

  lemma {:induction false} LockedOpen(s: State, id: VersionId, blocks: set<nat>)
    requires Locked(s) && Idle(s, id) && forall p :: p in s.orphans ==> p.id != id
    ensures Locked(s.(busy := s.busy + {id}, pending := s.pending + BlocksOf(id, blocks)))
  {
  }

  lemma {:induction false} CreateKeeps(s: State, storage: StorageId, blocks: set<nat>)
    requires Inv(s)
    ensures Inv(Created(s, storage, blocks))
  {
    hide Inv;
    NewVersionKeeps(s, storage);
    OpenBlocks(WithNewVersion(s, storage), s.nextId, blocks);
  }

  lemma {:induction false} CopyFrom(s: State, id: VersionId, base: VersionId)
    requires Inv(s) && Idle(s, id) && Unused(s, id) && id in s.home
    requires base in s.home && base != id && s.home[base] == s.home[id] && (base !in s.locks || base in s.held)
    requires NotCloned(s, base) && base !in s.clones && base !in s.busy
    requires (forall p :: p in s.rows ==> p.id != id) && forall p :: p in s.orphans ==> p.id != id
    ensures Inv(s.(locks := s.locks + {base}, clones := s.clones[id := base]))
  {
    hide Safe, Housed, Doomed, Fresh, Unused, Held, Locked;
    LockedClone(s, id, base);
    HeldClone(s, id, base);
    SameTables(s, s.(locks := s.locks + {base}, clones := s.clones[id := base]));
    FreshClone(s, id, base);
  }

  lemma {:induction false} LockedClone(s: State, id: VersionId, base: VersionId)
    requires Locked(s) && Idle(s, id) && id in s.home && (forall p :: p in s.orphans ==> p.id != id)
    requires base in s.home && base != id && s.home[base] == s.home[id] && NotCloned(s, base)
    requires base !in s.clones && base !in s.busy
    ensures Locked(s.(locks := s.locks + {base}, clones := s.clones[id := base]))
  {
    var t := s.(locks := s.locks + {base}, clones := s.clones[id := base]);
    forall p ensures Open(t, p) <==> Open(s, p) {}
    hide Open;
  }

  lemma {:induction false} HeldClone(s: State, id: VersionId, base: VersionId)
    requires Held(s) && Locked(s) && id !in s.clones && forall p :: p in s.rows ==> p.id != id
    ensures Held(s.(locks := s.locks + {base}, clones := s.clones[id := base]))
  {
  }

  lemma {:induction false} FreshClone(s: State, id: VersionId, base: VersionId)
    requires Fresh(s) && Unused(s, id)
    ensures Fresh(s.(locks := s.locks + {base}, clones := s.clones[id := base]))
  {
  }

  /** A version that nobody has locked, or a session, is neither written to nor cloned. */
  lemma {:induction false} BaseIsFree(s: State, base: VersionId)
    requires Inv(s) && base in s.home && (base !in s.locks || (base in s.held && NotCloned(s, base)))
    ensures base != s.nextId && base !in s.clones && base !in s.busy && NotCloned(s, base)
  {
    hide Safe, Held, Fresh, Doomed;
  }

  lemma {:induction false} BeginCloneKeeps(s: State, base: VersionId)
    requires Inv(s) && base in s.home && (base !in s.locks || (base in s.held && NotCloned(s, base)))
    ensures Inv(CloneBegun(s, base))
  {
    hide Inv, Idle;
    var t := WithNewVersion(s, s.home[base]);
    BaseIsFree(s, base);
    NewVersionKeeps(s, s.home[base]);
    CopyFrom(t, s.nextId, base);
    assert t.locks + {base} == s.locks + {s.nextId, base};
  }

  /** Locks of others do not matter to any other part of the invariant. */
  lemma {:induction false} LockKeeps(s: State, id: VersionId)
    requires Inv(s) && id in s.home && id !in s.locks
    ensures Inv(s.(locks := s.locks + {id}, held := s.held + {id}))
  {
    hide Safe, Housed, Doomed, Fresh, Held;
    var t := s.(locks := s.locks + {id}, held := s.held + {id});
    SameTables(s, t);
    SameFreshHeld(s, t);
  }

  lemma {:induction false} UnlockKeeps(s: State, id: VersionId)
    requires Inv(s) && id in s.held && NotCloned(s, id)
    ensures Inv(s.(locks := s.locks - {id}, held := s.held - {id}))
  {
    hide Safe, Housed, Doomed, Fresh, Held;
    var t := s.(locks := s.locks - {id}, held := s.held - {id});
    SameTables(s, t);
    SameFreshHeld(s, t);
  }

  lemma {:induction false} SameFreshHeld(s: State, t: State)
    requires Fresh(s) && Held(s) && t == s.(locks := t.locks, held := t.held)
    ensures Fresh(t) && Held(t)
  {
  }

  lemma {:induction false} CloneReadKeeps(s: State, id: VersionId, window: set<nat>)
    requires Inv(s) && id in s.clones
    ensures Inv(WindowRead(s, id, window))
  {
    var base := s.clones[id];
    AddBuffer(s, map p | p in BlocksOf(id, window) && RowKey(base, p.i) in s.rows :: s.rows[RowKey(base, p.i)]);
  }

  lemma {:induction false} CloneInsertKeeps(s: State, id: VersionId, keep: set<nat>)
    requires Inv(s) && id in s.clones
    ensures Inv(Inserted(s, id, keep))
  {
    var more := map p | p in s.buffer && p.id == id && p.i in keep :: s.buffer[p];
    forall p | p in more
      ensures p.id in s.home && ObjectKey(s.home[p.id], more[p]) in s.objects
      ensures more[p].left !in s.clones && !Unset(s, more[p]) && forall key :: key in s.hits ==> more[p] != key.uid
    {
      var q := RowKey(s.clones[id], p.i);
      assert q in s.rows && s.rows[q] == more[p];
    }
    AddRows(s, more);
    Forget(s.(rows := s.rows + more), Inserted(s, id, keep));
  }

  lemma {:induction false} StopCopying(s: State, id: VersionId)
    requires Inv(s) && id in s.clones && forall p :: p in s.buffer ==> p.id != id
    ensures var t := s.(locks := WithoutBase(s, s.clones[id]), clones := s.clones - {id});
            Inv(t) && Idle(t, id) && Unused(t, id)
  {
    hide Safe, Housed, Doomed, Fresh, Unused, Locked, Held, Idle;
    LockedStop(s, id);
    HeldStop(s, id);
    SameTables(s, s.(locks := WithoutBase(s, s.clones[id]), clones := s.clones - {id}));
    FreshStop(s, id);
  }

  lemma {:induction false} LockedStop(s: State, id: VersionId)
    requires Locked(s) && id in s.clones && forall p :: p in s.buffer ==> p.id != id
    ensures var t := s.(locks := WithoutBase(s, s.clones[id]), clones := s.clones - {id}); Locked(t) && Idle(t, id)
  {
  }

  lemma {:induction false} HeldStop(s: State, id: VersionId)
    requires Held(s) && id in s.clones
    ensures Held(s.(locks := WithoutBase(s, s.clones[id]), clones := s.clones - {id}))
  {
  }

  lemma {:induction false} FreshStop(s: State, id: VersionId)
    requires Fresh(s) && Locked(s) && id in s.clones
    ensures var t := s.(locks := WithoutBase(s, s.clones[id]), clones := s.clones - {id}); Fresh(t) && Unused(t, id)
  {
  }

  lemma {:induction false} EndCloneKeeps(s: State, id: VersionId, blocks: set<nat>)
    requires Inv(s) && id in s.clones && forall p :: p in s.buffer ==> p.id != id
    ensures Inv(CloneEnded(s, id, blocks))
  {
    hide Inv;
    StopCopying(s, id);
    OpenBlocks(s.(locks := WithoutBase(s, s.clones[id]), clones := s.clones - {id}), id, blocks);
  }

  lemma {:induction false} DropRow(s: State, p: RowKey)
    requires Safe(s) && Housed(s) && Doomed(s)
    ensures var t := s.(rows := s.rows - {p}); Safe(t) && Housed(t) && Doomed(t)
  {
  }

  lemma {:induction false} FreshWithoutRow(s: State, p: RowKey)
    requires Fresh(s)
    ensures Fresh(s.(rows := s.rows - {p}))
  {
  }

  lemma {:induction false} OpenIsBusy(s: State, p: RowKey)
    requires Locked(s) && p in s.pending
    ensures p.id in s.busy && p.id !in s.clones
  {
    assert Open(s, p);
  }

  lemma {:induction false} HeldWithoutRow(s: State, p: RowKey)
    requires Held(s) && Locked(s) && p.id in s.busy
    ensures Held(s.(rows := s.rows - {p}))
  {
    hide Open;
  }

  lemma {:induction false} LockedWithoutRow(s: State, p: RowKey)
    requires Locked(s)
    ensures Locked(s.(rows := s.rows - {p}))
  {
  }

  lemma {:induction false} SparseKeeps(s: State, p: RowKey)
    requires Inv(s) && p in s.pending
    ensures Inv(s.(rows := s.rows - {p}, pending := s.pending - {p}))
  {
    hide Safe, Housed, Doomed, Fresh, Locked, Held;
    OpenIsBusy(s, p);
    HeldWithoutRow(s, p);
    DropRow(s, p);
    FreshWithoutRow(s, p);
    LockedWithoutRow(s, p);
    Forget(s.(rows := s.rows - {p}), s.(rows := s.rows - {p}, pending := s.pending - {p}));
  }

  lemma {:induction false} ExistingRow(s: State, p: RowKey, existing: RowKey)
    requires Inv(s) && p in s.pending && existing in s.rows
    requires p.id in s.home && existing.id in s.home && s.home[existing.id] == s.home[p.id]
    ensures p.id in s.busy && p.id !in s.clones && ObjectKey(s.home[p.id], s.rows[existing]) in s.objects
    ensures s.rows[existing].left !in s.clones && !Unset(s, s.rows[existing])
    ensures forall key :: key in s.hits ==> key.uid != s.rows[existing]
  {
    hide Held, Housed, Unset, Unstored;
    assert Open(s, p);
  }

  lemma {:induction false} DeduplicateKeeps(s: State, p: RowKey, existing: RowKey)
    requires Inv(s) && p in s.pending && existing in s.rows
    requires p.id in s.home && existing.id in s.home && s.home[existing.id] == s.home[p.id]
    ensures Inv(s.(rows := s.rows[p := s.rows[existing]], pending := s.pending - {p}))
  {
    ExistingRow(s, p, existing);
    hide Inv, Unset;
    AddRow(s, p, s.rows[existing]);
    var t := s.(rows := s.rows[p := s.rows[existing]]);
    Forget(t, t.(pending := t.pending - {p}));
  }

  lemma {:induction false} QueueKeeps(s: State, p: RowKey)
    requires Inv(s) && p in s.pending
    ensures Inv(s.(pending := s.pending - {p}, queued := s.queued + {p}))
  {
    hide Safe, Housed, Doomed, Fresh;
    SameTables(s, s.(pending := s.pending - {p}, queued := s.queued + {p}));
    FreshQueue(s, p);
  }

  lemma {:induction false} FreshQueue(s: State, p: RowKey)
    requires Fresh(s) && p in s.pending
    ensures Fresh(s.(pending := s.pending - {p}, queued := s.queued + {p}))
  {
  }

  lemma {:induction false} StoreKeeps(s: State, p: RowKey, data: Bytes)
    requires Inv(s) && p in s.queued && p.id in s.home
    ensures var key := ObjectKey(s.home[p.id], Mint(p));
            Inv(s.(objects := s.objects[key := data], queued := s.queued - {p}, stored := s.stored + {p}))
  {
    hide Fresh;
    assert Open(s, p) && p.id !in s.clones;
    FreshStore(s, p, data);
  }

  lemma {:induction false} FreshStore(s: State, p: RowKey, data: Bytes)
    requires Fresh(s) && p in s.queued && p.id in s.home && p.id !in s.clones
    requires s.pending !! s.queued && s.queued !! s.stored && p !in s.orphans
    ensures var key := ObjectKey(s.home[p.id], Mint(p));
            Fresh(s.(objects := s.objects[key := data], queued := s.queued - {p}, stored := s.stored + {p}))
  {
  }

  lemma {:induction false} MintedRow(s: State, p: RowKey)
    requires Inv(s) && p in s.stored
    ensures p.id in s.busy && p.id in s.home && ObjectKey(s.home[p.id], Mint(p)) in s.objects && p.id !in s.clones
    ensures !Unset(s.(stored := s.stored - {p}), Mint(p)) && forall key :: key in s.hits ==> key.uid != Mint(p)
  {
    assert Open(s, p) && Unset(s, Mint(p));
  }

  lemma {:induction false} SetRowKeeps(s: State, p: RowKey)
    requires Inv(s) && p in s.stored
    ensures Inv(s.(rows := s.rows[p := Mint(p)], stored := s.stored - {p}))
  {
    hide Inv;
    var t := s.(stored := s.stored - {p});
    MintedRow(s, p);
    Forget(s, t);
    hide Unset;
    AddRow(t, p, Mint(p));
  }

  /** The object of a block whose row cannot be set is removed again. */
  lemma {:induction false} TakeBackKeeps(s: State, p: RowKey)
    requires Inv(s) && p in s.stored && p.id in s.home
    ensures Inv(s.(objects := s.objects - {ObjectKey(s.home[p.id], Mint(p))}, stored := s.stored - {p}))
  {
    hide Inv;
    var t := s.(stored := s.stored - {p});
    StoredUnmentioned(s, p);
    Forget(s, t);
    DropObject(t, ObjectKey(s.home[p.id], Mint(p)));
  }

  lemma {:induction false} StoredUnmentioned(s: State, p: RowKey)
    requires Inv(s) && p in s.stored
    ensures forall q :: q in s.rows ==> s.rows[q] != Mint(p)
    ensures forall q :: q in s.stored - {p} ==> Mint(q) != Mint(p)
  {
    hide Safe, Housed, Held, Doomed;
    assert Open(s, p) && Unset(s, Mint(p));
  }

  lemma {:induction false} DropObject(s: State, key: ObjectKey)
    requires Inv(s) && forall q :: q in s.rows ==> s.rows[q] != key.uid
    requires forall q :: q in s.stored ==> Mint(q) != key.uid
    ensures Inv(s.(objects := s.objects - {key}))
  {
    hide Locked, Held, Fresh, Housed;
    SameWork(s, s.(objects := s.objects - {key}));
    FreshDrop(s, key);
    HousedDrop(s, key);
  }

  lemma {:induction false} FreshDrop(s: State, key: ObjectKey)
    requires Fresh(s) && forall q :: q in s.stored ==> Mint(q) != key.uid
    ensures Fresh(s.(objects := s.objects - {key}))
  {
    hide Unset, Unstored;
    forall uid ensures Unset(s.(objects := s.objects - {key}), uid) <==> Unset(s, uid) {
      SameOpen(s, key, uid);
    }
    forall uid ensures Unstored(s.(objects := s.objects - {key}), uid) <==> Unstored(s, uid) {
      SameOpen(s, key, uid);
    }
  }

  lemma {:induction false} SameOpen(s: State, key: ObjectKey, uid: BlockUid)
    ensures Unset(s.(objects := s.objects - {key}), uid) <==> Unset(s, uid)
    ensures Unstored(s.(objects := s.objects - {key}), uid) <==> Unstored(s, uid)
  {
  }

  lemma {:induction false} HousedDrop(s: State, key: ObjectKey)
    requires Housed(s)
    ensures Housed(s.(objects := s.objects - {key}))
  {
  }

  /** A backup ends, or gives up with writes in flight. */
  lemma {:induction false} ReleaseKeeps(s: State, id: VersionId)
    requires Inv(s) && id in s.busy
    ensures Inv(Released(s, id))
  {
    hide Safe, Housed, Doomed, Fresh;
    SameTables(s, Released(s, id));
    FreshRelease(s, id);
  }

  lemma {:induction false} FreshRelease(s: State, id: VersionId)
    requires Fresh(s)
    ensures Fresh(Released(s, id))
  {
  }

  lemma {:induction false} LandKeeps(s: State, p: RowKey, data: Bytes)
    requires Inv(s) && p in s.orphans && p.id in s.home
    ensures Inv(s.(objects := s.objects[ObjectKey(s.home[p.id], Mint(p)) := data], orphans := s.orphans - {p}))
  {
    hide Fresh, Doomed;
    FreshLand(s, p, data);
  }

  lemma {:induction false} FreshLand(s: State, p: RowKey, data: Bytes)
    requires Fresh(s) && Locked(s) && Doomed(s) && p in s.orphans && p.id in s.home
    ensures var t := s.(objects := s.objects[ObjectKey(s.home[p.id], Mint(p)) := data], orphans := s.orphans - {p});
            Fresh(t) && Doomed(t)
  {
    assert !Open(s, p);
  }

  lemma {:induction false} AbortCloneKeeps(s: State, id: VersionId)
    requires Inv(s) && id in s.clones
    ensures Inv(CloneAborted(s, id))
  {
    hide Inv;
    var t := s.(buffer := map p | p in s.buffer && p.id != id :: s.buffer[p]);
    Forget(s, t);
    StopCopying(t, id);
    UnlockIdle(t.(locks := WithoutBase(t, t.clones[id]), clones := t.clones - {id}), id);
  }

  /** A version that nobody writes to and no clone reads may be unlocked. */
  lemma {:induction false} UnlockIdle(s: State, id: VersionId)
    requires Inv(s) && Idle(s, id)
    ensures Inv(s.(locks := s.locks - {id}))
  {
    hide Safe, Housed, Doomed, Fresh;
    SameTables(s, s.(locks := s.locks - {id}));
    SameFreshHeld(s, s.(locks := s.locks - {id}));
  }

  lemma {:induction false} RemoveFromTables(s: State, id: VersionId)
    requires Safe(s) && Housed(s) && Doomed(s) && id in s.home
    ensures var t := WithoutVersion(s, id); Safe(t) && Housed(t) && Doomed(t)
  {
  }

  lemma {:induction false} RemoveKeeps(s: State, id: VersionId)
    requires Inv(s) && id in s.versions && id in s.home && id !in s.locks
    ensures Inv(WithoutVersion(s, id))
  {
    hide Safe, Housed, Doomed, Fresh, Candidates;
    RemoveFromTables(s, id);
    FreshRemove(s, id);
  }

  lemma {:induction false} FreshRemove(s: State, id: VersionId)
    requires Fresh(s) && id in s.home
    ensures Fresh(WithoutVersion(s, id))
  {
  }

  lemma {:induction false} RemoveOwnKeeps(s: State, id: VersionId)
    requires Inv(s) && id in s.busy && id in s.home && forall p :: p in s.queued + s.stored ==> p.id != id
    ensures Inv(Released(WithoutVersion(s, id), id))
  {
    ReleaseKeeps(s, id);
    RemoveKeeps(Released(s, id), id);
    assert Released(WithoutVersion(s, id), id) == WithoutVersion(Released(s, id), id);
  }

  lemma {:induction false} AddHit(s: State, key: ObjectKey)
    requires Inv(s) && key in s.deleted && !Referenced(s, key.uid)
    ensures Inv(s.(hits := s.hits + {key}))
  {
    hide Locked, Held, Housed, Fresh, Unset, Unstored, AtHome;
    SameWork(s, s.(hits := s.hits + {key}));
    HousedHit(s, key);
    FreshHit(s, key);
  }

  lemma {:induction false} HousedHit(s: State, key: ObjectKey)
    requires Housed(s) && key in s.deleted
    ensures Housed(s.(hits := s.hits + {key}))
  {
  }

  lemma {:induction false} FreshHit(s: State, key: ObjectKey)
    requires Fresh(s) && key in s.deleted
    ensures Fresh(s.(hits := s.hits + {key}))
  {
  }

  lemma {:induction false} CheckKeeps(s: State, key: ObjectKey)
    requires Inv(s) && key in s.deleted
    ensures Inv(Checked(s, key))
  {
    if Referenced(s, key.uid) {
      Forget(s, Checked(s, key));
    } else {
      AddHit(s, key);
      Forget(s.(hits := s.hits + {key}), Checked(s, key));
    }
  }

  lemma {:induction false} DeleteKeeps(s: State, key: ObjectKey)
    requires Inv(s) && key in s.hits
    ensures Inv(s.(objects := s.objects - {key}, hits := s.hits - {key}))
  {
    hide Inv;
    NotReferencedHit(s, key);
    Forget(s, s.(hits := s.hits - {key}));
    DropObject(s.(hits := s.hits - {key}), key);
  }

  lemma {:induction false} NotReferencedHit(s: State, key: ObjectKey)
    requires Inv(s) && key in s.hits
    ensures (forall q :: q in s.rows ==> s.rows[q] != key.uid) && forall q :: q in s.stored ==> Mint(q) != key.uid
  {
    hide Safe, Housed, Locked, Held;
    forall q | q in s.stored ensures Mint(q) != key.uid {
      assert Open(s, q) && Unset(s, Mint(q));
    }
  }

  /** Steps that create, lock or clone a version. */
  predicate Prepares(step: Step) {
    step.Create? || step.Lock? || step.Unlock? || step.BeginClone? || step.BeginCow? || step.CloneRead?
    || step.CloneInsert? || step.EndClone? || step.AbortClone?
  }

  lemma {:induction false} PrepareKeeps(s: State, step: Step)
    requires Inv(s) && Enabled(s, step) && Prepares(step)
    ensures Inv(Apply(s, step))
  {
    hide Inv, Created, CloneBegun, WindowRead, Inserted, CloneEnded, CloneAborted, Released, WithoutVersion, Checked,
      NotCloned, Open, Referenced, Mint;
    match step
    case Create(storage, blocks) => CreateKeeps(s, storage, blocks);
    case Lock(id) => LockKeeps(s, id);
    case Unlock(id) => UnlockKeeps(s, id);
    case BeginClone(base) => BeginCloneKeeps(s, base);
    case BeginCow(base) => BeginCloneKeeps(s, base);
    case CloneRead(id, window) => CloneReadKeeps(s, id, window);
    case CloneInsert(id, keep) => CloneInsertKeeps(s, id, keep);
    case EndClone(id, blocks) => EndCloneKeeps(s, id, blocks);
    case AbortClone(id) => AbortCloneKeeps(s, id);
  }

  lemma {:induction false} OtherKeeps(s: State, step: Step)
    requires Inv(s) && Enabled(s, step) && !Prepares(step)
    ensures Inv(Apply(s, step))
  {
    hide Inv, Created, CloneBegun, WindowRead, Inserted, CloneEnded, CloneAborted, Released, WithoutVersion, Checked,
      NotCloned, Open, Referenced, Mint;
    match step
    case Sparse(p) => SparseKeeps(s, p);
    case Deduplicate(p, existing) => DeduplicateKeeps(s, p, existing);
    case Queue(p) => QueueKeeps(s, p);
    case Store(p, data) => StoreKeeps(s, p, data);
    case SetRow(p) => SetRowKeeps(s, p);
    case TakeBack(p) => TakeBackKeeps(s, p);
    case Finish(id) => ReleaseKeeps(s, id);
    case Abort(id) => ReleaseKeeps(s, id);
    case Land(p, data) => LandKeeps(s, p, data);
    case Remove(id) => RemoveKeeps(s, id);
    case RemoveOwn(id) => RemoveOwnKeeps(s, id);
    case Check(key) => CheckKeeps(s, key);
    case Delete(key) => DeleteKeeps(s, key);
  }

  /** Every step keeps the invariant. */
  lemma {:induction false} StepKeeps(s: State, step: Step)
    requires Inv(s) && Enabled(s, step)
    ensures Inv(Apply(s, step))
  {
    hide Inv, Enabled, Apply;
    if Prepares(step) { PrepareKeeps(s, step); } else { OtherKeeps(s, step); }
  }

  lemma {:induction false} RunKeeps(s: State, steps: seq<Step>)
    requires Inv(s) && Runs(s, steps)
    ensures Inv(After(s, steps))
    decreases |steps|
  {
    hide Inv, Apply, Enabled;
    if steps != [] {
      StepKeeps(s, steps[0]);
      RunKeeps(Apply(s, steps[0]), steps[1..]);
    }
  }

  /** In every run, whatever the interleaving, no row ever references a missing object. */
  lemma {:induction false} NoDanglingReference(steps: seq<Step>)
    requires Runs(EMPTY, steps)
    ensures Safe(After(EMPTY, steps))
  {
    assert Inv(EMPTY);
    RunKeeps(EMPTY, steps);
  }

  // ---------------------------------------------------------------- unreferenced for good

  /** Minted before, set or given up, and referenced by no row. */
  ghost predicate Dead(s: State, uid: BlockUid) {
    uid.left in s.home && uid.left !in s.clones && !Unset(s, uid) && !Referenced(s, uid)
  }

  /** The rows after a step. */
  lemma {:induction false} RowsFollow(s: State, step: Step)
    requires Enabled(s, step)
    ensures var rows := Apply(s, step).rows;
            match step
            case CloneInsert(id, keep) => rows == Inserted(s, id, keep).rows
            case Sparse(p) => rows == s.rows - {p}
            case Deduplicate(p, existing) => rows == s.rows[p := s.rows[existing]]
            case SetRow(p) => rows == s.rows[p := Mint(p)]
            case Remove(id) => rows == WithoutVersion(s, id).rows
            case RemoveOwn(id) => rows == WithoutVersion(s, id).rows
            case _ => rows == s.rows
  {
    hide Mint, Open, Referenced, NotCloned, Created, CloneBegun, WindowRead, Inserted, CloneEnded, CloneAborted,
      Released, WithoutVersion, Checked;
  }

  /** Rows change by setting a minted uid, inserting a cloned row, or copying another row. */
  lemma {:induction false} RowChange(s: State, step: Step, q: RowKey)
    requires Enabled(s, step) && q in Apply(s, step).rows
    ensures var uid := Apply(s, step).rows[q];
            || (q in s.rows && s.rows[q] == uid)
            || (step == SetRow(q) && uid == Mint(q))
            || (step.CloneInsert? && q in s.buffer && q.id == step.id && s.buffer[q] == uid)
            || (step.Deduplicate? && step.p == q && s.rows[step.existing] == uid)
  {
    RowsFollow(s, step);
    hide Apply, Candidates, Others, Open;
  }

  /** Each row after a step holds a uid that a row held before, or one that was stored to be set. */
  lemma {:induction false} RowOrigin(s: State, step: Step, q: RowKey)
    requires Inv(s) && Enabled(s, step) && q in Apply(s, step).rows
    ensures Referenced(s, Apply(s, step).rows[q]) || Unset(s, Apply(s, step).rows[q])
  {
    hide Safe, Housed, Locked, Fresh, Doomed, Apply;
    RowChange(s, step, q);
    if step == SetRow(q) {
      assert Open(s, q);
    } else if step.CloneInsert? && q in s.buffer && q.id == step.id {
      assert InBase(s, q, s.buffer[q]);
    }
  }

  /** Blocks are opened only for a new version, or one whose clone ends. */
  lemma {:induction false} OpenOrigin(s: State, step: Step, q: RowKey)
    requires Enabled(s, step)
    ensures var t := Apply(s, step);
            && (Open(t, q) ==> Open(s, q) || q.id == s.nextId || q.id in s.clones)
            && (q in t.orphans ==> Open(s, q) || q in s.orphans)
  {
    hide Referenced, Mint, NotCloned, WindowRead, Inserted, CloneBegun, CloneAborted, WithoutVersion, Checked;
  }

  lemma {:induction false} HomeOrigin(s: State, step: Step, id: VersionId)
    requires Enabled(s, step) && id in s.home && id !in s.clones && id != s.nextId
    ensures id in Apply(s, step).home && id !in Apply(s, step).clones
  {
    HomeFollows(s, step);
    hide Apply;
  }

  lemma {:induction false} HomeFollows(s: State, step: Step)
    requires Enabled(s, step)
    ensures var t := Apply(s, step);
            match step
            case Create(storage, _) => t.home == s.home[s.nextId := storage] && t.clones == s.clones
            case BeginClone(base) =>
              t.home == s.home[s.nextId := s.home[base]] && t.clones == s.clones[s.nextId := base]
            case BeginCow(base) =>
              t.home == s.home[s.nextId := s.home[base]] && t.clones == s.clones[s.nextId := base]
            case EndClone(id, _) => t.home == s.home && t.clones == s.clones - {id}
            case AbortClone(id) => t.home == s.home && t.clones == s.clones - {id}
            case _ => t.home == s.home && t.clones == s.clones
  {
    hide Referenced, BlocksOf, Open, Mint, NotCloned, WindowRead, Inserted, Released, WithoutVersion, Checked;
  }

  /** A uid becomes mintable only under a new id or one whose clone ends. */
  lemma {:induction false} MintOrigin(s: State, step: Step, uid: BlockUid)
    requires Housed(s) && Enabled(s, step) && uid.left in s.home && uid.left !in s.clones && !Unset(s, uid)
    ensures var t := Apply(s, step); uid.left in t.home && uid.left !in t.clones && !Unset(t, uid)
  {
    hide Apply, Enabled, AtHome, Open;
    HomeOrigin(s, step, uid.left);
    if uid.right > 0 {
      OpenOrigin(s, step, RowKey(uid.left, uid.right - 1));
    }
  }

  /** A dead uid is never referenced again: uids are only copied from rows or newly minted. */
  lemma {:induction false} StaysDead(s: State, step: Step, uid: BlockUid)
    requires Inv(s) && Enabled(s, step) && Dead(s, uid)
    ensures Dead(Apply(s, step), uid)
  {
    hide Safe, Housed, Locked, Held, Fresh, Doomed, Apply, Enabled, Unset;
    MintOrigin(s, step, uid);
    if Referenced(Apply(s, step), uid) {
      var q :| q in Apply(s, step).rows && Apply(s, step).rows[q] == uid;
      RowOrigin(s, step, q);
    }
  }

  /** In every run: a uid that is unreferenced and not still to be set stays unreferenced for good. */
  lemma {:induction false} DeadForever(s: State, steps: seq<Step>, uid: BlockUid)
    requires Inv(s) && Runs(s, steps) && Dead(s, uid)
    ensures Dead(After(s, steps), uid)
    decreases |steps|
  {
    hide Inv, Apply, Enabled, Dead;
    if steps != [] {
      StepKeeps(s, steps[0]);
      StaysDead(s, steps[0], uid);
      DeadForever(Apply(s, steps[0]), steps[1..], uid);
    }
  }

  /** What a clean-up has put on its hit list is dead, so deleting it later is safe. */
  lemma {:induction false} HitsAreDead(s: State, key: ObjectKey)
    requires Inv(s) && key in s.hits
    ensures Dead(s, key.uid) && AtHome(s, key)
  {
  }

  predicate ByWrite(step: Step) {
    step.Store? || step.Land? || step.TakeBack?
  }

  /** A referenced object is neither deleted nor rewritten by any step. */
  lemma {:induction false} ReferencedObjectKept(s: State, step: Step, p: RowKey)
    requires Inv(s) && Enabled(s, step) && p in s.rows
    ensures p.id in s.home
    ensures var key := ObjectKey(s.home[p.id], s.rows[p]);
            key in s.objects && key in Apply(s, step).objects && Apply(s, step).objects[key] == s.objects[key]
  {
    ObjectOfRow(s, p);
    var key := ObjectKey(s.home[p.id], s.rows[p]);
    if ByWrite(step) {
      WriteIsNew(s, step, key);
    }
    hide Inv, Apply, Enabled;
    ObjectChange(s, step, key);
  }

  lemma {:induction false} ObjectOfRow(s: State, p: RowKey)
    requires Inv(s) && p in s.rows
    ensures p.id in s.home
    ensures var key := ObjectKey(s.home[p.id], s.rows[p]);
            key in s.objects && key !in s.hits && !Unset(s, key.uid) && !Unstored(s, key.uid)
  {
    hide Locked, Held, AtHome, Unset, Unstored;
  }

  /** Neither a write that completes nor one that is taken back is that of an object whose uid is set. */
  lemma {:induction false} WriteIsNew(s: State, step: Step, key: ObjectKey)
    requires Enabled(s, step) && ByWrite(step) && !Unset(s, key.uid)
    ensures Mint(step.p) != key.uid
  {
    hide Referenced, NotCloned;
  }

  /** The objects after a step. */
  lemma {:induction false} ObjectsFollow(s: State, step: Step)
    requires Enabled(s, step)
    ensures var objects := Apply(s, step).objects;
            match step
            case Store(p, data) => objects == s.objects[ObjectKey(s.home[p.id], Mint(p)) := data]
            case Land(p, data) => objects == s.objects[ObjectKey(s.home[p.id], Mint(p)) := data]
            case TakeBack(p) => objects == s.objects - {ObjectKey(s.home[p.id], Mint(p))}
            case Delete(key) => objects == s.objects - {key}
            case _ => objects == s.objects
    ensures step.Store? ==> step.p in Apply(s, step).stored
  {
    hide Mint, Open, Referenced, NotCloned, Created, CloneBegun, WindowRead, Inserted, CloneEnded, CloneAborted,
      Released, WithoutVersion, Checked;
  }

  /** Objects appear when a write completes, attended or not, and disappear by deleting a hit or taking a write back. */
  lemma {:induction false} ObjectChange(s: State, step: Step, key: ObjectKey)
    requires Enabled(s, step)
    ensures key in s.objects && step != Delete(key) && !(ByWrite(step) && Mint(step.p) == key.uid) ==>
              key in Apply(s, step).objects && Apply(s, step).objects[key] == s.objects[key]
    ensures key in Apply(s, step).objects && key !in s.objects ==>
              && (step.Store? || step.Land?) && Mint(step.p) == key.uid
              && (step.Store? ==> step.p in Apply(s, step).stored)
    ensures step.TakeBack? && step.p.id in s.home && key == ObjectKey(s.home[step.p.id], Mint(step.p)) ==>
              key !in Apply(s, step).objects
  {
    ObjectsFollow(s, step);
    hide Apply, Mint;
  }
}
