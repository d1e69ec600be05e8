/** Storage usage of a selection of versions, for one storage. */
module Usage {
  import opened Images
  import opened Tables
  import opened Backup

  type Versions = map<VersionId, Version>

  // ---------------------------------------------------------------- sums over sets

  ghost function Sum<T(!new)>(s: set<T>, f: T -> nat): nat {
    if s == {} then 0 else var x :| x in s; f(x) + Sum(s - {x}, f)
  }

  lemma {:induction false} SumPick<T(!new)>(s: set<T>, x: T, f: T -> nat)
    requires x in s
    ensures Sum(s, f) == f(x) + Sum(s - {x}, f)
  {
    var y :| y in s && Sum(s, f) == f(y) + Sum(s - {y}, f);
    if y != x {
      SumPick(s - {y}, x, f);
      SumPick(s - {x}, y, f);
      assert s - {x} - {y} == s - {y} - {x};
    }
  }

  lemma {:induction false} SumAdd<T(!new)>(s: set<T>, x: T, f: T -> nat)
    requires x !in s
    ensures Sum(s + {x}, f) == Sum(s, f) + f(x)
  {
    SumPick(s + {x}, x, f);
    assert s + {x} - {x} == s;
  }

  lemma {:induction false} SumUnion<T(!new)>(a: set<T>, b: set<T>, f: T -> nat)
    requires a !! b
    ensures Sum(a + b, f) == Sum(a, f) + Sum(b, f)
  {
    if b == {} {
      assert a + b == a;
    } else {
      var x :| x in b;
      SumUnion(a, b - {x}, f);
      SumPick(b, x, f);
      SumPick(a + b, x, f);
      assert a + b - {x} == a + (b - {x});
    }
  }

  lemma {:induction false} SumConstant<T(!new)>(s: set<T>, f: T -> nat, c: nat)
    requires forall x :: x in s ==> f(x) == c
    ensures Sum(s, f) == c * |s|
  {
    if s != {} {
      var x :| x in s;
      SumPick(s, x, f);
      SumConstant(s - {x}, f, c);
      assert |s| == |s - {x}| + 1;
    }
  }

  lemma {:induction false} SumSplit<T(!new)>(s: set<T>, f: T -> nat, g: T -> nat, h: T -> nat)
    requires forall x :: x in s ==> h(x) == f(x) + g(x)
    ensures Sum(s, h) == Sum(s, f) + Sum(s, g)
  {
    if s != {} {
      var x :| x in s;
      SumPick(s, x, f);
      SumPick(s, x, g);
      SumPick(s, x, h);
      SumSplit(s - {x}, f, g, h);
    }
  }

  // ---------------------------------------------------------------- references

  /** A row that references a uid. */
  datatype Ref = Ref(id: VersionId, i: nat)

  predicate IsRef(versions: Versions, storage: StorageId, r: Ref) {
    && r.id in versions && versions[r.id].storage == storage
    && r.i in versions[r.id].rows && versions[r.id].rows[r.i].uid.Some?
  }

  function Refs(versions: Versions, ids: set<VersionId>, storage: StorageId): set<Ref> {
    set id, i | id in ids && id in versions && i in versions[id].rows
      && IsRef(versions, storage, Ref(id, i)) :: Ref(id, i)
  }

  function UidAt(versions: Versions, r: Ref): Option<BlockUid> {
    if r.id in versions && r.i in versions[r.id].rows then versions[r.id].rows[r.i].uid else None
  }

  /** The rows of some versions that reference a uid. */
  function RefsTo(versions: Versions, ids: set<VersionId>, storage: StorageId, uid: BlockUid): set<Ref> {
    set r | r in Refs(versions, ids, storage) && UidAt(versions, r) == Some(uid)
  }

  function Uids(versions: Versions, ids: set<VersionId>, storage: StorageId): set<BlockUid> {
    set r | r in Refs(versions, ids, storage) && UidAt(versions, r).Some? :: UidAt(versions, r).value
  }

  /** The uids that nothing in the storage references any more once the versions are removed. */
  ghost function Freed(versions: Versions, ids: set<VersionId>, storage: StorageId): set<BlockUid> {
    Uids(versions, versions.Keys, storage) - Uids(versions - ids, (versions - ids).Keys, storage)
  }

  lemma {:induction false} RefIn(versions: Versions, ids: set<VersionId>, storage: StorageId, r: Ref)
    ensures r in Refs(versions, ids, storage) <==> r.id in ids && IsRef(versions, storage, r)
  {
  }

  /** All references to a uid are selected exactly when as many are selected as there are. */
  lemma {:induction false} CountsDecide(versions: Versions, ids: set<VersionId>, storage: StorageId, uid: BlockUid)
    requires uid in Uids(versions, ids, storage) && ids <= versions.Keys
    ensures |RefsTo(versions, ids, storage, uid)| == |RefsTo(versions, versions.Keys, storage, uid)| <==>
            uid in Freed(versions, ids, storage)
  {
    hide IsRef;
    var some, all := RefsTo(versions, ids, storage, uid), RefsTo(versions, versions.Keys, storage, uid);
    forall r ensures r in some <==> r in all && r.id in ids {
      RefIn(versions, ids, storage, r);
      RefIn(versions, versions.Keys, storage, r);
    }
    var rest := versions - ids;
    forall r ensures r in Refs(rest, rest.Keys, storage) <==>
      r in Refs(versions, versions.Keys, storage) && r.id !in ids {
      RefLeft(versions, ids, storage, r);
    }
    SubsetCount(some, all);
    if uid in Uids(rest, rest.Keys, storage) {
      var r :| r in Refs(rest, rest.Keys, storage) && UidAt(rest, r) == Some(uid);
      assert r in all && r !in some;
    } else {
      forall r | r in all ensures r in some {
        assert r.id !in ids ==> UidAt(rest, r) == Some(uid);
      }
      assert some == all;
    }
    var r :| r in Refs(versions, ids, storage) && UidAt(versions, r) == Some(uid);
    RefIn(versions, ids, storage, r);
    RefIn(versions, versions.Keys, storage, r);
    assert uid in Uids(versions, versions.Keys, storage);
  }

  lemma {:induction false} RefLeft(versions: Versions, ids: set<VersionId>, storage: StorageId, r: Ref)
    ensures r in Refs(versions - ids, (versions - ids).Keys, storage) <==>
            r in Refs(versions, versions.Keys, storage) && r.id !in ids
  {
    RefIn(versions - ids, (versions - ids).Keys, storage, r);
    RefIn(versions, versions.Keys, storage, r);
  }

  lemma {:induction false} SubsetCount<T(!new)>(a: set<T>, b: set<T>)
    requires a <= b
    ensures |a| == |b| <==> a == b
  {
    if a != b {
      assert b == a + (b - a);
      assert |b - a| > 0;
    }
  }

  // ---------------------------------------------------------------- sizes

  /** All rows that reference a uid have the size of its object. */
  ghost predicate SizesAgree(versions: Versions, storage: StorageId, size: BlockUid -> nat) {
    forall id, i :: IsRef(versions, storage, Ref(id, i)) ==>
      versions[id].rows[i].size == size(versions[id].rows[i].uid.value)
  }

  function ObjectSize(objects: Objects, storage: StorageId): BlockUid -> nat {
    uid => if ObjectKey(storage, uid) in objects then |objects[ObjectKey(storage, uid)]| else 0
  }

  /**
   * Sizes on which the rows of a storage agree are those of the objects, for all uids of which some
   * row is valid; and rows that are all valid do agree.
   */
  lemma {:induction false} TruthfulSizes(versions: Versions, objects: Objects, hash: Hash, storage: StorageId,
                                         size: BlockUid -> nat)
    requires Truthful(versions, objects, hash)
    ensures SizesAgree(versions, storage, size) ==>
              forall id, i :: IsRef(versions, storage, Ref(id, i)) && versions[id].rows[i].valid ==>
                var uid := versions[id].rows[i].uid.value; size(uid) == ObjectSize(objects, storage)(uid)
    ensures (forall id, i :: IsRef(versions, storage, Ref(id, i)) ==> versions[id].rows[i].valid) ==>
              SizesAgree(versions, storage, ObjectSize(objects, storage))
  {
    forall id, i | IsRef(versions, storage, Ref(id, i)) && versions[id].rows[i].valid
      ensures versions[id].rows[i].size == ObjectSize(objects, storage)(versions[id].rows[i].uid.value)
    {
      assert TruthfulRow(versions[id].rows[i], storage, objects, hash);
    }
  }

  /** Size of a referencing row; of any other, nothing. */
  function RowSize(versions: Versions): Ref -> nat {
    (r: Ref) => if r.id in versions && r.i in versions[r.id].rows then versions[r.id].rows[r.i].size else 0
  }

  /** Rows are grouped by the uid that they reference and their size. */
  datatype Group = Group(uid: BlockUid, size: nat)

  function GroupSize(): Group -> nat {
    (g: Group) => g.size
  }

  predicate InGroup(versions: Versions, r: Ref, g: Group) {
    UidAt(versions, r) == Some(g.uid) && RowSize(versions)(r) == g.size
  }

  /** The rows of some versions that belong to a group, and to one of some groups. */
  function GroupRefs(versions: Versions, ids: set<VersionId>, storage: StorageId, g: Group): set<Ref> {
    set r | r in Refs(versions, ids, storage) && InGroup(versions, r, g)
  }

  function GroupOf(versions: Versions, r: Ref): Option<Group> {
    match UidAt(versions, r)
    case None => None
    case Some(uid) => Some(Group(uid, RowSize(versions)(r)))
  }

  function AnyGroupRefs(versions: Versions, ids: set<VersionId>, storage: StorageId, groups: set<Group>): set<Ref> {
    set r | r in Refs(versions, ids, storage) && GroupOf(versions, r).Some? && GroupOf(versions, r).value in groups
  }

  function Groups(versions: Versions, ids: set<VersionId>, storage: StorageId): set<Group> {
    set r | r in Refs(versions, ids, storage) && GroupOf(versions, r).Some? :: GroupOf(versions, r).value
  }

  /** What a group contributes: its size, for each of its rows. */
  function Weight(versions: Versions, ids: set<VersionId>, storage: StorageId): Group -> nat {
    (g: Group) => g.size * |GroupRefs(versions, ids, storage, g)|
  }

  lemma {:induction false} WeightIsRows(versions: Versions, ids: set<VersionId>, storage: StorageId, g: Group)
    ensures Sum(GroupRefs(versions, ids, storage, g), RowSize(versions)) == Weight(versions, ids, storage)(g)
  {
    hide RowSize, Refs;
    SumConstant(GroupRefs(versions, ids, storage, g), RowSize(versions), g.size);
  }

  /** Adding up by group is adding up by row. */
  lemma {:induction false} Regroup(versions: Versions, ids: set<VersionId>, storage: StorageId, groups: set<Group>)
    ensures Sum(groups, Weight(versions, ids, storage)) ==
              Sum(AnyGroupRefs(versions, ids, storage, groups), RowSize(versions))
  {
    hide Weight, RowSize, Refs;
    if groups == {} {
      assert AnyGroupRefs(versions, ids, storage, groups) == {};
    } else {
      var g :| g in groups;
      var rest := groups - {g};
      SumPick(groups, g, Weight(versions, ids, storage));
      Regroup(versions, ids, storage, rest);
      WeightIsRows(versions, ids, storage, g);
      var a, b := AnyGroupRefs(versions, ids, storage, rest), GroupRefs(versions, ids, storage, g);
      SumUnion(a, b, RowSize(versions));
      assert a + b == AnyGroupRefs(versions, ids, storage, groups);
    }
  }

  /** Sizes of the blocks that have a uid, and of those that have none. */
  function UidSizes(rows: seq<Row>): nat {
    if rows == [] then 0
    else UidSizes(rows[..|rows| - 1]) + if rows[|rows| - 1].uid.Some? then rows[|rows| - 1].size else 0
  }

  function SparseSizes(rows: seq<Row>): nat {
    if rows == [] then 0
    else SparseSizes(rows[..|rows| - 1]) + if rows[|rows| - 1].uid.None? then rows[|rows| - 1].size else 0
  }

  lemma {:induction false} SizesAdd(rows: seq<Row>)
    ensures SumSizes(rows) == UidSizes(rows) + SparseSizes(rows)
  {
    if rows != [] {
      SizesAdd(rows[..|rows| - 1]);
    }
  }

  /** The references of one version below an index. */
  function RefsBelow(versions: Versions, id: VersionId, n: nat): set<Ref>
    requires id in versions
  {
    set i | i in versions[id].rows && i < n && versions[id].rows[i].uid.Some? :: Ref(id, i)
  }

  lemma {:induction false} RowsOfVersion(versions: Versions, id: VersionId, n: nat)
    requires id in versions && n <= Count(versions[id])
    ensures Sum(RefsBelow(versions, id, n), RowSize(versions)) == UidSizes(Dense(versions[id])[..n])
  {
    hide BlocksCount;
    if n == 0 {
      assert RefsBelow(versions, id, 0) == {};
    } else {
      RowsOfVersion(versions, id, n - 1);
      var rows := Dense(versions[id])[..n];
      assert rows[..n - 1] == Dense(versions[id])[..n - 1] && rows[n - 1] == BlockAt(versions[id], n - 1);
      var before := RefsBelow(versions, id, n - 1);
      if n - 1 in versions[id].rows && versions[id].rows[n - 1].uid.Some? {
        assert RefsBelow(versions, id, n) == before + {Ref(id, n - 1)};
        SumAdd(before, Ref(id, n - 1), RowSize(versions));
      } else {
        assert RefsBelow(versions, id, n) == before;
      }
    }
  }

  /** Sizes of all blocks with a uid, and of all without, of a version of the storage. */
  function StoredPart(versions: Versions, storage: StorageId): VersionId -> nat {
    id => if id in versions && versions[id].storage == storage then UidSizes(Dense(versions[id])) else 0
  }

  function SparsePart(versions: Versions, storage: StorageId): VersionId -> nat {
    id => if id in versions && versions[id].storage == storage then SparseSizes(Dense(versions[id])) else 0
  }

  function VirtualPart(versions: Versions, storage: StorageId): VersionId -> nat {
    id => if id in versions && versions[id].storage == storage then versions[id].size else 0
  }

  /** The references of one version in the storage. */
  function OwnRefs(versions: Versions, id: VersionId, storage: StorageId): set<Ref>
    requires id in versions
  {
    if versions[id].storage == storage then RefsBelow(versions, id, Count(versions[id])) else {}
  }

  lemma {:induction false} OwnSum(versions: Versions, id: VersionId, storage: StorageId)
    requires id in versions
    ensures Sum(OwnRefs(versions, id, storage), RowSize(versions)) == StoredPart(versions, storage)(id)
  {
    hide RowSize, BlocksCount;
    var v := versions[id];
    RowsOfVersion(versions, id, Count(v));
    assert Dense(v)[..Count(v)] == Dense(v);
  }

  lemma {:induction false} RefsWithout(versions: Versions, ids: set<VersionId>, storage: StorageId, id: VersionId)
    requires id in ids && id in versions && (versions[id].storage == storage ==> RowsInside(versions[id]))
    ensures Refs(versions, ids, storage) == Refs(versions, ids - {id}, storage) + OwnRefs(versions, id, storage)
    ensures Refs(versions, ids - {id}, storage) !! OwnRefs(versions, id, storage)
  {
    hide Refs, BlocksCount, SizeAt;
    var rest, own := ids - {id}, OwnRefs(versions, id, storage);
    forall r
      ensures r in Refs(versions, ids, storage) <==> r in Refs(versions, rest, storage) || r in own
      ensures !(r in Refs(versions, rest, storage) && r in own)
    {
      RefIn(versions, ids, storage, r);
      RefIn(versions, rest, storage, r);
    }
  }

  lemma {:induction false} RowsOfVersions(versions: Versions, ids: set<VersionId>, storage: StorageId)
    requires ids <= versions.Keys && AllInside(versions, ids, storage)
    ensures Sum(Refs(versions, ids, storage), RowSize(versions)) == Sum(ids, StoredPart(versions, storage))
  {
    hide RowSize, RowsInside, StoredPart, OwnRefs;
    if ids == {} {
      assert Refs(versions, ids, storage) == {};
    } else {
      var id :| id in ids;
      RowsOfVersions(versions, ids - {id}, storage);
      SumPick(ids, id, StoredPart(versions, storage));
      OwnSum(versions, id, storage);
      RefsWithout(versions, ids, storage, id);
      SumUnion(Refs(versions, ids - {id}, storage), OwnRefs(versions, id, storage), RowSize(versions));
    }
  }

  /** Of some versions those of the storage have rows only for blocks of their images. */
  ghost predicate AllInside(versions: Versions, ids: set<VersionId>, storage: StorageId) {
    forall id :: id in ids && id in versions && versions[id].storage == storage ==> RowsInside(versions[id])
  }

  ghost predicate AllFilling(versions: Versions, ids: set<VersionId>, storage: StorageId) {
    forall id :: id in ids && id in versions && versions[id].storage == storage ==> Filling(versions[id])
  }

  ghost predicate AllWellSized(versions: Versions, ids: set<VersionId>, storage: StorageId) {
    forall id :: id in ids && id in versions && versions[id].storage == storage ==> WellSized(versions[id])
  }

  /** Sizes of all blocks of a version of the storage. */
  function DensePart(versions: Versions, storage: StorageId): VersionId -> nat {
    id => if id in versions && versions[id].storage == storage then SumSizes(Dense(versions[id])) else 0
  }

  lemma {:induction false} DenseIsBoth(versions: Versions, ids: set<VersionId>, storage: StorageId)
    ensures Sum(ids, DensePart(versions, storage)) ==
            Sum(ids, StoredPart(versions, storage)) + Sum(ids, SparsePart(versions, storage))
  {
    hide Dense, SumSizes, UidSizes, SparseSizes;
    forall id | id in ids
      ensures DensePart(versions, storage)(id) == StoredPart(versions, storage)(id) + SparsePart(versions, storage)(id)
    {
      if id in versions { SizesAdd(Dense(versions[id])); }
    }
    SumSplit(ids, StoredPart(versions, storage), SparsePart(versions, storage), DensePart(versions, storage));
  }

  /** What is left of the sizes of versions once the sizes of all their rows with a uid are taken off. */
  ghost function Remainder(versions: Versions, ids: set<VersionId>, storage: StorageId): int {
    Sum(ids, VirtualPart(versions, storage)) - Sum(Refs(versions, ids, storage), RowSize(versions))
  }

  /**
   * That is the size of all blocks without uid, if and only if the sizes of all blocks add up to those
   * of the versions; and it is negative if and only if the blocks with uid alone are more.
   */
  lemma {:induction false} RemainderIsSparseIff(versions: Versions, ids: set<VersionId>, storage: StorageId)
    requires ids <= versions.Keys && AllInside(versions, ids, storage)
    ensures Remainder(versions, ids, storage) == Sum(ids, SparsePart(versions, storage)) <==>
            Sum(ids, DensePart(versions, storage)) == Sum(ids, VirtualPart(versions, storage))
    ensures Remainder(versions, ids, storage) < 0 <==>
            Sum(ids, StoredPart(versions, storage)) > Sum(ids, VirtualPart(versions, storage))
  {
    hide RowSize, VirtualPart, SparsePart, StoredPart, DensePart, Refs, AllInside;
    RowsOfVersions(versions, ids, storage);
    DenseIsBoth(versions, ids, storage);
  }

  lemma {:induction false} DenseCovers(versions: Versions, ids: set<VersionId>, storage: StorageId)
    requires ids <= versions.Keys && AllFilling(versions, ids, storage)
    ensures Sum(ids, DensePart(versions, storage)) >= Sum(ids, VirtualPart(versions, storage))
    ensures Sum(ids, DensePart(versions, storage)) == Sum(ids, VirtualPart(versions, storage)) <==>
            AllWellSized(versions, ids, storage)
  {
    hide WellSized, Filling, Dense, SumSizes;
    if ids != {} {
      var id :| id in ids;
      DenseCovers(versions, ids - {id}, storage);
      SumPick(ids, id, DensePart(versions, storage));
      SumPick(ids, id, VirtualPart(versions, storage));
      if versions[id].storage == storage { FilledSizes(versions[id]); }
      assert AllWellSized(versions, ids, storage) <==>
             AllWellSized(versions, ids - {id}, storage) && AllWellSized(versions, {id}, storage);
    }
  }

  /** Where last blocks are proper or full ones, the remainder is right exactly if all blocks are of proper size. */
  lemma {:induction false} RemainderRightIff(versions: Versions, ids: set<VersionId>, storage: StorageId)
    requires ids <= versions.Keys && AllFilling(versions, ids, storage)
    ensures Remainder(versions, ids, storage) <= Sum(ids, SparsePart(versions, storage))
    ensures Remainder(versions, ids, storage) == Sum(ids, SparsePart(versions, storage)) <==>
            AllWellSized(versions, ids, storage)
  {
    assert AllInside(versions, ids, storage);
    hide RowSize, VirtualPart, SparsePart, StoredPart, DensePart, Refs, AllFilling, AllWellSized, AllInside;
    RowsOfVersions(versions, ids, storage);
    DenseIsBoth(versions, ids, storage);
    DenseCovers(versions, ids, storage);
  }

  /** The sums for a single version. */
  lemma {:induction false} OneVersion(versions: Versions, id: VersionId)
    requires id in versions && RowsInside(versions[id])
    ensures var v, storage := versions[id], versions[id].storage;
            && Remainder(versions, {id}, storage) == v.size - UidSizes(Dense(v))
            && Sum({id}, SparsePart(versions, storage)) == SparseSizes(Dense(v))
  {
    hide RowSize, Refs, Dense, UidSizes, SparseSizes, RowsInside;
    var storage := versions[id].storage;
    RowsOfVersions(versions, {id}, storage);
    assert {id} - {id} == {};
    SumPick({id}, id, VirtualPart(versions, storage));
    SumPick({id}, id, StoredPart(versions, storage));
    SumPick({id}, id, SparsePart(versions, storage));
  }

  // ---------------------------------------------------------------- the report

  datatype Report = Report(virtual: nat, sparse: int, shared: nat, exclusive: nat, deduplicatedExclusive: nat)

  /** All rows of all versions that reference the group's uid have the group's size. */
  ghost predicate Uniform(versions: Versions, storage: StorageId, g: Group) {
    forall r :: r in RefsTo(versions, versions.Keys, storage, g.uid) ==> RowSize(versions)(r) == g.size
  }

  /** The groups that make up all references to a uid that the removal of the versions frees. */
  ghost function FreedGroups(versions: Versions, ids: set<VersionId>, storage: StorageId): set<Group> {
    set g | g in Groups(versions, ids, storage) && g.uid in Freed(versions, ids, storage)
      && Uniform(versions, storage, g)
  }

  /** As many rows are in the group as reference its uid at all exactly if the group is one of those. */
  lemma {:induction false} GroupDecides(versions: Versions, ids: set<VersionId>, storage: StorageId, g: Group)
    requires g in Groups(versions, ids, storage) && ids <= versions.Keys
    ensures |GroupRefs(versions, ids, storage, g)| == |RefsTo(versions, versions.Keys, storage, g.uid)| <==>
            g in FreedGroups(versions, ids, storage)
  {
    hide IsRef, RowSize, Freed;
    var own, some, all := GroupRefs(versions, ids, storage, g), RefsTo(versions, ids, storage, g.uid),
      RefsTo(versions, versions.Keys, storage, g.uid);
    forall r | r in some ensures r in all {
      RefIn(versions, ids, storage, r);
      RefIn(versions, versions.Keys, storage, r);
    }
    var r :| r in Refs(versions, ids, storage) && GroupOf(versions, r) == Some(g);
    assert g.uid in Uids(versions, ids, storage);
    SubsetCount(own, all);
    SubsetCount(some, all);
    CountsDecide(versions, ids, storage, g.uid);
    assert own == all ==> some == all;
    assert g in FreedGroups(versions, ids, storage) ==> some == all && forall x :: x in all ==> x in own;
  }

  /** What the report adds up to once some groups have been counted. */
  ghost predicate Counted(versions: Versions, ids: set<VersionId>, storage: StorageId, done: set<Group>, shared: nat,
                          exclusive: nat, deduplicated: nat) {
    var freed := FreedGroups(versions, ids, storage);
    && exclusive == Sum(done * freed, Weight(versions, ids, storage))
    && shared == Sum(done - freed, Weight(versions, ids, storage))
    && deduplicated == Sum(done * freed, GroupSize())
  }

  lemma {:induction false} CountOne(versions: Versions, ids: set<VersionId>, storage: StorageId, done: set<Group>,
                                    shared: nat, exclusive: nat, deduplicated: nat, g: Group)
    requires Counted(versions, ids, storage, done, shared, exclusive, deduplicated) && g !in done
    ensures var w := Weight(versions, ids, storage)(g);
            if g in FreedGroups(versions, ids, storage)
            then Counted(versions, ids, storage, done + {g}, shared, exclusive + w, deduplicated + g.size)
            else Counted(versions, ids, storage, done + {g}, shared + w, exclusive, deduplicated)
  {
    hide Weight, FreedGroups;
    var freed, weight := FreedGroups(versions, ids, storage), Weight(versions, ids, storage);
    if g in freed {
      assert (done + {g}) * freed == done * freed + {g} && done + {g} - freed == done - freed;
      SumAdd(done * freed, g, weight);
      SumAdd(done * freed, g, GroupSize());
    } else {
      assert (done + {g}) * freed == done * freed && done + {g} - freed == (done - freed) + {g};
      SumAdd(done - freed, g, weight);
    }
  }

  lemma {:induction false} NothingCounted(versions: Versions, ids: set<VersionId>, storage: StorageId)
    ensures Counted(versions, ids, storage, {}, 0, 0, 0)
  {
    hide FreedGroups, Weight;
    assert {} * FreedGroups(versions, ids, storage) == {} && {} - FreedGroups(versions, ids, storage) == {};
  }

  lemma {:induction false} WeightIs(versions: Versions, ids: set<VersionId>, storage: StorageId, g: Group)
    ensures Weight(versions, ids, storage)(g) == g.size * |GroupRefs(versions, ids, storage, g)|
  {
  }

  /** With all groups counted, all rows that have a uid are. */
  lemma {:induction false} AllCounted(versions: Versions, ids: set<VersionId>, storage: StorageId, shared: nat,
                                      exclusive: nat, deduplicated: nat)
    requires Counted(versions, ids, storage, Groups(versions, ids, storage), shared, exclusive, deduplicated)
    ensures shared + exclusive == Sum(Refs(versions, ids, storage), RowSize(versions))
    ensures var groups, freed := Groups(versions, ids, storage), FreedGroups(versions, ids, storage);
            && deduplicated == Sum(freed, GroupSize()) && exclusive == Sum(freed, Weight(versions, ids, storage))
            && shared == Sum(groups - freed, Weight(versions, ids, storage))
  {
    var groups, freed := Groups(versions, ids, storage), FreedGroups(versions, ids, storage);
    assert groups * freed == freed;
    hide Weight, RowSize, Refs, FreedGroups, Groups;
    SumUnion(groups * freed, groups - freed, Weight(versions, ids, storage));
    assert groups * freed + (groups - freed) == groups;
    Regroup(versions, ids, storage, groups);
    AllRefs(versions, ids, storage);
  }

  lemma {:induction false} AllRefs(versions: Versions, ids: set<VersionId>, storage: StorageId)
    ensures AnyGroupRefs(versions, ids, storage, Groups(versions, ids, storage)) == Refs(versions, ids, storage)
  {
    hide RowSize;
    forall r | r in Refs(versions, ids, storage)
      ensures r in AnyGroupRefs(versions, ids, storage, Groups(versions, ids, storage))
    {
      RefIn(versions, ids, storage, r);
      assert GroupOf(versions, r).value in Groups(versions, ids, storage);
    }
  }

  // ---------------------------------------------------------------- groups and uids

  function GroupsOf(uids: set<BlockUid>, size: BlockUid -> nat): set<Group> {
    set uid | uid in uids :: Group(uid, size(uid))
  }

  lemma {:induction false} SumGroups(uids: set<BlockUid>, size: BlockUid -> nat)
    ensures Sum(GroupsOf(uids, size), GroupSize()) == Sum(uids, size)
  {
    if uids != {} {
      var uid :| uid in uids;
      SumPick(uids, uid, size);
      SumGroups(uids - {uid}, size);
      var g := Group(uid, size(uid));
      assert GroupsOf(uids, size) == GroupsOf(uids - {uid}, size) + {g};
      SumAdd(GroupsOf(uids - {uid}, size), g, GroupSize());
    }
  }

  lemma {:induction false} SizedRow(versions: Versions, ids: set<VersionId>, storage: StorageId, size: BlockUid -> nat,
                                    r: Ref)
    requires SizesAgree(versions, storage, size) && r in Refs(versions, ids, storage)
    ensures UidAt(versions, r).Some? && RowSize(versions)(r) == size(UidAt(versions, r).value)
  {
    RefIn(versions, ids, storage, r);
    assert IsRef(versions, storage, Ref(r.id, r.i));
  }

  /** Where rows of a uid agree on its size, the groups that are freed are the uids that are freed. */
  lemma {:induction false} FreedByUid(versions: Versions, ids: set<VersionId>, storage: StorageId,
                                      size: BlockUid -> nat)
    requires SizesAgree(versions, storage, size) && ids <= versions.Keys
    ensures FreedGroups(versions, ids, storage) == GroupsOf(Freed(versions, ids, storage), size)
  {
    hide SizesAgree, RowSize, Refs, IsRef, Freed;
    var freed, groups := Freed(versions, ids, storage), Groups(versions, ids, storage);
    FreedSelected(versions, ids, storage);
    forall uid | uid in freed ensures Group(uid, size(uid)) in FreedGroups(versions, ids, storage) {
      var g := Group(uid, size(uid));
      var r :| r in Refs(versions, ids, storage) && UidAt(versions, r) == Some(uid);
      SizedRow(versions, ids, storage, size, r);
      assert GroupOf(versions, r) == Some(g);
      forall x | x in RefsTo(versions, versions.Keys, storage, uid) ensures RowSize(versions)(x) == g.size {
        SizedRow(versions, versions.Keys, storage, size, x);
      }
    }
    forall g | g in groups ensures g == Group(g.uid, size(g.uid)) {
      var r :| r in Refs(versions, ids, storage) && GroupOf(versions, r) == Some(g);
      SizedRow(versions, ids, storage, size, r);
    }
  }

  /** What becomes unreferenced was referenced by a version that is removed. */
  lemma {:induction false} FreedSelected(versions: Versions, ids: set<VersionId>, storage: StorageId)
    requires ids <= versions.Keys
    ensures Freed(versions, ids, storage) <= Uids(versions, ids, storage)
  {
    hide IsRef;
    var rest := versions - ids;
    forall uid | uid in Freed(versions, ids, storage) ensures uid in Uids(versions, ids, storage) {
      var r :| r in Refs(versions, versions.Keys, storage) && UidAt(versions, r) == Some(uid);
      RefLeft(versions, ids, storage, r);
      RefIn(versions, versions.Keys, storage, r);
      RefIn(versions, ids, storage, r);
      assert r.id !in ids ==> UidAt(rest, r) == Some(uid);
    }
  }

  // ---------------------------------------------------------------- the query

  /** Adds up the sizes of the selected versions of the storage. */
  method Virtual(versions: Versions, ids: set<VersionId>, storage: StorageId) returns (n: nat)
    ensures n == Sum(ids, VirtualPart(versions, storage))
  {
    n := 0;
    var rest, done: set<VersionId> := ids, {};
    while rest != {}
      invariant rest !! done && rest + done == ids && n == Sum(done, VirtualPart(versions, storage))
      decreases rest
    {
      var id :| id in rest;
      SumAdd(done, id, VirtualPart(versions, storage));
      if id in versions && versions[id].storage == storage { n := n + versions[id].size; }
      rest, done := rest - {id}, done + {id};
    }
    assert done == ids;
  }

  /** Counts one group: exclusive if it has all rows that reference its uid, shared otherwise. */
  method CountGroup(versions: Versions, ids: set<VersionId>, storage: StorageId, g: Group, shared: nat, exclusive: nat,
                    deduplicated: nat, ghost done: set<Group>)
    returns (s: nat, e: nat, d: nat)
    requires ids <= versions.Keys && g in Groups(versions, ids, storage) && g !in done
    requires Counted(versions, ids, storage, done, shared, exclusive, deduplicated)
    ensures Counted(versions, ids, storage, done + {g}, s, e, d)
  {
    hide Weight, RefsTo, GroupRefs, Counted, Refs, FreedGroups, Groups;
    CountOne(versions, ids, storage, done, shared, exclusive, deduplicated, g);
    GroupDecides(versions, ids, storage, g);
    WeightIs(versions, ids, storage, g);
    var subset, overall := |GroupRefs(versions, ids, storage, g)|, |RefsTo(versions, versions.Keys, storage, g.uid)|;
    s, e, d := shared, exclusive, deduplicated;
    if overall == subset {
      e := e + g.size * subset;
      d := d + g.size;
    } else {
      s := s + g.size * subset;
    }
  }

  /** The versions that a filter selects; all of them without one. */
  function Selected(versions: Versions, selection: Option<set<VersionId>>): set<VersionId> {
    if selection.None? then versions.Keys else selection.value * versions.Keys
  }

  /**
   * The usage of the selected versions in a storage. Where rows of a uid agree on its size, what is
   * reported as deduplicated and exclusive is the size of all objects that become unreferenced when
   * exactly these versions are removed. What is reported as sparse is what the rows with a uid leave of
   * the versions' sizes, which is the size of all their blocks that have no uid if and only if the sizes
   * of all blocks add up to those of the versions.
   */
  method StorageUsage(versions: Versions, selection: Option<set<VersionId>>, storage: StorageId,
                      ghost size: BlockUid -> nat)
    returns (r: Report)
    ensures var ids := Selected(versions, selection);
            && (SizesAgree(versions, storage, size) ==>
                  r.deduplicatedExclusive == Sum(Freed(versions, ids, storage), size))
            && r.deduplicatedExclusive == Sum(FreedGroups(versions, ids, storage), GroupSize())
            && r.exclusive == Sum(FreedGroups(versions, ids, storage), Weight(versions, ids, storage))
            && r.shared == Sum(Groups(versions, ids, storage) - FreedGroups(versions, ids, storage),
                               Weight(versions, ids, storage))
            && r.shared + r.exclusive == Sum(Refs(versions, ids, storage), RowSize(versions))
            && r.virtual == Sum(ids, VirtualPart(versions, storage))
            && r.sparse == Remainder(versions, ids, storage)
    ensures var ids := Selected(versions, selection);
            && (AllInside(versions, ids, storage) ==>
                  && (r.sparse == Sum(ids, SparsePart(versions, storage)) <==>
                        Sum(ids, DensePart(versions, storage)) == r.virtual)
                  && (r.sparse < 0 <==> Sum(ids, StoredPart(versions, storage)) > r.virtual))
            && (AllFilling(versions, ids, storage) ==>
                  && r.sparse <= Sum(ids, SparsePart(versions, storage))
                  && (r.sparse == Sum(ids, SparsePart(versions, storage)) <==> AllWellSized(versions, ids, storage)))
    ensures r.virtual == r.sparse + r.shared + r.exclusive
  {
    hide SizesAgree, Counted, VirtualPart, SparsePart, StoredPart, DensePart, Freed, FreedGroups, Groups, GroupsOf,
      Weight, Refs, RowSize, AllInside, AllFilling, AllWellSized;
    var ids := Selected(versions, selection);
    var virtual := Virtual(versions, ids, storage);
    var shared: nat, exclusive: nat, deduplicated: nat := 0, 0, 0;
    var rest, done: set<Group> := Groups(versions, ids, storage), {};
    NothingCounted(versions, ids, storage);
    while rest != {}
      invariant rest !! done && rest + done == Groups(versions, ids, storage)
      invariant Counted(versions, ids, storage, done, shared, exclusive, deduplicated)
      decreases rest
    {
      var g :| g in rest;
      shared, exclusive, deduplicated := CountGroup(versions, ids, storage, g, shared, exclusive, deduplicated, done);
      rest, done := rest - {g}, done + {g};
    }
    assert done == Groups(versions, ids, storage);
    r := Report(virtual, virtual - exclusive - shared, shared, exclusive, deduplicated);
    AllCounted(versions, ids, storage, shared, exclusive, deduplicated);
    if AllInside(versions, ids, storage) { RemainderIsSparseIff(versions, ids, storage); }
    if AllFilling(versions, ids, storage) { RemainderRightIff(versions, ids, storage); }
    if SizesAgree(versions, storage, size) {
      FreedByUid(versions, ids, storage, size);
      SumGroups(Freed(versions, ids, storage), size);
    }
  }
}
