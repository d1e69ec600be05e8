/** Any sequence of reads and writes of any number of NBD sessions, against plain byte arrays. */
module NbdSessions {
  import opened Arithmetic
  import opened Images
  import opened Tables
  import opened VersionTable
  import opened Backup
  import opened Restore
  import opened Nbd

  datatype Request = ReadAt(id: VersionId, offset: nat, length: nat) | WriteTo(id: VersionId, offset: nat, data: Bytes)

  type Arrays = map<VersionId, Bytes>

  /** The request addresses a session, and a range inside its image. */
  predicate Fits(r: Request, arrays: Arrays) {
    && r.id in arrays && r.offset < |arrays[r.id]|
    && r.offset + (if r.ReadAt? then r.length else |r.data|) <= |arrays[r.id]|
  }

  /** What a request does to the byte arrays. */
  function Served(r: Request, arrays: Arrays): Arrays
    requires Fits(r, arrays)
  {
    match r
    case ReadAt(_, _, _) => arrays
    case WriteTo(id, offset, data) => arrays[id := WriteAt(arrays[id], offset, data)]
  }

  /** What a request replies. */
  function Reply(r: Request, arrays: Arrays): Bytes
    requires Fits(r, arrays)
  {
    match r
    case ReadAt(id, offset, length) => arrays[id][offset..offset + length]
    case WriteTo(_, _, _) => []
  }

  ghost predicate AllFit(requests: seq<Request>, arrays: Arrays)
    decreases |requests|
  {
    requests == [] || (Fits(requests[0], arrays) && AllFit(requests[1..], Served(requests[0], arrays)))
  }

  function AllServed(requests: seq<Request>, arrays: Arrays): Arrays
    requires AllFit(requests, arrays)
    decreases |requests|
  {
    if requests == [] then arrays else AllServed(requests[1..], Served(requests[0], arrays))
  }

  function Replies(requests: seq<Request>, arrays: Arrays): seq<Bytes>
    requires AllFit(requests, arrays)
    decreases |requests|
  {
    if requests == [] then [] else [Reply(requests[0], arrays)] + Replies(requests[1..], Served(requests[0], arrays))
  }

  /** The store holds each session, and the sessions' images are the byte arrays. */
  ghost predicate Refines(s: Store, versions: map<VersionId, Version>, objects: Objects, bases: map<VersionId, Version>,
                          arrays: Arrays) {
    && arrays.Keys == bases.Keys
    && forall id :: id in bases ==> SessionIs(s, versions, objects, bases[id], id, arrays[id])
  }

  ghost predicate SessionIs(s: Store, versions: map<VersionId, Version>, objects: Objects, base: Version, id: VersionId,
                            bytes: Bytes) {
    && CloneOf(versions, objects, base, id) && id in s.cow && Holding(base, id, s.cow[id], s.files, s.present)
    && bytes == View(base, objects, Copied(id, s.cow[id], s.files)) && |bytes| == base.size
  }

  lemma {:induction false} OtherSessionIs(after: Store, before: Store, id: VersionId, versions: map<VersionId, Version>,
                                          objects: Objects, base: Version, other: VersionId, bytes: Bytes)
    requires SameOthers(after, before, id) && other != id && SessionIs(before, versions, objects, base, other, bytes)
    ensures SessionIs(after, versions, objects, base, other, bytes)
  {
    hide CloneOf, Holding, View, Copied, SameOthers;
    OtherSession(after, before, id, other, base);
  }

  lemma {:induction false} WriteRefines(after: Store, before: Store, versions: map<VersionId, Version>,
                                        objects: Objects, bases: map<VersionId, Version>, arrays: Arrays, r: Request)
    requires Refines(before, versions, objects, bases, arrays) && r.WriteTo? && Fits(r, arrays)
    requires SameOthers(after, before, r.id)
    requires SessionIs(after, versions, objects, bases[r.id], r.id, WriteAt(arrays[r.id], r.offset, r.data))
    ensures Refines(after, versions, objects, bases, Served(r, arrays))
  {
    hide SessionIs, SameOthers, WriteAt;
    forall id | id in bases ensures SessionIs(after, versions, objects, bases[id], id, Served(r, arrays)[id]) {
      if id != r.id {
        OtherSessionIs(after, before, r.id, versions, objects, bases[id], id, arrays[id]);
      }
    }
  }

  ghost predicate AllAtHome(bases: map<VersionId, Version>, home: Home) {
    forall id :: id in bases ==> AtHome(bases[id], home)
  }

  /** Serves one request. */
  method Serve(db: Database, store: BenjiStore, bases: map<VersionId, Version>, r: Request, ghost arrays: Arrays,
               ghost home: Home)
    returns (reply: Bytes)
    requires Refines(store.Contents(), db.versions, db.objects, bases, arrays) && Fits(r, arrays)
    requires AllAtHome(bases, home) && CacheOk(store.cache, home, db.objects)
    modifies store
    ensures Refines(store.Contents(), db.versions, db.objects, bases, Served(r, arrays)) && reply == Reply(r, arrays)
    ensures CacheOk(store.cache, home, db.objects)
  {
    hide CacheOk, CloneOf, Holding, View, Copied, SameOthers, AtHome, Restorable;
    ghost var before := store.Contents();
    assert SessionIs(before, db.versions, db.objects, bases[r.id], r.id, arrays[r.id]);
    match r
    case ReadAt(id, offset, length) =>
      store.SessionReadable(db.versions, db.objects, bases[id], id);
      reply := store.Read(db, bases[id], Some(id), offset, length, home);
    case WriteTo(id, offset, data) =>
      store.Write(db, id, offset, data, bases[id]);
      WriteLength(arrays[id], offset, data);
      WriteRefines(store.Contents(), before, db.versions, db.objects, bases, arrays, r);
      reply := [];
  }

  lemma {:induction false} WriteLength(bytes: Bytes, offset: nat, data: Bytes)
    requires offset + |data| <= |bytes|
    ensures |WriteAt(bytes, offset, data)| == |bytes|
  {
  }

  /**
   * For any sequence of reads and writes of several sessions, each inside its image, the replies are
   * those of plain byte arrays, and each session stands for its array afterwards. Versions and
   * objects are not touched.
   */
  method ServeAll(db: Database, store: BenjiStore, bases: map<VersionId, Version>, requests: seq<Request>,
                  ghost arrays: Arrays, ghost home: Home)
    returns (replies: seq<Bytes>)
    requires Refines(store.Contents(), db.versions, db.objects, bases, arrays) && AllFit(requests, arrays)
    requires AllAtHome(bases, home) && CacheOk(store.cache, home, db.objects)
    modifies store
    ensures Refines(store.Contents(), db.versions, db.objects, bases, AllServed(requests, arrays))
    ensures replies == Replies(requests, arrays)
  {
    hide Refines, CacheOk, AllAtHome, Reply, Served, Fits;
    replies := [];
    ghost var now := arrays;
    for n := 0 to |requests|
      invariant Refines(store.Contents(), db.versions, db.objects, bases, now) && CacheOk(store.cache, home, db.objects)
      invariant AllFit(requests[n..], now) && AllServed(requests[n..], now) == AllServed(requests, arrays)
      invariant replies + Replies(requests[n..], now) == Replies(requests, arrays)
    {
      assert requests[n..][0] == requests[n] && requests[n..][1..] == requests[n + 1..];
      var reply := Serve(db, store, bases, requests[n], now, home);
      replies := replies + [reply];
      now := Served(requests[n], now);
    }
  }

  /** More objects leave a version that can be restored as it is. */
  lemma {:induction false} SameData(v: Version, objects: Objects, more: Objects, i: nat)
    requires Restorable(v, objects) && Extends(more, objects) && i < Count(v)
    ensures DataAt(v, more, i) == DataAt(v, objects, i)
  {
    BlockInside(v.size, v.blockSize, i);
    assert |DataAt(v, objects, i)| > 0;
  }

  /** Fixating one session leaves every other one with its image. */
  lemma {:induction false} OthersSurviveFixate(after: Store, before: Store, id: VersionId,
                                               versions: map<VersionId, Version>, fixed: map<VersionId, Version>,
                                               objects: Objects, more: Objects, base: Version, other: VersionId,
                                               bytes: Bytes)
    requires SessionIs(before, versions, objects, base, other, bytes) && other != id
    requires SameOthers(after, before, id) && Extends(more, objects)
    requires id in fixed && fixed == versions[id := fixed[id]]
    ensures SessionIs(after, fixed, more, base, other, bytes)
  {
    hide SameOthers, Holding, BlocksCount, At, SizeAt, BlockAt;
    OtherSession(after, before, id, other, base);
    forall i | 0 <= i < Count(base) ensures DataAt(base, more, i) == DataAt(base, objects, i) {
      SameData(base, objects, more, i);
    }
    var copied := Copied(other, before.cow[other], before.files);
    assert SessionData(base, more, copied) == SessionData(base, objects, copied);
  }
}
