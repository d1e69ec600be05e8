/** Writing and reading blocks as objects with metadata, and the read cache in front of the objects. */
module BlockStorage {
  import opened Images
  import opened Tables
  import opened Transforms
  import opened Digest
  import opened Metadata

  /** A block as the storage sees it. */
  datatype Block = Block(uid: BlockUid, size: nat, checksum: string)

  /** How objects are made: JSON and digest, the transforms that are known and those in use, and the digest's use. */
  datatype Setup = Setup(codec: Codec, registry: Registry, active: Option<seq<Transform>>, protect: bool)

  ghost predicate Sane(s: Setup) {
    Encodes(s.codec) && (s.active.Some? ==> Usable(s.active.value, s.registry))
  }

  /** The two objects of a block. */
  datatype Stored = Stored(data: Bytes, metadata: Bytes)

  /** The result of reading a block's objects, with or without its data. */
  ghost function Reading(s: Setup, o: Stored, metadataOnly: bool): Result<(Option<Bytes>, Dictionary)> {
    match Decoded(s.codec, s.protect, o.metadata, |o.data|)
    case Err(e) => Err(e)
    case Ok(d) =>
      if CHECKSUM_KEY !in d then Err(KeyError)
      else if metadataOnly then Ok((None, d))
      else match Opened(s, o.data, d)
        case Err(e) => Err(e)
        case Ok(plain) => Ok((Some(plain), d))
  }

  /** The data with the transforms undone that the metadata records. */
  function Opened(s: Setup, data: Bytes, d: Dictionary): Result<Bytes> {
    if TRANSFORMS_KEY !in d then Ok(data)
    else if !d[TRANSFORMS_KEY].List? then Err(KeyError)
    else match ParseElements(d[TRANSFORMS_KEY].items)
      case Err(e) => Err(e)
      case Ok(elements) => Undone(s.registry, data, elements)
  }

  /** The metadata describes the block: size, checksum, and the length of the data if there is any. */
  predicate MetadataFits(b: Block, dataLength: Option<nat>, d: Dictionary) {
    && SIZE_KEY in d && d[SIZE_KEY] == Num(b.size)
    && (dataLength.Some? && dataLength.value != 0 ==> dataLength.value == b.size)
    && CHECKSUM_KEY in d && d[CHECKSUM_KEY] == Str(b.checksum)
  }

  /** The objects hold the data of the block: every read gives it back, with metadata that fits. */
  ghost predicate Holds(s: Setup, o: Stored, b: Block, data: Bytes) {
    && Reading(s, o, false).Ok?
    && Reading(s, o, false).value.0 == Some(data)
    && Reading(s, o, true) == Ok((None, Reading(s, o, false).value.1))
    && MetadataFits(b, None, Reading(s, o, false).value.1)
  }

  /** What becomes of a block that is written: it can be read again, unless it came without a checksum. */
  ghost predicate Readable(s: Setup, o: Stored, b: Block, data: Bytes) {
    if b.checksum != "" then Holds(s, o, b, data)
    else Reading(s, o, true) == Err(KeyError) && Reading(s, o, false) == Err(KeyError)
  }

  /** Objects as they are written hold their block, provided that it has a checksum. */
  lemma {:induction false} BuiltHolds(s: Setup, b: Block, data: Bytes, out: Bytes, elements: seq<Element>,
                                      timestamp: string)
    requires Sane(s) && Undone(s.registry, out, elements) == Ok(data)
    ensures var d := Plain(b.size, |out|, elements, b.checksum, timestamp);
            Readable(s, Stored(out, Dump(s.codec, Built(s.codec, s.protect, d))), b, data)
  {
    hide Decoded, Plain, Opened, Undone, WithDigest, Dump, Encodes;
    var d := Plain(b.size, |out|, elements, b.checksum, timestamp);
    DecodeBuilt(s.codec, s.protect, s.protect, b.size, |out|, elements, b.checksum, timestamp, |out|);
    PlainIs(b.size, |out|, elements, b.checksum, timestamp);
    OpenedPlain(s, b, data, out, elements, timestamp);
  }

  lemma {:induction false} OpenedPlain(s: Setup, b: Block, data: Bytes, out: Bytes, elements: seq<Element>,
                                       timestamp: string)
    requires Undone(s.registry, out, elements) == Ok(data)
    ensures Opened(s, out, Plain(b.size, |out|, elements, b.checksum, timestamp)) == Ok(data)
  {
    hide Plain, ParseElements, ElementsJson;
    ParseBuilt(elements);
    PlainIs(b.size, |out|, elements, b.checksum, timestamp);
  }

  lemma {:induction false} PlainIs(size: nat, objectSize: nat, elements: seq<Element>, checksum: string,
                                   timestamp: string)
    ensures var d := Plain(size, objectSize, elements, checksum, timestamp);
            && SIZE_KEY in d && d[SIZE_KEY] == Num(size)
            && (CHECKSUM_KEY in d <==> checksum != "") && (CHECKSUM_KEY in d ==> d[CHECKSUM_KEY] == Str(checksum))
            && (TRANSFORMS_KEY in d <==> elements != [])
            && (TRANSFORMS_KEY in d ==> d[TRANSFORMS_KEY] == List(ElementsJson(elements)))
  {
  }

  type Written = map<BlockUid, (Block, Bytes)>

  ghost predicate Stores(setup: Setup, objects: map<BlockUid, Stored>, written: Written) {
    && objects.Keys <= written.Keys
    && forall uid :: uid in objects ==> Readable(setup, objects[uid], written[uid].0, written[uid].1)
  }

  ghost predicate CachesMetadata(setup: Setup, objects: map<BlockUid, Stored>, written: Written,
                                 cached: map<BlockUid, Dictionary>) {
    && cached.Keys <= written.Keys
    && forall uid :: uid in cached && uid in objects ==>
         Reading(setup, objects[uid], true) == Ok((None, cached[uid]))
  }

  ghost predicate CachesData(objects: map<BlockUid, Stored>, written: Written, cached: map<BlockUid, Bytes>) {
    && cached.Keys <= written.Keys
    && forall uid :: uid in cached && uid in objects ==> uid in written && cached[uid] == written[uid].1
  }

  /** A block under a new uid joins those that are stored; nothing of it can be cached yet. */
  lemma {:induction false} StoreNew(setup: Setup, objects: map<BlockUid, Stored>, written: Written,
                                    metadata: map<BlockUid, Dictionary>, cached: map<BlockUid, Bytes>, uid: BlockUid,
                                    o: Stored, b: Block, data: Bytes)
    requires Stores(setup, objects, written) && uid !in written && Readable(setup, o, b, data)
    requires CachesMetadata(setup, objects, written, metadata) && CachesData(objects, written, cached)
    ensures Stores(setup, objects[uid := o], written[uid := (b, data)])
    ensures CachesMetadata(setup, objects[uid := o], written[uid := (b, data)], metadata)
    ensures CachesData(objects[uid := o], written[uid := (b, data)], cached)
    ensures objects[uid := o] - {uid} == objects
  {
    hide Readable, Reading;
  }

  /** What reading a stored block without the cache gives. */
  lemma {:induction false} StoredReads(setup: Setup, objects: map<BlockUid, Stored>, written: Written, uid: BlockUid,
                                       metadataOnly: bool)
    requires Stores(setup, objects, written) && uid in objects
    ensures uid in written
    ensures var r := Reading(setup, objects[uid], metadataOnly);
            && (written[uid].0.checksum == "" ==> r == Err(KeyError))
            && (written[uid].0.checksum != "" ==>
                  && r.Ok? && r.value.0 == (if metadataOnly then None else Some(written[uid].1))
                  && MetadataFits(written[uid].0, None, r.value.1)
                  && Reading(setup, objects[uid], true) == Ok((None, r.value.1)))
  {
    hide Reading, MetadataFits;
  }

  class CachedStorage {
    const setup: Setup
    const hasCache: bool
    var useCache: bool
    var objects: map<BlockUid, Stored>
    var cachedMetadata: map<BlockUid, Dictionary>
    var cachedData: map<BlockUid, Bytes>
    /** Every block ever written, with its data. */
    ghost var written: map<BlockUid, (Block, Bytes)>

    /** Stored objects hold what was written, and what is cached of a stored block is what reading it gives. */
    ghost predicate Valid()
      reads this
    {
      && Sane(setup) && Stores(setup, objects, written) && CachesMetadata(setup, objects, written, cachedMetadata)
      && CachesData(objects, written, cachedData)
    }

    constructor (setup: Setup, hasCache: bool)
      requires Sane(setup)
      ensures Valid() && objects == map[] && written == map[] && useCache && this.setup == setup
      ensures this.hasCache == hasCache
    {
      this.setup, this.hasCache, useCache := setup, hasCache, true;
      objects, cachedMetadata, cachedData, written := map[], map[], map[], map[];
    }

    method UseReadCache(enable: bool) returns (before: bool)
      requires Valid()
      modifies this`useCache
      ensures Valid() && before == old(useCache) && useCache == enable
    {
      before := useCache;
      useCache := enable;
    }

    /**
     * Writes a block under a uid that was never used before, and checks what was written if asked
     * to. If one of the objects cannot be written, neither is left behind.
     */
    method Write(b: Block, data: Bytes, timestamp: string, check: bool, fails: bool) returns (r: Result<Block>)
      requires Valid() && b.uid !in written
      modifies this`objects, this`written
      ensures Valid() && r == if fails then Err(IoError) else Ok(b)
      ensures fails ==> written == old(written) && objects == old(objects)
      ensures !fails ==> written == old(written)[b.uid := (b, data)]
      ensures !fails ==> b.uid in objects && objects == old(objects)[b.uid := objects[b.uid]]
    {
      hide Reading, MetadataFits, Readable, Decoded, Sane, Stores, CachesMetadata, CachesData;
      var o := MakeObjects(b, data, timestamp);
      StoreNew(setup, objects, written, cachedMetadata, cachedData, b.uid, o, b, data);
      objects := objects[b.uid := o];
      if fails {
        objects := objects - {b.uid};
        return Err(IoError);
      }
      written := written[b.uid := (b, data)];
      if check {
        var decoded := Decode(setup.codec, setup.protect, objects[b.uid].metadata, |objects[b.uid].data|);
        if decoded.Err? || objects[b.uid].data != o.data { return Err(ValueError); }
      }
      r := Ok(b);
    }

    /** Makes the objects of a block: its data, transformed, and the metadata. */
    method MakeObjects(b: Block, data: Bytes, timestamp: string) returns (o: Stored)
      requires Sane(setup)
      ensures Readable(setup, o, b, data) && Decoded(setup.codec, setup.protect, o.metadata, |o.data|).Ok?
    {
      hide Readable, Plain, Built, Undone, Decoded, Encodes;
      var out, elements, _ := Encapsulate(setup.active, data, setup.registry);
      var plain := Plain(b.size, |out|, elements, b.checksum, timestamp);
      var d := Build(setup.codec, setup.protect, plain);
      o := Stored(out, Dump(setup.codec, d));
      BuiltHolds(setup, b, data, out, elements, timestamp);
      DecodeBuilt(setup.codec, setup.protect, setup.protect, b.size, |out|, elements, b.checksum, timestamp, |out|);
    }

    /** The cache drops an entry, at any time. */
    method Evict(uid: BlockUid)
      requires Valid()
      modifies this`cachedMetadata, this`cachedData
      ensures Valid()
    {
      hide Reading, Readable;
      if * { cachedMetadata := cachedMetadata - {uid}; } else { cachedData := cachedData - {uid}; }
    }

    /** Removes a block's objects; the cache is left alone. */
    method Remove(uid: BlockUid) returns (r: Result<BlockUid>)
      requires Valid()
      modifies this`objects
      ensures Valid() && objects == old(objects) - {uid}
      ensures r == if uid in old(objects) then Ok(uid) else Err(NotFound)
    {
      hide Reading, Readable;
      r := if uid in objects then Ok(uid) else Err(NotFound);
      objects := objects - {uid};
    }

    /** Reads the objects, past the cache. */
    method ReadUncached(uid: BlockUid, metadataOnly: bool) returns (r: Result<(Option<Bytes>, Dictionary)>)
      ensures r == if uid in objects then Reading(setup, objects[uid], metadataOnly) else Err(NotFound)
    {
      if uid !in objects { return Err(NotFound); }
      var o := objects[uid];
      var decoded := Decode(setup.codec, setup.protect, o.metadata, |o.data|);
      if decoded.Err? { return Err(decoded.error); }
      var d := decoded.value;
      if CHECKSUM_KEY !in d { return Err(KeyError); }
      if metadataOnly { return Ok((None, d)); }
      var opening := Opened(setup, o.data, d);
      r := if opening.Err? then Err(opening.error) else Ok((Some(opening.value), d));
    }

    /**
     * Reads a block, from the cache if it can. While a block that has a checksum is stored, every read
     * gives the data that was written and metadata that fits, whatever was cached, evicted or switched
     * off before.
     */
    method Read(uid: BlockUid, metadataOnly: bool) returns (r: Result<(Option<Bytes>, Dictionary)>)
      requires Valid()
      modifies this`cachedMetadata, this`cachedData
      ensures Valid()
      ensures uid in objects && written[uid].0.checksum == "" ==> r == Err(KeyError)
      ensures uid in objects && written[uid].0.checksum != "" ==>
                && r == Reading(setup, objects[uid], metadataOnly) && r.Ok?
                && r.value.0 == (if metadataOnly then None else Some(written[uid].1))
                && MetadataFits(written[uid].0, None, r.value.1)
      ensures uid !in objects && !(hasCache && useCache) ==> r == Err(NotFound)
    {
      hide Reading, MetadataFits, Sane, Stores, Readable;
      if uid in objects {
        StoredReads(setup, objects, written, uid, metadataOnly);
        StoredReads(setup, objects, written, uid, true);
      }
      if hasCache && useCache && uid in cachedMetadata && cachedMetadata[uid] != map[] {
        if metadataOnly {
          return Ok((None, cachedMetadata[uid]));
        } else if uid in cachedData && cachedData[uid] != [] {
          return Ok((Some(cachedData[uid]), cachedMetadata[uid]));
        }
      }
      r := ReadUncached(uid, metadataOnly);
      if r.Err? { return; }
      if hasCache {
        cachedMetadata := cachedMetadata[uid := r.value.1];
        if !metadataOnly { cachedData := cachedData[uid := r.value.0.value]; }
      }
    }
  }
}
