/** Object metadata: a dictionary in JSON that a keyed digest may protect. */
module Metadata {
  import opened Images
  import opened Tables
  import opened Transforms
  import opened Digest

  /** The JSON encoding, the hash of a text under the secret key, and the supported metadata versions. */
  datatype Codec = Codec(dumps: Dictionary -> Bytes, loads: Bytes -> Option<Dictionary>, hash: string -> string,
                         supported: string -> bool)

  const CURRENT_VERSION := "2.0.0"

  ghost predicate Encodes(c: Codec) {
    c.supported(CURRENT_VERSION) && forall d: Dictionary :: c.loads(c.dumps(d)) == Some(d)
  }

  const HMAC_KEY := "hmac"
  const ALGORITHM_KEY := "algorithm"
  const DIGEST_KEY := "digest"
  const HASH_NAME := "sha256"

  // ---------------------------------------------------------------- the digest

  /** The hash of what the dictionary feeds. */
  ghost function DigestOf(c: Codec, d: Dictionary): string {
    c.hash(Feed(Dict(d)))
  }

  function Entry(digest: string): Json {
    Dict(map[ALGORITHM_KEY := Str(HASH_NAME), DIGEST_KEY := Str(digest)])
  }

  ghost function WithDigest(c: Codec, d: Dictionary): Dictionary {
    d[HMAC_KEY := Entry(DigestOf(c, d))]
  }

  /** Verifying takes the digest out of the dictionary. */
  ghost function Verified(c: Codec, d: Dictionary): Result<Dictionary> {
    if HMAC_KEY !in d || !d[HMAC_KEY].Dict? then Err(ValueError)
    else
      var entry := d[HMAC_KEY].entries;
      if ALGORITHM_KEY !in entry || DIGEST_KEY !in entry then Err(ValueError)
      else if entry[ALGORITHM_KEY] != Str(HASH_NAME) then Err(ValueError)
      else if Str(DigestOf(c, d - {HMAC_KEY})) != entry[DIGEST_KEY] then Err(ValueError)
      else Ok(d - {HMAC_KEY})
  }

  method CalculateDigest(c: Codec, d: Dictionary) returns (digest: string)
    ensures digest == DigestOf(c, d)
  {
    var fed := Traverse("", Dict(d));
    assert "" + Feed(Dict(d)) == Feed(Dict(d));
    digest := HashOf(c, fed);
  }

  function HashOf(c: Codec, text: string): (digest: string)
    ensures digest == c.hash(text)
  {
    c.hash(text)
  }

  method AddDigest(c: Codec, d: Dictionary) returns (added: Dictionary)
    ensures added == WithDigest(c, d)
  {
    var digest := CalculateDigest(c, d);
    added := d[HMAC_KEY := Entry(digest)];
  }

  method VerifyDigest(c: Codec, d: Dictionary) returns (r: Result<Dictionary>)
    ensures r == Verified(c, d)
  {
    if HMAC_KEY !in d || !d[HMAC_KEY].Dict? { return Err(ValueError); }
    var entry := d[HMAC_KEY].entries;
    if ALGORITHM_KEY !in entry || DIGEST_KEY !in entry { return Err(ValueError); }
    if entry[ALGORITHM_KEY] != Str(HASH_NAME) { return Err(ValueError); }
    var left := d - {HMAC_KEY};
    var digest := CalculateDigest(c, left);
    if Str(digest) != entry[DIGEST_KEY] { return Err(ValueError); }
    r := Ok(left);
  }

  /** Verifying right after adding restores the dictionary exactly if it had no digest entry before. */
  lemma {:induction false} VerifyAdded(c: Codec, d: Dictionary)
    ensures Verified(c, WithDigest(c, d)).Ok? <==> DigestOf(c, d) == DigestOf(c, d - {HMAC_KEY})
    ensures Verified(c, WithDigest(c, d)) == Ok(d) <==> HMAC_KEY !in d
  {
    hide Feed;
    var added := WithDigest(c, d);
    assert added - {HMAC_KEY} == d - {HMAC_KEY};
    if HMAC_KEY !in d {
      assert d - {HMAC_KEY} == d;
    } else {
      assert HMAC_KEY !in d - {HMAC_KEY};
    }
  }

  /** A dictionary verifies exactly if its digest entry records the hash of what the rest of it feeds. */
  lemma {:induction false} VerifiesIff(c: Codec, d: Dictionary, digest: string)
    requires HMAC_KEY !in d
    ensures Verified(c, d[HMAC_KEY := Entry(digest)]) == Ok(d) <==> digest == c.hash(Feed(Dict(d)))
    ensures Verified(c, d[HMAC_KEY := Entry(digest)]).Ok? <==> digest == c.hash(Feed(Dict(d)))
  {
    hide Feed;
    assert d[HMAC_KEY := Entry(digest)] - {HMAC_KEY} == d;
  }

  /** No two texts have the same hash. */
  ghost predicate Injective(c: Codec) {
    forall s, t :: c.hash(s) == c.hash(t) ==> s == t
  }

  /**
   * Under the digest of one dictionary another one verifies whenever both feed the same text, and,
   * with a hash that has no collisions, only then.
   */
  lemma {:induction false} OtherVerifiesIff(c: Codec, d: Dictionary, e: Dictionary)
    requires HMAC_KEY !in d && HMAC_KEY !in e
    ensures Feed(Dict(d)) == Feed(Dict(e)) ==> Verified(c, e[HMAC_KEY := Entry(DigestOf(c, d))]) == Ok(e)
    ensures Injective(c) ==>
              (Verified(c, e[HMAC_KEY := Entry(DigestOf(c, d))]).Ok? <==> Feed(Dict(d)) == Feed(Dict(e)))
  {
    VerifiesIff(c, e, DigestOf(c, d));
  }

  /** So, under every hash, a character that moves from a value into its key goes unnoticed. */
  lemma {:induction false} MovedCharacterVerifies(c: Codec)
    ensures var d, e := map["a" := Str("bc")], map["ab" := Str("c")];
            d != e && Verified(c, e[HMAC_KEY := Entry(DigestOf(c, d))]) == Ok(e)
  {
    var d: Dictionary, e: Dictionary := map["a" := Str("bc")], map["ab" := Str("c")];
    SameFeed("a", 'b', "c");
    assert ['b'] + "c" == "bc" && "a" + ['b'] == "ab";
    assert "a" != HMAC_KEY && "ab" != HMAC_KEY;
    OtherVerifiesIff(c, d, e);
  }

  /** With the same keys and values of the same lengths, only a dictionary whose values feed the same verifies. */
  lemma {:induction false} SameLengthsVerifyIff(c: Codec, d: Dictionary, e: Dictionary)
    requires HMAC_KEY !in d && SameLengths(d, e) && Injective(c)
    ensures Verified(c, e[HMAC_KEY := Entry(DigestOf(c, d))]).Ok? <==> forall k :: k in d ==> Feed(d[k]) == Feed(e[k])
  {
    hide Feed;
    OtherVerifiesIff(c, d, e);
    FeedDetermines(d, e);
  }

  // ---------------------------------------------------------------- building and decoding

  const CREATED_KEY := "created"
  const MODIFIED_KEY := "modified"
  const VERSION_KEY := "metadata_version"
  const OBJECT_SIZE_KEY := "object_size"
  const SIZE_KEY := "size"
  const CHECKSUM_KEY := "checksum"
  const TRANSFORMS_KEY := "transforms"

  function ElementJson(e: Element): Json {
    Dict(map["name" := Str(e.name), "module" := Str(e.kind), "materials" := e.materials])
  }

  function ElementsJson(elements: seq<Element>): seq<Json> {
    seq(|elements|, k requires 0 <= k < |elements| => ElementJson(elements[k]))
  }

  function ParseElement(j: Json): Result<Element> {
    if !j.Dict? || "name" !in j.entries || "module" !in j.entries || "materials" !in j.entries then Err(KeyError)
    else if !j.entries["name"].Str? || !j.entries["module"].Str? then Err(KeyError)
    else Ok(Element(j.entries["name"].text, j.entries["module"].text, j.entries["materials"]))
  }

  function ParseElements(items: seq<Json>): Result<seq<Element>> {
    if items == [] then Ok([])
    else match ParseElements(items[..|items| - 1])
      case Err(e) => Err(e)
      case Ok(front) =>
        match ParseElement(items[|items| - 1])
        case Err(e) => Err(e)
        case Ok(last) => Ok(front + [last])
  }

  lemma {:induction false} ParseOne(e: Element)
    ensures ParseElement(ElementJson(e)) == Ok(e)
  {
  }

  lemma {:induction false} ParseBuilt(elements: seq<Element>)
    ensures ParseElements(ElementsJson(elements)) == Ok(elements)
  {
    if elements != [] {
      var n := |elements| - 1;
      ParseBuilt(elements[..n]);
      assert ElementsJson(elements)[..n] == ElementsJson(elements[..n]);
      assert ElementsJson(elements)[n] == ElementJson(elements[n]);
      ParseOne(elements[n]);
      assert elements == elements[..n] + [elements[n]];
    }
  }

  /** What is recorded about an object, before any digest is added. */
  function Plain(size: nat, objectSize: nat, elements: seq<Element>, checksum: string, timestamp: string): Dictionary {
    var required: Dictionary := map[CREATED_KEY := Str(timestamp), VERSION_KEY := Str(CURRENT_VERSION),
                                    MODIFIED_KEY := Str(timestamp),
                                    OBJECT_SIZE_KEY := Num(objectSize), SIZE_KEY := Num(size)];
    var summed := if checksum == "" then required else required[CHECKSUM_KEY := Str(checksum)];
    if elements == [] then summed else summed[TRANSFORMS_KEY := List(ElementsJson(elements))]
  }

  ghost function Built(c: Codec, protect: bool, plain: Dictionary): Dictionary {
    if protect then WithDigest(c, plain) else plain
  }

  method Build(c: Codec, protect: bool, plain: Dictionary) returns (d: Dictionary)
    ensures d == Built(c, protect, plain)
  {
    d := plain;
    if protect { d := AddDigest(c, d); }
  }

  /** Decodes metadata and checks it against the length of the object. */
  ghost function Decoded(c: Codec, protect: bool, json: Bytes, dataLength: nat): Result<Dictionary> {
    match Load(c, json)
    case None => Err(ValueError)
    case Some(loaded) =>
      match (if protect then Verified(c, loaded) else Ok(loaded))
      case Err(e) => Err(e)
      case Ok(d) => Check(c, d, dataLength)
  }

  method Decode(c: Codec, protect: bool, json: Bytes, dataLength: nat) returns (r: Result<Dictionary>)
    ensures r == Decoded(c, protect, json, dataLength)
  {
    var loaded := Load(c, json);
    if loaded.None? { return Err(ValueError); }
    r := Ok(loaded.value);
    if protect { r := VerifyDigest(c, loaded.value); }
    if r.Ok? { r := Check(c, r.value, dataLength); }
  }

  function Load(c: Codec, json: Bytes): Option<Dictionary> {
    c.loads(json)
  }

  function Dump(c: Codec, d: Dictionary): Bytes {
    c.dumps(d)
  }

  function Check(c: Codec, d: Dictionary, dataLength: nat): Result<Dictionary> {
    if VERSION_KEY !in d then Err(KeyError)
    else if !d[VERSION_KEY].Str? || !c.supported(d[VERSION_KEY].text) then Err(ValueError)
    else if CREATED_KEY !in d || MODIFIED_KEY !in d || OBJECT_SIZE_KEY !in d || SIZE_KEY !in d then Err(KeyError)
    else if d[OBJECT_SIZE_KEY] != Num(dataLength) then Err(ValueError)
    else Ok(d)
  }

  lemma {:induction false} CheckPlain(c: Codec, size: nat, objectSize: nat, elements: seq<Element>, checksum: string,
                                      timestamp: string, dataLength: nat)
    requires Encodes(c)
    ensures var d := Plain(size, objectSize, elements, checksum, timestamp);
            && HMAC_KEY !in d
            && Check(c, d, dataLength) == (if dataLength == objectSize then Ok(d) else Err(ValueError))
            && Check(c, WithDigest(c, d), dataLength) ==
              (if dataLength == objectSize then Ok(WithDigest(c, d)) else Err(ValueError))
  {
  }

  /**
   * Metadata that was built decodes again, to what was recorded, exactly if the object has the
   * recorded length, and a digest was added if one is demanded.
   */
  lemma {:induction false} DecodeBuilt(c: Codec, protectWrite: bool, protectRead: bool, size: nat, objectSize: nat,
                                       elements: seq<Element>, checksum: string, timestamp: string, dataLength: nat)
    requires Encodes(c)
    ensures var d := Plain(size, objectSize, elements, checksum, timestamp);
            var r := Decoded(c, protectRead, Dump(c, Built(c, protectWrite, d)), dataLength);
            && (r.Ok? <==> dataLength == objectSize && (protectRead ==> protectWrite))
            && (r.Ok? && protectRead ==> r.value == d)
            && (r.Ok? && !protectRead ==> r.value == Built(c, protectWrite, d))
  {
    hide Plain, WithDigest, Verified, Check;
    var d := Plain(size, objectSize, elements, checksum, timestamp);
    CheckPlain(c, size, objectSize, elements, checksum, timestamp, dataLength);
    VerifyAdded(c, d);
    MissingDigest(c, d);
  }

  lemma {:induction false} MissingDigest(c: Codec, d: Dictionary)
    requires HMAC_KEY !in d
    ensures Verified(c, d).Err?
  {
  }
}
