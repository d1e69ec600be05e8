/** The stack of transforms that a storage applies to data, such as compression and encryption. */
module Transforms {
  import opened Images
  import opened Tables

  /** A value of a dictionary that is stored as JSON; a fraction is kept as the text that is shown for it. */
  datatype Json = Str(text: string) | Num(number: int) | Real(shown: string) | Flag(value: bool) | Null
                | List(items: seq<Json>) | Dict(entries: map<string, Json>)

  datatype Error = NotFound | KeyError | ValueError | ConfigurationError | IoError | TransformError

  datatype Result<+T> = Ok(value: T) | Err(error: Error)

  /**
   * A configured transform. Encapsulating may draw on randomness and may decline; what it yields
   * comes with the materials that decapsulating needs.
   */
  datatype Transform = Transform(name: string, kind: string,
                                 encapsulate: (Bytes, nat) -> Option<(Bytes, Json)>,
                                 decapsulate: (Bytes, Json) -> Option<Bytes>)

  /** Decapsulating undoes every encapsulation, whatever the randomness. */
  ghost predicate Invertible(t: Transform) {
    forall data, random :: t.encapsulate(data, random).Some? ==>
      t.decapsulate(t.encapsulate(data, random).value.0, t.encapsulate(data, random).value.1) == Some(data)
  }

  /** The record of one applied transform, in an object's metadata. */
  datatype Element = Element(name: string, kind: string, materials: Json)

  type Registry = map<string, Transform>

  /** What decapsulating by a transform's record needs of the configuration. */
  ghost predicate Registered(registry: Registry, t: Transform) {
    t.name in registry && registry[t.name].kind == t.kind && registry[t.name].decapsulate == t.decapsulate
  }

  /** Undoes one recorded transform. */
  function Undo(registry: Registry, data: Bytes, e: Element): Result<Bytes> {
    if e.name !in registry then Err(IoError)
    else if registry[e.name].kind != e.kind then Err(ConfigurationError)
    else match registry[e.name].decapsulate(data, e.materials)
      case None => Err(TransformError)
      case Some(plain) => Ok(plain)
  }

  /** Undoes all recorded transforms, the last one first. */
  function Undone(registry: Registry, data: Bytes, elements: seq<Element>): Result<Bytes>
    decreases |elements|
  {
    if elements == [] then Ok(data)
    else match Undo(registry, data, elements[|elements| - 1])
      case Err(e) => Err(e)
      case Ok(plain) => Undone(registry, plain, elements[..|elements| - 1])
  }

  ghost predicate Usable(active: seq<Transform>, registry: Registry) {
    forall k :: 0 <= k < |active| ==> Invertible(active[k]) && Registered(registry, active[k])
  }

  lemma {:induction false} UndoneAppend(registry: Registry, data: Bytes, elements: seq<Element>, e: Element,
                                        plain: Bytes)
    requires Undo(registry, data, e) == Ok(plain)
    ensures Undone(registry, data, elements + [e]) == Undone(registry, plain, elements)
  {
    assert (elements + [e])[..|elements|] == elements;
  }

  lemma {:induction false} UndoApplied(registry: Registry, t: Transform, data: Bytes, random: nat)
    requires Invertible(t) && Registered(registry, t) && Try(t, data, random).Some?
    ensures var (encapsulated, materials) := Try(t, data, random).value;
            Undo(registry, encapsulated, Element(t.name, t.kind, materials)) == Ok(data)
  {
  }

  function Try(t: Transform, data: Bytes, random: nat): Option<(Bytes, Json)> {
    t.encapsulate(data, random)
  }

  /** The data and the record after one more transform, given the randomness it drew. */
  function ApplyOne(t: Transform, random: nat, data: Bytes, elements: seq<Element>): (Bytes, seq<Element>) {
    var result := Try(t, data, random);
    if result.None? || result.value.0 == [] then (data, elements)
    else (result.value.0, elements + [Element(t.name, t.kind, result.value.1)])
  }

  /** The data and the record after all transforms, in order. */
  function Applied(active: seq<Transform>, random: seq<nat>, data: Bytes): (Bytes, seq<Element>)
    requires |active| == |random|
  {
    if active == [] then (data, [])
    else
      var n := |active| - 1;
      var before := Applied(active[..n], random[..n], data);
      ApplyOne(active[n], random[n], before.0, before.1)
  }

  /**
   * Applies the active transforms in order. One that declines, or that yields no bytes, is passed
   * over. Undoing what was recorded gives the data back.
   */
  method Encapsulate(active: Option<seq<Transform>>, data: Bytes, ghost registry: Registry)
    returns (out: Bytes, elements: seq<Element>, ghost drawn: seq<nat>)
    requires active.Some? ==> Usable(active.value, registry)
    ensures Undone(registry, out, elements) == Ok(data)
    ensures active.Some? ==> |drawn| == |active.value| && (out, elements) == Applied(active.value, drawn, data)
    ensures active.None? ==> out == data && elements == []
  {
    out, elements, drawn := data, [], [];
    if active.None? { return; }
    for k := 0 to |active.value|
      invariant Undone(registry, out, elements) == Ok(data)
      invariant |drawn| == k && (out, elements) == Applied(active.value[..k], drawn, data)
    {
      var t := active.value[k];
      var random: nat := *;
      assert active.value[..k + 1][..k] == active.value[..k] && (drawn + [random])[..k] == drawn;
      ghost var next := ApplyOne(t, random, out, elements);
      assert Applied(active.value[..k + 1], drawn + [random], data) == next;
      drawn := drawn + [random];
      var result := Try(t, out, random);
      if result.Some? && result.value.0 != [] {
        var (encapsulated, materials) := result.value;
        var e := Element(t.name, t.kind, materials);
        UndoApplied(registry, t, out, random);
        UndoneAppend(registry, encapsulated, elements, e, out);
        elements := elements + [e];
        out := encapsulated;
      }
      assert out == next.0 && elements == next.1;
    }
    assert active.value[..|active.value|] == active.value;
  }

  method Decapsulate(registry: Registry, data: Bytes, elements: seq<Element>) returns (r: Result<Bytes>)
    ensures r == Undone(registry, data, elements)
  {
    var plain := data;
    assert elements[..|elements|] == elements;
    for k := |elements| downto 0
      invariant Undone(registry, plain, elements[..k]) == Undone(registry, data, elements)
    {
      assert elements[..k + 1][..k] == elements[..k];
      var step := Undo(registry, plain, elements[k]);
      if step.Err? { return Err(step.error); }
      plain := step.value;
    }
    return Ok(plain);
  }
}
