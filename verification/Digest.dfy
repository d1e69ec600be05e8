/** The keyed digest of a dictionary: a hash of the text that a traversal of the dictionary feeds. */
module Digest {
  import opened Transforms

  type Dictionary = map<string, Json>

  // ---------------------------------------------------------------- sorted keys

  /** Order of strings by code points. */
  predicate AtMost(a: string, b: string) {
    a == [] || (b != [] && (a[0] < b[0] || (a[0] == b[0] && AtMost(a[1..], b[1..]))))
  }

  lemma {:induction false} AtMostTotal(a: string, b: string)
    ensures AtMost(a, b) || AtMost(b, a)
    ensures AtMost(a, b) && AtMost(b, a) ==> a == b
  {
    if a != [] && b != [] && a[0] == b[0] {
      AtMostTotal(a[1..], b[1..]);
      assert a == [a[0]] + a[1..] && b == [b[0]] + b[1..];
    }
  }

  lemma {:induction false} AtMostTransitive(a: string, b: string, c: string)
    requires AtMost(a, b) && AtMost(b, c)
    ensures AtMost(a, c)
  {
    if a != [] && a[0] == b[0] && b[0] == c[0] {
      AtMostTransitive(a[1..], b[1..], c[1..]);
    }
  }

  ghost predicate IsLeast(k: string, keys: set<string>) {
    k in keys && forall j :: j in keys ==> AtMost(k, j)
  }

  lemma {:induction false} LeastExists(keys: set<string>)
    requires keys != {}
    ensures exists k :: IsLeast(k, keys)
  {
    var k :| k in keys;
    AtMostTotal(k, k);
    if keys - {k} == {} {
      assert keys == {k};
      assert IsLeast(k, keys);
    } else {
      LeastExists(keys - {k});
      var l :| IsLeast(l, keys - {k});
      AtMostTotal(k, l);
      if AtMost(k, l) {
        forall j | j in keys ensures AtMost(k, j) {
          if j != k { AtMostTransitive(k, l, j); }
        }
        assert IsLeast(k, keys);
      } else {
        assert IsLeast(l, keys);
      }
    }
  }

  lemma {:induction false} LeastUnique(k: string, l: string, keys: set<string>)
    requires IsLeast(k, keys) && IsLeast(l, keys)
    ensures k == l
  {
    AtMostTotal(k, l);
  }

  ghost function Least(keys: set<string>): (k: string)
    requires keys != {}
    ensures IsLeast(k, keys)
  {
    LeastExists(keys);
    var k :| IsLeast(k, keys);
    k
  }

  ghost function SortedKeys(keys: set<string>): (s: seq<string>)
    ensures forall k :: k in s <==> k in keys
  {
    if keys == {} then [] else [Least(keys)] + SortedKeys(keys - {Least(keys)})
  }

  /** Sorts the keys of a dictionary. */
  method SortKeys(keys: set<string>) returns (sorted: seq<string>)
    ensures sorted == SortedKeys(keys)
  {
    sorted := [];
    var rest := keys;
    while rest != {}
      invariant sorted + SortedKeys(rest) == SortedKeys(keys)
      decreases rest
    {
      assert IsLeast(Least(rest), rest);
      var k :| k in rest && forall j :: j in rest ==> AtMost(k, j);
      LeastUnique(k, Least(rest), rest);
      sorted := sorted + [k];
      rest := rest - {k};
    }
  }

  // ---------------------------------------------------------------- the traversal

  function Digits(n: nat): string {
    if n < 10 then [(n as char) + '0'] else Digits(n / 10) + [((n % 10) as char) + '0']
  }

  function Decimal(n: int): string {
    if n < 0 then "-" + Digits(-n) else Digits(n)
  }

  /** The text that a value feeds: keys in order, each followed by its value, with nothing in between. */
  ghost function Feed(j: Json): string
    decreases j, 1, 0
  {
    match j
    case Str(text) => text
    case Num(number) => Decimal(number)
    case Real(shown) => shown
    case Flag(value) => if value then "True" else "False"
    case Null => "None"
    case List(items) => FeedItems(j, |items|)
    case Dict(entries) => FeedEntries(j, SortedKeys(entries.Keys))
  }

  /** The text of the first `n` items of a list. */
  ghost function FeedItems(j: Json, n: nat): string
    requires j.List? && n <= |j.items|
    decreases j, 0, n
  {
    if n == 0 then "" else FeedItems(j, n - 1) + Feed(j.items[n - 1])
  }

  ghost function FeedEntries(j: Json, keys: seq<string>): string
    requires j.Dict? && forall k :: k in keys ==> k in j.entries
    decreases j, 0, |keys|
  {
    if keys == [] then "" else keys[0] + Feed(j.entries[keys[0]]) + FeedEntries(j, keys[1..])
  }

  /** Feeds a value to a running digest. */
  method Traverse(fed: string, j: Json) returns (more: string)
    ensures more == fed + Feed(j)
    decreases j, 1
  {
    match j
    case Str(text) => more := fed + text;
    case Num(number) => more := fed + Decimal(number);
    case Real(shown) => more := fed + shown;
    case Flag(value) => more := fed + if value then "True" else "False";
    case Null => more := fed + "None";
    case List(_) => more := TraverseItems(fed, j);
    case Dict(_) => more := TraverseEntries(fed, j);
  }

  method TraverseItems(fed: string, j: Json) returns (more: string)
    requires j.List?
    ensures more == fed + Feed(j)
    decreases j, 0
  {
    more := fed;
    for n := 0 to |j.items|
      invariant more == fed + FeedItems(j, n)
    {
      more := Traverse(more, j.items[n]);
    }
  }

  method TraverseEntries(fed: string, j: Json) returns (more: string)
    requires j.Dict?
    ensures more == fed + Feed(j)
    decreases j, 0
  {
    hide SortedKeys;
    more := fed;
    var keys := SortKeys(j.entries.Keys);
    for n := 0 to |keys|
      invariant more + FeedEntries(j, keys[n..]) == fed + FeedEntries(j, keys)
    {
      assert keys[n..][0] == keys[n] && keys[n..][1..] == keys[n + 1..];
      more := Traverse(more + keys[n], j.entries[keys[n]]);
    }
  }

  // ---------------------------------------------------------------- what a digest tells

  /**
   * The text does not determine the dictionary, because nothing separates keys and values: a
   * character may move from a value into its key.
   */
  lemma {:induction false} SameFeed(key: string, c: char, rest: string)
    ensures Feed(Dict(map[key := Str([c] + rest)])) == Feed(Dict(map[key + [c] := Str(rest)]))
    ensures map[key := Str([c] + rest)] != map[key + [c] := Str(rest)]
  {
    FeedSingle(key, Str([c] + rest));
    FeedSingle(key + [c], Str(rest));
    assert key + ([c] + rest) == key + [c] + rest;
    assert key in map[key := Str([c] + rest)] && |key| != |key + [c]|;
  }

  lemma {:induction false} FeedSingle(key: string, value: Json)
    ensures Feed(Dict(map[key := value])) == key + Feed(value)
  {
    var j := Dict(map[key := value]);
    assert j.entries.Keys == {key};
    assert SortedKeys({key}) == [Least({key})] + SortedKeys({key} - {Least({key})});
    assert {key} - {Least({key})} == {};
    assert SortedKeys(j.entries.Keys) == [key] && [key][1..] == [];
    assert FeedEntries(j, [key]) == key + Feed(value) + FeedEntries(j, []);
  }

  /** The values of two dictionaries with the same keys feed texts of the same lengths. */
  ghost predicate SameLengths(d: Dictionary, e: Dictionary) {
    d.Keys == e.Keys && forall k :: k in d ==> |Feed(d[k])| == |Feed(e[k])|
  }

  /** With the same keys, and values of the same lengths, the text does determine what each value feeds. */
  lemma {:induction false} FeedDetermines(d: Dictionary, e: Dictionary)
    requires SameLengths(d, e)
    ensures Feed(Dict(d)) == Feed(Dict(e)) <==> forall k :: k in d ==> Feed(d[k]) == Feed(e[k])
  {
    EntriesDetermine(d, e, SortedKeys(d.Keys));
  }

  lemma {:induction false} EntriesDetermine(d: Dictionary, e: Dictionary, keys: seq<string>)
    requires SameLengths(d, e) && forall k :: k in keys ==> k in d
    ensures |FeedEntries(Dict(d), keys)| == |FeedEntries(Dict(e), keys)|
    ensures FeedEntries(Dict(d), keys) == FeedEntries(Dict(e), keys) <==> forall k :: k in keys ==>
              Feed(d[k]) == Feed(e[k])
  {
    if keys != [] {
      EntriesDetermine(d, e, keys[1..]);
      var k := keys[0];
      Prefixes(k + Feed(d[k]), FeedEntries(Dict(d), keys[1..]), k + Feed(e[k]), FeedEntries(Dict(e), keys[1..]));
      Prefixes(k, Feed(d[k]), k, Feed(e[k]));
      assert keys == [k] + keys[1..];
    }
  }

  lemma {:induction false} Prefixes(a: string, x: string, b: string, y: string)
    requires |a| == |b|
    ensures a + x == b + y <==> a == b && x == y
  {
    assert (a + x)[..|a|] == a && (b + y)[..|b|] == b && (a + x)[|a|..] == x && (b + y)[|b|..] == y;
  }
}
