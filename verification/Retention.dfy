/** The retention filter: which versions a retention policy dismisses, in one run and over many. */
module Retention {
  import opened Arithmetic
  import opened Calendar

  datatype Version = Version(uid: nat, date: Time)

  datatype Rule = Rule(category: Category, count: Pos)

  /** Number of latest versions to keep in any case, the other rules in order, and the reference time. */
  datatype Policy = Policy(latest: nat, rules: seq<Rule>, reference: Time)

  /** What becomes of a version: it is in the future, in a bucket of a rule, or too old for all rules. */
  datatype Place = Future | Bucket(rule: nat, age: nat) | TooOld

  /** Units of a category between a time and the reference time. */
  function Age(c: Category, t: Time, reference: Time): (age: nat)
    requires t <= reference
  {
    UnitMono(c, t, reference);
    Unit(c, reference) - Unit(c, t)
  }

  /** The first rule from a given one on whose count a time's age does not exceed. */
  function FirstRule(p: Policy, t: Time, from: nat): (k: nat)
    requires t <= p.reference && from <= |p.rules|
    ensures from <= k <= |p.rules|
    ensures k < |p.rules| ==> Age(p.rules[k].category, t, p.reference) <= p.rules[k].count
    ensures forall j :: from <= j < k ==> Age(p.rules[j].category, t, p.reference) > p.rules[j].count
    decreases |p.rules| - from
  {
    if from == |p.rules| || Age(p.rules[from].category, t, p.reference) <= p.rules[from].count then from
    else FirstRule(p, t, from + 1)
  }

  function PlaceOf(p: Policy, t: Time): Place {
    if t > p.reference then Future
    else
      var k := FirstRule(p, t, 0);
      if k == |p.rules| then TooOld else Bucket(k, Age(p.rules[k].category, t, p.reference))
  }

  /** The older a version, the later the rule it falls under, until it is too old for all of them. */
  lemma {:induction false} RuleMonotone(p: Policy, s: Time, t: Time)
    requires s <= t <= p.reference
    ensures FirstRule(p, s, 0) >= FirstRule(p, t, 0)
  {
    hide FirstRule;
    var k := FirstRule(p, s, 0);
    if k < FirstRule(p, t, 0) {
      UnitMono(p.rules[k].category, s, t);
    }
  }

  // ---------------------------------------------------------------- sorting

  /** Sorted from youngest to oldest. */
  predicate Descending(s: seq<Version>) {
    |s| < 2 || (Descending(s[..|s| - 1]) && s[|s| - 2].date >= s[|s| - 1].date)
  }

  /** Inserts behind all versions that are not older, which keeps the sort stable. */
  function Insert(s: seq<Version>, v: Version): seq<Version> {
    if s == [] || s[|s| - 1].date >= v.date then s + [v] else Insert(s[..|s| - 1], v) + [s[|s| - 1]]
  }

  /** Stable sort from youngest to oldest. */
  function Sort(s: seq<Version>): seq<Version> {
    if s == [] then [] else Insert(Sort(s[..|s| - 1]), s[|s| - 1])
  }

  lemma {:induction false} InsertSorted(s: seq<Version>, v: Version)
    requires Descending(s)
    ensures |Insert(s, v)| == |s| + 1 && Descending(Insert(s, v))
    ensures var last := Insert(s, v)[|s|]; last == v || (s != [] && last == s[|s| - 1])
  {
    if s == [] || s[|s| - 1].date >= v.date {
      assert (s + [v])[..|s|] == s;
    } else {
      InsertSorted(s[..|s| - 1], v);
      var rest := Insert(s[..|s| - 1], v);
      assert (rest + [s[|s| - 1]])[..|s|] == rest;
    }
  }

  lemma {:induction false} InsertAdds(s: seq<Version>, v: Version)
    ensures multiset(Insert(s, v)) == multiset(s) + multiset{v}
  {
    if s != [] && s[|s| - 1].date < v.date {
      InsertAdds(s[..|s| - 1], v);
      assert s == s[..|s| - 1] + [s[|s| - 1]];
    }
  }

  lemma {:induction false} SortSorts(s: seq<Version>)
    ensures Descending(Sort(s)) && |Sort(s)| == |s|
  {
    if s != [] {
      SortSorts(s[..|s| - 1]);
      InsertSorted(Sort(s[..|s| - 1]), s[|s| - 1]);
    }
  }

  lemma {:induction false} SortPermutes(s: seq<Version>)
    ensures multiset(Sort(s)) == multiset(s)
  {
    hide Insert;
    if s != [] {
      var n := |s| - 1;
      SortPermutes(s[..n]);
      InsertAdds(Sort(s[..n]), s[n]);
      assert Sort(s) == Insert(Sort(s[..n]), s[n]);
      assert s == s[..n] + [s[n]];
    }
  }

  /** A version that is not younger than the last one goes to the end. */
  lemma {:induction false} InsertLast(s: seq<Version>, n: nat)
    requires n + 1 == |s| && Descending(s)
    ensures Descending(s[..n]) && Insert(s[..n], s[n]) == s
  {
    assert n > 0 ==> s[..n][n - 1] == s[n - 1];
    assert s[..n] + [s[n]] == s;
  }

  /** Sorted versions stay as they are, ties included. */
  lemma {:induction false} SortKeepsSorted(s: seq<Version>)
    requires Descending(s)
    ensures Sort(s) == s
  {
    hide Insert, Descending;
    if s != [] {
      var n := |s| - 1;
      InsertLast(s, n);
      SortKeepsSorted(s[..n]);
    }
  }

  // ---------------------------------------------------------------- what is kept

  /** Some version has the given place. */
  predicate Occurs(p: Policy, s: seq<Version>, b: Place) {
    s != [] && (PlaceOf(p, s[0].date) == b || Occurs(p, s[1..], b))
  }

  /** The first version stays if it is in the future, or in a bucket that no later version is in. */
  predicate KeepsFirst(p: Policy, s: seq<Version>)
    requires s != []
  {
    var b := PlaceOf(p, s[0].date);
    b.Future? || (b.Bucket? && !Occurs(p, s[1..], b))
  }

  function Kept(p: Policy, s: seq<Version>): seq<Version> {
    if s == [] then [] else (if KeepsFirst(p, s) then [s[0]] else []) + Kept(p, s[1..])
  }

  function Members(p: Policy, s: seq<Version>, b: Place): seq<Version> {
    if s == [] then [] else (if PlaceOf(p, s[0].date) == b then [s[0]] else []) + Members(p, s[1..], b)
  }

  /** The latest versions, which stay in any case, and the others, both from youngest to oldest. */
  function Latest(p: Policy, versions: seq<Version>): seq<Version> {
    Sort(versions)[..Min(p.latest, |Sort(versions)|)]
  }

  function Rest(p: Policy, versions: seq<Version>): seq<Version> {
    Sort(versions)[Min(p.latest, |Sort(versions)|)..]
  }

  /** The versions left by a run of the filter, from youngest to oldest. */
  function Survivors(p: Policy, versions: seq<Version>): seq<Version> {
    Latest(p, versions) + Kept(p, Rest(p, versions))
  }

  /** Of each bucket exactly the last version stays, of the future all, of those too old none. */
  lemma {:induction false} KeptMembers(p: Policy, s: seq<Version>, b: Place)
    ensures var all, kept := Members(p, s, b), Members(p, Kept(p, s), b);
            match b
            case Future => kept == all
            case TooOld => kept == []
            case Bucket(_, _) => kept == if all == [] then [] else all[|all| - 1..]
  {
    if s != [] {
      hide PlaceOf, Kept, Occurs;
      KeptMembers(p, s[1..], b);
      OccursIffMembers(p, s[1..], b);
      KeptStep(p, s, b);
    } else {
      assert Kept(p, s) == [];
    }
  }

  lemma {:induction false} KeptStep(p: Policy, s: seq<Version>, b: Place)
    requires s != []
    ensures Members(p, Kept(p, s), b) ==
            (if KeepsFirst(p, s) && PlaceOf(p, s[0].date) == b then [s[0]] else []) + Members(p, Kept(p, s[1..]), b)
  {
    hide PlaceOf, Occurs;
    if KeepsFirst(p, s) {
      assert Kept(p, s)[0] == s[0] && Kept(p, s)[1..] == Kept(p, s[1..]);
    } else {
      assert Kept(p, s) == Kept(p, s[1..]);
    }
  }

  lemma {:induction false} OccursIffMembers(p: Policy, s: seq<Version>, b: Place)
    ensures Occurs(p, s, b) <==> Members(p, s, b) != []
  {
    if s != [] {
      OccursIffMembers(p, s[1..], b);
    }
  }

  /** A version of a bucket is never older than the last one, in sorted order. */
  lemma {:induction false} LastIsOldest(s: seq<Version>, i: nat)
    requires Descending(s) && i < |s|
    ensures s[i].date >= s[|s| - 1].date
  {
    if i < |s| - 1 {
      LastIsOldest(s[..|s| - 1], i);
    }
  }

  lemma {:induction false} TailDescends(s: seq<Version>)
    requires Descending(s) && s != []
    ensures Descending(s[1..])
  {
    if |s| > 1 {
      TailDescends(s[..|s| - 1]);
      assert s[1..][..|s| - 2] == s[..|s| - 1][1..];
    }
  }

  lemma {:induction false} ConsDescends(v: Version, s: seq<Version>)
    requires Descending(s) && (s != [] ==> v.date >= s[0].date)
    ensures Descending([v] + s)
  {
    if |s| > 0 {
      ConsDescends(v, s[..|s| - 1]);
      assert ([v] + s)[..|s|] == [v] + s[..|s| - 1];
    }
  }

  /** Parts of a sorted list are sorted: what is kept, and the members of each place. */
  lemma {:induction false} KeptDescends(p: Policy, s: seq<Version>)
    requires Descending(s)
    ensures Descending(Kept(p, s))
    ensures Kept(p, s) != [] ==> s != [] && Kept(p, s)[0].date <= s[0].date
  {
    hide Descending, KeepsFirst;
    if s == [] {
      EmptyDescends();
    } else {
      TailDescends(s);
      KeptDescends(p, s[1..]);
      FirstIsYoungest(s);
      ConsDescends(s[0], Kept(p, s[1..]));
      assert [] + Kept(p, s[1..]) == Kept(p, s[1..]);
    }
  }

  lemma {:induction false} EmptyDescends()
    ensures Descending([])
  {
  }

  lemma {:induction false} FirstIsYoungest(s: seq<Version>)
    requires Descending(s) && s != []
    ensures |s| > 1 ==> s[0].date >= s[1].date
  {
    if |s| > 2 {
      FirstIsYoungest(s[..|s| - 1]);
    }
  }

  lemma {:induction false} MembersDescend(p: Policy, s: seq<Version>, b: Place)
    requires Descending(s)
    ensures Descending(Members(p, s, b))
    ensures Members(p, s, b) != [] ==> s != [] && Members(p, s, b)[0].date <= s[0].date
  {
    hide Descending, PlaceOf;
    if s == [] {
      EmptyDescends();
    } else {
      TailDescends(s);
      MembersDescend(p, s[1..], b);
      FirstIsYoungest(s);
      ConsDescends(s[0], Members(p, s[1..], b));
      assert [] + Members(p, s[1..], b) == Members(p, s[1..], b);
    }
  }

  /** The version that stays of a bucket is an oldest one of the bucket. */
  lemma {:induction false} KeepsOldest(p: Policy, s: seq<Version>, b: Place, i: nat)
    requires Descending(s) && b.Bucket? && i < |Members(p, s, b)|
    ensures |Members(p, Kept(p, s), b)| == 1
    ensures Members(p, Kept(p, s), b)[0].date <= Members(p, s, b)[i].date
  {
    KeptMembers(p, s, b);
    MembersDescend(p, s, b);
    LastIsOldest(Members(p, s, b), i);
  }

  // ---------------------------------------------------------------- a second run at the same time

  lemma {:induction false} KeptOccurs(p: Policy, s: seq<Version>, b: Place)
    requires b.Bucket?
    ensures Occurs(p, Kept(p, s), b) <==> Occurs(p, s, b)
  {
    OccursIffMembers(p, s, b);
    OccursIffMembers(p, Kept(p, s), b);
    KeptMembers(p, s, b);
  }

  lemma {:induction false} KeptAgain(p: Policy, s: seq<Version>)
    ensures Kept(p, Kept(p, s)) == Kept(p, s)
  {
    if s != [] {
      hide PlaceOf, Occurs;
      KeptAgain(p, s[1..]);
      if KeepsFirst(p, s) {
        var b := PlaceOf(p, s[0].date);
        if b.Bucket? { KeptOccurs(p, s[1..], b); }
        assert Kept(p, s)[0] == s[0] && Kept(p, s)[1..] == Kept(p, s[1..]);
      } else {
        assert Kept(p, s) == Kept(p, s[1..]);
      }
    }
  }

  lemma {:induction false} SurvivorsDescend(p: Policy, versions: seq<Version>)
    ensures Descending(Survivors(p, versions))
  {
    SortSorts(versions);
    PrefixWithKept(p, Sort(versions), Min(p.latest, |versions|));
  }

  lemma {:induction false} PrefixWithKept(p: Policy, s: seq<Version>, n: nat)
    requires Descending(s) && n <= |s|
    ensures Descending(s[..n] + Kept(p, s[n..]))
    ensures s[..n] + Kept(p, s[n..]) != [] ==> s != [] && (s[..n] + Kept(p, s[n..]))[0].date <= s[0].date
  {
    hide Descending, Kept;
    if n == 0 {
      KeptDescends(p, s);
      assert s[0..] == s && s[..0] + Kept(p, s) == Kept(p, s);
    } else {
      TailDescends(s);
      FirstIsYoungest(s);
      PrefixWithKept(p, s[1..], n - 1);
      var rest := s[1..][..n - 1] + Kept(p, s[1..][n - 1..]);
      assert s[1..][n - 1..] == s[n..];
      assert s[..n] + Kept(p, s[n..]) == [s[0]] + rest;
      ConsDescends(s[0], rest);
    }
  }

  /** Filtering the survivors once more, at the same reference time, keeps them all. */
  lemma {:induction false} RerunKeepsAll(p: Policy, versions: seq<Version>)
    ensures Survivors(p, Survivors(p, versions)) == Survivors(p, versions)
  {
    var s, n, kept := Sort(versions), Min(p.latest, |versions|), Survivors(p, versions);
    SortSorts(versions);
    SurvivorsDescend(p, versions);
    SortKeepsSorted(kept);
    KeptAgain(p, s[n..]);
    if p.latest <= |versions| {
      assert kept[..n] == s[..n] && kept[n..] == Kept(p, s[n..]);
    } else {
      assert s[n..] == [] && kept == s;
      assert kept[..n] == kept && kept[n..] == [];
    }
  }

  // ---------------------------------------------------------------- the filter

  /** Those dismissed once the given buckets have been dealt with: the too old, and all but the last of a bucket. */
  function Dropped(p: Policy, s: seq<Version>, done: set<Place>): seq<Version> {
    if s == [] then []
    else
      var b := PlaceOf(p, s[0].date);
      (if b.TooOld? || (b in done && Occurs(p, s[1..], b)) then [s[0]] else []) + Dropped(p, s[1..], done)
  }

  lemma {:induction false} DropNone(p: Policy, s: seq<Version>)
    ensures Dropped(p, s, {}) == Members(p, s, TooOld)
  {
    if s != [] {
      hide PlaceOf, Occurs;
      DropNone(p, s[1..]);
    }
  }

  /** All members of a place but the last. */
  function AllButLast(p: Policy, s: seq<Version>, b: Place): seq<Version> {
    var all := Members(p, s, b);
    if all == [] then [] else all[..|all| - 1]
  }

  lemma {:induction false} AllButLastStep(p: Policy, s: seq<Version>, b: Place)
    requires s != []
    ensures AllButLast(p, s, b) ==
            (if PlaceOf(p, s[0].date) == b && Occurs(p, s[1..], b) then [s[0]] else []) + AllButLast(p, s[1..], b)
  {
    hide PlaceOf;
    OccursIffMembers(p, s[1..], b);
  }

  lemma {:induction false} DropBucket(p: Policy, s: seq<Version>, done: set<Place>, b: Place)
    requires b.Bucket? && b !in done
    ensures multiset(Dropped(p, s, done + {b})) == multiset(Dropped(p, s, done)) + multiset(AllButLast(p, s, b))
  {
    if s != [] {
      hide PlaceOf, Occurs, AllButLast;
      DropBucket(p, s[1..], done, b);
      AllButLastStep(p, s, b);
    } else {
      assert AllButLast(p, s, b) == [];
    }
  }

  lemma {:induction false} FirstOccurs(p: Policy, s: seq<Version>)
    requires s != []
    ensures Occurs(p, s, PlaceOf(p, s[0].date))
  {
    hide PlaceOf;
  }

  lemma {:induction false} RestOccurs(p: Policy, s: seq<Version>, done: set<Place>)
    requires s != [] && forall b: Place :: b.Bucket? && Occurs(p, s, b) ==> b in done
    ensures forall b: Place :: b.Bucket? && Occurs(p, s[1..], b) ==> b in done
  {
    hide PlaceOf;
    forall b: Place | b.Bucket? && Occurs(p, s[1..], b) ensures Occurs(p, s, b) {}
  }

  /** With all buckets dealt with, what is dropped and what is kept make up everything. */
  function DroppedAndKept(p: Policy, s: seq<Version>, done: set<Place>): multiset<Version> {
    multiset(Dropped(p, s, done)) + multiset(Kept(p, s))
  }

  lemma {:induction false} DropOrKeep(p: Policy, s: seq<Version>, done: set<Place>)
    requires s != [] && (PlaceOf(p, s[0].date).Bucket? <==> PlaceOf(p, s[0].date) in done)
    ensures DroppedAndKept(p, s, done) == multiset([s[0]]) + DroppedAndKept(p, s[1..], done)
  {
    hide PlaceOf, Occurs;
  }

  lemma {:induction false} FirstAndRest(s: seq<Version>)
    requires s != []
    ensures multiset(s) == multiset([s[0]]) + multiset(s[1..])
  {
    assert s == [s[0]] + s[1..];
  }

  lemma {:induction false} DropAll(p: Policy, s: seq<Version>, done: set<Place>)
    requires forall b: Place :: b.Bucket? && Occurs(p, s, b) ==> b in done
    requires forall b: Place :: b in done ==> b.Bucket?
    ensures DroppedAndKept(p, s, done) == multiset(s)
  {
    if s == [] {
      assert Dropped(p, s, done) == Kept(p, s) == [];
    } else {
      hide PlaceOf, Occurs, DroppedAndKept;
      FirstOccurs(p, s);
      RestOccurs(p, s, done);
      DropAll(p, s[1..], done);
      DropOrKeep(p, s, done);
      FirstAndRest(s);
    }
  }

  lemma {:induction false} MembersAppend(p: Policy, s: seq<Version>, v: Version, b: Place)
    ensures Members(p, s + [v], b) == Members(p, s, b) + if PlaceOf(p, v.date) == b then [v] else []
  {
    hide PlaceOf;
    if s == [] {
      assert s + [v] == [v] && [v][1..] == [];
    } else {
      MembersAppend(p, s[1..], v, b);
      assert (s + [v])[1..] == s[1..] + [v];
    }
  }

  /** Finds the rule that a version falls under. */
  method Classify(p: Policy, t: Time) returns (b: Place)
    ensures b == PlaceOf(p, t)
  {
    if t > p.reference { return Future; }
    b := TooOld;
    for k := 0 to |p.rules|
      invariant b == TooOld && FirstRule(p, t, 0) == FirstRule(p, t, k)
    {
      var age := Age(p.rules[k].category, t, p.reference);
      if age <= p.rules[k].count { return Bucket(k, age); }
    }
  }

  /** The buckets hold the members of every bucket, in order. */
  ghost predicate Sorted(p: Policy, s: seq<Version>, buckets: map<Place, seq<Version>>) {
    && (forall b :: b in buckets ==> b.Bucket?)
    && (forall b: Place :: b.Bucket? ==> Members(p, s, b) == if b in buckets then buckets[b] else [])
    && (forall b :: b in buckets ==> buckets[b] != [])
  }

  lemma {:induction false} SortedAppend(p: Policy, s: seq<Version>, v: Version, buckets: map<Place, seq<Version>>)
    requires Sorted(p, s, buckets)
    ensures var b := PlaceOf(p, v.date);
            Sorted(p, s + [v],
                   if b.Bucket? then buckets[b := (if b in buckets then buckets[b] else []) + [v]] else buckets)
  {
    hide PlaceOf, Members;
    forall b ensures Members(p, s + [v], b) == Members(p, s, b) + if PlaceOf(p, v.date) == b then [v] else [] {
      MembersAppend(p, s, v, b);
    }
  }

  /** Puts every version that is not in the future into its bucket, or dismisses it as too old. */
  method SortIntoBuckets(p: Policy, s: seq<Version>)
    returns (dismissed: seq<Version>, buckets: map<Place, seq<Version>>)
    ensures dismissed == Members(p, s, TooOld) && Sorted(p, s, buckets)
  {
    hide PlaceOf, Sorted;
    dismissed, buckets := [], map[];
    NothingSorted(p);
    for i := 0 to |s|
      invariant dismissed == Members(p, s[..i], TooOld) && Sorted(p, s[..i], buckets)
    {
      assert s[..i + 1] == s[..i] + [s[i]];
      MembersAppend(p, s[..i], s[i], TooOld);
      SortedAppend(p, s[..i], s[i], buckets);
      var b := Classify(p, s[i].date);
      if b.Bucket? {
        buckets := buckets[b := (if b in buckets then buckets[b] else []) + [s[i]]];
      } else if b.TooOld? {
        dismissed := dismissed + [s[i]];
      }
    }
    assert s[..|s|] == s;
  }

  lemma {:induction false} NothingSorted(p: Policy)
    ensures Sorted(p, [], map[]) && Members(p, [], TooOld) == []
  {
  }

  lemma {:induction false} SortedOccurs(p: Policy, s: seq<Version>, buckets: map<Place, seq<Version>>)
    requires Sorted(p, s, buckets)
    ensures forall b: Place :: b.Bucket? && Occurs(p, s, b) ==> b in buckets
  {
    forall b: Place | b.Bucket? && Occurs(p, s, b) ensures b in buckets {
      OccursIffMembers(p, s, b);
    }
  }

  /** What remains after some buckets have been dealt with: the version that is kept of each. */
  ghost predicate Remains(p: Policy, s: seq<Version>, remaining: map<Place, seq<Version>>) {
    forall b :: b in remaining ==> b.Bucket? && |remaining[b]| == 1 && remaining[b] == Members(p, Kept(p, s), b)
  }

  lemma {:induction false} RemainsMore(p: Policy, s: seq<Version>, remaining: map<Place, seq<Version>>, b: Place)
    requires Remains(p, s, remaining) && b.Bucket? && Members(p, s, b) != []
    ensures var all := Members(p, s, b); Remains(p, s, remaining[b := all[|all| - 1..]])
  {
    hide Members, Kept;
    KeptMembers(p, s, b);
  }

  /** Sorts versions into buckets, and dismisses all but the last of each. */
  method FilterBuckets(p: Policy, s: seq<Version>)
    returns (dismissed: seq<Version>, remaining: map<Place, seq<Version>>)
    ensures multiset(dismissed) + multiset(Kept(p, s)) == multiset(s)
    ensures Remains(p, s, remaining) && forall b: Place :: b.Bucket? && Occurs(p, s, b) ==> b in remaining
  {
    hide PlaceOf, Sorted, Occurs, Kept, AllButLast, Remains, Dropped, Members;
    var buckets;
    dismissed, buckets := SortIntoBuckets(p, s);
    remaining := map[];
    NothingRemains(p, s);
    DropNone(p, s);
    var todo, done: set<Place> := buckets.Keys, {};
    while todo != {}
      invariant todo !! done && todo + done == buckets.Keys && remaining.Keys == done
      invariant multiset(dismissed) == multiset(Dropped(p, s, done)) && Remains(p, s, remaining)
      decreases todo
    {
      var b :| b in todo;
      BucketIs(p, s, buckets, b);
      DropBucket(p, s, done, b);
      RemainsMore(p, s, remaining, b);
      var all := buckets[b];
      dismissed := dismissed + all[..|all| - 1];
      remaining := remaining[b := all[|all| - 1..]];
      todo, done := todo - {b}, done + {b};
    }
    assert done == buckets.Keys;
    SortedOccurs(p, s, buckets);
    BucketsOnly(p, s, buckets);
    DropAll(p, s, done);
  }

  lemma {:induction false} NothingRemains(p: Policy, s: seq<Version>)
    ensures Remains(p, s, map[])
  {
  }

  /**
   * The filter. Dismissed versions and survivors make up all versions; what remains of each bucket
   * that has a version is the one that is kept of it.
   */
  method Filter(p: Policy, versions: seq<Version>)
    returns (dismissed: seq<Version>, latest: seq<Version>, remaining: map<Place, seq<Version>>)
    ensures multiset(dismissed) + multiset(Survivors(p, versions)) == multiset(versions)
    ensures latest == Latest(p, versions)
    ensures Remains(p, Rest(p, versions), remaining)
    ensures forall b: Place :: b.Bucket? && Occurs(p, Rest(p, versions), b) ==> b in remaining
  {
    hide Occurs, Kept, Remains, Sort;
    SortPermutes(versions);
    var s := Sort(versions);
    latest := s[..Min(p.latest, |s|)];
    var rest := s[Min(p.latest, |s|)..];
    dismissed, remaining := FilterBuckets(p, rest);
    assert s == latest + rest;
  }

  lemma {:induction false} BucketIs(p: Policy, s: seq<Version>, buckets: map<Place, seq<Version>>, b: Place)
    requires Sorted(p, s, buckets) && b in buckets
    ensures b.Bucket? && buckets[b] == Members(p, s, b) != [] && AllButLast(p, s, b) == buckets[b][..|buckets[b]| - 1]
  {
  }

  lemma {:induction false} BucketsOnly(p: Policy, s: seq<Version>, buckets: map<Place, seq<Version>>)
    requires Sorted(p, s, buckets)
    ensures forall b :: b in buckets ==> b.Bucket?
  {
  }
}
