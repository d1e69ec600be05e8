/** What the retention filter keeps over many runs: the oldest version of each coarsest calendar unit. */
module RetentionRuns {
  import opened Arithmetic
  import opened Calendar
  import opened Retention

  ghost predicate HasDate(s: seq<Version>, d: Time) {
    exists v :: v in s && v.date == d
  }

  /** No version of the time's unit is older than the time. */
  ghost predicate OldestInUnit(s: seq<Version>, c: Category, d: Time) {
    forall v :: v in s && Unit(c, v.date) == Unit(c, d) ==> v.date >= d
  }

  function Coarsest(rules: seq<Rule>): Category
    requires rules != []
  {
    rules[|rules| - 1].category
  }

  function Rank(c: Category): nat {
    match c
    case Hours => 0
    case Days => 1
    case Weeks => 2
    case Months => 3
    case Years => 4
  }

  /** Rules as a policy lists them: each category at most once, from finer to coarser. */
  ghost predicate Ordered(rules: seq<Rule>) {
    forall i, j :: 0 <= i < j < |rules| ==> Rank(rules[i].category) < Rank(rules[j].category)
  }

  /** Each unit of every rule lies within one unit of the coarsest rule. */
  ghost predicate Nested(rules: seq<Rule>) {
    rules != [] && forall k :: 0 <= k < |rules| ==> Refines(rules[k].category, Coarsest(rules))
  }

  /** Ordered rules are nested exactly when weeks are not followed by a coarser category. */
  lemma {:induction false} NestedUnlessWeeks(rules: seq<Rule>)
    requires Ordered(rules) && rules != []
    ensures Nested(rules) <==> forall k :: 0 <= k < |rules| - 1 ==> rules[k].category != Weeks
  {
    forall k | 0 <= k < |rules|
      ensures Refines(rules[k].category, Coarsest(rules)) <==> k == |rules| - 1 || rules[k].category != Weeks
    {
      assert k < |rules| - 1 ==> Rank(rules[k].category) < Rank(rules[|rules| - 1].category);
    }
  }

  // ---------------------------------------------------------------- membership

  lemma {:induction false} MemberIn(p: Policy, s: seq<Version>, b: Place, v: Version)
    ensures v in Members(p, s, b) <==> v in s && PlaceOf(p, v.date) == b
  {
    hide PlaceOf;
    if s != [] {
      MemberIn(p, s[1..], b, v);
      assert s == [s[0]] + s[1..];
    }
  }

  lemma {:induction false} KeptIn(p: Policy, s: seq<Version>, v: Version)
    requires v in Kept(p, s)
    ensures v in s
  {
    hide KeepsFirst;
    if s != [] && v !in Kept(p, s[1..]) {
      assert v == s[0];
    } else {
      KeptIn(p, s[1..], v);
    }
  }

  lemma {:induction false} InVersions(p: Policy, versions: seq<Version>, v: Version)
    ensures v in versions <==> v in Latest(p, versions) || v in Rest(p, versions)
  {
    SortPermutes(versions);
    var s := Sort(versions);
    assert s == Latest(p, versions) + Rest(p, versions);
    assert v in versions <==> v in multiset(versions);
    assert v in s <==> v in multiset(s);
  }

  lemma {:induction false} SurvivorIn(p: Policy, versions: seq<Version>, v: Version)
    requires v in Survivors(p, versions)
    ensures v in versions
  {
    InVersions(p, versions, v);
    if v !in Latest(p, versions) {
      KeptIn(p, Rest(p, versions), v);
    }
  }

  /** Of each bucket one version survives: one that is not younger than any other. */
  lemma {:induction false} BucketSurvivor(p: Policy, versions: seq<Version>, v: Version) returns (x: Version)
    requires v in Rest(p, versions) && PlaceOf(p, v.date).Bucket?
    ensures x in Kept(p, Rest(p, versions)) && x in Rest(p, versions)
    ensures PlaceOf(p, x.date) == PlaceOf(p, v.date) && x.date <= v.date
    ensures forall w :: w in Kept(p, Rest(p, versions)) && PlaceOf(p, w.date) == PlaceOf(p, v.date) ==> w == x
  {
    hide PlaceOf, Members, Kept;
    var rest, b := Rest(p, versions), PlaceOf(p, v.date);
    RestDescends(p, versions);
    MemberIn(p, rest, b, v);
    var i: nat :| i < |Members(p, rest, b)| && Members(p, rest, b)[i] == v;
    KeepsOldest(p, rest, b, i);
    x := Members(p, Kept(p, rest), b)[0];
    MemberIn(p, Kept(p, rest), b, x);
    KeptIn(p, rest, x);
    forall w | w in Kept(p, rest) && PlaceOf(p, w.date) == b ensures w == x {
      MemberIn(p, Kept(p, rest), b, w);
    }
  }

  lemma {:induction false} RestDescends(p: Policy, versions: seq<Version>)
    ensures Descending(Rest(p, versions))
  {
    SortSorts(versions);
    DropDescends(Sort(versions), Min(p.latest, |versions|));
  }

  lemma {:induction false} DropDescends(s: seq<Version>, n: nat)
    requires Descending(s) && n <= |s|
    ensures Descending(s[n..])
  {
    if n == 0 {
      assert s[0..] == s;
    } else {
      TailDescends(s);
      DropDescends(s[1..], n - 1);
      assert s[1..][n - 1..] == s[n..];
    }
  }

  // ---------------------------------------------------------------- one run

  /** The rule under which a time falls puts two times into one bucket when they share that rule's unit. */
  lemma {:induction false} SameBucket(p: Policy, s: Time, d: Time)
    requires s <= d && PlaceOf(p, d).Bucket?
    ensures PlaceOf(p, s) == PlaceOf(p, d) <==>
            Unit(p.rules[PlaceOf(p, d).rule].category, s) == Unit(p.rules[PlaceOf(p, d).rule].category, d)
  {
    hide FirstRule;
    var k := PlaceOf(p, d).rule;
    RuleMonotone(p, s, d);
    if Unit(p.rules[k].category, s) == Unit(p.rules[k].category, d) {
      assert Age(p.rules[k].category, s, p.reference) <= p.rules[k].count;
    }
  }

  /** An older version is in the same week, and weeks are what the time falls under. */
  ghost predicate OlderInWeek(p: Policy, s: seq<Version>, d: Time) {
    && PlaceOf(p, d).Bucket?
    && p.rules[PlaceOf(p, d).rule].category == Weeks
    && exists v :: v in s && v.date < d && Unit(Weeks, v.date) == Unit(Weeks, d)
  }

  /**
   * Under any rules, a run keeps the oldest date of a coarsest unit exactly when it is one of the
   * latest, or not too old, unless it falls under weeks and an older version shares its week.
   */
  lemma {:induction false} OldestSurvivesIff(p: Policy, versions: seq<Version>, d: Time)
    requires Ordered(p.rules) && p.rules != []
    requires HasDate(versions, d) && OldestInUnit(versions, Coarsest(p.rules), d)
    ensures HasDate(Survivors(p, versions), d) <==>
            || HasDate(Latest(p, versions), d)
            || (PlaceOf(p, d) != TooOld && !OlderInWeek(p, Rest(p, versions), d))
  {
    hide PlaceOf, Kept, Latest, Rest, Unit, OldestInUnit;
    var rest := Rest(p, versions);
    if !HasDate(Latest(p, versions), d) {
      var v :| v in versions && v.date == d;
      InVersions(p, versions, v);
      match PlaceOf(p, d)
      case Bucket(k, _) =>
        var x := BucketSurvivor(p, versions, v);
        SurvivorDecides(p, versions, v, x);
      case b =>
        SurvivesOutside(p, versions, d, v);
    }
  }

  /** The future stays, and what is too old does not. */
  lemma {:induction false} SurvivesOutside(p: Policy, versions: seq<Version>, d: Time, v: Version)
    requires v in Rest(p, versions) && v.date == d && !HasDate(Latest(p, versions), d) && !PlaceOf(p, d).Bucket?
    ensures HasDate(Survivors(p, versions), d) <==> PlaceOf(p, d) != TooOld
  {
    hide PlaceOf, Kept, Members, Latest, Rest;
    var rest, b := Rest(p, versions), PlaceOf(p, d);
    KeptMembers(p, rest, b);
    MemberIn(p, rest, b, v);
    forall w: Version ensures w in Members(p, Kept(p, rest), b) <==> w in Kept(p, rest) && PlaceOf(p, w.date) == b {
      MemberIn(p, Kept(p, rest), b, w);
    }
    if b.Future? {
      assert v in Kept(p, rest) && v in Survivors(p, versions);
    }
  }

  /** The one survivor of a bucket has the oldest date, unless an older version shares its week. */
  lemma {:induction false} SurvivorDecides(p: Policy, versions: seq<Version>, v: Version, x: Version)
    requires Ordered(p.rules) && p.rules != [] && OldestInUnit(versions, Coarsest(p.rules), v.date)
    requires v in Rest(p, versions) && !HasDate(Latest(p, versions), v.date) && PlaceOf(p, v.date).Bucket?
    requires x in Kept(p, Rest(p, versions)) && x in Rest(p, versions)
    requires PlaceOf(p, x.date) == PlaceOf(p, v.date) && x.date <= v.date
    requires forall w :: w in Kept(p, Rest(p, versions)) && PlaceOf(p, w.date) == PlaceOf(p, v.date) ==> w == x
    ensures HasDate(Survivors(p, versions), v.date) <==> !OlderInWeek(p, Rest(p, versions), v.date)
  {
    hide PlaceOf, Kept, Latest, Rest, Unit;
    var rest, d := Rest(p, versions), v.date;
    BucketRule(p, d);
    var c := p.rules[PlaceOf(p, d).rule].category;
    SameBucket(p, x.date, d);
    InVersions(p, versions, x);
    if x.date == d {
      assert x in Survivors(p, versions);
      forall w | w in rest && w.date < d && Unit(Weeks, w.date) == Unit(Weeks, d) && c == Weeks ensures false {
        SameBucket(p, w.date, d);
        var _ := BucketSurvivor(p, versions, w);
      }
    } else {
      if c != Weeks {
        NotWeeksRefines(p.rules, PlaceOf(p, d).rule);
        RefinesUnits(c, Coarsest(p.rules), x.date, d);
        assert false;
      }
    }
  }

  lemma {:induction false} BucketRule(p: Policy, d: Time)
    requires PlaceOf(p, d).Bucket?
    ensures PlaceOf(p, d).rule < |p.rules|
  {
  }

  lemma {:induction false} NotWeeksRefines(rules: seq<Rule>, k: nat)
    requires Ordered(rules) && k < |rules| && rules[k].category != Weeks
    ensures Refines(rules[k].category, Coarsest(rules))
  {
    assert k < |rules| - 1 ==> Rank(rules[k].category) < Rank(rules[|rules| - 1].category);
  }

  /** The start of a day, counted from 1 January of year 1. */
  function Midnight(day: nat): Time {
    day * 24 * MICROSECONDS_PER_HOUR
  }

  /** 29 January and 1 February of year 1 share a week, which ended before 5 February. */
  lemma {:induction false} AcrossMonths()
    ensures Unit(Weeks, Midnight(28)) == Unit(Weeks, Midnight(31)) == 4 && Unit(Weeks, Midnight(35)) == 5
    ensures Unit(Months, Midnight(28)) == 0 && Unit(Months, Midnight(31)) == Unit(Months, Midnight(35)) == 1
  {
    assert MonthFrom(0, 28) == 0;
    assert MonthFrom(0, 31) == MonthFrom(1, 0) == 1;
    assert MonthFrom(0, 35) == MonthFrom(1, 4) == 1;
  }

  lemma {:induction false} SortTwo(a: Version, b: Version)
    requires a.date < b.date
    ensures Sort([a, b]) == [b, a]
  {
    assert [a, b][..1] == [a] && [a][..0] == [];
    assert Sort([a]) == Insert(Sort([]), a) == [a];
    assert Insert([a], b) == Insert([], b) + [a] == [b, a];
  }

  /** Weeks and months together: the oldest version of February is dismissed for one of late January. */
  lemma {:induction false} MixedRulesDismissOldest()
    ensures var p := Policy(0, [Rule(Weeks, 1), Rule(Months, 12)], Midnight(35));
            var versions := [Version(0, Midnight(28)), Version(1, Midnight(31))];
            && OldestInUnit(versions, Months, Midnight(31)) && WithinCoarsest(p.rules, Midnight(31), p.reference)
            && HasDate(versions, Midnight(31)) && !HasDate(Survivors(p, versions), Midnight(31))
  {
    hide Unit, FirstRule, Sort, Kept, Survivors;
    var d := Midnight(31);
    var p := Policy(0, [Rule(Weeks, 1), Rule(Months, 12)], Midnight(35));
    var a, b := Version(0, Midnight(28)), Version(1, d);
    AcrossMonths();
    SortTwo(a, b);
    assert Latest(p, [a, b]) == [];
    assert a in Rest(p, [a, b]) && b in [a, b];
    assert Age(p.rules[0].category, d, p.reference) == 1;
    OldestSurvivesIff(p, [a, b], d);
  }

  // ---------------------------------------------------------------- schedules of runs

  /** New versions are added, and then the filter runs at some reference time. */
  datatype Run = Run(added: seq<Version>, reference: Time)

  function AfterRun(latest: nat, rules: seq<Rule>, versions: seq<Version>, run: Run): seq<Version> {
    Survivors(Policy(latest, rules, run.reference), versions + run.added)
  }

  function AfterRuns(latest: nat, rules: seq<Rule>, versions: seq<Version>, runs: seq<Run>): seq<Version>
    decreases |runs|
  {
    if runs == [] then versions else AfterRuns(latest, rules, AfterRun(latest, rules, versions, runs[0]), runs[1..])
  }

  ghost predicate NewerOnly(versions: seq<Version>, added: seq<Version>) {
    forall v, w :: v in versions && w in added ==> w.date >= v.date
  }

  /** Each run adds only versions that are not older than those present, at advancing reference times. */
  ghost predicate Schedule(latest: nat, rules: seq<Rule>, versions: seq<Version>, runs: seq<Run>)
    decreases |runs|
  {
    runs != [] ==>
      && NewerOnly(versions, runs[0].added)
      && (|runs| > 1 ==> runs[0].reference <= runs[1].reference)
      && Schedule(latest, rules, AfterRun(latest, rules, versions, runs[0]), runs[1..])
  }

  /** The time has not outlived the coarsest rule at the given reference time. */
  predicate WithinCoarsest(rules: seq<Rule>, d: Time, reference: Time)
    requires rules != []
  {
    d <= reference ==> Age(Coarsest(rules), d, reference) <= rules[|rules| - 1].count
  }

  lemma {:induction false} NotTooOld(p: Policy, d: Time)
    requires p.rules != [] && WithinCoarsest(p.rules, d, p.reference)
    ensures PlaceOf(p, d) != TooOld
  {
    hide FirstRule;
  }

  lemma {:induction false} OldestSurvivesRun(latest: nat, rules: seq<Rule>, versions: seq<Version>, run: Run, d: Time)
    requires Ordered(rules) && Nested(rules)
    requires HasDate(versions, d) && OldestInUnit(versions, Coarsest(rules), d)
    requires NewerOnly(versions, run.added) && WithinCoarsest(rules, d, run.reference)
    ensures HasDate(AfterRun(latest, rules, versions, run), d)
    ensures OldestInUnit(AfterRun(latest, rules, versions, run), Coarsest(rules), d)
  {
    hide PlaceOf, Unit, Survivors;
    var p, all := Policy(latest, rules, run.reference), versions + run.added;
    NotTooOld(p, d);
    var v :| v in versions && v.date == d;
    assert v in all;
    forall w | w in all && Unit(Coarsest(rules), w.date) == Unit(Coarsest(rules), d) ensures w.date >= d {
      assert w in versions || w in run.added;
    }
    NoOlderInWeek(p, all, d);
    OldestSurvivesIff(p, all, d);
    forall w | w in Survivors(p, all) ensures w in all {
      SurvivorIn(p, all, w);
    }
  }

  lemma {:induction false} NoOlderInWeek(p: Policy, versions: seq<Version>, d: Time)
    requires Nested(p.rules) && OldestInUnit(versions, Coarsest(p.rules), d)
    ensures !OlderInWeek(p, Rest(p, versions), d)
  {
    hide PlaceOf, Unit, Rest;
    if OlderInWeek(p, Rest(p, versions), d) {
      BucketRule(p, d);
      var v :| v in Rest(p, versions) && v.date < d && Unit(Weeks, v.date) == Unit(Weeks, d);
      InVersions(p, versions, v);
      RefinesUnits(Weeks, Coarsest(p.rules), v.date, d);
      assert false;
    }
  }

  /**
   * Under nested rules, the oldest date of a coarsest calendar unit survives every schedule of runs
   * until its age exceeds the count of the coarsest rule.
   */
  lemma {:induction false} OldestSurvivesSchedule(latest: nat, rules: seq<Rule>, versions: seq<Version>, runs: seq<Run>,
                                                  d: Time)
    requires Ordered(rules) && Nested(rules)
    requires HasDate(versions, d) && OldestInUnit(versions, Coarsest(rules), d)
    requires Schedule(latest, rules, versions, runs)
    requires runs != [] ==> WithinCoarsest(rules, d, runs[|runs| - 1].reference)
    ensures HasDate(AfterRuns(latest, rules, versions, runs), d)
    decreases |runs|
  {
    hide AfterRun, HasDate, OldestInUnit, NewerOnly, WithinCoarsest;
    if runs != [] {
      References(latest, rules, versions, runs);
      WithinEarlier(rules, d, runs[0].reference, runs[|runs| - 1].reference);
      OldestSurvivesRun(latest, rules, versions, runs[0], d);
      assert |runs| > 1 ==> runs[1..][|runs| - 2] == runs[|runs| - 1];
      OldestSurvivesSchedule(latest, rules, AfterRun(latest, rules, versions, runs[0]), runs[1..], d);
    }
  }

  lemma {:induction false} References(latest: nat, rules: seq<Rule>, versions: seq<Version>, runs: seq<Run>)
    requires runs != [] && Schedule(latest, rules, versions, runs)
    ensures runs[0].reference <= runs[|runs| - 1].reference
    decreases |runs|
  {
    hide AfterRun, NewerOnly;
    if |runs| > 1 {
      References(latest, rules, AfterRun(latest, rules, versions, runs[0]), runs[1..]);
    }
  }

  lemma {:induction false} WithinEarlier(rules: seq<Rule>, d: Time, earlier: Time, later: Time)
    requires rules != [] && earlier <= later && WithinCoarsest(rules, d, later)
    ensures WithinCoarsest(rules, d, earlier)
  {
    UnitMono(Coarsest(rules), earlier, later);
  }
}
