/** The test-suite outcome: what it says about a single test, whether it covers the request, and
    how it is judged against the expectations. */
module Verdicts {
  import opened Common

  /** `requested` is None for a full run, where the suite chooses. */
  datatype Outcome = Outcome(
    failed: seq<string>, skipped: seq<string>, envChanged: seq<string>, omitted: seq<string>, noTests: seq<string>,
    passed: nat, requested: Option<seq<string>>, timedOut: bool)

  datatype Status = TestPassed | TestFailed | TestSkipped | TestAbsent

  /** `StatusOf`. */
  function StatusOf(o: Outcome, test: string): Status {
    if test in o.failed || test in o.envChanged then TestFailed
    else if test in o.skipped || test in o.omitted || test in o.noTests then TestSkipped
    else if o.requested.None? || test in o.requested.value then TestPassed
    else TestAbsent
  }

  // ---------------------------------------------------------------- coverage

  /** The tests some bucket names. */
  ghost function Named(o: Outcome): set<string> {
    Elems(o.failed) + Elems(o.skipped) + Elems(o.envChanged) + Elems(o.omitted) + Elems(o.noTests)
  }

  /** `Accounted`. */
  method Accounted(o: Outcome) returns (n: nat)
    ensures n == o.passed + |Named(o)|
  {
    var buckets := [o.failed, o.skipped, o.envChanged, o.omitted, o.noTests];
    var seen: set<string> := {};
    for i := 0 to |buckets|
      invariant seen == set k, t | 0 <= k < i && t in buckets[k] :: t
    {
      ghost var before := seen;
      for j := 0 to |buckets[i]|
        invariant seen == before + Elems(buckets[i][..j])
      {
        assert buckets[i][..j+1] == buckets[i][..j] + [buckets[i][j]];
        seen := seen + {buckets[i][j]};
      }
      assert buckets[i][..|buckets[i]|] == buckets[i];
    }
    assert buckets[0] == o.failed && buckets[1] == o.skipped && buckets[2] == o.envChanged
        && buckets[3] == o.omitted && buckets[4] == o.noTests;
    assert seen == Named(o);
    return o.passed + |seen|;
  }

  datatype Coverage = Covered | CutOff | NothingReported | Incomplete

  function Wanted(o: Outcome): nat {
    if o.requested.None? then 0 else |o.requested.value|
  }

  /** `CheckCoverage`, given what `Accounted` counted. */
  function CoverageOf(o: Outcome, accounted: nat): Coverage {
    if o.timedOut then CutOff
    else if accounted == 0 then NothingReported
    else if Wanted(o) > 0 && accounted < Wanted(o) then Incomplete
    else Covered
  }

  /** Nothing was counted and no bucket names a test. */
  predicate Silent(o: Outcome) {
    o.passed == 0 && o.failed == o.skipped == o.envChanged == o.omitted == o.noTests == []
  }

  /** `CheckCoverage`: a run cut off, a run that reported nothing, and a request some test of which
      is neither counted nor named are each refused; a full run needs no more than one result. */
  method CheckCoverage(o: Outcome) returns (c: Coverage)
    ensures c == CoverageOf(o, o.passed + |Named(o)|)
    ensures c == CutOff <==> o.timedOut
    ensures c == NothingReported <==> !o.timedOut && Silent(o)
    ensures c == Incomplete <==>
            !o.timedOut && !Silent(o) && o.requested.Some? && o.passed + |Named(o)| < |o.requested.value|
    ensures c == Covered <==>
            !o.timedOut && !Silent(o) && (o.requested.None? || o.passed + |Named(o)| >= |o.requested.value|)
  {
    var n := Accounted(o);
    SilentIsUnaccounted(o);
    c := CoverageOf(o, n);
  }

  lemma SilentIsUnaccounted(o: Outcome)
    ensures Silent(o) <==> o.passed + |Named(o)| == 0
  {
    if Silent(o) {
      assert Named(o) == {};
    } else if o.passed == 0 {
      var t := if o.failed != [] then o.failed[0] else if o.skipped != [] then o.skipped[0]
               else if o.envChanged != [] then o.envChanged[0] else if o.omitted != [] then o.omitted[0] else o.noTests[0];
      assert t in Named(o);
    }
  }

  lemma {:induction false} DistinctCount(s: seq<string>)
    ensures |Elems(s)| <= |s|
    ensures Distinct(s) ==> |Elems(s)| == |s|
  {
    if s != [] {
      var init, last := s[..|s|-1], s[|s|-1];
      DistinctCount(init);
      assert s == init + [last];
      assert Elems(s) == Elems(init) + {last};
      if Distinct(s) {
        assert Distinct(init) && last !in Elems(init);
      }
    }
  }

  lemma SubsetSameSize<T>(a: set<T>, b: set<T>)
    requires a <= b
    ensures |a| <= |b|
    ensures |a| == |b| ==> a == b
  {
    assert b == a + (b - a);
  }

  /** The pass inference is sound exactly when the coverage check succeeds: given that the passed
      count counts the distinct requested tests that really passed, and that the buckets name
      requested tests that did not, the check succeeds if and only if every requested test that
      `StatusOf` calls passed did pass. */
  lemma CoverageDecidesPassInference(o: Outcome, reallyPassed: set<string>)
    requires !o.timedOut && o.requested.Some? && o.requested.value != [] && Distinct(o.requested.value)
    requires o.passed == |reallyPassed| && reallyPassed <= Elems(o.requested.value)
    requires Named(o) <= Elems(o.requested.value) && reallyPassed !! Named(o)
    ensures CoverageOf(o, o.passed + |Named(o)|).Covered? <==>
            forall t | t in o.requested.value && StatusOf(o, t).TestPassed? :: t in reallyPassed
  {
    var all := Elems(o.requested.value);
    var known := reallyPassed + Named(o);
    DistinctCount(o.requested.value);
    SubsetSameSize(known, all);
    assert |known| == o.passed + |Named(o)|;
    KnownIsAll(o, reallyPassed);
    hide Named, StatusOf, Elems;
  }

  /** Every requested test has a known result exactly when the inference is right about each. */
  lemma KnownIsAll(o: Outcome, reallyPassed: set<string>)
    requires o.requested.Some? && reallyPassed <= Elems(o.requested.value)
    requires Named(o) <= Elems(o.requested.value) && reallyPassed !! Named(o)
    ensures reallyPassed + Named(o) == Elems(o.requested.value) <==>
            forall t | t in o.requested.value && StatusOf(o, t).TestPassed? :: t in reallyPassed
  {
    forall t | t in o.requested.value ensures StatusOf(o, t).TestPassed? <==> t !in Named(o) {
      PassedIsUnnamed(o, t);
    }
    hide Named, StatusOf;
    if forall t | t in o.requested.value && StatusOf(o, t).TestPassed? :: t in reallyPassed {
      forall t | t in Elems(o.requested.value) ensures t in reallyPassed + Named(o) {
        assert t in o.requested.value;
      }
    } else {
      var t :| t in o.requested.value && StatusOf(o, t).TestPassed? && t !in reallyPassed;
      assert t in Elems(o.requested.value) && t !in reallyPassed + Named(o);
    }
  }

  /** A test passed when no bucket names it and it was in scope, which in a full run every test is. */
  lemma PassedIsUnnamed(o: Outcome, t: string)
    ensures StatusOf(o, t).TestPassed? <==> t !in Named(o) && (o.requested.None? || t in o.requested.value)
  {
  }

  // ---------------------------------------------------------------- expectations

  datatype Entry = Entry(test: string, why: string)

  datatype Verdict = Verdict(test: string, observed: Status, why: string)

  /** The named tests of a list of entries. */
  ghost function Listed(entries: seq<Entry>): set<string> {
    set e | e in entries && e.test != "" :: e.test
  }

  /** The reason of the last entry for a test. */
  function LastWhy(entries: seq<Entry>, test: string): string {
    if entries == [] then ""
    else if entries[|entries|-1].test == test then entries[|entries|-1].why
    else LastWhy(entries[..|entries|-1], test)
  }

  /** `whyMap`: the last entry of a test gives the reason. */
  method WhyMap(entries: seq<Entry>) returns (out: map<string, string>)
    ensures out.Keys == Listed(entries)
    ensures forall t | t in out :: out[t] == LastWhy(entries, t)
  {
    hide Listed;
    out := map[];
    NoneListed();
    for i := 0 to |entries|
      invariant out.Keys == Listed(entries[..i])
      invariant forall t | t in out :: out[t] == LastWhy(entries[..i], t)
    {
      assert entries[..i+1][..i] == entries[..i];
      OneMoreListed(entries, i);
      if entries[i].test != "" {
        out := out[entries[i].test := entries[i].why];
      }
    }
    assert entries[..|entries|] == entries;
  }

  lemma NoneListed()
    ensures Listed([]) == {}
  {
  }

  lemma OneMoreListed(entries: seq<Entry>, i: nat)
    requires i < |entries|
    ensures Listed(entries[..i+1]) == Listed(entries[..i]) + (if entries[i].test != "" then {entries[i].test} else {})
    ensures "" !in Listed(entries[..i])
  {
    assert entries[..i+1] == entries[..i] + [entries[i]];
  }

  /** `sortedKeys`: whatever order the map is ranged over in, the keys come out sorted. */
  method SortedKeys(m: map<string, string>) returns (out: seq<string>)
    ensures StrictlySorted(out) && Elems(out) == m.Keys
  {
    out := [];
    var left := m.Keys;
    while left != {}
      invariant left <= m.Keys && Elems(out) == m.Keys - left
      decreases left
    {
      var k :| k in left;
      ElemsConcat(out, [k]);
      ElemsOne(k);
      out := out + [k];
      left := left - {k};
    }
    SortSorted(out);
    out := Sort(out);
  }

  // ---------------------------------------------------------------- looking expectations up

  datatype Expect = Expect(skip: seq<Entry>, fail: seq<Entry>, ignore: seq<Entry>)

  /** The keys that apply to a target, widest first. */
  function ExpectKeys(triple: string, runner: string, isStatic: bool): seq<string> {
    ["all"] + (if isStatic then ["static"] else []) + [runner, triple, triple + ":" + runner]
  }

  /** `LookupExpect`: the entries of every key that applies. */
  method LookupExpect(all: map<string, Expect>, triple: string, runner: string, isStatic: bool) returns (out: Expect)
    ensures out == Gathered(all, ExpectKeys(triple, runner, isStatic))
  {
    out := Expect([], [], []);
    var keys := ["all"];
    if isStatic {
      keys := keys + ["static"];
    }
    keys := keys + [runner, triple, triple + ":" + runner];
    assert keys == ExpectKeys(triple, runner, isStatic);
    for i := 0 to |keys|
      invariant out == Gathered(all, keys[..i])
    {
      assert keys[..i+1][..i] == keys[..i];
      if keys[i] !in all {
        continue;
      }
      var e := all[keys[i]];
      out := Expect(out.skip + e.skip, out.fail + e.fail, out.ignore + e.ignore);
    }
    assert keys[..|keys|] == keys;
  }

  function Gathered(all: map<string, Expect>, keys: seq<string>): Expect {
    if keys == [] then Expect([], [], [])
    else
      var wide, last := Gathered(all, keys[..|keys|-1]), keys[|keys|-1];
      if last !in all then wide
      else Expect(wide.skip + all[last].skip, wide.fail + all[last].fail, wide.ignore + all[last].ignore)
  }

  lemma {:induction false} WhyConcat(a: seq<Entry>, b: seq<Entry>, test: string)
    requires test != ""
    ensures LastWhy(a + b, test) == if test in Listed(b) then LastWhy(b, test) else LastWhy(a, test)
  {
    hide Listed;
    if b == [] {
      NoneListed();
      assert a + b == a;
    } else {
      var n := |b| - 1;
      WhyConcat(a, b[..n], test);
      assert (a + b)[..|a + b|-1] == a + b[..n] && b[..n+1] == b;
      OneMoreListed(b, n);
    }
  }

  lemma ListedConcat(a: seq<Entry>, b: seq<Entry>)
    ensures Listed(a + b) == Listed(a) + Listed(b)
  {
    assert forall e :: e in a + b <==> e in a || e in b;
  }

  /** A test is an expected failure when some key that applies lists it, and the narrowest such key
      gives its reason; the same holds for skips. */
  lemma {:induction false} NarrowestKeyDecides(all: map<string, Expect>, keys: seq<string>, i: nat, test: string)
    requires i < |keys| && test != "" && keys[i] in all
    ensures test in Listed(all[keys[i]].fail) ==> test in Listed(Gathered(all, keys).fail)
    ensures test in Listed(all[keys[i]].skip) ==> test in Listed(Gathered(all, keys).skip)
    ensures test in Listed(all[keys[i]].fail)
            && (forall k | i < k < |keys| && keys[k] in all :: test !in Listed(all[keys[k]].fail))
            ==> LastWhy(Gathered(all, keys).fail, test) == LastWhy(all[keys[i]].fail, test)
    ensures test in Listed(all[keys[i]].skip)
            && (forall k | i < k < |keys| && keys[k] in all :: test !in Listed(all[keys[k]].skip))
            ==> LastWhy(Gathered(all, keys).skip, test) == LastWhy(all[keys[i]].skip, test)
    decreases |keys|
  {
    hide Listed, LastWhy;
    var init, last := keys[..|keys|-1], keys[|keys|-1];
    if last in all {
      WhyConcat(Gathered(all, init).fail, all[last].fail, test);
      WhyConcat(Gathered(all, init).skip, all[last].skip, test);
      ListedConcat(Gathered(all, init).fail, all[last].fail);
      ListedConcat(Gathered(all, init).skip, all[last].skip);
    }
    if i < |init| {
      assert init[i] == keys[i];
      NarrowestKeyDecides(all, init, i, test);
    }
  }

  /** The parts of the expectations. */
  datatype Part = Skips | Failures | Ignores

  function In(part: Part, e: Expect): seq<Entry> {
    match part
    case Skips => e.skip
    case Failures => e.fail
    case Ignores => e.ignore
  }

  /** The entries under a key list the test. */
  ghost predicate Expects(all: map<string, Expect>, key: string, part: Part, test: string) {
    key in all && test in Listed(In(part, all[key]))
  }

  /** The reason of the narrowest scope that lists the test: the triple under this runner, the
      triple, the runner, static targets, all targets. */
  ghost function NarrowestWhy(all: map<string, Expect>, triple: string, runner: string, isStatic: bool,
                              part: Part, test: string): string {
    var pair := triple + ":" + runner;
    if Expects(all, pair, part, test) then LastWhy(In(part, all[pair]), test)
    else if Expects(all, triple, part, test) then LastWhy(In(part, all[triple]), test)
    else if Expects(all, runner, part, test) then LastWhy(In(part, all[runner]), test)
    else if isStatic && Expects(all, "static", part, test) then LastWhy(In(part, all["static"]), test)
    else if Expects(all, "all", part, test) then LastWhy(In(part, all["all"]), test)
    else ""
  }

  lemma GatherOne(all: map<string, Expect>, keys: seq<string>, key: string, part: Part, test: string)
    requires test != ""
    ensures var wide, more := In(part, Gathered(all, keys)), In(part, Gathered(all, keys + [key]));
            if Expects(all, key, part, test) then test in Listed(more) && LastWhy(more, test) == LastWhy(In(part, all[key]), test)
            else (test in Listed(more) <==> test in Listed(wide)) && LastWhy(more, test) == LastWhy(wide, test)
  {
    assert (keys + [key])[..|keys|] == keys;
    hide Listed, LastWhy;
    if key in all {
      ListedConcat(In(part, Gathered(all, keys)), In(part, all[key]));
      WhyConcat(In(part, Gathered(all, keys)), In(part, all[key]), test);
    }
  }

  lemma GatherNone(all: map<string, Expect>, part: Part, test: string)
    ensures var none := In(part, Gathered(all, [])); test !in Listed(none) && LastWhy(none, test) == ""
  {
  }

  /** Three more keys, the last of which decides. */
  lemma GatherThree(all: map<string, Expect>, wide: seq<string>, x: string, y: string, z: string, part: Part, test: string)
    requires test != ""
    ensures var entries, before := In(part, Gathered(all, wide + [x, y, z])), In(part, Gathered(all, wide));
            && (test in Listed(entries) <==> test in Listed(before) || Expects(all, x, part, test)
                                             || Expects(all, y, part, test) || Expects(all, z, part, test))
            && LastWhy(entries, test) ==
               if Expects(all, z, part, test) then LastWhy(In(part, all[z]), test)
               else if Expects(all, y, part, test) then LastWhy(In(part, all[y]), test)
               else if Expects(all, x, part, test) then LastWhy(In(part, all[x]), test)
               else LastWhy(before, test)
  {
    assert Expects(all, x, part, test) ==> x in all;
    assert Expects(all, y, part, test) ==> y in all;
    assert Expects(all, z, part, test) ==> z in all;
    assert wide + [x, y, z] == wide + [x] + [y] + [z];
    hide Expects, Listed, LastWhy, Gathered, In;
    GatherOne(all, wide, x, part, test);
    GatherOne(all, wide + [x], y, part, test);
    GatherOne(all, wide + [x] + [y], z, part, test);
  }

  lemma GatherWide(all: map<string, Expect>, isStatic: bool, part: Part, test: string)
    requires test != ""
    ensures var entries := In(part, Gathered(all, if isStatic then ["all", "static"] else ["all"]));
            && (test in Listed(entries) <==>
                  Expects(all, "all", part, test) || (isStatic && Expects(all, "static", part, test)))
            && LastWhy(entries, test) ==
               if isStatic && Expects(all, "static", part, test) then LastWhy(In(part, all["static"]), test)
               else if Expects(all, "all", part, test) then LastWhy(In(part, all["all"]), test)
               else ""
  {
    assert [] + ["all"] == ["all"] && ["all"] + ["static"] == ["all", "static"];
    hide Expects, Listed, LastWhy, Gathered, In;
    GatherNone(all, part, test);
    GatherOne(all, [], "all", part, test);
    GatherOne(all, ["all"], "static", part, test);
  }

  /** What `LookupExpect` answers about one test, in each part of the expectations: the test is
      listed exactly when a scope of the target lists it, for the narrowest one's reason. */
  lemma LookupDecides(all: map<string, Expect>, triple: string, runner: string, isStatic: bool, part: Part, test: string)
    requires test != ""
    ensures var entries := In(part, Gathered(all, ExpectKeys(triple, runner, isStatic)));
            && (test in Listed(entries) <==>
                  || Expects(all, "all", part, test) || (isStatic && Expects(all, "static", part, test))
                  || Expects(all, runner, part, test) || Expects(all, triple, part, test)
                  || Expects(all, triple + ":" + runner, part, test))
            && LastWhy(entries, test) == NarrowestWhy(all, triple, runner, isStatic, part, test)
  {
    hide Expects, Listed, LastWhy, Gathered, In;
    GatherWide(all, isStatic, part, test);
    GatherThree(all, if isStatic then ["all", "static"] else ["all"], runner, triple, triple + ":" + runner, part, test);
    assert (if isStatic then ["all", "static"] else ["all"]) + [runner, triple, triple + ":" + runner]
           == ExpectKeys(triple, runner, isStatic);
  }

  // ---------------------------------------------------------------- classifying

  ghost function Tests(vs: seq<Verdict>): set<string> {
    set v | v in vs :: v.test
  }

  lemma TestsMore(vs: seq<Verdict>, v: Verdict)
    ensures Tests(vs + [v]) == Tests(vs) + {v.test}
  {
  }

  /** `sortVerdicts`. */
  function InsertVerdict(vs: seq<Verdict>, v: Verdict): seq<Verdict> {
    if vs == [] || Less(v.test, vs[0].test) then [v] + vs else [vs[0]] + InsertVerdict(vs[1..], v)
  }

  function SortVerdicts(vs: seq<Verdict>): seq<Verdict> {
    if vs == [] then [] else InsertVerdict(SortVerdicts(vs[..|vs|-1]), vs[|vs|-1])
  }

  ghost predicate InOrder(vs: seq<Verdict>) {
    forall i, j | 0 <= i < j < |vs| :: !Less(vs[j].test, vs[i].test)
  }

  /** No test has two verdicts. */
  ghost predicate EachOnce(vs: seq<Verdict>) {
    forall i, j | 0 <= i < j < |vs| :: vs[i].test != vs[j].test
  }

  lemma {:induction false} InsertKeeps(vs: seq<Verdict>, v: Verdict)
    ensures multiset(InsertVerdict(vs, v)) == multiset(vs) + multiset{v}
    ensures Tests(InsertVerdict(vs, v)) == Tests(vs) + {v.test}
  {
    hide Less, Tests;
    TestsMore([], v);
    TestsJoin([], [v]);
    assert [] + [v] == [v];
    if vs == [] || Less(v.test, vs[0].test) {
      TestsJoin([v], vs);
    } else {
      assert vs == [vs[0]] + vs[1..];
      InsertKeeps(vs[1..], v);
      TestsJoin([vs[0]], vs[1..]);
      TestsJoin([vs[0]], InsertVerdict(vs[1..], v));
    }
  }

  lemma InsertedMembers(vs: seq<Verdict>, v: Verdict)
    ensures forall w | w in InsertVerdict(vs, v) :: w == v || w in vs
  {
    InsertKeeps(vs, v);
    hide InsertVerdict;
    forall w | w in InsertVerdict(vs, v) ensures w == v || w in vs {
      assert w in multiset(InsertVerdict(vs, v));
    }
  }

  lemma InOrderTail(vs: seq<Verdict>)
    requires InOrder(vs) && vs != []
    ensures InOrder(vs[1..]) && forall w | w in vs[1..] :: !Less(w.test, vs[0].test)
  {
    hide Less;
  }

  lemma InOrderCons(v: Verdict, vs: seq<Verdict>)
    requires InOrder(vs) && forall w | w in vs :: !Less(w.test, v.test)
    ensures InOrder([v] + vs)
  {
    hide Less;
  }

  lemma {:induction false} InsertInOrder(vs: seq<Verdict>, v: Verdict)
    requires InOrder(vs)
    ensures InOrder(InsertVerdict(vs, v))
  {
    hide Less, InOrder;
    if vs == [] {
      InOrderCons(v, vs);
    } else if Less(v.test, vs[0].test) {
      FrontInOrder(vs, v);
    } else {
      InOrderTail(vs);
      InsertInOrder(vs[1..], v);
      InsertedMembers(vs[1..], v);
      InOrderCons(vs[0], InsertVerdict(vs[1..], v));
    }
  }

  lemma {:induction false} InsertEachOnce(vs: seq<Verdict>, v: Verdict)
    requires EachOnce(vs) && forall w | w in vs :: w.test != v.test
    ensures EachOnce(InsertVerdict(vs, v))
  {
    hide Less;
    if vs != [] && !Less(v.test, vs[0].test) {
      var rest := InsertVerdict(vs[1..], v);
      InsertEachOnce(vs[1..], v);
      InsertKeeps(vs[1..], v);
      forall w | w in rest ensures w.test != vs[0].test {
        assert w in multiset(rest);
      }
    }
  }

  lemma FrontInOrder(vs: seq<Verdict>, v: Verdict)
    requires InOrder(vs) && vs != [] && Less(v.test, vs[0].test)
    ensures InOrder([v] + vs)
  {
    hide Less;
    forall k | 0 <= k < |vs| ensures !Less(vs[k].test, v.test) {
      if Less(vs[k].test, v.test) {
        LessTransitive(vs[k].test, v.test, vs[0].test);
        if k == 0 {
          LessIrreflexive(vs[0].test);
        }
      }
    }
  }

  lemma TestsJoin(a: seq<Verdict>, b: seq<Verdict>)
    ensures Tests(a + b) == Tests(a) + Tests(b)
    ensures Tests([]) == {}
  {
  }

  lemma {:induction false} SortKeeps(vs: seq<Verdict>)
    ensures multiset(SortVerdicts(vs)) == multiset(vs) && Tests(SortVerdicts(vs)) == Tests(vs)
    ensures EachOnce(vs) ==> EachOnce(SortVerdicts(vs))
    ensures InOrder(SortVerdicts(vs))
  {
    hide Tests, InOrder;
    if vs == [] {
      NoneInOrder();
    } else {
      var init, last := vs[..|vs|-1], vs[|vs|-1];
      assert vs == init + [last];
      SortKeeps(init);
      InsertKeeps(SortVerdicts(init), last);
      InsertInOrder(SortVerdicts(init), last);
      TestsMore(init, last);
      if EachOnce(vs) {
        forall w | w in SortVerdicts(init) ensures w.test != last.test {
          assert w in multiset(SortVerdicts(init));
        }
        InsertEachOnce(SortVerdicts(init), last);
      }
    }
  }

  lemma NoneInOrder()
    ensures InOrder([])
  {
  }

  /** The tests in each of the four verdict buckets. */
  datatype Buckets = Buckets(unexpectedFailures: set<string>, unexpectedPasses: set<string>,
                             expectedFailures: set<string>, expectedSkips: set<string>)

  /** After judging `fails` as expected failures and then `skips` as expected skips. */
  ghost function JudgedAs(o: Outcome, fails: set<string>, skips: set<string>): Buckets {
    Buckets(
      set t | t in skips - fails && StatusOf(o, t).TestFailed?,
      set t | t in fails + skips && StatusOf(o, t).TestPassed?,
      set t | t in fails && (StatusOf(o, t).TestFailed? || StatusOf(o, t).TestSkipped?),
      set t | t in skips - fails && StatusOf(o, t).TestSkipped?)
  }

  /** What `Classify` puts where. */
  ghost function BucketsOf(o: Outcome, skip: seq<Entry>, fail: seq<Entry>): Buckets {
    var b := JudgedAs(o, Listed(fail), Listed(skip));
    b.(unexpectedFailures := b.unexpectedFailures + (Elems(o.failed) + Elems(o.envChanged) - (Listed(fail) + Listed(skip))))
  }

  /** The bucket a verdict goes to. */
  ghost function Put(b: Buckets, status: Status, wantFail: bool, test: string): Buckets {
    match status
    case TestAbsent => b
    case TestPassed => b.(unexpectedPasses := b.unexpectedPasses + {test})
    case _ =>
      if wantFail then b.(expectedFailures := b.expectedFailures + {test})
      else if status == TestSkipped then b.(expectedSkips := b.expectedSkips + {test})
      else b.(unexpectedFailures := b.unexpectedFailures + {test})
  }

  lemma JudgeOne(o: Outcome, fails: set<string>, skips: set<string>, test: string, wantFail: bool)
    requires wantFail ==> skips == {}
    ensures test !in fails + skips ==>
              Put(JudgedAs(o, fails, skips), StatusOf(o, test), wantFail, test) ==
              if wantFail then JudgedAs(o, fails + {test}, skips) else JudgedAs(o, fails, skips + {test})
    ensures test in fails + skips ==>
              JudgedAs(o, fails, skips) ==
              if wantFail then JudgedAs(o, fails + {test}, skips) else JudgedAs(o, fails, skips + {test})
  {
    hide StatusOf;
    if test in fails + skips {
      assert fails + (skips + {test}) == fails + skips;
      if wantFail {
        assert fails + {test} == fails;
      } else {
        assert skips + {test} - fails == skips - fails;
      }
    }
  }

  const ALTERED := "altered the execution environment"

  /** The reason each listed test is reported with: that of its last entry, an expected failure
      before an expected skip. */
  ghost function Reasons(skip: seq<Entry>, fail: seq<Entry>): map<string, string> {
    map t | t in Listed(fail) + Listed(skip) :: if t in Listed(fail) then LastWhy(fail, t) else LastWhy(skip, t)
  }

  /** A verdict reports the test's status, with the reason of its entry if it has one. */
  ghost predicate TellsTruth(o: Outcome, reasons: map<string, string>, v: Verdict) {
    && v.observed == StatusOf(o, v.test)
    && v.why == (if v.test in reasons then reasons[v.test] else if v.test in o.failed then "" else ALTERED)
  }

  /** Neither failure bucket repeats a test. */
  ghost predicate Tidy(o: Outcome) {
    Distinct(o.failed) && Distinct(o.envChanged)
  }

  /** True verdicts about tests in `done`, and one each if the outcome is tidy. */
  ghost predicate Fair(o: Outcome, reasons: map<string, string>, done: set<string>, vs: seq<Verdict>) {
    (Tidy(o) ==> EachOnce(vs)) && forall v | v in vs :: TellsTruth(o, reasons, v) && v.test in done
  }

  lemma FairMore(o: Outcome, reasons: map<string, string>, done: set<string>, vs: seq<Verdict>, v: Verdict)
    requires Fair(o, reasons, done, vs) && TellsTruth(o, reasons, v) && (Tidy(o) ==> v.test !in done)
    ensures Fair(o, reasons, done + {v.test}, vs + [v])
  {
    hide TellsTruth, Tidy;
  }

  lemma FairGrows(o: Outcome, reasons: map<string, string>, done: set<string>, more: set<string>, vs: seq<Verdict>)
    requires Fair(o, reasons, done, vs)
    ensures Fair(o, reasons, done + more, vs)
  {
    hide TellsTruth, Tidy;
  }

  lemma SortedInOrder(vs: seq<Verdict>)
    ensures InOrder(SortVerdicts(vs)) && Tests(SortVerdicts(vs)) == Tests(vs)
  {
    SortKeeps(vs);
  }

  lemma FairSorted(o: Outcome, reasons: map<string, string>, done: set<string>, vs: seq<Verdict>)
    requires Fair(o, reasons, done, vs)
    ensures Fair(o, reasons, done, SortVerdicts(vs))
  {
    hide TellsTruth, Tidy;
    SortKeeps(vs);
    forall v | v in SortVerdicts(vs) ensures v in vs {
      assert v in multiset(SortVerdicts(vs));
    }
  }

  /** A classification being filled; `judged` is the map of the same name. */
  class Classified {
    const o: Outcome
    var judged: set<string>
    var unexpectedFailures: seq<Verdict>
    var unexpectedPasses: seq<Verdict>
    var expectedFailures: seq<Verdict>
    var expectedSkips: seq<Verdict>

    constructor (o: Outcome)
      ensures this.o == o && judged == {} && Now() == Buckets({}, {}, {}, {})
      ensures unexpectedFailures == unexpectedPasses == expectedFailures == expectedSkips == []
    {
      this.o := o;
      judged := {};
      unexpectedFailures, unexpectedPasses, expectedFailures, expectedSkips := [], [], [], [];
    }

    ghost function Now(): Buckets
      reads this
    {
      Buckets(Tests(unexpectedFailures), Tests(unexpectedPasses), Tests(expectedFailures), Tests(expectedSkips))
    }

    /** Every verdict given so far is true, and tests already judged are not judged again. */
    ghost predicate AllFair(reasons: map<string, string>, done: set<string>)
      reads this
    {
      && Fair(o, reasons, done, unexpectedFailures) && Fair(o, reasons, done, unexpectedPasses)
      && Fair(o, reasons, done, expectedFailures) && Fair(o, reasons, done, expectedSkips)
    }

    /** `OK`. */
    predicate OK()
      reads this
      ensures OK() <==> Now().unexpectedFailures == {} && Now().unexpectedPasses == {}
    {
      assert unexpectedFailures != [] ==> unexpectedFailures[0].test in Tests(unexpectedFailures);
      assert unexpectedPasses != [] ==> unexpectedPasses[0].test in Tests(unexpectedPasses);
      |unexpectedFailures| == 0 && |unexpectedPasses| == 0
    }

    method SortDeciding(ghost reasons: map<string, string>, ghost done: set<string>)
      requires AllFair(reasons, done)
      modifies this`unexpectedFailures, this`unexpectedPasses
      ensures AllFair(reasons, done) && Now() == old(Now())
      ensures InOrder(unexpectedFailures) && InOrder(unexpectedPasses)
    {
      hide Tests, Fair, InOrder, SortVerdicts;
      SortedInOrder(unexpectedFailures);
      SortedInOrder(unexpectedPasses);
      FairSorted(o, reasons, done, unexpectedFailures);
      FairSorted(o, reasons, done, unexpectedPasses);
      unexpectedFailures := SortVerdicts(unexpectedFailures);
      unexpectedPasses := SortVerdicts(unexpectedPasses);
    }

    /** The closure `judge`. */
    method Judge(test: string, why: string, wantFail: bool, ghost reasons: map<string, string>)
      requires AllFair(reasons, judged) && (test !in judged ==> test in reasons && reasons[test] == why)
      modifies this
      ensures AllFair(reasons, judged)
      ensures judged == old(judged) + {test}
      ensures Now() == if test in old(judged) then old(Now()) else Put(old(Now()), StatusOf(o, test), wantFail, test)
    {
      if test in judged {
        return;
      }
      hide StatusOf, Tests, Fair;
      ghost var before := judged;
      judged := judged + {test};
      FairGrows(o, reasons, before, {test}, unexpectedFailures);
      FairGrows(o, reasons, before, {test}, unexpectedPasses);
      FairGrows(o, reasons, before, {test}, expectedFailures);
      FairGrows(o, reasons, before, {test}, expectedSkips);
      var status := StatusOf(o, test);
      if status == TestAbsent {
        return;
      }
      var v := Verdict(test, status, why);
      if status == TestPassed {
        TestsMore(unexpectedPasses, v);
        FairMore(o, reasons, before, unexpectedPasses, v);
        unexpectedPasses := unexpectedPasses + [v];
      } else if wantFail {
        TestsMore(expectedFailures, v);
        FairMore(o, reasons, before, expectedFailures, v);
        expectedFailures := expectedFailures + [v];
      } else if status == TestSkipped {
        TestsMore(expectedSkips, v);
        FairMore(o, reasons, before, expectedSkips, v);
        expectedSkips := expectedSkips + [v];
      } else {
        TestsMore(unexpectedFailures, v);
        FairMore(o, reasons, before, unexpectedFailures, v);
        unexpectedFailures := unexpectedFailures + [v];
      }
    }
  }

  lemma NothingJudged(o: Outcome)
    ensures JudgedAs(o, {}, {}) == Buckets({}, {}, {}, {})
  {
  }

  /** The two loops of `Classify` over sorted expectations; `fails` are the tests judged before. */
  method JudgeAll(c: Classified, why: map<string, string>, wantFail: bool, ghost fails: set<string>,
                  ghost reasons: map<string, string>)
    requires c.judged == fails && c.Now() == JudgedAs(c.o, fails, {}) && (wantFail ==> fails == {})
    requires c.AllFair(reasons, fails) && forall t | t in why && t !in fails :: t in reasons && reasons[t] == why[t]
    modifies c
    ensures c.AllFair(reasons, c.judged)
    ensures c.judged == fails + why.Keys
    ensures c.Now() == if wantFail then JudgedAs(c.o, why.Keys, {}) else JudgedAs(c.o, fails, why.Keys)
  {
    hide JudgedAs, Put, StatusOf, Tests, Fair;
    var tests := SortedKeys(why);
    assert Elems(tests[..0]) == {};
    for i := 0 to |tests|
      invariant c.judged == fails + Elems(tests[..i]) && c.AllFair(reasons, c.judged)
      invariant c.Now() == if wantFail then JudgedAs(c.o, Elems(tests[..i]), {}) else JudgedAs(c.o, fails, Elems(tests[..i]))
    {
      NextElem(tests, i);
      if wantFail {
        JudgeOne(c.o, Elems(tests[..i]), {}, tests[i], true);
      } else {
        JudgeOne(c.o, fails, Elems(tests[..i]), tests[i], false);
      }
      c.Judge(tests[i], why[tests[i]], wantFail, reasons);
    }
    assert tests[..|tests|] == tests;
  }

  /** `Classify`: each bucket holds exactly the tests it should, with a true verdict on each, one
      each if no failure bucket repeats a test, and the deciding buckets in order. */
  method Classify(o: Outcome, skip: seq<Entry>, fail: seq<Entry>) returns (c: Classified)
    ensures fresh(c) && c.o == o && c.Now() == BucketsOf(o, skip, fail)
    ensures exists done :: c.AllFair(Reasons(skip, fail), done)
    ensures InOrder(c.unexpectedFailures) && InOrder(c.unexpectedPasses)
  {
    hide JudgedAs, StatusOf, Tests, Listed, LastWhy, Fair, InOrder;
    c := new Classified(o);
    NothingJudged(o);
    var skipWhy := WhyMap(skip);
    var failWhy := WhyMap(fail);
    ghost var reasons := Reasons(skip, fail);
    NothingUnfair(o, reasons);
    JudgeAll(c, failWhy, true, {}, reasons);
    JudgeAll(c, skipWhy, false, failWhy.Keys, reasons);
    ghost var done := c.judged;
    AddFailed(c, reasons);
    AddChanged(c, reasons);
    ghost var more := Elems(o.failed) + Elems(o.envChanged);
    assert done + more == done + Elems(o.failed) + Elems(o.envChanged);
    FairGrows(o, reasons, done, more, c.unexpectedPasses);
    FairGrows(o, reasons, done, more, c.expectedFailures);
    FairGrows(o, reasons, done, more, c.expectedSkips);
    c.SortDeciding(reasons, done + more);
  }

  lemma NothingUnfair(o: Outcome, reasons: map<string, string>)
    ensures Fair(o, reasons, {}, [])
  {
  }

  lemma NextElem(s: seq<string>, i: nat)
    requires i < |s|
    ensures Elems(s[..i+1]) == Elems(s[..i]) + {s[i]} && s[i] in Elems(s)
  {
    assert s[..i+1] == s[..i] + [s[i]];
  }

  /** The loop of `Classify` over the failed tests: adds those no entry speaks of. */
  method AddFailed(c: Classified, ghost reasons: map<string, string>)
    requires reasons.Keys <= c.judged && Fair(c.o, reasons, c.judged, c.unexpectedFailures)
    modifies c`unexpectedFailures
    ensures Tests(c.unexpectedFailures) == old(Tests(c.unexpectedFailures)) + (Elems(c.o.failed) - c.judged)
    ensures Fair(c.o, reasons, c.judged + Elems(c.o.failed), c.unexpectedFailures)
  {
    hide Tests, Fair, Distinct, StatusOf;
    var failed := c.o.failed;
    FailedStatus(c.o);
    assert c.judged + Elems(failed[..0]) == c.judged;
    for i := 0 to |failed|
      invariant Tests(c.unexpectedFailures) == old(Tests(c.unexpectedFailures)) + (Elems(failed[..i]) - c.judged)
      invariant Fair(c.o, reasons, c.judged + Elems(failed[..i]), c.unexpectedFailures)
    {
      NextElem(failed, i);
      NotBefore(failed, i);
      ghost var done := c.judged + Elems(failed[..i]);
      assert c.judged + Elems(failed[..i+1]) == done + {failed[i]};
      var v := Verdict(failed[i], TestFailed, "");
      if failed[i] !in c.judged {
        TestsMore(c.unexpectedFailures, v);
        FairMore(c.o, reasons, done, c.unexpectedFailures, v);
        c.unexpectedFailures := c.unexpectedFailures + [v];
      } else {
        FairGrows(c.o, reasons, done, {v.test}, c.unexpectedFailures);
      }
    }
    assert failed[..|failed|] == failed;
  }

  /** The loop of `Classify` over the tests that altered the environment. */
  method AddChanged(c: Classified, ghost reasons: map<string, string>)
    requires reasons.Keys <= c.judged && Fair(c.o, reasons, c.judged + Elems(c.o.failed), c.unexpectedFailures)
    modifies c`unexpectedFailures
    ensures Tests(c.unexpectedFailures) ==
            old(Tests(c.unexpectedFailures)) + (Elems(c.o.envChanged) - (c.judged + Elems(c.o.failed)))
    ensures Fair(c.o, reasons, c.judged + Elems(c.o.failed) + Elems(c.o.envChanged), c.unexpectedFailures)
  {
    hide Tests, Fair, Distinct, StatusOf;
    var changed := c.o.envChanged;
    ghost var before := c.judged + Elems(c.o.failed);
    FailedStatus(c.o);
    assert before + Elems(changed[..0]) == before;
    for i := 0 to |changed|
      invariant Tests(c.unexpectedFailures) == old(Tests(c.unexpectedFailures)) + (Elems(changed[..i]) - before)
      invariant Fair(c.o, reasons, before + Elems(changed[..i]), c.unexpectedFailures)
    {
      NextElem(changed, i);
      NotBefore(changed, i);
      ghost var done := before + Elems(changed[..i]);
      assert before + Elems(changed[..i+1]) == done + {changed[i]};
      var v := Verdict(changed[i], TestFailed, ALTERED);
      if changed[i] !in c.judged && changed[i] !in c.o.failed {
        TestsMore(c.unexpectedFailures, v);
        FairMore(c.o, reasons, done, c.unexpectedFailures, v);
        c.unexpectedFailures := c.unexpectedFailures + [v];
      } else {
        FairGrows(c.o, reasons, done, {v.test}, c.unexpectedFailures);
      }
    }
    assert changed[..|changed|] == changed;
  }

  lemma NotBefore(s: seq<string>, i: nat)
    requires i < |s|
    ensures Distinct(s) ==> s[i] !in Elems(s[..i])
  {
  }

  /** Each test lands in at most one bucket, and the outcome agrees with the expectations exactly
      when no listed test passed, every test listed only as a skip was skipped or is out of scope,
      and every failed or environment-changing test is listed. */
  lemma ClassifyDecidesAgreement(o: Outcome, skip: seq<Entry>, fail: seq<Entry>)
    ensures var b := BucketsOf(o, skip, fail);
            b.unexpectedFailures !! b.unexpectedPasses !! b.expectedFailures !! b.expectedSkips
    ensures var b := BucketsOf(o, skip, fail);
            b.unexpectedFailures == {} && b.unexpectedPasses == {} <==>
              && (forall t | t in Listed(fail) + Listed(skip) :: !StatusOf(o, t).TestPassed?)
              && (forall t | t in Listed(skip) - Listed(fail) :: StatusOf(o, t).TestSkipped? || StatusOf(o, t).TestAbsent?)
              && (forall t | t in o.failed || t in o.envChanged :: t in Listed(fail) + Listed(skip))
  {
    var b := BucketsOf(o, skip, fail);
    FailedStatus(o);
    hide StatusOf, Listed;
    if b.unexpectedFailures == {} && b.unexpectedPasses == {} {
      forall t | t in Listed(fail) + Listed(skip) ensures !StatusOf(o, t).TestPassed? {
        assert t !in b.unexpectedPasses;
      }
      forall t | t in Listed(skip) - Listed(fail) ensures StatusOf(o, t).TestSkipped? || StatusOf(o, t).TestAbsent? {
        assert t !in b.unexpectedFailures && t !in b.unexpectedPasses;
      }
      forall t | t in o.failed || t in o.envChanged ensures t in Listed(fail) + Listed(skip) {
        assert t !in b.unexpectedFailures;
      }
    }
  }

  /** The four buckets in terms of what the run reported: unlisted failures, listed tests nothing
      was said about, tests listed as failures that did not pass, and skips that were only skipped. */
  lemma BucketsExactly(o: Outcome, skip: seq<Entry>, fail: seq<Entry>)
    ensures var b := BucketsOf(o, skip, fail);
            && b.unexpectedFailures == Elems(o.failed) + Elems(o.envChanged) - Listed(fail)
            && b.unexpectedPasses == (set t | t in Listed(fail) + Listed(skip) - Named(o)
                                              && (o.requested.None? || t in o.requested.value))
            && b.expectedFailures == Listed(fail) * Named(o)
            && b.expectedSkips == (Listed(skip) - Listed(fail)) * (Named(o) - Elems(o.failed) - Elems(o.envChanged))
  {
    forall t ensures StatusOf(o, t).TestFailed? <==> t in Elems(o.failed) + Elems(o.envChanged)
             ensures StatusOf(o, t).TestPassed? <==> t !in Named(o) && (o.requested.None? || t in o.requested.value)
             ensures StatusOf(o, t).TestSkipped? <==> t in Named(o) - Elems(o.failed) - Elems(o.envChanged) {
      PassedIsUnnamed(o, t);
    }
    assert Elems(o.failed) + Elems(o.envChanged) <= Named(o);
    hide StatusOf, Listed, Named, Elems;
  }

  lemma FailedStatus(o: Outcome)
    ensures forall t | t in o.failed || t in o.envChanged :: StatusOf(o, t).TestFailed?
  {
  }
}
