/**
 Runs into the crash of a merge, each of which fails the one check of `Legal`, that the rules of an app
 not recorded as released can be merged.  The rules of a deleted app stay in the shared ingress while
 another app is there, and an app that takes the service again finds all of them stale.  A first
 release that fails after it has reached the ingress is recorded on AWS only, so that elsewhere the
 following domain changes are not released one by one, and the next release finds all of them at once.
 And on GCP an app can be created again over itself, and forgets its domains but not their rules.
 */
module BadRuns {
  import opened Domains
  import opened Ingress
  import opened DomainProtocol
  import opened IngressMerge

  const A := App("a-web", 80, ["x.com", "y.com"], true)
  const B := App("b-web", 80, ["b.com"], true)
  const AGAIN := App("a-web", 80, [], false)
  const CLAIMING := App("a-web", 80, ["b.com"], false)
  const RULES := [Rule("b.com", "/", "b-web", 80), Rule("x.com", "/", "a-web", 80), Rule("y.com", "/", "a-web", 80)]

  const BOTH := State("/", [], map["a" := A, "b" := B], map["a-web" := "a", "b-web" := "b"], Shared(RULES))
  const DELETED := State("/", [], map["b" := B], map["b-web" := "b"], Shared(RULES))
  const RECREATED := State("/", [], map["b" := B, "a" := AGAIN], map["b-web" := "b"], Shared(RULES))
  const UPDATED := State("/", [], map["b" := B, "a" := CLAIMING], map["b-web" := "b"], Shared(RULES))

  lemma BothIsFine()
    ensures Inv(BOTH) && DistinctHosts(RULES)
  {
    BothInside();
    BothDistinct();
    hide DistinctHosts, RulesOk, Unique;
    assert A.service[0] == 'a' && B.service[0] == 'b';
  }

  lemma BothDistinct()
    ensures DistinctHosts(RULES) && Unique(A.domains) && Unique(B.domains) && Unique([])
  {
    assert "b.com"[0] == 'b' && "x.com"[0] == 'x' && "y.com"[0] == 'y';
  }

  lemma BothInside()
    ensures RulesOk(A, RULES) && RulesOk(B, RULES)
  {
    assert A.service[0] == 'a' && B.service[0] == 'b';
    assert "x.com" in A.domains && "y.com" in A.domains && "b.com" in B.domains;
    forall r | r in RULES ensures (Behind(r, A) ==> r.host in A.domains) && (Behind(r, B) ==> r.host in B.domains) {
      assert r == RULES[0] || r == RULES[1] || r == RULES[2];
    }
  }

  lemma DeleteLeavesRules()
    ensures Step(BOTH, Delete("a")) == Next(DELETED)
  {
    assert A.service[0] == 'a' && B.service[0] == 'b';
    assert BOTH.apps - {"a"} == DELETED.apps;
    assert (map s | s in BOTH.services && BOTH.services[s] != "a" :: BOTH.services[s]) == DELETED.services;
    assert "b-web" in DELETED.services;
  }

  lemma CreateAgain()
    ensures Step(DELETED, Create("a", "a-web", 80)) == Next(RECREATED)
    ensures Legal(DELETED, Create("a", "a-web", 80))
  {
    assert B.service[0] == 'b' && "a-web"[0] == 'a';
    assert DELETED.apps["a" := AGAIN] == RECREATED.apps;
  }

  lemma UpdateAgain()
    ensures Step(RECREATED, UpdateDomain("a", "b.com")) == Next(UPDATED)
  {
    assert MergeDomains([], "b.com") == ["b.com"];
    assert RECREATED.apps["a" := CLAIMING] == UPDATED.apps;
  }

  lemma MergePanics()
    ensures MergeOutcome(RULES, [Rule("b.com", "/", "a-web", 80)]) == Panicked
  {
    var source := [Rule("b.com", "/", "a-web", 80)];
    assert source[..0] == [] && ClaimAll(RULES, source[..0]) == RULES;
    assert RULES[0].host == "b.com" && FirstWithHost(RULES, "b.com") == 0;
    var claimed := ClaimAll(RULES, source);
    assert claimed == RULES[0 := source[0]];
    assert SameBackend(source[0], claimed[1]) && SameBackend(source[0], claimed[2]);
    assert Stale(claimed[1], source) && AnyStale(claimed, 2, source);
  }

  lemma DeployPanics()
    ensures Step(UPDATED, Deploy("a", true)) == Crash && !Legal(UPDATED, Deploy("a", true))
  {
    hide MergeOutcome, ClaimAll, Panics;
    var source := [Rule("b.com", "/", "a-web", 80)];
    assert Source("/", CLAIMING) == source && Source("/", CLAIMING.(built := true)) == source;
    BothIsFine();
    MergePanics();
    CrashIsUnmergeable(RULES, source);
  }

  lemma CrashIsUnmergeable(rules: seq<Rule>, source: seq<Rule>)
    requires DistinctHosts(rules) && DistinctHosts(source) && MergeOutcome(rules, source) == Panicked
    ensures Unmergeable(rules, source)
  {
    MergeIffMergeable(rules, source);
  }

  lemma First(st: State, call: Action, after: State, rest: seq<Action>)
    requires Step(st, call) == Next(after)
    ensures Run(st, [call] + rest) == Run(after, rest)
    ensures Legal(st, call) && LegalRun(after, rest) ==> LegalRun(st, [call] + rest)
  {
    assert ([call] + rest)[1..] == rest;
  }

  lemma Last(st: State, call: Action)
    requires Step(st, call) == Crash
    ensures Run(st, [call]) == Crash && Run(st, []) == Next(st) && LegalRun(st, [])
  {
  }

  lemma TwoThenCrash(st: State, a: Action, st1: State, b: Action, st2: State, last: Action)
    requires Step(st, a) == Next(st1) && Step(st1, b) == Next(st2) && Step(st2, last) == Crash
    requires Legal(st, a) && Legal(st1, b)
    ensures Run(st, [a, b, last]) == Crash
    ensures LegalRun(st, [a, b]) && Run(st, [a, b]) == Next(st2)
  {
    hide Step, Legal, Run, LegalRun;
    Last(st2, last);
    First(st1, b, st2, [last]);
    First(st1, b, st2, []);
    First(st, a, st1, [b, last]);
    First(st, a, st1, [b]);
    assert [b] + [last] == [b, last] && [b] + [] == [b];
    assert [a] + [b, last] == [a, b, last] && [a] + [b] == [a, b];
  }

  lemma ThreeThenCrash(st: State, a: Action, st1: State, b: Action, st2: State, c: Action, st3: State, last: Action)
    requires Step(st, a) == Next(st1) && Step(st1, b) == Next(st2) && Step(st2, c) == Next(st3)
    requires Legal(st, a) && Legal(st1, b) && Legal(st2, c) && Step(st3, last) == Crash
    ensures Run(st, [a, b, c, last]) == Crash
    ensures LegalRun(st, [a, b, c]) && Run(st, [a, b, c]) == Next(st3)
  {
    hide Step, Legal, Run, LegalRun;
    TwoThenCrash(st1, b, st2, c, st3, last);
    First(st, a, st1, [b, c, last]);
    First(st, a, st1, [b, c]);
    assert [a] + [b, c, last] == [a, b, c, last] && [a] + [b, c] == [a, b, c];
  }

  /** A run from a good state in which only the last call is not legal: a service taken again. */
  lemma ReusedServiceCrashes()
    ensures Inv(BOTH)
    ensures var calls := [Delete("a"), Create("a", "a-web", 80), UpdateDomain("a", "b.com")];
            LegalRun(BOTH, calls) && Run(BOTH, calls) == Next(UPDATED)
    ensures !Legal(UPDATED, Deploy("a", true))
    ensures Run(BOTH, [Delete("a"), Create("a", "a-web", 80), UpdateDomain("a", "b.com"), Deploy("a", true)]) == Crash
  {
    var first, third := Delete("a"), UpdateDomain("a", "b.com");
    assert Legal(BOTH, first) && Legal(RECREATED, third);
    hide Step, Inv, Legal, Run, LegalRun;
    BothIsFine();
    DeleteLeavesRules();
    CreateAgain();
    UpdateAgain();
    DeployPanics();
    ThreeThenCrash(BOTH, first, DELETED, Create("a", "a-web", 80), RECREATED, third, UPDATED, Deploy("a", true));
  }

  // A first release that is not recorded

  const FRESH := App("a-web", 80, ["x.com", "y.com", "z.com"], false)
  const ONE_LEFT := App("a-web", 80, ["x.com"], false)
  const LEAKED := [Rule("x.com", "/", "a-web", 80), Rule("y.com", "/", "a-web", 80), Rule("z.com", "/", "a-web", 80)]

  const UNRELEASED := State("/", [], map["a" := FRESH], map[], NoIngress)
  const UNRECORDED := State("/", [], map["a" := FRESH], map["a-web" := "a"], Shared(LEAKED))
  const TWO_LEFT := App("a-web", 80, ["x.com", "z.com"], false)
  const BETWEEN := State("/", [], map["a" := TWO_LEFT], map["a-web" := "a"], Shared(LEAKED))
  const SHRUNK := State("/", [], map["a" := ONE_LEFT], map["a-web" := "a"], Shared(LEAKED))

  lemma ReleaseUnrecorded()
    ensures Inv(UNRELEASED) && Step(UNRELEASED, Deploy("a", false)) == Next(UNRECORDED)
    ensures Legal(UNRELEASED, Deploy("a", false))
  {
    assert "x.com"[0] == 'x' && "y.com"[0] == 'y' && "z.com"[0] == 'z';
    assert Source("/", FRESH) == LEAKED;
    assert UNRELEASED.apps["a" := FRESH] == UNRECORDED.apps;
  }

  lemma RemoveTwo()
    ensures Step(UNRECORDED, UpdateDomain("a", ":y.com")) == Next(BETWEEN)
    ensures Step(BETWEEN, UpdateDomain("a", ":z.com")) == Next(SHRUNK)
  {
    RemoveY();
    RemoveZ();
    hide MergeDomains;
    assert UNRECORDED.apps["a" := BETWEEN.apps["a"]] == BETWEEN.apps;
    assert BETWEEN.apps["a" := ONE_LEFT] == SHRUNK.apps;
  }

  lemma RemoveY()
    ensures MergeDomains(["x.com", "y.com", "z.com"], ":y.com") == ["x.com", "z.com"]
  {
    assert "x.com"[0] == 'x' && ":y.com"[1..] == "y.com";
    IsIndexOf(["x.com", "y.com", "z.com"], "y.com", 1);
  }

  lemma RemoveZ()
    ensures MergeDomains(["x.com", "z.com"], ":z.com") == ["x.com"]
  {
    assert "x.com"[0] == 'x' && ":z.com"[1..] == "z.com";
    IsIndexOf(["x.com", "z.com"], "z.com", 1);
  }

  lemma NextReleasePanics()
    ensures Step(SHRUNK, Deploy("a", true)) == Crash && !Legal(SHRUNK, Deploy("a", true))
  {
    hide MergeOutcome;
    var source := [Rule("x.com", "/", "a-web", 80)];
    assert Source("/", ONE_LEFT) == source && Source("/", ONE_LEFT.(built := true)) == source;
    LeakedPanics();
    CrashIsUnmergeable(LEAKED, source);
  }

  lemma LeakedPanics()
    ensures MergeOutcome(LEAKED, [Rule("x.com", "/", "a-web", 80)]) == Panicked && DistinctHosts(LEAKED)
  {
    var source := [Rule("x.com", "/", "a-web", 80)];
    assert source[..0] == [] && ClaimAll(LEAKED, source[..0]) == LEAKED;
    assert FirstWithHost(LEAKED, "x.com") == 0;
    var claimed := ClaimAll(LEAKED, source);
    assert claimed == LEAKED;
    assert "x.com"[0] == 'x' && "y.com"[0] == 'y' && "z.com"[0] == 'z';
    assert SameBackend(source[0], claimed[1]) && SameBackend(source[0], claimed[2]);
    assert Stale(claimed[1], source) && AnyStale(claimed, 2, source);
  }

  /** A run from a good state in which only the last call is not legal: a first release that was not recorded. */
  lemma UnrecordedReleaseCrashes()
    ensures Inv(UNRELEASED)
    ensures var calls := [Deploy("a", false), UpdateDomain("a", ":y.com"), UpdateDomain("a", ":z.com")];
            LegalRun(UNRELEASED, calls) && Run(UNRELEASED, calls) == Next(SHRUNK)
    ensures !Legal(SHRUNK, Deploy("a", true))
    ensures var calls :=
              [Deploy("a", false), UpdateDomain("a", ":y.com"), UpdateDomain("a", ":z.com"), Deploy("a", true)];
            Run(UNRELEASED, calls) == Crash
  {
    var first, second, third := Deploy("a", false), UpdateDomain("a", ":y.com"), UpdateDomain("a", ":z.com");
    assert Legal(UNRECORDED, second) && Legal(BETWEEN, third);
    hide Step, Inv, Legal, Run, LegalRun;
    ReleaseUnrecorded();
    RemoveTwo();
    NextReleasePanics();
    ThreeThenCrash(UNRELEASED, first, UNRECORDED, second, BETWEEN, third, SHRUNK, Deploy("a", true));
  }

  // An app created over itself

  const RELEASED := State("/", [], map["a" := FRESH.(built := true)], map["a-web" := "a"], Shared(LEAKED))
  const FORGOTTEN := State("/", [], map["a" := AGAIN], map["a-web" := "a"], Shared(LEAKED))

  lemma ReleasedIsFine()
    ensures Inv(RELEASED)
  {
    LeakedPanics();
    FreshDomains();
    hide DistinctHosts, OneOutside;
    LeakedInside();
  }

  lemma FreshDomains()
    ensures Unique(FRESH.domains)
  {
    assert "x.com"[0] == 'x' && "y.com"[0] == 'y' && "z.com"[0] == 'z';
  }

  lemma LeakedInside()
    ensures forall r :: r in LEAKED ==> r.host in FRESH.domains
    ensures OneOutside(FRESH.(built := true), LEAKED)
  {
    assert "x.com" in FRESH.domains && "y.com" in FRESH.domains && "z.com" in FRESH.domains;
    forall r | r in LEAKED ensures r.host in FRESH.domains {
      assert r == LEAKED[0] || r == LEAKED[1] || r == LEAKED[2];
    }
  }

  lemma ForgetAndAdd()
    ensures Step(RELEASED, Create("a", "a-web", 80)) == Next(FORGOTTEN)
    ensures Step(FORGOTTEN, UpdateDomain("a", "x.com")) == Next(SHRUNK)
  {
    assert RELEASED.apps["a" := AGAIN] == FORGOTTEN.apps;
    assert "x.com"[0] == 'x' && MergeDomains([], "x.com") == ["x.com"];
    assert FORGOTTEN.apps["a" := ONE_LEFT] == SHRUNK.apps;
  }

  /** A run from a good state in which only the last call is not legal: an app created over itself. */
  lemma OverwrittenAppCrashes()
    ensures Inv(RELEASED)
    ensures var calls := [Create("a", "a-web", 80), UpdateDomain("a", "x.com")];
            LegalRun(RELEASED, calls) && Run(RELEASED, calls) == Next(SHRUNK)
    ensures !Legal(SHRUNK, Deploy("a", true))
    ensures Run(RELEASED, [Create("a", "a-web", 80), UpdateDomain("a", "x.com"), Deploy("a", true)]) == Crash
  {
    var first, second := Create("a", "a-web", 80), UpdateDomain("a", "x.com");
    assert Legal(RELEASED, first) && Legal(FORGOTTEN, second);
    hide Step, Inv, Legal, Run, LegalRun;
    ReleasedIsFine();
    ForgetAndAdd();
    NextReleasePanics();
    TwoThenCrash(RELEASED, first, FORGOTTEN, second, SHRUNK, Deploy("a", true));
  }
}
