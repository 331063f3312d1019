/**
 Several apps that share one ingress: creating apps, changing their domains, releasing and deleting
 them, in any order.  Every change of the domains of an app that is recorded as released is followed by
 a release, and a release merges the rules of the app unless it has no port or no domain.
 */
module DomainProtocol {
  import opened Domains
  import opened Ingress
  import opened IngressMerge

  /** An app without a port, or one whose releases are refused, has port 0. */
  datatype App = App(service: string, port: int, domains: seq<string>, built: bool)

  /**
   `empty` is what the store reads back for an app without domains.  Each service is that of an app, the
   one that was released last behind it.
   */
  datatype State = State(
    path: string,
    empty: seq<string>,
    apps: map<string, App>,
    services: map<string, string>,
    ingress: Shared)

  /** `saved` tells whether the release is recorded with the app; only AWS records one that fails. */
  datatype Action =
    | Create(name: string, service: string, port: int)
    | UpdateDomain(name: string, item: string)
    | Deploy(name: string, saved: bool)
    | Delete(name: string)

  datatype Result = Next(state: State) | Crash

  function Source(path: string, app: App): seq<Rule> {
    RulesFor(app.service, path, app.port, app.domains)
  }

  function Release(st: State, name: string, app: App): Result {
    if app.port <= 0 then Next(st)
    else
      var served := st.(services := st.services[app.service := name]);
      if app.domains == [] then Next(served)
      else
        match Publish(st.ingress, Source(st.path, app))
        case Panicked => Crash
        case Merged(rules) => Next(served.(ingress := Shared(rules)))
  }

  function Updated(empty: seq<string>, domains: seq<string>, item: string): seq<string> {
    var merged := MergeDomains(domains, item);
    if merged == [] then empty else merged
  }

  /** Unknown names are refused without any change; creating an app again makes it a new one. */
  function Step(st: State, action: Action): Result {
    match action
    case Create(name, service, port) =>
      Next(st.(apps := st.apps[name := App(service, port, st.empty, false)]))
    case UpdateDomain(name, item) =>
      if name !in st.apps then Next(st)
      else
        var app := st.apps[name].(domains := Updated(st.empty, st.apps[name].domains, item));
        var st' := st.(apps := st.apps[name := app]);
        if app.built then Release(st', name, app) else Next(st')
    case Deploy(name, saved) =>
      if name !in st.apps then Next(st)
      else
        var app := st.apps[name].(built := st.apps[name].built || saved);
        Release(st.(apps := st.apps[name := app]), name, app)
    case Delete(name) =>
      var services := map s | s in st.services && st.services[s] != name :: st.services[s];
      // the shared ingress goes with the last service
      Next(State(st.path, st.empty, st.apps - {name}, services, if services == map[] then NoIngress else st.ingress))
  }

  function Run(st: State, actions: seq<Action>): Result
    decreases |actions|
  {
    if actions == [] then Next(st)
    else
      match Step(st, actions[0])
      case Crash => Crash
      case Next(st') => Run(st', actions[1..])
  }

  predicate Behind(r: Rule, app: App) {
    r.service == app.service && r.port == app.port
  }

  predicate Outside(r: Rule, app: App) {
    Behind(r, app) && r.host !in app.domains
  }

  /** Rules of the app for domains that it does not have are all for one host. */
  ghost predicate OneOutside(app: App, rules: seq<Rule>) {
    forall r, r' :: r in rules && r' in rules && Outside(r, app) && Outside(r', app) ==> r.host == r'.host
  }

  /** Releasing the app as it is would merge its rules as intended, or leave at most one host behind. */
  ghost predicate Releasable(st: State, app: App) {
    app.port > 0 && st.ingress.Shared? ==>
      if app.domains == [] then OneOutside(app, st.ingress.rules)
      else !Unmergeable(st.ingress.rules, Source(st.path, app))
  }

  /**
   What a caller has to look at before a call: a new app shares its service and port with no other app,
   and an app that is not recorded as released finds an ingress that its rules can be merged into.
   */
  ghost predicate Legal(st: State, action: Action) {
    match action
    case Create(name, service, port) =>
      port > 0 ==> forall n :: n in st.apps && n != name ==> !SameService(st.apps[n], service, port)
    case UpdateDomain(_, _) => true
    case Deploy(name, _) => name in st.apps && !st.apps[name].built ==> Releasable(st, st.apps[name])
    case Delete(_) => true
  }

  ghost predicate LegalRun(st: State, actions: seq<Action>)
    decreases |actions|
  {
    actions != [] ==>
      && Legal(st, actions[0])
      && (Step(st, actions[0]).Next? ==> LegalRun(Step(st, actions[0]).state, actions[1..]))
  }

  // The invariant

  predicate SameService(app: App, service: string, port: int) {
    app.service == service && app.port == port
  }

  ghost predicate SeparateServices(apps: map<string, App>) {
    forall n, m :: n in apps && m in apps && n != m && apps[n].port > 0 ==>
      !SameService(apps[m], apps[n].service, apps[n].port)
  }

  /** A released app with domains has no rule outside them; one without may have kept the rule of its last domain. */
  ghost predicate RulesOk(app: App, rules: seq<Rule>) {
    app.built && app.port > 0 ==>
      && (app.domains != [] ==> forall r :: r in rules && Behind(r, app) ==> r.host in app.domains)
      && OneOutside(app, rules)
  }

  ghost predicate Inv(st: State) {
    && Unique(st.empty) && SeparateServices(st.apps)
    && (forall n :: n in st.apps ==> Unique(st.apps[n].domains))
    && (st.ingress.Shared? ==>
          && DistinctHosts(st.ingress.rules)
          && forall n :: n in st.apps ==> RulesOk(st.apps[n], st.ingress.rules))
  }

  lemma SourceHosts(path: string, app: App)
    requires Unique(app.domains)
    ensures DistinctHosts(Source(path, app))
    ensures forall r :: r in Source(path, app) ==> Behind(r, app) && r.host in app.domains
    ensures forall h :: HasHost(Source(path, app), h) <==> h in app.domains
  {
    var s := Source(path, app);
    forall h | h in app.domains ensures HasHost(s, h) {
      var i :| 0 <= i < |app.domains| && app.domains[i] == h;
      assert s[i].host == h;
    }
  }

  /** What the loops see as stale is what the app has outside its domains. */
  lemma StaleIsOutside(path: string, app: App, r: Rule)
    requires Unique(app.domains) && app.domains != []
    ensures Stale(r, Source(path, app)) <==> Behind(r, app) && r.host !in app.domains
  {
    SourceHosts(path, app);
    var s := Source(path, app);
    if Behind(r, app) {
      assert SameBackend(s[0], r);
    }
  }

  /** With at most one host left behind the merge of a release gives what it is meant to. */
  lemma OneOutsideIsMergeable(path: string, app: App, rules: seq<Rule>)
    requires Unique(app.domains) && app.domains != []
    requires DistinctHosts(rules) && OneOutside(app, rules)
    ensures !Unmergeable(rules, Source(path, app))
  {
    hide Stale, MergeOutcome, Intended, Unmergeable;
    SourceHosts(path, app);
    forall r, r' | r in rules && r' in rules && Stale(r, Source(path, app)) && Stale(r', Source(path, app))
      ensures r.host == r'.host
    {
      StaleIsOutside(path, app, r);
      StaleIsOutside(path, app, r');
    }
    MergeOneStale(rules, Source(path, app));
    MergeIffMergeable(rules, Source(path, app));
  }

  /** After a release the app has rules for its domains only, and no other app has gained one. */
  lemma ReleasedRules(path: string, app: App, rules: seq<Rule>)
    requires Unique(app.domains) && app.domains != [] && DistinctHosts(rules)
    ensures var merged := Intended(rules, Source(path, app));
            && DistinctHosts(merged)
            && (forall r :: r in merged && Behind(r, app) ==> r.host in app.domains)
            && (forall r :: r in merged && !Behind(r, app) ==> r in rules)
            && (forall d :: d in app.domains ==> Rule(d, path, app.service, app.port) in merged)
  {
    var source := Source(path, app);
    var merged := Intended(rules, source);
    SourceHosts(path, app);
    IntendedDistinct(rules, source);
    forall r | r in merged ensures if Behind(r, app) then r.host in app.domains else r in rules {
      IntendedMembers(rules, source, r);
      StaleIsOutside(path, app, r);
    }
    forall d | d in app.domains ensures Rule(d, path, app.service, app.port) in merged {
      var i :| 0 <= i < |app.domains| && app.domains[i] == d;
      assert source[i] == Rule(d, path, app.service, app.port);
      IntendedMembers(rules, source, source[i]);
    }
  }

  /** All of Inv except for the rules of the one app that is about to be released. */
  ghost predicate InvBut(st: State, name: string)
    requires name in st.apps
  {
    && Unique(st.empty) && SeparateServices(st.apps)
    && (forall n :: n in st.apps ==> Unique(st.apps[n].domains))
    && Releasable(st, st.apps[name])
    && (st.ingress.Shared? ==>
          && DistinctHosts(st.ingress.rules)
          && forall n :: n in st.apps && n != name ==> RulesOk(st.apps[n], st.ingress.rules))
  }

  lemma ReleaseKeepsInv(st: State, name: string)
    requires name in st.apps && InvBut(st, name)
    ensures var r := Release(st, name, st.apps[name]); r.Next? && Inv(r.state)
  {
    hide MergeOutcome, Intended, Source, Unmergeable;
    var app := st.apps[name];
    if app.port > 0 && app.domains != [] {
      if st.ingress.Shared? {
        SourceHosts(st.path, app);
        MergeIffMergeable(st.ingress.rules, Source(st.path, app));
        ReleasedRules(st.path, app, st.ingress.rules);
        var merged := Intended(st.ingress.rules, Source(st.path, app));
        forall n | n in st.apps ensures RulesOk(st.apps[n], merged) {
          if n != name {
            assert forall r :: r in merged && Behind(r, st.apps[n]) ==> !Behind(r, app) && r in st.ingress.rules;
          }
        }
      } else {
        SourceHosts(st.path, app);
        var source := Source(st.path, app);
        forall n | n in st.apps ensures RulesOk(st.apps[n], source) {
        }
      }
    }
  }

  lemma UpdateLeavesOneOutside(app: App, empty: seq<string>, item: string, rules: seq<Rule>)
    requires Unique(app.domains) && RulesOk(app, rules) && app.built && app.port > 0
    ensures OneOutside(app.(domains := Updated(empty, app.domains, item)), rules)
  {
    hide MergeDomains;
    var app' := app.(domains := Updated(empty, app.domains, item));
    forall r, r' | r in rules && r' in rules && Outside(r, app') && Outside(r', app')
      ensures r.host == r'.host
    {
      assert Behind(r, app) && Behind(r', app);
      MergeDomainsIsSet(app.domains, item, r.host);
      MergeDomainsIsSet(app.domains, item, r'.host);
    }
  }

  lemma UpdateKeepsInv(st: State, name: string, item: string)
    requires Inv(st) && name in st.apps
    ensures Step(st, UpdateDomain(name, item)).Next? && Inv(Step(st, UpdateDomain(name, item)).state)
  {
    hide MergeDomains, MergeOutcome, Release, Unmergeable;
    var app := st.apps[name];
    var app' := app.(domains := Updated(st.empty, app.domains, item));
    var st' := st.(apps := st.apps[name := app']);
    MergeDomainsIsSet(app.domains, item, "");
    if app.built {
      if st.ingress.Shared? && app.port > 0 {
        UpdateLeavesOneOutside(app, st.empty, item, st.ingress.rules);
        if app'.domains != [] {
          OneOutsideIsMergeable(st.path, app', st.ingress.rules);
        }
      }
      assert InvBut(st', name);
      ReleaseKeepsInv(st', name);
    }
  }

  /** An app recorded as released can always be released again. */
  lemma BuiltIsReleasable(st: State, name: string)
    requires Inv(st) && name in st.apps && st.apps[name].built
    ensures Releasable(st, st.apps[name])
  {
    hide Unmergeable;
    var app := st.apps[name];
    if app.port > 0 && st.ingress.Shared? && app.domains != [] {
      OneOutsideIsMergeable(st.path, app, st.ingress.rules);
    }
  }

  lemma DeployKeepsInv(st: State, name: string, saved: bool)
    requires Inv(st) && name in st.apps && Legal(st, Deploy(name, saved))
    ensures Step(st, Deploy(name, saved)).Next? && Inv(Step(st, Deploy(name, saved)).state)
  {
    hide Unmergeable, Release;
    if st.apps[name].built {
      BuiltIsReleasable(st, name);
    }
    var app' := st.apps[name].(built := st.apps[name].built || saved);
    var st' := st.(apps := st.apps[name := app']);
    assert InvBut(st', name);
    ReleaseKeepsInv(st', name);
  }

  /** Every legal step keeps the invariant, and none crashes. */
  lemma StepKeepsInv(st: State, action: Action)
    requires Inv(st) && Legal(st, action)
    ensures Step(st, action).Next? && Inv(Step(st, action).state)
  {
    hide MergeDomains, Release, Releasable;
    match action
    case Create(name, service, port) =>
    case UpdateDomain(name, item) =>
      if name in st.apps {
        UpdateKeepsInv(st, name, item);
      }
    case Deploy(name, saved) =>
      if name in st.apps {
        DeployKeepsInv(st, name, saved);
      }
    case Delete(name) =>
  }

  /**
   Over every run: no merge slices out of range, hosts stay distinct, and an app with domains has no
   ingress rule outside them.
   */
  lemma {:induction false} RunIsSafe(st: State, actions: seq<Action>)
    requires Inv(st) && LegalRun(st, actions)
    ensures Run(st, actions).Next? && Inv(Run(st, actions).state)
    decreases |actions|
  {
    hide Step, Inv;
    if actions != [] {
      StepKeepsInv(st, actions[0]);
      RunIsSafe(Step(st, actions[0]).state, actions[1..]);
    }
  }

  lemma StartIsSafe(path: string, empty: seq<string>)
    ensures Unique(empty) ==> Inv(State(path, empty, map[], map[], NoIngress))
  {
  }

  /**
   One release from such a state, legal or not, of an app with domains into an ingress that is there: it
   gives the intended rules exactly when they are mergeable, and it crashes exactly when the loops slice
   out of range.
   */
  lemma DeployIff(st: State, name: string, saved: bool)
    requires Inv(st) && name in st.apps && st.apps[name].port > 0 && st.apps[name].domains != [] && st.ingress.Shared?
    ensures var source := Source(st.path, st.apps[name]); var r := Step(st, Deploy(name, saved));
            && (r.Next? && r.state.ingress == Shared(Intended(st.ingress.rules, source))
                <==> !Unmergeable(st.ingress.rules, source))
            && (r == Crash <==> Panics(ClaimAll(st.ingress.rules, source), source))
  {
    var app := st.apps[name].(built := st.apps[name].built || saved);
    assert Source(st.path, app) == Source(st.path, st.apps[name]);
    hide Source, Intended, Unmergeable, ClaimAll, Panics, MergeOutcome;
    hide DistinctHosts, Unique, RulesOk, SeparateServices;
    assert Step(st, Deploy(name, saved)) == Release(st.(apps := st.apps[name := app]), name, app);
    hide Step;
    assert DistinctHosts(Source(st.path, st.apps[name])) by { SourceHosts(st.path, st.apps[name]); }
    MergeIffMergeable(st.ingress.rules, Source(st.path, st.apps[name]));
    MergePanicsIff(st.ingress.rules, Source(st.path, st.apps[name]));
  }

  lemma MergePanicsIff(dest: seq<Rule>, source: seq<Rule>)
    ensures MergeOutcome(dest, source) == Panicked <==> Panics(ClaimAll(dest, source), source)
  {
  }

  /**
   The check before the release of an app with domains is exact: without it the release crashes or leaves a
   rule outside the domains.  For every step there is an exact check of each merge in MergeChecks.
   */
  lemma LegalIff(st: State, name: string, saved: bool)
    requires Inv(st) && name in st.apps && st.apps[name].port > 0 && st.apps[name].domains != [] && st.ingress.Shared?
    ensures var r := Step(st, Deploy(name, saved));
            Legal(st, Deploy(name, saved))
            <==> r.Next? && forall x :: x in r.state.ingress.rules ==> !Outside(x, st.apps[name])
  {
    MergeCleansIff(st.path, st.apps[name], st.ingress.rules);
    if st.apps[name].built {
      BuiltIsReleasable(st, name);
    }
    hide Source, Unmergeable, Outside, MergeOutcome, Inv;
  }

  /** A release that was not recorded, because its pods were late, can be made again. */
  lemma UnrecordedReleaseRepeats(st: State, name: string, saved: bool)
    requires Inv(st) && name in st.apps && Legal(st, Deploy(name, false))
    ensures var r := Step(st, Deploy(name, false)); r.Next? && Legal(r.state, Deploy(name, saved))
  {
    DeployKeepsInv(st, name, false);
    var app := st.apps[name];
    if app.port > 0 && app.domains != [] && !app.built {
      var after := Step(st, Deploy(name, false)).state;
      if st.ingress.Shared? {
        LegalIff(st, name, false);
      } else {
        SourceHosts(st.path, app);
      }
      hide Step, Inv;
      OneOutsideIsMergeable(st.path, app, after.ingress.rules);
    }
  }

  lemma MergeCleansIff(path: string, app: App, rules: seq<Rule>)
    requires Unique(app.domains) && app.domains != [] && DistinctHosts(rules)
    ensures var merged := MergeOutcome(rules, Source(path, app));
            !Unmergeable(rules, Source(path, app))
            <==> merged.Merged? && forall x :: x in merged.rules ==> !Outside(x, app)
  {
    var source := Source(path, app);
    SourceHosts(path, app);
    if !Unmergeable(rules, source) {
      MergeIffMergeable(rules, source);
      ReleasedRules(path, app, rules);
    } else if MergeOutcome(rules, source).Merged? {
      UnmergeableClaimed(rules, source);
      SweepLeaves(ClaimAll(rules, source), source);
      var x :| x in Sweep(ClaimAll(rules, source), source) && Stale(x, source);
      StaleIsOutside(path, app, x);
    }
  }

  /** After a release the ingress leads every domain of the app to its service. */
  lemma ReleaseServesDomains(st: State, name: string, saved: bool)
    requires name in st.apps && Inv(st) && st.apps[name].domains != [] && st.apps[name].port > 0
    requires Legal(st, Deploy(name, saved))
    ensures var r := Step(st, Deploy(name, saved)); var app := st.apps[name];
            && r.Next? && r.state.ingress.Shared? && app.service in r.state.services
            && forall d :: d in app.domains ==> Rule(d, st.path, app.service, app.port) in r.state.ingress.rules
  {
    var app := st.apps[name];
    DeployKeepsInv(st, name, saved);
    if st.ingress.Shared? {
      if app.built {
        BuiltIsReleasable(st, name);
      }
      SourceHosts(st.path, app);
      MergeIffMergeable(st.ingress.rules, Source(st.path, app));
      ReleasedRules(st.path, app, st.ingress.rules);
    } else {
      forall d | d in app.domains ensures Rule(d, st.path, app.service, app.port) in Source(st.path, app) {
        var i :| 0 <= i < |app.domains| && app.domains[i] == d;
        assert Source(st.path, app)[i] == Rule(d, st.path, app.service, app.port);
      }
    }
  }
}
