/**
 The weakest check of the state before a step: each merge that the step would make is looked at when it is
 made.  `Legal` looks at fewer steps, and in return refuses the release of an app that has no domains but
 rules for several hosts, although the rules of a first domain might be merged without harm.
 */
module MergeChecks {
  import opened DomainProtocol
  import opened Domains
  import opened Ingress
  import opened IngressMerge

  /** No rule of the app is for a domain that it does not have, unless it has none. */
  ghost predicate Clean(app: App, ingress: Shared) {
    app.port > 0 && app.domains != [] && ingress.Shared? ==> forall r :: r in ingress.rules ==> !Outside(r, app)
  }

  ghost predicate Sane(st: State) {
    && Unique(st.empty) && SeparateServices(st.apps)
    && (forall n :: n in st.apps ==> Unique(st.apps[n].domains))
    && (st.ingress.Shared? ==> DistinctHosts(st.ingress.rules))
    && forall n :: n in st.apps && st.apps[n].built ==> Clean(st.apps[n], st.ingress)
  }

  /** Releasing the app makes no merge, or one that gives what it is meant to. */
  ghost predicate Mergeable(st: State, app: App) {
    app.port > 0 && app.domains != [] && st.ingress.Shared? ==>
      !Unmergeable(st.ingress.rules, Source(st.path, app))
  }

  ghost predicate Passes(st: State, action: Action) {
    match action
    case Create(name, service, port) =>
      port > 0 ==> forall n :: n in st.apps && n != name ==> !SameService(st.apps[n], service, port)
    case UpdateDomain(name, item) =>
      name in st.apps && st.apps[name].built ==>
        Mergeable(st, st.apps[name].(domains := Updated(st.empty, st.apps[name].domains, item)))
    case Deploy(name, _) => name in st.apps ==> Mergeable(st, st.apps[name])
    case Delete(_) => true
  }

  /** The step ends in a sane state, and a release, even one that is not recorded, has cleaned up. */
  ghost predicate GoesWell(st: State, action: Action) {
    var r := Step(st, action);
    && r.Next? && Sane(r.state)
    && (action.Deploy? && action.name in st.apps ==> Clean(st.apps[action.name], r.state.ingress))
  }

  /** All of Sane except for what the rules of the one app are. */
  ghost predicate SaneBut(st: State, name: string) {
    && name in st.apps && Unique(st.empty) && SeparateServices(st.apps)
    && (forall n :: n in st.apps ==> Unique(st.apps[n].domains))
    && (st.ingress.Shared? ==> DistinctHosts(st.ingress.rules))
    && forall n :: n in st.apps && n != name && st.apps[n].built ==> Clean(st.apps[n], st.ingress)
  }

  lemma OthersStayClean(st: State, name: string, rules: seq<Rule>)
    requires SaneBut(st, name) && st.apps[name].port > 0
    requires forall r :: r in rules && !Behind(r, st.apps[name]) ==> st.ingress.Shared? && r in st.ingress.rules
    ensures forall n :: n in st.apps && n != name && st.apps[n].built ==> Clean(st.apps[n], Shared(rules))
  {
    forall n, r | n in st.apps && n != name && st.apps[n].built && st.apps[n].port > 0 && r in rules
      ensures st.apps[n].domains != [] ==> !Outside(r, st.apps[n])
    {
      if Behind(r, st.apps[n]) {
        assert !SameService(st.apps[name], st.apps[n].service, st.apps[n].port);
      }
    }
  }

  /** The release of an app cleans up after it exactly if its rules can be merged. */
  lemma ReleaseIff(st: State, name: string)
    requires SaneBut(st, name)
    ensures var r := Release(st, name, st.apps[name]);
            && (Mergeable(st, st.apps[name]) <==> r.Next? && Clean(st.apps[name], r.state.ingress))
            && (Mergeable(st, st.apps[name]) ==> Sane(r.state))
  {
    hide MergeOutcome, Intended, Source, Unmergeable, SeparateServices, Outside;
    var app := st.apps[name];
    if app.port > 0 && app.domains != [] {
      SourceHosts(st.path, app);
      if st.ingress.Shared? {
        var rules := st.ingress.rules;
        MergeCleansIff(st.path, app, rules);
        if !Unmergeable(rules, Source(st.path, app)) {
          MergeIffMergeable(rules, Source(st.path, app));
          ReleasedRules(st.path, app, rules);
          OthersStayClean(st, name, Intended(rules, Source(st.path, app)));
        }
      } else {
        OthersStayClean(st, name, Source(st.path, app));
        OwnSourceClean(st.path, app);
      }
    }
  }

  lemma OwnSourceClean(path: string, app: App)
    requires Unique(app.domains)
    ensures Clean(app, Shared(Source(path, app)))
  {
    SourceHosts(path, app);
  }

  /** The check is exact for every step: it passes if and only if the step goes well. */
  lemma PassesIff(st: State, action: Action)
    requires Sane(st)
    ensures Passes(st, action) <==> GoesWell(st, action)
  {
    hide Unmergeable, MergeOutcome, Outside;
    match action
    case Create(name, service, port) => CreateIff(st, name, service, port);
    case UpdateDomain(name, item) =>
      if name in st.apps {
        UpdateIff(st, name, item);
      }
    case Deploy(name, saved) =>
      if name in st.apps {
        DeployGoesWellIff(st, name, saved);
      }
    case Delete(name) =>
  }

  lemma CreateIff(st: State, name: string, service: string, port: int)
    requires Sane(st)
    ensures Passes(st, Create(name, service, port)) <==> GoesWell(st, Create(name, service, port))
  {
    hide Clean;
    var after := Step(st, Create(name, service, port)).state;
    if SeparateServices(after.apps) && port > 0 {
      forall n | n in st.apps && n != name ensures !SameService(st.apps[n], service, port) {
        assert after.apps[n] == st.apps[n] && after.apps[name].port > 0;
      }
    }
  }

  lemma UpdateIff(st: State, name: string, item: string)
    requires Sane(st) && name in st.apps
    ensures Passes(st, UpdateDomain(name, item)) <==> GoesWell(st, UpdateDomain(name, item))
  {
    hide MergeDomains, Release, Mergeable, Clean;
    var app := st.apps[name].(domains := Updated(st.empty, st.apps[name].domains, item));
    var st' := st.(apps := st.apps[name := app]);
    MergeDomainsIsSet(st.apps[name].domains, item, "");
    assert SaneBut(st', name);
    MergeableSame(st, st', app);
    if app.built {
      ReleaseIff(st', name);
      ReleaseKeepsApps(st', name);
    }
  }

  lemma DeployGoesWellIff(st: State, name: string, saved: bool)
    requires Sane(st) && name in st.apps
    ensures Passes(st, Deploy(name, saved)) <==> GoesWell(st, Deploy(name, saved))
  {
    hide Release;
    var app := st.apps[name].(built := st.apps[name].built || saved);
    var st' := st.(apps := st.apps[name := app]);
    assert SaneBut(st', name);
    ReleaseIff(st', name);
    hide Mergeable, Clean;
    BuiltIsNoMatter(st, st', st.apps[name], app.built);
    if Step(st, Deploy(name, saved)).Next? {
      CleanEither(st.apps[name], app.built, Step(st, Deploy(name, saved)).state.ingress);
    }
  }

  lemma MergeableSame(st: State, other: State, app: App)
    requires other.path == st.path && other.ingress == st.ingress
    ensures Mergeable(st, app) == Mergeable(other, app)
  {
  }

  lemma BuiltIsNoMatter(st: State, other: State, app: App, built: bool)
    requires other.path == st.path && other.ingress == st.ingress
    ensures Mergeable(other, app.(built := built)) == Mergeable(st, app)
  {
    hide Unmergeable;
    assert Source(st.path, app.(built := built)) == Source(st.path, app);
  }

  lemma CleanEither(app: App, built: bool, ingress: Shared)
    ensures Clean(app.(built := built), ingress) == Clean(app, ingress)
  {
    assert forall r :: Outside(r, app.(built := built)) == Outside(r, app);
  }

  lemma ReleaseKeepsApps(st: State, name: string)
    requires name in st.apps
    ensures var r := Release(st, name, st.apps[name]); r.Next? ==> r.state.apps == st.apps
  {
    hide MergeOutcome;
  }

  // Runs

  ghost predicate PassingRun(st: State, actions: seq<Action>)
    decreases |actions|
  {
    actions != [] ==>
      && Passes(st, actions[0])
      && (Step(st, actions[0]).Next? ==> PassingRun(Step(st, actions[0]).state, actions[1..]))
  }

  ghost predicate RunGoesWell(st: State, actions: seq<Action>)
    decreases |actions|
  {
    actions != [] ==> GoesWell(st, actions[0]) && RunGoesWell(Step(st, actions[0]).state, actions[1..])
  }

  /** A run passes check by check if and only if all its steps go well. */
  lemma {:induction false} PassingRunIff(st: State, actions: seq<Action>)
    requires Sane(st)
    ensures PassingRun(st, actions) <==> RunGoesWell(st, actions)
    decreases |actions|
  {
    hide Step, Sane, Clean, Passes;
    if actions != [] {
      PassesIff(st, actions[0]);
      if GoesWell(st, actions[0]) {
        PassingRunIff(Step(st, actions[0]).state, actions[1..]);
      }
    }
  }

  /** What `Legal` allows passes. */
  lemma LegalPasses(st: State, action: Action)
    requires Inv(st) && Legal(st, action)
    ensures Sane(st) && Passes(st, action)
  {
    hide Unmergeable, MergeDomains;
    match action
    case Create(name, service, port) =>
    case UpdateDomain(name, item) =>
      if name in st.apps && st.apps[name].built {
        var app := st.apps[name].(domains := Updated(st.empty, st.apps[name].domains, item));
        if app.port > 0 && app.domains != [] && st.ingress.Shared? {
          UpdateLeavesOneOutside(st.apps[name], st.empty, item, st.ingress.rules);
          MergeDomainsIsSet(st.apps[name].domains, item, "");
          OneOutsideIsMergeable(st.path, app, st.ingress.rules);
        }
      }
    case Deploy(name, saved) =>
      if name in st.apps && st.apps[name].built {
        BuiltIsReleasable(st, name);
      }
    case Delete(name) =>
  }
}
