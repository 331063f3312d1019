/** The server's side of creating, releasing, changing and deleting apps: the store of apps beside the cluster. */
module Controllers {
  import opened AppRuns
  import opened ClusterRuns
  import opened Apps
  import opened Clusters
  import opened Domains
  import opened GoSlices
  import opened Ingress
  import opened IngressMerge
  import opened Kube
  import opened Options
  import opened SecretStore
  import opened Strings
  import P = DomainProtocol
  import Sidecar

  /** What is fixed for a server: `atoi` says which texts are numbers. */
  datatype Config = Config(namespace: string, provider: string, atoi: string -> Option<int>)

  /** What is stored of an app; `built` says whether it has a build that has been released. */
  datatype Record = Record(
    domains: seq<string>,
    built: bool,
    procfile: Procfile,
    image: string,
    env: map<string, string>,
    sqlProxy: bool)

  /** Only GCP looks for linked databases. */
  function ReleaseOf(c: Config, name: string, r: Record): AppRelease {
    AppRelease(name, r.procfile, c.namespace, r.image, c.provider == GCP && r.sqlProxy, r.domains, r.env, c.provider)
  }

  /** The service of an app and its port come from the build and the environment, which stay as they are. */
  function ProtocolApp(c: Config, name: string, r: Record): P.App {
    ReleasedApp(ReleaseOf(c, name, r), c.atoi).(built := r.built)
  }

  ghost function ProtocolApps(c: Config, apps: map<string, Record>): map<string, P.App> {
    map n | n in apps :: ProtocolApp(c, n, apps[n])
  }

  /** What the protocol of domain changes sees. */
  ghost function View(c: Config, st: State, apps: map<string, Record>): P.State {
    ProtocolState(st, c.provider, ProtocolApps(c, apps))
  }

  /** AWS records a release before it is made, GCP and the local provider when it has succeeded. */
  predicate Saves(c: Config, end: End) {
    c.provider == AWS || end == Finished
  }

  ghost predicate AllManaged(services: map<string, Service>) {
    forall s :: s in services ==> OfApp(services[s].labels, Sidecar.Get(services[s].labels, "app"))
  }

  ghost predicate AllStorable(apps: map<string, Record>) {
    forall n :: n in apps ==> Storable(apps[n].domains)
  }

  /** The invariant of the protocol, beside services that are all managed and lists that come back from the store. */
  ghost predicate SafeState(c: Config, st: State, apps: map<string, Record>) {
    P.Inv(View(c, st, apps)) && AllManaged(st.services) && (c.provider == LOCAL ==> AllStorable(apps))
  }

  /**
   The step of the protocol that a call is: a call that ends has made the step, a panic is the crash of
   the merge, and a process that exits has made the step or has left ingress and services as they were.
   */
  ghost predicate Follows(end: End, before: P.State, action: P.Action, after: P.State) {
    match end
    case Finished => P.Step(before, action) == P.Next(after)
    case Error => P.Step(before, action) == P.Next(after)
    case Panic => P.Step(before, action) == P.Crash
    case Exit =>
      || (after.ingress == before.ingress && after.services == before.services)
      || P.Step(before, action) == P.Next(after)
  }

  /** The default deployment of the app is there. */
  predicate HasDefault(deployments: map<string, Deployment>, name: string, apps: map<string, Record>) {
    name in apps && JobID(name, DefaultProctype(apps[name].procfile)) in deployments
  }

  /** A domain that comes back as it is from the store of the provider. */
  predicate CommaFree(c: Config, item: string) {
    c.provider == LOCAL ==> DELIMITER !in item
  }

  class Controller {
    var apps: map<string, Record>
    const cluster: Cluster
    const config: Config

    ghost function Abstract(): P.State
      reads this, cluster
    {
      View(config, cluster.Current(), apps)
    }

    ghost predicate Safe()
      reads this, cluster
    {
      SafeState(config, cluster.Current(), apps)
    }

    constructor (cluster: Cluster, config: Config)
      requires cluster.Current() == State(map[], map[], map[], NoIngress, {})
      ensures this.cluster == cluster && this.config == config && apps == map[] && Safe()
    {
      this.apps, this.cluster, this.config := map[], cluster, config;
      new;
      EmptyIsUnique(config.provider);
      var path, empty := IngressPath(config.provider), StoredAs(config.provider, []);
      P.StartIsSafe(path, empty);
      assert Abstract() == P.State(path, empty, map[], map[], NoIngress);
    }

    /** GCP does not look whether the name is in use. */
    method AppCreate(name: string, r: Record) returns (end: End)
      modifies this`apps
      ensures end == if config.provider != GCP && name in old(apps) then Error else Finished
      ensures end == Error ==> apps == old(apps)
      ensures end == Finished ==>
                && name in apps && apps[name].domains == StoredAs(config.provider, []) && !apps[name].built
                && Follows(end, old(Abstract()), CreateAction(config, name, r), Abstract())
      ensures old(Safe()) ==> Safe()
    {
      if config.provider != GCP && name in apps {
        return Error;
      }
      ghost var before := apps;
      apps := apps[name := r.(domains := StoredAs(config.provider, []), built := false)];
      end := Finished;
      CreateSteps(config, cluster.Current(), before, name, r);
      hide SafeState;
    }

    method BuildRelease(name: string, running: seq<Process>, worlds: seq<World>) returns (end: End)
      requires |worlds| > |Others(running)|
      modifies this, cluster
      ensures name !in old(apps) ==> end == Error && apps == old(apps) && cluster.Current() == old(cluster.Current())
      ensures name in old(apps) ==>
                && apps == Recorded(config, old(apps), name, end)
                && Reply(cluster.Current(), end)
                   == Release(old(cluster.Current()), ReleaseOf(config, name, old(apps)[name]), running,
                              config.atoi, worlds)
      ensures name in old(apps) ==>
                && apps == old(apps)[name := old(apps)[name].(built := apps[name].built)]
                && (apps[name].built <==> old(apps)[name].built || config.provider == "aws" || end == Finished)
      ensures Follows(end, old(Abstract()), P.Deploy(name, Saves(config, end)), Abstract())
      ensures end == Exit && HasDefault(old(cluster.deployments), name, old(apps)) ==>
                P.Step(old(Abstract()), P.Deploy(name, Saves(config, end))) == P.Next(Abstract())
      ensures old(Safe() && P.Legal(Abstract(), P.Deploy(name, true))) ==> end != Panic && Safe()
    {
      if name !in apps {
        return Error;
      }
      var app := apps[name];
      ghost var before, was := apps, cluster.Current();
      if config.provider == AWS {
        apps := apps[name := app.(built := true)];
      }
      end := UpdateApp(cluster, ReleaseOf(config, name, app), running, config.atoi, worlds);
      if config.provider != AWS && end == Finished {
        apps := apps[name := app.(built := true)];
      }
      assert apps == Recorded(config, before, name, end);
      hide Release, Follows, SafeState, View, P.Legal, P.Step, Recorded;
      ReleaseSteps(config, was, before, name, running, worlds);
      if SafeState(config, was, before) && P.Legal(View(config, was, before), P.Deploy(name, true)) {
        ReleaseIsSafe(config, was, before, name, running, worlds);
      }
    }

    method AppUpdateDomain(name: string, item: string, running: seq<Process>, worlds: seq<World>) returns (end: End)
      requires |worlds| > |Others(running)|
      modifies this, cluster
      ensures name in old(apps) ==>
                && name in apps
                && apps[name].domains == StoredAs(config.provider, MergeDomains(old(apps)[name].domains, item))
      ensures name !in old(apps) ==> end == Error && apps == old(apps)
      ensures name !in old(apps) || !old(apps)[name].built ==> cluster.Current() == old(cluster.Current())
      ensures name in old(apps) && old(apps)[name].built ==>
                var stored := Stored(config, old(apps), name, item);
                && apps == Recorded(config, stored, name, end)
                && Reply(cluster.Current(), end)
                   == Release(old(cluster.Current()), ReleaseOf(config, name, stored[name]), running,
                              config.atoi, worlds)
      ensures old(Safe()) && CommaFree(config, item) ==>
                end != Panic && Follows(end, old(Abstract()), P.UpdateDomain(name, item), Abstract())
      ensures old(Safe()) && CommaFree(config, item) ==>
                (end == Exit ==> HasDefault(old(cluster.deployments), name, old(apps))) ==> Safe()
    {
      if name !in apps {
        return Error;
      }
      var domains := new Slice(apps[name].domains);
      MergeAppDomains(domains, item);
      ghost var before, was := apps, cluster.Current();
      apps := apps[name := apps[name].(domains := StoredAs(config.provider, domains.data[..domains.len]))];
      hide Release, Follows, SafeState, View, P.Legal, P.Step, StoredAs, MergeDomains;
      if !apps[name].built {
        end := Finished;
        if SafeState(config, was, before) && CommaFree(config, item) {
          UpdateUnbuiltSteps(config, was, before, name, item);
        }
      } else {
        end := BuildRelease(name, running, worlds);
        if SafeState(config, was, before) && CommaFree(config, item) {
          UpdateBuiltSteps(config, was, before, name, item, running, worlds);
        }
      }
    }

    method AppDelete(name: string) returns (end: End)
      modifies this, cluster
      ensures apps == old(apps) - {name}
      ensures end == if config.provider == LOCAL && name !in old(apps) then Error else Finished
      ensures cluster.Current() == DeleteApp(old(cluster.Current()), name)
      ensures old(Safe()) ==> Safe() && Follows(end, old(Abstract()), P.Delete(name), Abstract())
    {
      ghost var before, was := apps, cluster.Current();
      cluster.Delete(name);
      end := if config.provider == LOCAL && name !in apps then Error else Finished;
      apps := apps - {name};
      hide SafeState, View, DeleteApp, P.Step;
      if SafeState(config, was, before) {
        DeleteSteps(config, was, before, name);
      }
    }
  }

  // Creating

  function CreateAction(c: Config, name: string, r: Record): P.Action {
    var app := ProtocolApp(c, name, r);
    P.Create(name, app.service, app.port)
  }

  lemma EmptyIsUnique(provider: string)
    ensures Unique(StoredAs(provider, []))
  {
    JoinNothing();
  }

  lemma CreateSteps(c: Config, st: State, apps: map<string, Record>, name: string, r: Record)
    ensures var after := apps[name := r.(domains := StoredAs(c.provider, []), built := false)];
            && P.Step(View(c, st, apps), CreateAction(c, name, r)) == P.Next(View(c, st, after))
            && (SafeState(c, st, apps) ==> SafeState(c, st, after))
  {
    var created := r.(domains := StoredAs(c.provider, []), built := false);
    var after := apps[name := created];
    var view := View(c, st, apps);
    assert ProtocolApps(c, after) == ProtocolApps(c, apps)[name := ProtocolApp(c, name, created)];
    hide Owners, AllManaged, AppPort, ToInt32, StoredAs, P.Inv, JobID, Storable;
    if SafeState(c, st, apps) {
      forall n | n in view.apps && n != name ensures view.apps[n].service != ProtocolApp(c, name, r).service {
        ServicesDiffer(n, DefaultProctype(apps[n].procfile), name, DefaultProctype(r.procfile));
      }
      P.StepKeepsInv(view, CreateAction(c, name, r));
      EmptyIsStorable();
    }
  }

  lemma EmptyIsStorable()
    ensures Storable(StoredAs(LOCAL, []))
  {
    JoinNothing();
  }

  /** The default services of two apps never have the same name. */
  lemma ServicesDiffer(a: string, p: string, b: string, q: string)
    requires a != b && p in {WEB, CMD} && q in {WEB, CMD}
    ensures JobID(a, p) != JobID(b, q)
  {
    var x, y := JobID(a, p), JobID(b, q);
    assert x[|x| - 1] == p[2] && y[|y| - 1] == q[2];
    assert x[..|x| - 4] == a && y[..|y| - 4] == b;
  }

  // Releasing

  ghost function Recorded(c: Config, apps: map<string, Record>, name: string, end: End): map<string, Record>
    requires name in apps
  {
    apps[name := apps[name].(built := apps[name].built || Saves(c, end))]
  }

  lemma ReleaseSteps(c: Config, st: State, apps: map<string, Record>, name: string, running: seq<Process>,
      worlds: seq<World>)
    requires name in apps && |worlds| > |Others(running)|
    ensures var reply := Release(st, ReleaseOf(c, name, apps[name]), running, c.atoi, worlds);
            var before, after := View(c, st, apps), View(c, reply.state, Recorded(c, apps, name, reply.end));
            && Follows(reply.end, before, P.Deploy(name, Saves(c, reply.end)), after)
            && (reply.end == Exit && HasDefault(st.deployments, name, apps) ==>
                  P.Step(before, P.Deploy(name, Saves(c, reply.end))) == P.Next(after))
            && (reply.end == Exit ==> !Saves(c, reply.end))
  {
    var r := ReleaseOf(c, name, apps[name]);
    var reply := Release(st, r, running, c.atoi, worlds);
    ReleaseFollowsProtocol(st, r, running, c.atoi, worlds, ProtocolApps(c, apps));
    if reply.end == Exit {
      ReleaseExits(st, r, running, c.atoi, worlds, ProtocolApps(c, apps));
    }
    hide Release, ReplyFollows, Reached, P.Release;
    RecordedView(c, apps, name, reply.end);
    DeployFollows(View(c, st, apps), name, Saves(c, reply.end), st, reply);
  }

  lemma RecordedView(c: Config, apps: map<string, Record>, name: string, end: End)
    requires name in apps
    ensures var before := ProtocolApps(c, apps);
            && name in before && before[name] == ProtocolApp(c, name, apps[name])
            && ProtocolApps(c, Recorded(c, apps, name, end))
               == before[name := before[name].(built := before[name].built || Saves(c, end))]
  {
  }

  lemma DeployFollows(before: P.State, name: string, saved: bool, was: State, reply: Reply)
    requires name in before.apps && before.ingress == was.ingress && before.services == Owners(was.services)
    requires ReplyFollows(was, reply, P.Release(before, name, before.apps[name].(built := true)))
    ensures var app := before.apps[name].(built := before.apps[name].built || saved);
            var after := before.(apps := before.apps[name := app], services := Owners(reply.state.services),
                                 ingress := reply.state.ingress);
            && Follows(reply.end, before, P.Deploy(name, saved), after)
            && (Reached(reply.state, P.Release(before, name, before.apps[name].(built := true))) ==>
                  P.Step(before, P.Deploy(name, saved)) == P.Next(after))
  {
    hide Publish, RulesFor, Owners;
  }

  lemma ReleaseIsSafe(c: Config, st: State, apps: map<string, Record>, name: string, running: seq<Process>,
      worlds: seq<World>)
    requires name in apps && |worlds| > |Others(running)|
    requires SafeState(c, st, apps) && P.Legal(View(c, st, apps), P.Deploy(name, true))
    ensures var reply := Release(st, ReleaseOf(c, name, apps[name]), running, c.atoi, worlds);
            reply.end != Panic && SafeState(c, reply.state, Recorded(c, apps, name, reply.end))
  {
    var reply := Release(st, ReleaseOf(c, name, apps[name]), running, c.atoi, worlds);
    var before, after := View(c, st, apps), View(c, reply.state, Recorded(c, apps, name, reply.end));
    ReleaseSteps(c, st, apps, name, running, worlds);
    ReleaseManaged(c, st, apps, name, running, worlds);
    RecordedStorable(c, apps, name, reply.end);
    hide Release, ReleaseOf, P.Inv, ProtocolApps, Owners, AllManaged, AllStorable, P.Releasable, HasDefault, Follows;
    assert reply.end == Exit ==> Recorded(c, apps, name, reply.end) == apps;
    hide Recorded;
    FollowedIsSafe(reply.end, before, P.Deploy(name, Saves(c, reply.end)), after);
  }

  lemma FollowedIsSafe(end: End, before: P.State, action: P.Action, after: P.State)
    requires P.Inv(before) && P.Legal(before, action) && Follows(end, before, action, after)
    requires end == Exit ==> after == before.(ingress := after.ingress, services := after.services)
    ensures end != Panic && P.Inv(after)
  {
    hide P.Step, P.Inv, P.Legal;
    P.StepKeepsInv(before, action);
  }

  lemma RecordedStorable(c: Config, apps: map<string, Record>, name: string, end: End)
    requires name in apps
    ensures AllStorable(apps) ==> AllStorable(Recorded(c, apps, name, end))
  {
  }

  /** A process exits only on GCP, for an app that is linked to a database. */
  lemma OnlyGcpExits(c: Config, st: State, apps: map<string, Record>, name: string, running: seq<Process>,
      worlds: seq<World>)
    requires name in apps && |worlds| > |Others(running)|
    ensures Release(st, ReleaseOf(c, name, apps[name]), running, c.atoi, worlds).end == Exit ==>
              c.provider == "gcp" && apps[name].sqlProxy
  {
    if Release(st, ReleaseOf(c, name, apps[name]), running, c.atoi, worlds).end == Exit {
      ReleaseExits(st, ReleaseOf(c, name, apps[name]), running, c.atoi, worlds, map[]);
    }
  }

  /** A finished release runs the image, the environment and the command that are stored of the app. */
  lemma StoredIsReleased(c: Config, st: State, apps: map<string, Record>, name: string, running: seq<Process>,
      worlds: seq<World>)
    requires name in apps && |worlds| > |Others(running)| && Inv(st)
    requires Release(st, ReleaseOf(c, name, apps[name]), running, c.atoi, worlds).end == Finished
    ensures var app := apps[name];
            var proctype, id := if app.procfile.NoProcfile? then "cmd" else "web",
                                name + "-" + (if app.procfile.NoProcfile? then "cmd" else "web");
            var after := Release(st, ReleaseOf(c, name, app), running, c.atoi, worlds).state;
            && id in after.deployments && after.deployments[id].pod.containers != []
            && var container := after.deployments[id].pod.containers[0];
            && container.image == app.image && container.env == app.env
            && CommandIs(container.args, app.procfile, proctype)
  {
    var procfile := apps[name].procfile;
    DefaultIsNoProxy(name, procfile);
    var p := Process(if procfile.NoProcfile? then "cmd" else "web", 0, "", [], "", "");
    hide Inv, Release, CommandIs;
    ReleaseDeploys(st, ReleaseOf(c, name, apps[name]), running, c.atoi, worlds, p);
  }

  lemma ReleaseManaged(c: Config, st: State, apps: map<string, Record>, name: string, running: seq<Process>,
      worlds: seq<World>)
    requires name in apps && |worlds| > |Others(running)| && AllManaged(st.services)
    ensures AllManaged(Release(st, ReleaseOf(c, name, apps[name]), running, c.atoi, worlds).state.services)
  {
    var r := ReleaseOf(c, name, apps[name]);
    hide Release;
    var services := Release(st, r, running, c.atoi, worlds).state.services;
    forall s | s in services ensures OfApp(services[s].labels, Sidecar.Get(services[s].labels, "app")) {
      ReleaseServices(st, r, running, c.atoi, worlds, s);
    }
  }

  // Changing domains

  ghost function Stored(c: Config, apps: map<string, Record>, name: string, item: string): map<string, Record>
    requires name in apps
  {
    apps[name := apps[name].(domains := StoredAs(c.provider, MergeDomains(apps[name].domains, item)))]
  }

  lemma StoredIsUpdated(provider: string, domains: seq<string>, item: string)
    requires provider == LOCAL ==> Storable(domains) && DELIMITER !in item
    ensures StoredAs(provider, MergeDomains(domains, item)) == P.Updated(StoredAs(provider, []), domains, item)
    ensures provider == LOCAL ==> Storable(StoredAs(provider, MergeDomains(domains, item)))
  {
    var merged := MergeDomains(domains, item);
    if provider == LOCAL {
      EmptyIsStorable();
      if merged != [] {
        forall d | d in merged ensures DELIMITER !in d {
          MergedMember(domains, item, d);
        }
        SplitOfJoin(merged, DELIMITER);
      }
    }
  }

  lemma MergedMember(domains: seq<string>, item: string, d: string)
    requires d in MergeDomains(domains, item)
    ensures d in domains || d == item
  {
  }

  lemma StoredView(c: Config, apps: map<string, Record>, name: string, item: string)
    requires name in apps && CommaFree(c, item) && (c.provider == LOCAL ==> AllStorable(apps))
    ensures var before, stored := ProtocolApps(c, apps), Stored(c, apps, name, item);
            && name in before && before[name] == ProtocolApp(c, name, apps[name])
            && ProtocolApps(c, stored)
               == before[name := before[name].(
                           domains := P.Updated(StoredAs(c.provider, []), before[name].domains, item))]
            && (c.provider == LOCAL ==> AllStorable(stored))
  {
    hide P.Updated, StoredAs, MergeDomains, AppPort, ToInt32, JobID;
    StoredIsUpdated(c.provider, apps[name].domains, item);
  }

  lemma UpdateUnbuiltSteps(c: Config, st: State, apps: map<string, Record>, name: string, item: string)
    requires name in apps && !apps[name].built && SafeState(c, st, apps) && CommaFree(c, item)
    ensures var before, after := View(c, st, apps), View(c, st, Stored(c, apps, name, item));
            P.Step(before, P.UpdateDomain(name, item)) == P.Next(after) && SafeState(c, st, Stored(c, apps, name, item))
  {
    StoredView(c, apps, name, item);
    P.StepKeepsInv(View(c, st, apps), P.UpdateDomain(name, item));
    hide P.Inv, Stored, ProtocolApps, P.Updated, Owners, AllManaged, AllStorable, StoredAs;
  }

  lemma UpdateFollows(end: End, before: P.State, name: string, item: string, saved: bool, after: P.State)
    requires name in before.apps && before.apps[name].built
    requires var app := before.apps[name].(domains := P.Updated(before.empty, before.apps[name].domains, item));
             Follows(end, before.(apps := before.apps[name := app]), P.Deploy(name, saved), after)
    ensures Follows(end, before, P.UpdateDomain(name, item), after)
  {
    hide P.Release, P.Updated;
    var app := before.apps[name].(domains := P.Updated(before.empty, before.apps[name].domains, item));
    var stored := before.(apps := before.apps[name := app]);
    assert stored.apps[name := app] == stored.apps;
  }

  lemma UpdateBuiltSteps(c: Config, st: State, apps: map<string, Record>, name: string, item: string,
      running: seq<Process>, worlds: seq<World>)
    requires name in apps && apps[name].built && SafeState(c, st, apps) && CommaFree(c, item)
    requires |worlds| > |Others(running)|
    ensures var stored := Stored(c, apps, name, item);
            var reply := Release(st, ReleaseOf(c, name, stored[name]), running, c.atoi, worlds);
            var apps' := Recorded(c, stored, name, reply.end);
            && reply.end != Panic
            && Follows(reply.end, View(c, st, apps), P.UpdateDomain(name, item), View(c, reply.state, apps'))
            && ((reply.end == Exit ==> HasDefault(st.deployments, name, apps)) ==> SafeState(c, reply.state, apps'))
  {
    var stored := Stored(c, apps, name, item);
    var reply := Release(st, ReleaseOf(c, name, stored[name]), running, c.atoi, worlds);
    var apps' := Recorded(c, stored, name, reply.end);
    var before, after := View(c, st, apps), View(c, reply.state, apps');
    StoredView(c, apps, name, item);
    ReleaseSteps(c, st, stored, name, running, worlds);
    ReleaseManaged(c, st, stored, name, running, worlds);
    P.StepKeepsInv(before, P.UpdateDomain(name, item));
    var saved := Saves(c, reply.end);
    UpdateFollows(reply.end, before, name, item, saved, after);
    if reply.end == Exit && HasDefault(st.deployments, name, apps) {
      UpdateFollows(Finished, before, name, item, saved, after);
    }
    hide Release, P.Step, P.Inv, ProtocolApps, Owners, AllManaged, P.Updated, StoredAs;
  }

  // Deleting

  lemma DeleteSteps(c: Config, st: State, apps: map<string, Record>, name: string)
    requires SafeState(c, st, apps)
    ensures P.Step(View(c, st, apps), P.Delete(name)) == P.Next(View(c, DeleteApp(st, name), apps - {name}))
    ensures SafeState(c, DeleteApp(st, name), apps - {name})
  {
    var before, after := View(c, st, apps), View(c, DeleteApp(st, name), apps - {name});
    DeletedOwners(st, name);
    assert ProtocolApps(c, apps - {name}) == ProtocolApps(c, apps) - {name};
    P.StepKeepsInv(before, P.Delete(name));
    hide P.Inv, ProtocolApps, Owners;
  }

  lemma DeletedOwners(st: State, name: string)
    requires AllManaged(st.services)
    ensures var owners, services := Owners(st.services), DeleteApp(st, name).services;
            && Owners(services) == (map s | s in owners && owners[s] != name :: owners[s])
            && AllManaged(services) && (AnyManaged(services) <==> Owners(services) != map[])
  {
    var services := DeleteApp(st, name).services;
    if s :| s in services {
      assert s in Owners(services) && Managed(services[s].labels);
    } else {
      assert Owners(services) == map[];
    }
  }

  // What the store of the local provider makes of domains

  /**
   An app that has been created and never given a domain publishes a rule for the empty host when it is
   released by the local provider, in place of any that was there, and nothing by the others.
   */
  lemma EmptyHostIff(c: Config, st: State, apps: map<string, Record>, name: string, r: Record, saved: bool)
    requires ProtocolApp(c, name, r).port > 0
    ensures var created := apps[name := r.(domains := StoredAs(c.provider, []), built := false)];
            var released := P.Step(View(c, st, created), P.Deploy(name, saved));
            var rule := Rule("", "/", ProtocolApp(c, name, r).service, ProtocolApp(c, name, r).port);
            if c.provider != LOCAL then released.Next? && released.state.ingress == st.ingress
            else
              match Publish(st.ingress, [rule])
              case Panicked => released == P.Crash
              case Merged(rules) =>
                && released.Next? && released.state.ingress == Shared(rules)
                && (st.ingress.Shared? && DistinctHosts(st.ingress.rules) ==>
                      forall x :: x in rules && x.host == "" <==> x == rule)
                && (st.ingress.NoIngress? ==> rules == [rule])
  {
    JoinNothing();
    var created := apps[name := r.(domains := StoredAs(c.provider, []), built := false)];
    var rule := Rule("", "/", ProtocolApp(c, name, r).service, ProtocolApp(c, name, r).port);
    assert ProtocolApps(c, created)[name] == ProtocolApp(c, name, created[name]);
    assert c.provider == LOCAL ==> P.Source("/", ProtocolApp(c, name, created[name])) == [rule];
    hide ProtocolApp, StoredAs;
    if st.ingress.Shared? && DistinctHosts(st.ingress.rules) {
      OneRulePublished(st.ingress.rules, rule);
    }
  }

  lemma OneRulePublished(dest: seq<Rule>, rule: Rule)
    requires DistinctHosts(dest)
    ensures MergeOutcome(dest, [rule]).Merged? ==>
              forall x :: x in MergeOutcome(dest, [rule]).rules && x.host == rule.host <==> x == rule
  {
    var source, claimed := [rule], ClaimAll(dest, [rule]);
    SourceClaimed(dest, source);
    ClaimAllMeaning(dest, source);
    ClaimedDistinct(dest, source);
    ReplacedStale(rule, source);
    SweepKeeps(claimed, source);
    assert rule in source && rule in claimed;
  }

  /** A domain with a comma comes back in pieces, of which one may be there already. */
  lemma CommaRepeatsDomain()
    ensures StoredAs(LOCAL, MergeDomains(["a"], "b,a")) == ["a", "b", "a"]
    ensures !Unique(StoredAs(LOCAL, MergeDomains(["a"], "b,a")))
  {
    var list := ["a", "b", "a"];
    assert MergeDomains(["a"], "b,a") == ["a", "b,a"];
    assert Join(["a", "b,a"], DELIMITER) == "a,b,a";
    assert Join(list[1..], DELIMITER) == "b,a" by {
      assert list[1..] == ["b", "a"] && ["b", "a"][1..] == ["a"];
    }
    SplitOfJoin(list, DELIMITER);
  }
}
