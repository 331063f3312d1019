/** What a release and a scaling do to the cluster as a whole. */
module AppRuns {
  import opened Apps
  import opened ClusterRuns
  import opened Deploys
  import opened Ingress
  import opened IngressMerge
  import opened Kube
  import opened Options
  import opened Repeats
  import opened SecretStore
  import opened Sidecar
  import opened Strings
  import DomainProtocol

  /** The service is named after app and process type, and not like the proxy. */
  predicate WellNamed(req: DeployRequest) {
    req.serviceID == req.app + "-" + req.proctype && req.serviceID != PROXY
  }

  ghost predicate AllLegal(requests: seq<Option<DeployRequest>>) {
    forall i :: 0 <= i < |requests| && requests[i].Some? ==> WellNamed(requests[i].value)
  }

  /** Request k of a row has been made, and if it is not the last one that was, with success. */
  ghost predicate Made(states: seq<State>, requests: seq<Option<DeployRequest>>, worlds: seq<World>, made: nat,
      end: End, k: nat)
    requires k < made <= |requests| <= |worlds| && |states| == made + 1
  {
    && requests[k].Some?
    && var r := Run(states[k], requests[k].value, worlds[k]);
    && states[k + 1] == r.state
    && (r.end == Finished && k == made - 1 ==> Left(requests, made, end))
    && (r.end != Finished ==> k == made - 1 && end == r.end)
  }

  /** Nothing is left to be made, or the next request is refused. */
  predicate Left(requests: seq<Option<DeployRequest>>, made: nat, end: End)
    requires made <= |requests|
  {
    if made == |requests| then end == Finished else requests[made].None? && end == Error
  }

  /**
   The states of a row of which so many requests have been made.  The row ends like the last one, if that
   fails; else all are made, or the next one is refused.
   */
  ghost predicate IsRow(states: seq<State>, requests: seq<Option<DeployRequest>>, worlds: seq<World>, made: nat,
      end: End) {
    && made <= |requests| <= |worlds| && |states| == made + 1
    && (forall k :: 0 <= k < made ==> Made(states, requests, worlds, made, end, k))
    && (made == 0 ==> Left(requests, made, end))
  }

  lemma {:induction false} DeployAllIsRow(st: State, requests: seq<Option<DeployRequest>>, worlds: seq<World>)
    returns (states: seq<State>)
    requires |requests| <= |worlds|
    ensures |states| > 0 && states[0] == st && states[|states| - 1] == DeployAll(st, requests, worlds).state
    ensures IsRow(states, requests, worlds, |states| - 1, DeployAll(st, requests, worlds).end)
    decreases |requests|
  {
    hide Run;
    if requests == [] || requests[0].None? {
      return [st];
    }
    var r := Run(st, requests[0].value, worlds[0]);
    if r.end != Finished {
      return [st, r.state];
    }
    var rest := DeployAllIsRow(r.state, requests[1..], worlds[1..]);
    states := [st] + rest;
    RowBegins(st, rest, requests, worlds, DeployAll(st, requests, worlds).end);
  }

  lemma RowBegins(st: State, rest: seq<State>, requests: seq<Option<DeployRequest>>, worlds: seq<World>, end: End)
    requires requests != [] && |requests| <= |worlds| && requests[0].Some? && rest != []
    requires Run(st, requests[0].value, worlds[0]) == Reply(rest[0], Finished)
    requires IsRow(rest, requests[1..], worlds[1..], |rest| - 1, end)
    ensures IsRow([st] + rest, requests, worlds, |rest|, end)
  {
    hide Run;
    var states, made := [st] + rest, |rest|;
    forall k | 0 <= k < made ensures Made(states, requests, worlds, made, end, k) {
      if k > 0 {
        assert Made(rest, requests[1..], worlds[1..], made - 1, end, k - 1);
      }
    }
  }

  /** Requests in a row are a run of deploys, one for each request up to the first that fails. */
  lemma DeployAllIsRun(st: State, requests: seq<Option<DeployRequest>>, worlds: seq<World>, isQuantity: string -> bool)
    returns (states: seq<State>, actions: seq<Action>)
    requires |requests| <= |worlds| && AllLegal(requests)
    ensures IsRun(states, actions, isQuantity) && states[0] == st
    ensures states[|actions|] == DeployAll(st, requests, worlds).state
    ensures |actions| <= |requests|
    ensures forall k :: 0 <= k < |actions| ==> requests[k].Some? && actions[k] == Deploy(requests[k].value, worlds[k])
    ensures IsRow(states, requests, worlds, |actions|, DeployAll(st, requests, worlds).end)
  {
    hide Run, DeployAll;
    states := DeployAllIsRow(st, requests, worlds);
    var end := DeployAll(st, requests, worlds).end;
    forall k | 0 <= k < |states| - 1
      ensures requests[k].Some? && states[k + 1] == Run(states[k], requests[k].value, worlds[k]).state
    {
      assert Made(states, requests, worlds, |states| - 1, end, k);
    }
    actions := seq(|states| - 1, i requires 0 <= i < |states| - 1 => Deploy(requests[i].value, worlds[i]));
  }

  // Releasing

  /** No request of a release says how many replicas there should be. */
  lemma ReleaseRequestsScaleNothing(r: AppRelease, port: int, running: seq<Process>)
    ensures forall i :: 0 <= i < |ReleaseRequests(r, port, running)| ==>
              var q := ReleaseRequests(r, port, running)[i]; q.Some? ==> q.value.replicas == None
  {
  }

  ghost predicate SoundAt(st: State, n: string) {
    n in st.deployments && Sound(st.deployments[n].labels, st.deployments[n].pod, n)
  }

  lemma {:induction false} DeployAllKeepsSettings(st: State, requests: seq<Option<DeployRequest>>, worlds: seq<World>,
      n: string)
    requires |requests| <= |worlds| && SoundAt(st, n)
    requires forall i :: 0 <= i < |requests| && requests[i].Some? ==> requests[i].value.replicas == None
    ensures var after := DeployAll(st, requests, worlds).state;
            SoundAt(after, n) && SettingsOf(after.deployments[n]) == SettingsOf(st.deployments[n])
    decreases |requests|
  {
    if requests != [] && requests[0].Some? {
      var r := Run(st, requests[0].value, worlds[0]);
      DeploySettings(st, requests[0].value, worlds[0], n);
      hide Run;
      if r.end == Finished {
        DeployAllKeepsSettings(r.state, requests[1..], worlds[1..], n);
      }
    }
  }

  /** Every release leaves the replicas, resources, sidecars and volumes of every sound deployment as they are. */
  lemma ReleaseKeepsSettings(st: State, r: AppRelease, running: seq<Process>, atoi: string -> Option<int>,
      worlds: seq<World>, n: string)
    requires |worlds| > |Others(running)| && SoundAt(st, n)
    ensures var after := Release(st, r, running, atoi, worlds).state;
            SoundAt(after, n) && SettingsOf(after.deployments[n]) == SettingsOf(st.deployments[n])
  {
    match AppPort(r.env, atoi)
    case None =>
    case Some(port) =>
      ReleaseRequestsScaleNothing(r, port, running);
      DeployAllKeepsSettings(st, ReleaseRequests(r, port, running), worlds, n);
  }

  lemma {:induction false} DeployAllPublishesNothing(st: State, requests: seq<Option<DeployRequest>>,
      worlds: seq<World>)
    requires |requests| <= |worlds|
    requires forall i :: 0 <= i < |requests| && requests[i].Some? ==> requests[i].value.port <= 0
    ensures DeployAll(st, requests, worlds).state.ingress == st.ingress
    ensures DeployAll(st, requests, worlds).state.services == st.services
    ensures DeployAll(st, requests, worlds).end != Panic
    decreases |requests|
  {
    if requests != [] && requests[0].Some? {
      RunWithoutPort(st, requests[0].value, worlds[0]);
      hide Run;
      DeployAllPublishesNothing(Run(st, requests[0].value, worlds[0]).state, requests[1..], worlds[1..]);
    }
  }

  lemma RunWithoutPort(st: State, req: DeployRequest, world: World)
    requires req.port <= 0
    ensures Run(st, req, world).state.ingress == st.ingress && Run(st, req, world).state.services == st.services
    ensures Run(st, req, world).end != Panic
  {
    hide NewPod, Refreshed;
  }

  const LOCAL := "local"

  /** What a list is when it is read back: the local provider keeps apps in secrets, the others in databases. */
  function StoredAs(provider: string, list: seq<string>): seq<string> {
    if provider == LOCAL then Split(Join(list, DELIMITER), DELIMITER) else list
  }

  /** The apps that the services are for. */
  function Owners(services: map<string, Service>): map<string, string> {
    map s | s in services :: Get(services[s].labels, "app")
  }

  /** Ingress and services are those that the protocol leads to. */
  ghost predicate Reached(st: State, protocol: DomainProtocol.Result) {
    protocol.Next? && st.ingress == protocol.state.ingress && Owners(st.services) == protocol.state.services
  }

  ghost predicate ReplyFollows(was: State, reply: Reply, protocol: DomainProtocol.Result) {
    match reply.end
    case Finished => Reached(reply.state, protocol)
    case Error => Reached(reply.state, protocol)
    case Panic => protocol.Crash? && reply.state.ingress == was.ingress
    case Exit =>
      || (reply.state.ingress == was.ingress && reply.state.services == was.services)
      || Reached(reply.state, protocol)
  }

  /** The port that a release publishes, or 0 where it is refused before it reaches the cluster. */
  function PublishedPort(r: AppRelease, atoi: string -> Option<int>): int {
    if r.namespace == "" || r.app == "" || r.provider == "" || r.procfile.Malformed? then 0
    else
      match AppPort(r.env, atoi)
      case None => 0
      case Some(port) => ToInt32(port)
  }

  /** The app as the protocol of domain changes sees it while it is released. */
  function ReleasedApp(r: AppRelease, atoi: string -> Option<int>): DomainProtocol.App {
    DomainProtocol.App(JobID(r.app, DefaultProctype(r.procfile)), PublishedPort(r, atoi), r.domains, true)
  }

  function ProtocolState(st: State, provider: string, apps: map<string, DomainProtocol.App>): DomainProtocol.State {
    DomainProtocol.State(IngressPath(provider), StoredAs(provider, []), apps, Owners(st.services), st.ingress)
  }

  /**
   Every release touches the shared ingress and the services as the protocol of domain changes has it:
   once, with the rules of the app, unless the process exits before it comes to that; a release that is
   refused, or has no port, touches neither.
   */
  lemma ReleaseFollowsProtocol(st: State, r: AppRelease, running: seq<Process>, atoi: string -> Option<int>,
      worlds: seq<World>, apps: map<string, DomainProtocol.App>)
    requires |worlds| > |Others(running)|
    ensures ReplyFollows(st, Release(st, r, running, atoi, worlds),
                         DomainProtocol.Release(ProtocolState(st, r.provider, apps), r.app, ReleasedApp(r, atoi)))
  {
    if AppPort(r.env, atoi).Some? && !r.procfile.Malformed? {
      var port := AppPort(r.env, atoi).value;
      var requests := ReleaseRequests(r, port, running);
      var req := requests[0].value;
      FirstRequestFollows(st, req, worlds[0], apps);
      OthersHaveNoPort(r, port, running);
      hide Run, Reached, DomainProtocol.Release;
      DeployAllPublishesNothing(Run(st, req, worlds[0]).state, requests[1..], worlds[1..]);
      if Run(st, req, worlds[0]).end == Finished {
        ReachedAgain(Run(st, req, worlds[0]).state, DeployAll(st, requests, worlds).state,
                     DomainProtocol.Release(ProtocolState(st, r.provider, apps), r.app, ReleasedApp(r, atoi)));
      }
    }
  }

  lemma ReachedAgain(st: State, after: State, protocol: DomainProtocol.Result)
    requires Reached(st, protocol) && after.ingress == st.ingress && after.services == st.services
    ensures Reached(after, protocol)
  {
  }

  lemma OthersHaveNoPort(r: AppRelease, port: int, running: seq<Process>)
    ensures var rest := ReleaseRequests(r, port, running)[1..];
            forall i :: 0 <= i < |rest| && rest[i].Some? ==> rest[i].value.port <= 0
  {
    OthersListenNowhere(running);
    hide Others;
    var rest := ReleaseRequests(r, port, running)[1..];
    forall i | 0 <= i < |rest| && rest[i].Some? ensures rest[i].value.port <= 0 {
      var p := Others(running)[i];
      assert p in Others(running);
      assert rest[i] == ReleaseRequest(r, port, p.proctype, p.cronExpr);
    }
  }

  lemma FirstRequestFollows(st: State, req: DeployRequest, world: World, apps: map<string, DomainProtocol.App>)
    requires req.cron.None?
    ensures var app := DomainProtocol.App(req.serviceID, if Complete(req) then req.port else 0, req.domains, true);
            var protocol := DomainProtocol.Release(ProtocolState(st, req.provider, apps), req.app, app);
            var reply := Run(st, req, world);
            && ReplyFollows(st, reply, protocol)
            && (reply.end == Exit ==> reply.state.ingress == st.ingress && reply.state.services == st.services)
  {
    hide PutDeployment, Owners, PutService, Publish;
    PutDeploymentKeeps(st, req);
    PutServiceOwns(PutDeployment(st, req).state, req, world);
  }

  lemma PutServiceOwns(st: State, req: DeployRequest, world: World)
    ensures Owners(PutService(st, req, world).services) == Owners(st.services)[req.serviceID := req.app]
    ensures PutService(st, req, world) == st.(services := PutService(st, req, world).services)
  {
  }

  lemma {:induction false} DeployAllExits(st: State, requests: seq<Option<DeployRequest>>, worlds: seq<World>)
    requires |requests| <= |worlds|
    requires forall i :: 0 <= i < |requests| && requests[i].Some? ==> !requests[i].value.sqlProxy
    ensures DeployAll(st, requests, worlds).end != Exit
    decreases |requests|
  {
    if requests != [] && requests[0].Some? {
      RunExits(st, requests[0].value, worlds[0]);
      hide Run;
      DeployAllExits(Run(st, requests[0].value, worlds[0]).state, requests[1..], worlds[1..]);
    }
  }

  lemma RunExits(st: State, req: DeployRequest, world: World)
    ensures Run(st, req, world).end == Exit ==> req.sqlProxy && (req.cron.None? ==> req.serviceID !in st.deployments)
  {
    hide Publish, Refreshed, MergeProxy;
  }

  /**
   A release exits only with the database proxy, and one whose default deployment is there does so only
   after it has published.
   */
  lemma ReleaseExits(st: State, r: AppRelease, running: seq<Process>, atoi: string -> Option<int>, worlds: seq<World>,
      apps: map<string, DomainProtocol.App>)
    requires |worlds| > |Others(running)| && Release(st, r, running, atoi, worlds).end == Exit
    ensures r.sqlProxy
    ensures JobID(r.app, DefaultProctype(r.procfile)) in st.deployments ==>
              Reached(Release(st, r, running, atoi, worlds).state,
                      DomainProtocol.Release(ProtocolState(st, r.provider, apps), r.app, ReleasedApp(r, atoi)))
  {
    var port := AppPort(r.env, atoi).value;
    var requests := ReleaseRequests(r, port, running);
    forall i | 0 <= i < |requests| && requests[i].Some? ensures requests[i].value.sqlProxy == r.sqlProxy {
      hide Others;
    }
    if !r.sqlProxy {
      DeployAllExits(st, requests, worlds);
    }
    var req := requests[0].value;
    RunExits(st, req, worlds[0]);
    FirstRequestFollows(st, req, worlds[0], apps);
    OthersHaveNoPort(r, port, running);
    hide Run, Reached, DomainProtocol.Release, Others;
    var first := Run(st, req, worlds[0]);
    if first.end == Finished {
      DeployAllPublishesNothing(first.state, requests[1..], worlds[1..]);
      ReachedAgain(first.state, DeployAll(st, requests, worlds).state,
                   DomainProtocol.Release(ProtocolState(st, r.provider, apps), r.app, ReleasedApp(r, atoi)));
    }
  }

  /** A release puts no service but that of its default process, and labels it with the app. */
  lemma ReleaseServices(st: State, r: AppRelease, running: seq<Process>, atoi: string -> Option<int>,
      worlds: seq<World>, s: string)
    requires |worlds| > |Others(running)|
    requires s in Release(st, r, running, atoi, worlds).state.services
    ensures var service := Release(st, r, running, atoi, worlds).state.services[s];
            || (s in st.services && service == st.services[s])
            || (s == JobID(r.app, DefaultProctype(r.procfile)) && OfApp(service.labels, r.app))
  {
    if AppPort(r.env, atoi).Some? && !r.procfile.Malformed? {
      var port := AppPort(r.env, atoi).value;
      var requests := ReleaseRequests(r, port, running);
      OthersHaveNoPort(r, port, running);
      hide Run;
      DeployAllPublishesNothing(Run(st, requests[0].value, worlds[0]).state, requests[1..], worlds[1..]);
      RunServices(st, requests[0].value, worlds[0], s);
    }
  }

  lemma RunServices(st: State, req: DeployRequest, world: World, s: string)
    requires s in Run(st, req, world).state.services
    ensures var service := Run(st, req, world).state.services[s];
            || (s in st.services && service == st.services[s])
            || (s == req.serviceID && OfApp(service.labels, req.app))
  {
    hide PutDeployment, Publish, NewPod;
    PutDeploymentKeeps(st, req);
  }

  lemma {:induction false} OthersListenNowhere(running: seq<Process>)
    ensures forall p :: p in Others(running) ==> p in running && p.proctype != WEB && p.proctype != CMD
    decreases |running|
  {
    if running != [] {
      OthersListenNowhere(running[..|running| - 1]);
    }
  }

  // Scaling

  lemma {:induction false} DeployAllTouches(st: State, requests: seq<Option<DeployRequest>>, worlds: seq<World>,
      n: string)
    requires |requests| <= |worlds|
    requires forall i :: 0 <= i < |requests| && requests[i].Some? ==> requests[i].value.serviceID != n
    ensures SameObjects(st, DeployAll(st, requests, worlds).state, n)
    decreases |requests|
  {
    if requests != [] && requests[0].Some? {
      RunTouches(st, requests[0].value, worlds[0], n);
      hide Run;
      DeployAllTouches(Run(st, requests[0].value, worlds[0]).state, requests[1..], worlds[1..], n);
    }
  }

  /** What a finished deploy leaves under the name of its service: the container asked for, on its old resources. */
  ghost predicate Deployed(st: State, req: DeployRequest) {
    && req.serviceID in st.deployments
    && var d := st.deployments[req.serviceID];
    && d.pod.containers != []
    && d.pod.containers[0] == NewContainer(req).(resources := d.pod.containers[0].resources)
    && (req.replicas.Some? ==> d.replicas == req.replicas.value)
  }

  lemma RunDeploys(st: State, req: DeployRequest, world: World)
    requires req.serviceID in st.deployments ==> SoundAt(st, req.serviceID)
    requires req.cron.None? && req.serviceID != PROXY && Run(st, req, world).end == Finished
    ensures Deployed(Run(st, req, world).state, req)
  {
    hide Expose;
    var deployed := PutDeployment(st, req).state;
    ExposeKeepsDeployments(deployed, req, world);
    if req.serviceID in st.deployments {
      RefreshedSound(st.deployments[req.serviceID], req);
    } else {
      NewPodHasContainer(req);
    }
  }

  lemma RunDeploysSound(st: State, req: DeployRequest, world: World)
    requires req.serviceID in st.deployments ==> SoundAt(st, req.serviceID)
    requires req.cron.None? && WellNamed(req) && Run(st, req, world).end == Finished
    ensures SoundAt(Run(st, req, world).state, req.serviceID)
  {
    if req.serviceID in st.deployments {
      DeploySettings(st, req, world, req.serviceID);
      hide Run;
    } else {
      RunObjects(st, req, world);
      NewPodSound(req);
      hide Expose, NewPod, Sound;
    }
  }

  /** The other request leaves the deployment alone, or is the same. */
  predicate Respects(other: DeployRequest, req: DeployRequest) {
    other.serviceID == req.serviceID ==> other.cron.Some? || other == req
  }

  lemma RunKeepsDeployed(st: State, other: DeployRequest, world: World, req: DeployRequest)
    requires Deployed(st, req) && SoundAt(st, req.serviceID) && req.cron.None? && WellNamed(req)
    requires Respects(other, req) && Run(st, other, world).end == Finished
    ensures Deployed(Run(st, other, world).state, req) && SoundAt(Run(st, other, world).state, req.serviceID)
  {
    DeploySettings(st, other, world, req.serviceID);
    if other.serviceID != req.serviceID {
      RunTouches(st, other, world, req.serviceID);
    } else if other.cron.Some? {
      RunObjects(st, other, world);
      CronKeepsOthers(st, other, other.cron.value);
    } else {
      RunDeploys(st, req, world);
    }
    hide Run, RunCron, NewContainer, Sound, SettingsOf;
  }

  lemma {:induction false} DeployAllKeepsDeployed(st: State, requests: seq<Option<DeployRequest>>, worlds: seq<World>,
      req: DeployRequest)
    requires |requests| <= |worlds| && DeployAll(st, requests, worlds).end == Finished
    requires Deployed(st, req) && SoundAt(st, req.serviceID) && req.cron.None? && WellNamed(req)
    requires forall i :: 0 <= i < |requests| && requests[i].Some? ==> Respects(requests[i].value, req)
    ensures Deployed(DeployAll(st, requests, worlds).state, req)
    decreases |requests|
  {
    if requests != [] {
      RunKeepsDeployed(st, requests[0].value, worlds[0], req);
      hide Run, Deployed, SoundAt, Respects, WellNamed;
      DeployAllKeepsDeployed(Run(st, requests[0].value, worlds[0]).state, requests[1..], worlds[1..], req);
    }
  }

  /** After a row of deploys that all finish, a request has been met unless another one deploys under its name. */
  lemma {:induction false} DeployAllDeploys(st: State, requests: seq<Option<DeployRequest>>, worlds: seq<World>, k: nat)
    requires |requests| <= |worlds| && k < |requests| && DeployAll(st, requests, worlds).end == Finished
    requires requests[k].Some? && requests[k].value.cron.None? && WellNamed(requests[k].value)
    requires requests[k].value.serviceID in st.deployments ==> SoundAt(st, requests[k].value.serviceID)
    requires forall i :: 0 <= i < |requests| && requests[i].Some? ==> Respects(requests[i].value, requests[k].value)
    ensures Deployed(DeployAll(st, requests, worlds).state, requests[k].value)
    decreases |requests|
  {
    var first, req, after := requests[0].value, requests[k].value, Run(st, requests[0].value, worlds[0]).state;
    if k == 0 || first == req {
      RunDeploys(st, req, worlds[0]);
      RunDeploysSound(st, req, worlds[0]);
      hide Run, Deployed, SoundAt, Respects, WellNamed;
      DeployAllKeepsDeployed(after, requests[1..], worlds[1..], req);
    } else {
      RunMakesNoOther(st, first, worlds[0], req);
      hide Run, Deployed, SoundAt, Respects, WellNamed;
      DeployAllDeploys(after, requests[1..], worlds[1..], k - 1);
    }
  }

  lemma RunMakesNoOther(st: State, other: DeployRequest, world: World, req: DeployRequest)
    requires req.serviceID in st.deployments ==> SoundAt(st, req.serviceID)
    requires Respects(other, req) && other != req
    ensures var after := Run(st, other, world).state;
            req.serviceID in after.deployments ==> SoundAt(after, req.serviceID)
  {
    if req.serviceID in st.deployments {
      DeploySettings(st, other, world, req.serviceID);
      hide Run;
    } else if other.serviceID != req.serviceID {
      RunTouches(st, other, world, req.serviceID);
      hide Run;
    } else {
      RunObjects(st, other, world);
      CronKeepsOthers(st, other, other.cron.value);
      hide Run, RunCron;
    }
  }

  lemma {:induction false} AllRequested(st: State, requests: seq<Option<DeployRequest>>, worlds: seq<World>, k: nat)
    requires |requests| <= |worlds| && k < |requests| && DeployAll(st, requests, worlds).end == Finished
    ensures requests[k].Some?
    decreases |requests|
  {
    if k > 0 {
      hide Run;
      AllRequested(Run(st, requests[0].value, worlds[0]).state, requests[1..], worlds[1..], k - 1);
    }
  }

  lemma ScaleRequestAt(s: Scaling, keys: seq<string>, i: nat)
    requires i < |keys| && forall k :: k in keys ==> k in s.structure
    ensures var q := ScaleRequests(s, keys)[i];
            q.Some? ==>
              && q.value.app == s.app && q.value.proctype == keys[i]
              && q.value.serviceID == s.app + "-" + keys[i] && q.value.image == s.image && q.value.env == s.env
              && q.value.replicas == Some(s.structure[keys[i]]) && q.value.port == 0
              && q.value.cron == ScaleCron(s.procfile, keys[i])
  {
    assert keys[i] in keys;
  }

  lemma ScaleNames(s: Scaling, keys: seq<string>, k: nat)
    requires Enumerates(keys, s.structure) && k < |keys| && ScaleRequests(s, keys)[k].Some?
    ensures forall i :: 0 <= i < |keys| && ScaleRequests(s, keys)[i].Some? ==>
              Respects(ScaleRequests(s, keys)[i].value, ScaleRequests(s, keys)[k].value)
  {
    hide ScaleRequests;
    ScaleRequestAt(s, keys, k);
    forall i | 0 <= i < |keys| && i != k && ScaleRequests(s, keys)[i].Some?
      ensures ScaleRequests(s, keys)[i].value.serviceID != ScaleRequests(s, keys)[k].value.serviceID
    {
      ScaleRequestAt(s, keys, i);
      SuffixesDiffer(s.app + "-", keys[i], keys[k]);
    }
  }

  /**
   A finished scaling has given every process the replicas asked for, in whatever order the processes
   came.  It has also closed the ports of the processes.
   */
  lemma ScaleSets(st: State, s: Scaling, keys: seq<string>, worlds: seq<World>, key: string)
    requires Enumerates(keys, s.structure) && |worlds| >= |keys| && Inv(st)
    requires key in s.structure && ScaleCron(s.procfile, key) == None && s.app + "-" + key != PROXY
    requires DeployAll(st, ScaleRequests(s, keys), worlds).end == Finished
    ensures var after := DeployAll(st, ScaleRequests(s, keys), worlds).state; var id := s.app + "-" + key;
            && id in after.deployments && after.deployments[id].pod.containers != []
            && after.deployments[id].replicas == s.structure[key]
            && after.deployments[id].pod.containers[0].image == s.image
            && after.deployments[id].pod.containers[0].env == s.env
            && after.deployments[id].pod.containers[0].port == 0
  {
    var k :| 0 <= k < |keys| && keys[k] == key;
    AllRequested(st, ScaleRequests(s, keys), worlds, k);
    ScaleNames(s, keys, k);
    ScaleRequestAt(s, keys, k);
    hide DeployAll, Respects, Sound, ScaleRequests, ScaleCron;
    DeployAllDeploys(st, ScaleRequests(s, keys), worlds, k);
  }

  /** A scaling touches nothing but the objects named after its processes, however it ends. */
  lemma ScaleTouches(st: State, s: Scaling, keys: seq<string>, worlds: seq<World>, n: string)
    requires Enumerates(keys, s.structure) && |worlds| >= |keys|
    requires forall k :: k in keys ==> s.app + "-" + k != n
    ensures SameObjects(st, DeployAll(st, ScaleRequests(s, keys), worlds).state, n)
  {
    hide ScaleRequests;
    forall i | 0 <= i < |keys| && ScaleRequests(s, keys)[i].Some?
      ensures ScaleRequests(s, keys)[i].value.serviceID != n
    {
      ScaleRequestAt(s, keys, i);
    }
    DeployAllTouches(st, ScaleRequests(s, keys), worlds, n);
  }

  lemma SuffixesDiffer(prefix: string, a: string, b: string)
    requires a != b
    ensures prefix + a != prefix + b
  {
    assert (prefix + a)[|prefix|..] == a && (prefix + b)[|prefix|..] == b;
  }

  /** The process that an app always has: web, or cmd if there is no Procfile. */
  predicate IsDefault(p: Process, procfile: Procfile) {
    p.proctype == (if procfile.NoProcfile? then "cmd" else "web") && p.cronExpr == ""
  }

  /** The command that the Procfile has for the type, and none if it has none. */
  predicate CommandIs(args: seq<string>, procfile: Procfile, proctype: string) {
    args == if procfile.Parsed? && proctype in procfile.entries && procfile.entries[proctype].command.Some?
            then procfile.entries[proctype].command.value else []
  }

  /** All that runs beside web and cmd is released, and nothing else is but the default process. */
  lemma {:induction false} OthersMeaning(running: seq<Process>, p: Process)
    ensures p in Others(running) <==> p in running && p.proctype != "web" && p.proctype != "cmd"
    decreases |running|
  {
    if running != [] {
      var n := |running| - 1;
      OthersMeaning(running[..n], p);
      assert running == running[..n] + [running[n]];
    }
  }

  /**
   A finished release runs the new image with the environment and the command of its process in the
   default process and in every other process that was running, cron jobs excepted.
   */
  lemma ReleaseDeploys(st: State, r: AppRelease, running: seq<Process>, atoi: string -> Option<int>, worlds: seq<World>,
      p: Process)
    requires |worlds| > |Others(running)| && Inv(st) && r.app + "-" + p.proctype != PROXY
    requires Release(st, r, running, atoi, worlds).end == Finished
    requires (p in running && p.proctype != "web" && p.proctype != "cmd") || IsDefault(p, r.procfile)
    ensures p.cronExpr == "" ==>
              var after := Release(st, r, running, atoi, worlds).state; var id := r.app + "-" + p.proctype;
              && id in after.deployments && after.deployments[id].pod.containers != []
              && var c := after.deployments[id].pod.containers[0];
              && c.image == r.image && c.env == r.env && CommandIs(c.args, r.procfile, p.proctype)
  {
    if p.cronExpr == "" {
      var k := RequestOf(r, running, p);
      ReleasedAt(st, r, AppPort(r.env, atoi).value, running, worlds, k);
      hide Inv, Others, DeployAll, ReleaseRequests, CommandIs, AppPort;
    }
  }

  lemma RequestOf(r: AppRelease, running: seq<Process>, p: Process) returns (k: nat)
    requires (p in running && p.proctype != "web" && p.proctype != "cmd") || IsDefault(p, r.procfile)
    ensures k <= |Others(running)| && TypeAt(r, running, k) == p.proctype
    ensures if k == 0 then p.cronExpr == "" else Others(running)[k - 1].cronExpr == p.cronExpr
  {
    k := 0;
    OthersMeaning(running, p);
    hide Others;
    if p in running && p.proctype != "web" && p.proctype != "cmd" {
      var i :| 0 <= i < |Others(running)| && Others(running)[i] == p;
      k := i + 1;
    }
  }

  lemma CommandMeaning(proctype: string, procfile: Procfile, args: seq<string>)
    requires ProcessCommand(proctype, procfile) == Some(args)
    ensures CommandIs(args, procfile, proctype)
  {
  }

  lemma ReleasedAt(st: State, r: AppRelease, port: int, running: seq<Process>, worlds: seq<World>, k: nat)
    requires |worlds| > |Others(running)| && k <= |Others(running)| && Inv(st)
    requires r.app + "-" + TypeAt(r, running, k) != PROXY && (k > 0 ==> Others(running)[k - 1].cronExpr == "")
    requires DeployAll(st, ReleaseRequests(r, port, running), worlds).end == Finished
    ensures var after := DeployAll(st, ReleaseRequests(r, port, running), worlds).state;
            var id := r.app + "-" + TypeAt(r, running, k);
            && id in after.deployments && after.deployments[id].pod.containers != []
            && var c := after.deployments[id].pod.containers[0];
            && c.image == r.image && c.env == r.env && CommandIs(c.args, r.procfile, TypeAt(r, running, k))
  {
    hide DeployAll, Others, ReleaseRequests, ProcessCommand, Inv, CommandIs;
    ReleaseMeets(st, r, port, running, worlds, k);
    ReleaseRequestAt(r, port, running, k);
    var args := ReleaseRequests(r, port, running)[k].value.args;
    CommandMeaning(TypeAt(r, running, k), r.procfile, args);
  }

  lemma DefaultIsNoProxy(app: string, procfile: Procfile)
    ensures app + "-" + (if procfile.NoProcfile? then "cmd" else "web") != "cloudsql-proxy"
  {
    var id := app + "-" + (if procfile.NoProcfile? then "cmd" else "web");
    assert id[|id| - 1] == if procfile.NoProcfile? then 'd' else 'b';
    assert "cloudsql-proxy"[|"cloudsql-proxy"| - 1] == 'y';
  }

  lemma ReleaseMeets(st: State, r: AppRelease, port: int, running: seq<Process>, worlds: seq<World>, k: nat)
    requires |worlds| > |Others(running)| && k <= |Others(running)| && Inv(st)
    requires r.app + "-" + TypeAt(r, running, k) != PROXY && (k > 0 ==> Others(running)[k - 1].cronExpr == "")
    requires DeployAll(st, ReleaseRequests(r, port, running), worlds).end == Finished
    ensures var requests := ReleaseRequests(r, port, running);
            requests[k].Some? && Deployed(DeployAll(st, requests, worlds).state, requests[k].value)
  {
    var requests := ReleaseRequests(r, port, running);
    hide DeployAll, Others, Respects, Sound, ReleaseRequests, Deployed, ProcessCommand;
    AllRequested(st, requests, worlds, k);
    ReleaseRequestAt(r, port, running, k);
    ReleaseNames(r, port, running, k);
    DeployAllDeploys(st, requests, worlds, k);
  }

  /** The type of the process that request i of a release deploys. */
  function TypeAt(r: AppRelease, running: seq<Process>, i: nat): string
    requires i <= |Others(running)|
  {
    if i == 0 then DefaultProctype(r.procfile) else Others(running)[i - 1].proctype
  }

  lemma ReleaseRequestAt(r: AppRelease, port: int, running: seq<Process>, i: nat)
    requires i <= |Others(running)|
    ensures var q := ReleaseRequests(r, port, running)[i];
            q.Some? ==>
              && q.value.app == r.app && q.value.proctype == TypeAt(r, running, i)
              && q.value.serviceID == r.app + "-" + TypeAt(r, running, i)
              && q.value.image == r.image && q.value.env == r.env
              && ProcessCommand(TypeAt(r, running, i), r.procfile) == Some(q.value.args)
    ensures var q := ReleaseRequests(r, port, running)[i];
            q.Some? ==> (q.value.cron.None? <==> (i > 0 ==> Others(running)[i - 1].cronExpr == ""))
  {
    hide Others;
  }

  /** What a release deploys under one name is one request, even if the process is listed twice. */
  lemma ReleaseNames(r: AppRelease, port: int, running: seq<Process>, k: nat)
    requires k <= |Others(running)|
    requires ReleaseRequests(r, port, running)[k].Some? && ReleaseRequests(r, port, running)[k].value.cron.None?
    ensures var all := ReleaseRequests(r, port, running);
            forall i :: 0 <= i < |all| && all[i].Some? ==> Respects(all[i].value, all[k].value)
  {
    OthersListenNowhere(running);
    var all := ReleaseRequests(r, port, running);
    hide Others, ReleaseRequests;
    forall i | 0 <= i < |all| && all[i].Some? ensures Respects(all[i].value, all[k].value) {
      ReleaseRequestAt(r, port, running, i);
      ReleaseRequestAt(r, port, running, k);
      if TypeAt(r, running, i) != TypeAt(r, running, k) {
        SuffixesDiffer(r.app + "-", TypeAt(r, running, i), TypeAt(r, running, k));
      } else if all[i].value.cron.None? {
        SameTypeSameRequest(r, port, running, i, k);
      }
    }
  }

  lemma SameTypeSameRequest(r: AppRelease, port: int, running: seq<Process>, i: nat, k: nat)
    requires i <= |Others(running)| && k <= |Others(running)| && TypeAt(r, running, i) == TypeAt(r, running, k)
    requires i > 0 ==> Others(running)[i - 1].cronExpr == ""
    requires k > 0 ==> Others(running)[k - 1].cronExpr == ""
    ensures ReleaseRequests(r, port, running)[i] == ReleaseRequests(r, port, running)[k]
  {
    hide Others, ReleaseRequest;
  }

  /**
   After a finished deploy of a process with a port, its service leads to the port of the container, and
   its selector fits the labels of the pods; it stands behind the ingress if there are domains, and is a
   load balancer on port 80 otherwise.
   */
  lemma ServiceReachesContainer(st: State, req: DeployRequest, world: World)
    requires Inv(st) && req.cron.None? && req.port > 0 && req.serviceID != PROXY && Run(st, req, world).end == Finished
    requires req.serviceID in st.deployments ==> Get(st.deployments[req.serviceID].labels, "app") == req.app
    ensures var after := Run(st, req, world).state; var id := req.serviceID;
            && id in after.services && Deployed(after, req)
            && var s := after.services[id];
            && s.targetPort == after.deployments[id].pod.containers[0].port
            && (if req.domains == [] then s.kind == LoadBalancer && s.port == 80
                else s.kind == NodePort && s.port == req.port)
            && forall l :: l in s.selector ==> Get(after.deployments[id].labels, l) == s.selector[l]
  {
    RunDeploys(st, req, world);
    DeployedPort(Run(st, req, world).state, req);
    DeployLabels(st, req);
    var deployed := PutDeployment(st, req).state;
    hide PutDeployment, Deployed, Inv, Expose;
    ExposeKeepsDeployments(deployed, req, world);
    ExposedService(deployed, req, world);
  }

  lemma DeployedPort(st: State, req: DeployRequest)
    requires Deployed(st, req) && req.port > 0
    ensures req.serviceID in st.deployments && st.deployments[req.serviceID].pod.containers != []
    ensures st.deployments[req.serviceID].pod.containers[0].port == req.port
  {
  }

  lemma ExposedService(st: State, req: DeployRequest, world: World)
    requires req.port > 0
    ensures var after := Expose(st, req, world).state;
            req.serviceID in after.services
            && var s := after.services[req.serviceID]; s == NewService(req, s.clusterIP, s.nodePort)
  {
    hide Publish;
  }

  /** After a finished deploy every domain leads through a rule of the ingress to the service and its port. */
  lemma DomainsReachService(st: State, req: DeployRequest, world: World, d: string)
    requires req.cron.None? && req.port > 0 && Run(st, req, world).end == Finished
    requires d in req.domains && (st.ingress.Shared? ==> DistinctHosts(st.ingress.rules))
    ensures var after := Run(st, req, world).state; var id := req.serviceID;
            && after.ingress.Shared? && id in after.services
            && Rule(d, IngressPath(req.provider), id, after.services[id].port) in after.ingress.rules
  {
    SourceRulePublished(st.ingress, req, d);
    var deployed := PutDeployment(st, req).state;
    PutDeploymentKeeps(st, req);
    hide PutDeployment, Publish;
    ExposeKeepsDeployments(deployed, req, world);
  }

  lemma DeployLabels(st: State, req: DeployRequest)
    requires PutDeployment(st, req).end == Finished
    requires req.serviceID in st.deployments ==> Get(st.deployments[req.serviceID].labels, "app") == req.app
    ensures req.serviceID in PutDeployment(st, req).state.deployments
    ensures Get(PutDeployment(st, req).state.deployments[req.serviceID].labels, "app") == req.app
  {
    hide NewPod;
  }

  lemma SourceRulePublished(ingress: Shared, req: DeployRequest, d: string)
    requires d in req.domains && (ingress.Shared? ==> DistinctHosts(ingress.rules))
    ensures Publish(ingress, SourceRules(req)).Merged? ==>
              Rule(d, IngressPath(req.provider), req.serviceID, req.port) in Publish(ingress, SourceRules(req)).rules
  {
    var source := SourceRules(req);
    var i :| 0 <= i < |req.domains| && req.domains[i] == d;
    assert source[i] == Rule(d, IngressPath(req.provider), req.serviceID, req.port);
    SourceConsistent(req);
    SourcePublished(ingress, source, source[i]);
  }

  // Listing

  /** In every sound state the containers that a listing of the processes looks up are there. */
  lemma AppContainersPresent(st: State, app: string, n: string)
    requires Inv(st)
    ensures n in st.deployments && OfApp(st.deployments[n].labels, app) ==>
              HasAppContainer(st.deployments[n].labels, st.deployments[n].pod, app)
    ensures n in st.cronjobs && OfApp(st.cronjobs[n].labels, app) ==>
              HasAppContainer(st.cronjobs[n].labels, st.cronjobs[n].pod, app)
  {
    if n in st.deployments && OfApp(st.deployments[n].labels, app) {
      assert Sound(st.deployments[n].labels, st.deployments[n].pod, n);
      FirstNamedIs(st.deployments[n].pod.containers, n, 0);
    }
    if n in st.cronjobs && OfApp(st.cronjobs[n].labels, app) {
      assert Sound(st.cronjobs[n].labels, st.cronjobs[n].pod, n);
      FirstNamedIs(st.cronjobs[n].pod.containers, n, 0);
    }
  }
}
