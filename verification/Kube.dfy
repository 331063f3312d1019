/**
 The objects of one namespace of the cluster, and what one deploy request does to them: the deployment
 is created or its app container replaced, and the service, the shared ingress and cron jobs likewise.
 */
module Kube {
  import opened Options
  import opened Ingress
  import opened Limits
  import opened Sidecar

  type Labels = map<string, string>

  const HERITAGE := "datacol"
  const AWS := "aws"
  const GCP := "gcp"

  predicate Managed(labels: Labels) {
    Get(labels, "managed-by") == HERITAGE
  }

  predicate OfApp(labels: Labels, app: string) {
    Managed(labels) && "app" in labels && labels["app"] == app
  }

  function ProcLabels(app: string, proctype: string): Labels {
    map["app" := app, "type" := proctype, "managed-by" := HERITAGE]
  }

  datatype Deployment = Deployment(labels: Labels, replicas: int, pod: PodSpec)

  datatype ServiceType = LoadBalancer | NodePort

  /** A service with its one port. */
  datatype Service = Service(
    labels: Labels,
    kind: ServiceType,
    port: int,
    targetPort: int,
    selector: Labels,
    clusterIP: string,
    nodePort: int)

  datatype CronJob = CronJob(labels: Labels, schedule: string, parallelism: Option<int>, pod: PodSpec)

  datatype State = State(
    deployments: map<string, Deployment>,
    services: map<string, Service>,
    cronjobs: map<string, CronJob>,
    ingress: Shared,
    secrets: set<string>)

  datatype DeployRequest = DeployRequest(
    namespace: string,
    app: string,
    proctype: string,
    provider: string,
    serviceID: string,
    image: string,
    entrypoint: seq<string>,
    args: seq<string>,
    env: map<string, string>,
    port: int,
    replicas: Option<int>,
    domains: seq<string>,
    sqlProxy: bool,
    cron: Option<string>)

  /** What the API server assigns to a new service, and whether the pods became ready in time. */
  datatype World = World(clusterIP: string, nodePort: int, ready: bool)

  /** How a call ends; `Exit` is a fatal log line. */
  datatype End = Finished | Error | Exit | Panic

  datatype Reply = Reply(state: State, end: End)

  // What a request asks for

  function NewContainer(req: DeployRequest): Container {
    var port := if req.port > 0 then req.port else 0;
    Container(req.serviceID, req.image, req.entrypoint, req.args, req.env, port, NO_RESOURCES)
  }

  function NewPod(req: DeployRequest): Manifest {
    var pod := PodSpec([NewContainer(req)], []);
    if req.sqlProxy then MergeProxy(pod, req.app, req.env) else Manifest(pod)
  }

  function NewDeployment(req: DeployRequest, pod: PodSpec): Deployment {
    Deployment(ProcLabels(req.app, req.proctype), if req.replicas.Some? then req.replicas.value else 1, pod)
  }

  /** With domains the service stands behind the ingress, without it has a load balancer of its own. */
  function NewService(req: DeployRequest, clusterIP: string, nodePort: int): Service {
    Service(
      map["app" := req.app, "managed-by" := HERITAGE],
      if req.domains != [] then NodePort else LoadBalancer,
      if req.domains != [] then req.port else 80,
      req.port, map["app" := req.app], clusterIP, nodePort)
  }

  function IngressPath(provider: string): string {
    if provider == GCP then "/*" else "/"
  }

  function SourceRules(req: DeployRequest): seq<Rule> {
    RulesFor(req.serviceID, IngressPath(req.provider), req.port, req.domains)
  }

  // Creating or updating

  /** The app container of a deployment, its resources excepted, and the replicas if they are given. */
  function Refreshed(d: Deployment, req: DeployRequest): Deployment {
    var i := FirstNamed(d.pod.containers, req.serviceID);
    if i == |d.pod.containers| then d
    else
      var c := NewContainer(req).(resources := d.pod.containers[i].resources);
      d.(replicas := if req.replicas.Some? then req.replicas.value else d.replicas,
         pod := d.pod.(containers := d.pod.containers[i := c]))
  }

  function PutDeployment(st: State, req: DeployRequest): Reply {
    var id := req.serviceID;
    if id in st.deployments then
      Reply(st.(deployments := st.deployments[id := Refreshed(st.deployments[id], req)]), Finished)
    else
      match NewPod(req)
      case Exited => Reply(st, Exit)
      case Manifest(pod) => Reply(st.(deployments := st.deployments[id := NewDeployment(req, pod)]), Finished)
  }

  function PutService(st: State, req: DeployRequest, world: World): State {
    var id := req.serviceID;
    st.(services := st.services[id :=
      if id in st.services then NewService(req, st.services[id].clusterIP, st.services[id].nodePort)
      else NewService(req, world.clusterIP, world.nodePort)])
  }

  function PutIngress(st: State, req: DeployRequest): Reply {
    match Publish(st.ingress, SourceRules(req))
    case Panicked => Reply(st, Panic)
    case Merged(rules) => Reply(st.(ingress := Shared(rules)), Finished)
  }

  function PutCronJob(st: State, req: DeployRequest, schedule: string, pod: PodSpec): State {
    var id := req.serviceID;
    st.(cronjobs := st.cronjobs[id :=
      CronJob(if id in st.cronjobs then st.cronjobs[id].labels else ProcLabels(req.app, req.proctype),
              schedule, req.replicas, pod)])
  }

  function RunCron(st: State, req: DeployRequest, schedule: string): Reply {
    match NewPod(req)
    case Exited => Reply(st, Exit)
    case Manifest(pod) =>
      if req.replicas == Some(0) then
        Reply(st.(cronjobs := st.cronjobs - {req.serviceID}), if req.serviceID in st.cronjobs then Finished else Error)
      else Reply(PutCronJob(st, req, schedule, pod), Finished)
  }

  predicate Complete(req: DeployRequest) {
    req.namespace != "" && req.app != "" && req.proctype != "" && req.provider != ""
  }

  /** The service and, with domains, the rules of a process that listens on a port. */
  function Expose(st: State, req: DeployRequest, world: World): Reply {
    if req.port <= 0 then Reply(st, Finished)
    else
      var served := PutService(st, req, world);
      if req.domains == [] then Reply(served, Finished) else PutIngress(served, req)
  }

  function Run(st: State, req: DeployRequest, world: World): Reply {
    if !Complete(req) then Reply(st, Error)
    else if req.cron.Some? then RunCron(st, req, req.cron.value)
    else
      var deployed := PutDeployment(st, req);
      if deployed.end != Finished then deployed
      else
        var exposed := Expose(deployed.state, req, world);
        if exposed.end == Finished && !world.ready then Reply(exposed.state, Error) else exposed
  }

  // Editing every deployment of an app

  datatype Edit =
    | Link(options: map<string, string>)
    | Unlink
    | SetEnv(env: map<string, string>)
    | SetLimits(resource: string, limits: map<string, string>)

  function NonemptyKeys(env: map<string, string>): map<string, string> {
    map k | k in env && k != "" :: env[k]
  }

  /** Nothing where the edit stops: the process exits, the pod would be left empty, a quantity does not parse. */
  function EditDeployment(e: Edit, app: string, d: Deployment, isQuantity: string -> bool): Option<Deployment> {
    match e
    case Link(options) =>
      (match MergeProxy(d.pod, app, options)
       case Exited => None
       case Manifest(pod) => Some(d.(pod := pod)))
    case Unlink =>
      var pod := PruneProxy(d.pod);
      if pod.containers == [] then None else Some(d.(pod := pod))
    case SetEnv(env) =>
      var cs := d.pod.containers;
      if cs == [] then None else Some(d.(pod := d.pod.(containers := cs[0 := cs[0].(env := NonemptyKeys(env))])))
    case SetLimits(resource, limits) =>
      var proctype := Get(d.labels, "type");
      if proctype !in limits then Some(d)
      else
        var cs := d.pod.containers;
        var i := FirstNamed(cs, app + "-" + proctype);
        if i == |cs| then Some(d)
        else
          match MergeConstraints(cs[i].resources, resource, limits[proctype], isQuantity)
          case None => None
          case Some(r) => Some(d.(pod := d.pod.(containers := cs[i := cs[i].(resources := r)])))
  }

  /** The deployments after the edit, and how many of those named it has come to. */
  datatype Edited = Edited(deployments: map<string, Deployment>, done: nat)

  function EditAll(ds: map<string, Deployment>, names: seq<string>, app: string, e: Edit,
      isQuantity: string -> bool): (r: Edited)
    requires forall n :: n in names ==> n in ds
    ensures r.done <= |names|
  {
    if names == [] then Edited(ds, 0)
    else
      match EditDeployment(e, app, ds[names[0]], isQuantity)
      case None => Edited(ds, 0)
      case Some(d) =>
        var rest := EditAll(ds[names[0] := d], names[1..], app, e, isQuantity);
        Edited(rest.deployments, rest.done + 1)
  }

  ghost predicate Distinct(names: seq<string>) {
    forall i, j :: 0 <= i < j < |names| ==> names[i] != names[j]
  }

  /** The answer of the API server to a list call with the labels of the app, in any order. */
  ghost predicate Listing(ds: map<string, Deployment>, app: string, names: seq<string>) {
    Distinct(names) && forall n :: n in names <==> n in ds && OfApp(ds[n].labels, app)
  }

  function SecretName(app: string): string {
    app + "-cloudsql-secret"
  }

  function EditApp(st: State, app: string, names: seq<string>, e: Edit, isQuantity: string -> bool): Reply
    requires forall n :: n in names ==> n in st.deployments
  {
    var r := EditAll(st.deployments, names, app, e, isQuantity);
    Reply(st.(deployments := r.deployments),
          if r.done == |names| then Finished else if e.Link? then Exit else if e.SetEnv? then Panic else Error)
  }

  function LinkApp(st: State, app: string, options: map<string, string>, names: seq<string>,
      isQuantity: string -> bool): Reply
    requires forall n :: n in names ==> n in st.deployments
  {
    EditApp(st.(secrets := st.secrets + {SecretName(app)}), app, names, Link(options), isQuantity)
  }

  /** Without the secret of the app there is nothing to unlink. */
  function UnlinkApp(st: State, app: string, names: seq<string>, isQuantity: string -> bool): Reply
    requires forall n :: n in names ==> n in st.deployments
  {
    if SecretName(app) !in st.secrets then Reply(st, Finished)
    else EditApp(st.(secrets := st.secrets - {SecretName(app)}), app, names, Unlink, isQuantity)
  }

  // Deleting an app

  predicate AnyManaged(services: map<string, Service>) {
    exists n :: n in services && Managed(services[n].labels)
  }

  function DeleteApp(st: State, app: string): State {
    var services := map n | n in st.services && !OfApp(st.services[n].labels, app) :: st.services[n];
    State(
      map n | n in st.deployments && !OfApp(st.deployments[n].labels, app) :: st.deployments[n],
      services,
      map n | n in st.cronjobs && !OfApp(st.cronjobs[n].labels, app) :: st.cronjobs[n],
      if AnyManaged(services) then st.ingress else NoIngress,
      st.secrets)
  }
}
