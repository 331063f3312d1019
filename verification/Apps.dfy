/** Releasing an app and scaling its processes: one deploy request for each process, until one fails. */
module Apps {
  import opened Clusters
  import opened Kube
  import opened Limits
  import opened Options
  import opened Sidecar

  const WEB := "web"
  const CMD := "cmd"
  const DEFAULT_PORT: int := 8080

  /** An entry of a Procfile; its command is missing when it is neither a text nor a list. */
  datatype Entry = Entry(command: Option<seq<string>>, cron: Option<string>)

  datatype Procfile = NoProcfile | Malformed | Parsed(entries: map<string, Entry>)

  datatype Process = Process(
    proctype: string,
    count: int,
    cronExpr: string,
    command: seq<string>,
    cpu: string,
    memory: string)

  datatype AppRelease = AppRelease(
    app: string,
    procfile: Procfile,
    namespace: string,
    image: string,
    sqlProxy: bool,
    domains: seq<string>,
    env: map<string, string>,
    provider: string)

  // Requests in a row

  /** A missing request is a process that is refused; nothing is deployed behind the first failure. */
  function DeployAll(st: State, requests: seq<Option<DeployRequest>>, worlds: seq<World>): Reply
    requires |requests| <= |worlds|
    decreases |requests|
  {
    if requests == [] then Reply(st, Finished)
    else if requests[0].None? then Reply(st, Error)
    else
      var r := Run(st, requests[0].value, worlds[0]);
      if r.end != Finished then r else DeployAll(r.state, requests[1..], worlds[1..])
  }

  ghost predicate Deploying(all: Reply, st: State, requests: seq<Option<DeployRequest>>, worlds: seq<World>, i: nat) {
    i <= |requests| <= |worlds| && all == DeployAll(st, requests[i..], worlds[i..])
  }

  lemma DeployingStep(all: Reply, st: State, requests: seq<Option<DeployRequest>>, worlds: seq<World>, i: nat)
    requires Deploying(all, st, requests, worlds, i)
    ensures i == |requests| ==> all == Reply(st, Finished)
    ensures i < |requests| && requests[i].None? ==> all == Reply(st, Error)
    ensures i < |requests| && requests[i].Some? ==>
              var r := Run(st, requests[i].value, worlds[i]);
              if r.end != Finished then all == r else Deploying(all, r.state, requests, worlds, i + 1)
  {
    hide Run;
    if i < |requests| {
      assert requests[i..][0] == requests[i] && requests[i..][1..] == requests[i + 1..];
      assert worlds[i..][0] == worlds[i] && worlds[i..][1..] == worlds[i + 1..];
    }
  }

  // Listing the processes

  predicate HasAppContainer(labels: Labels, pod: PodSpec, app: string) {
    FirstNamed(pod.containers, app + "-" + Get(labels, "type")) < |pod.containers|
  }

  function Described(labels: Labels, pod: PodSpec, app: string, count: int, cronExpr: string): Process
    requires HasAppContainer(labels, pod, app)
  {
    var proctype := Get(labels, "type");
    var c := pod.containers[FirstNamed(pod.containers, app + "-" + proctype)];
    var cpu, memory := GetRequestLimit(c.resources, "cpu"), GetRequestLimit(c.resources, "memory");
    Process(proctype, count, cronExpr, c.args, cpu, memory)
  }

  /** Processes without any pod are not listed; `live` are the labels that pods carry. */
  predicate Listable(labels: Labels, pod: PodSpec, app: string, live: set<Labels>) {
    labels in live ==> HasAppContainer(labels, pod, app)
  }

  predicate DeploymentsListable(st: State, app: string, names: seq<string>, live: set<Labels>)
    requires forall n :: n in names ==> n in st.deployments
  {
    forall n :: n in names ==> Listable(st.deployments[n].labels, st.deployments[n].pod, app, live)
  }

  predicate JobsListable(st: State, app: string, jobs: seq<string>, live: set<Labels>)
    requires forall n :: n in jobs ==> n in st.cronjobs
  {
    forall n :: n in jobs ==> Listable(st.cronjobs[n].labels, st.cronjobs[n].pod, app, live)
  }

  function DeploymentProcesses(st: State, app: string, names: seq<string>, live: set<Labels>): seq<Process>
    requires (forall n :: n in names ==> n in st.deployments) && DeploymentsListable(st, app, names, live)
  {
    if names == [] then []
    else
      var d := st.deployments[names[|names| - 1]];
      DeploymentProcesses(st, app, names[..|names| - 1], live)
      + if d.labels in live then [Described(d.labels, d.pod, app, d.replicas, "")] else []
  }

  function CronProcesses(st: State, app: string, names: seq<string>, live: set<Labels>): seq<Process>
    requires (forall n :: n in names ==> n in st.cronjobs) && JobsListable(st, app, names, live)
  {
    if names == [] then []
    else
      var cj := st.cronjobs[names[|names| - 1]];
      CronProcesses(st, app, names[..|names| - 1], live)
      + if cj.labels in live
        then [Described(cj.labels, cj.pod, app, if cj.parallelism.Some? then cj.parallelism.value else 0, cj.schedule)]
        else []
  }

  /** A container that is looked up and missing is a nil pointer. */
  method ProcessList(c: Cluster, app: string, names: seq<string>, jobs: seq<string>, live: set<Labels>)
    returns (items: seq<Process>, panicked: bool)
    requires (forall n :: n in names ==> n in c.deployments) && (forall n :: n in jobs ==> n in c.cronjobs)
    ensures !panicked <==>
            DeploymentsListable(c.Current(), app, names, live) && JobsListable(c.Current(), app, jobs, live)
    ensures !panicked ==>
              items == DeploymentProcesses(c.Current(), app, names, live) + CronProcesses(c.Current(), app, jobs, live)
  {
    items := [];
    for i := 0 to |names|
      invariant DeploymentsListable(c.Current(), app, names[..i], live)
      invariant items == DeploymentProcesses(c.Current(), app, names[..i], live)
    {
      assert names[..i + 1][..i] == names[..i] && names[i] in names;
      var d := c.deployments[names[i]];
      if d.labels in live {
        if !HasAppContainer(d.labels, d.pod, app) {
          return [], true;
        }
        items := items + [Described(d.labels, d.pod, app, d.replicas, "")];
      }
    }
    assert names[..|names|] == names;
    var proc: seq<Process> := [];
    for i := 0 to |jobs|
      invariant JobsListable(c.Current(), app, jobs[..i], live)
      invariant proc == CronProcesses(c.Current(), app, jobs[..i], live)
    {
      assert jobs[..i + 1][..i] == jobs[..i] && jobs[i] in jobs;
      var cj := c.cronjobs[jobs[i]];
      if cj.labels in live {
        if !HasAppContainer(cj.labels, cj.pod, app) {
          return [], true;
        }
        var count := if cj.parallelism.Some? then cj.parallelism.value else 0;
        proc := proc + [Described(cj.labels, cj.pod, app, count, cj.schedule)];
      }
    }
    assert jobs[..|jobs|] == jobs;
    items, panicked := items + proc, false;
  }

  // Releasing

  function DefaultProctype(procfile: Procfile): string {
    if procfile.NoProcfile? then CMD else WEB
  }

  /** The error of a Procfile entry without a usable command is not passed on: the command is empty. */
  function ProcessCommand(proctype: string, procfile: Procfile): Option<seq<string>> {
    if proctype == "" || procfile.Malformed? then None
    else if procfile.Parsed? && proctype in procfile.entries && procfile.entries[proctype].command.Some? then
      procfile.entries[proctype].command
    else Some([])
  }

  /** The conversion of an int to int32. */
  function ToInt32(n: int): int {
    (n + 0x8000_0000) % 0x1_0000_0000 - 0x8000_0000
  }

  function JobID(app: string, proctype: string): string {
    app + "-" + (if proctype == "" then CMD else proctype)
  }

  function ReleaseRequest(r: AppRelease, port: int, proctype: string, cronExpr: string): Option<DeployRequest> {
    match ProcessCommand(proctype, r.procfile)
    case None => None
    case Some(command) => Some(DeployRequest(
      r.namespace, r.app, proctype, r.provider, JobID(r.app, proctype), r.image, [], command, r.env,
      if proctype == WEB || proctype == CMD then ToInt32(port) else 0,
      None, r.domains, r.sqlProxy, if cronExpr != "" then Some(cronExpr) else None))
  }

  /** Beside the default process, whatever runs and is neither web nor cmd. */
  function Others(running: seq<Process>): seq<Process> {
    if running == [] then []
    else
      var rp := running[|running| - 1];
      Others(running[..|running| - 1]) + if rp.proctype != WEB && rp.proctype != CMD then [rp] else []
  }

  function ReleaseRequests(r: AppRelease, port: int, running: seq<Process>): (requests: seq<Option<DeployRequest>>)
    ensures |requests| == 1 + |Others(running)|
  {
    var others := Others(running);
    [ReleaseRequest(r, port, DefaultProctype(r.procfile), "")]
    + seq(|others|, i requires 0 <= i < |others| => ReleaseRequest(r, port, others[i].proctype, others[i].cronExpr))
  }

  function AppPort(env: map<string, string>, atoi: string -> Option<int>): Option<int> {
    if "PORT" in env then atoi(env["PORT"]) else Some(DEFAULT_PORT)
  }

  function Release(st: State, r: AppRelease, running: seq<Process>, atoi: string -> Option<int>,
      worlds: seq<World>): Reply
    requires |worlds| > |Others(running)|
  {
    match AppPort(r.env, atoi)
    case None => Reply(st, Error)
    case Some(port) => DeployAll(st, ReleaseRequests(r, port, running), worlds)
  }

  /** The default process first, as many as are running, and the others behind it. */
  method ProcessesToUpdate(defaultProctype: string, running: seq<Process>) returns (processes: seq<Process>)
    ensures |processes| > 0 && processes[0].proctype == defaultProctype && processes[0].cronExpr == ""
    ensures processes[1..] == Others(running)
  {
    var first := Process(defaultProctype, 1, "", [], "", "");
    var others: seq<Process> := [];
    for i := 0 to |running|
      invariant others == Others(running[..i])
      invariant first.proctype == defaultProctype && first.cronExpr == ""
    {
      assert running[..i + 1][..i] == running[..i];
      var rp := running[i];
      if rp.proctype == defaultProctype {
        first := first.(count := rp.count);
      }
      if rp.proctype != WEB && rp.proctype != CMD {
        others := others + [rp];
      }
    }
    assert running[..|running|] == running;
    processes := [first] + others;
  }

  method UpdateApp(c: Cluster, r: AppRelease, running: seq<Process>, atoi: string -> Option<int>, worlds: seq<World>)
    returns (end: End)
    requires |worlds| > |Others(running)|
    modifies c
    ensures Reply(c.Current(), end) == Release(old(c.Current()), r, running, atoi, worlds)
  {
    var port := DEFAULT_PORT;
    if "PORT" in r.env {
      var p := atoi(r.env["PORT"]);
      if p.None? {
        return Error;
      }
      port := p.value;
    }
    var processes := ProcessesToUpdate(DefaultProctype(r.procfile), running);
    ghost var requests := ReleaseRequests(r, port, running);
    ghost var all := DeployAll(c.Current(), requests, worlds);
    assert requests[0..] == requests && worlds[0..] == worlds;
    assert Deploying(all, c.Current(), requests, worlds, 0);
    hide Deploying, Run, DeployAll, Others, JobID, ToInt32;
    for i := 0 to |processes|
      invariant Deploying(all, c.Current(), requests, worlds, i)
    {
      DeployingStep(all, c.Current(), requests, worlds, i);
      assert requests[i] == ReleaseRequest(r, port, processes[i].proctype, processes[i].cronExpr);
      hide ReleaseRequests;
      var proc := processes[i];
      var command := ProcessCommand(proc.proctype, r.procfile);
      if command.None? {
        return Error;
      }
      var req := DeployRequest(
        r.namespace, r.app, proc.proctype, r.provider, JobID(r.app, proc.proctype), r.image, [], command.value, r.env,
        0, None, r.domains, r.sqlProxy, None);
      if proc.cronExpr != "" {
        req := req.(cron := Some(proc.cronExpr));
      }
      if proc.proctype == WEB || proc.proctype == CMD {
        req := req.(port := ToInt32(port));
      }
      assert requests[i] == Some(req);
      end := c.Deploy(req, worlds[i]);
      if end != Finished {
        return;
      }
    }
    DeployingStep(all, c.Current(), requests, worlds, |processes|);
    end := Finished;
  }

  // Scaling

  datatype Scaling = Scaling(
    app: string,
    procfile: Procfile,
    namespace: string,
    image: string,
    sqlProxy: bool,
    env: map<string, string>,
    provider: string,
    structure: map<string, int>)

  function ScaleCommand(procfile: Procfile, key: string): Option<seq<string>> {
    match procfile
    case NoProcfile => if key == CMD then Some([]) else None
    case Malformed => None
    case Parsed(entries) => if key in entries then entries[key].command else None
  }

  function ScaleCron(procfile: Procfile, key: string): Option<string> {
    if procfile.Parsed? && key in procfile.entries then procfile.entries[key].cron else None
  }

  function ScaleRequest(s: Scaling, key: string): Option<DeployRequest>
    requires key in s.structure
  {
    match ScaleCommand(s.procfile, key)
    case None => None
    case Some(command) => Some(DeployRequest(
      s.namespace, s.app, key, s.provider, s.app + "-" + key, s.image, [], command, s.env, 0,
      Some(s.structure[key]), [], s.sqlProxy, ScaleCron(s.procfile, key)))
  }

  function ScaleRequests(s: Scaling, keys: seq<string>): (requests: seq<Option<DeployRequest>>)
    requires forall k :: k in keys ==> k in s.structure
    ensures |requests| == |keys|
  {
    seq(|keys|, i requires 0 <= i < |keys| => ScaleRequest(s, keys[i]))
  }

  /** The keys of the structure in the order in which they happen to come. */
  ghost predicate Enumerates(keys: seq<string>, structure: map<string, int>) {
    Distinct(keys) && forall k :: k in keys <==> k in structure
  }

  method ScaleApp(c: Cluster, s: Scaling, keys: seq<string>, worlds: seq<World>) returns (end: End)
    requires Enumerates(keys, s.structure) && |worlds| >= |keys|
    modifies c
    ensures s.procfile.Malformed? ==> c.Current() == old(c.Current()) && end == Error
    ensures !s.procfile.Malformed? ==>
              Reply(c.Current(), end) == DeployAll(old(c.Current()), ScaleRequests(s, keys), worlds)
  {
    if s.procfile.Malformed? {
      return Error;
    }
    ghost var requests := ScaleRequests(s, keys);
    ghost var all := DeployAll(c.Current(), requests, worlds);
    assert requests[0..] == requests && worlds[0..] == worlds;
    assert Deploying(all, c.Current(), requests, worlds, 0);
    hide Deploying, Run, DeployAll;
    for i := 0 to |keys|
      invariant Deploying(all, c.Current(), requests, worlds, i)
    {
      DeployingStep(all, c.Current(), requests, worlds, i);
      var key := keys[i];
      var command: seq<string>, cron := [], None;
      if s.procfile.Parsed? {
        if key !in s.procfile.entries {
          return Error;
        }
        var entry := s.procfile.entries[key];
        if entry.command.None? {
          return Error;
        }
        command, cron := entry.command.value, entry.cron;
      } else if key != CMD {
        return Error;
      }
      var req := DeployRequest(
        s.namespace, s.app, key, s.provider, s.app + "-" + key, s.image, [], command, s.env, 0,
        Some(s.structure[key]), [], s.sqlProxy, cron);
      assert requests[i] == Some(req);
      end := c.Deploy(req, worlds[i]);
      if end != Finished {
        return;
      }
    }
    DeployingStep(all, c.Current(), requests, worlds, |keys|);
    end := Finished;
  }
}
