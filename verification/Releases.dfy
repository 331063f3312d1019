/**
 Releasing an app and scaling its processes, told by the requests that are made and by what they leave of
 cron jobs, services and the ingress.
 */
module Releases {
  import opened AppRuns
  import opened Apps
  import opened ClusterRuns
  import opened Databases
  import opened Deploys
  import opened Kube
  import opened Options
  import opened Requests
  import opened Sidecar

  // Which requests a release makes

  /** What is released beside the default process: all that runs but web and cmd, in the order of the listing. */
  function Beside(running: seq<Process>): seq<Process> {
    if running == [] then []
    else (if running[0].proctype == "web" || running[0].proctype == "cmd" then [] else [running[0]])
         + Beside(running[1..])
  }

  lemma {:induction false} OthersAfter(p: Process, rest: seq<Process>)
    ensures Others([p] + rest)
         == (if p.proctype == "web" || p.proctype == "cmd" then [] else [p]) + Others(rest)
    decreases |rest|
  {
    var all := [p] + rest;
    var n := |all| - 1;
    if rest == [] {
      assert all[..0] == [] && Others(all[..0]) == [];
    } else {
      assert all[..n] == [p] + rest[..n - 1];
      OthersAfter(p, rest[..n - 1]);
    }
  }

  lemma {:induction false} OthersAreBeside(running: seq<Process>)
    ensures Others(running) == Beside(running)
    decreases |running|
  {
    if running != [] {
      assert running == [running[0]] + running[1..];
      OthersAfter(running[0], running[1..]);
      OthersAreBeside(running[1..]);
    }
  }

  /** The port that the environment asks for, 8080 if it asks for none, wrapped into 32 bits for web and cmd. */
  predicate PortIs(asked: int, port: int, proctype: string) {
    if proctype == "web" || proctype == "cmd" then
      -0x8000_0000 <= asked < 0x8000_0000 && (asked - port) % 0x1_0000_0000 == 0
    else asked == 0
  }

  /** The request that a release makes for a process, or none for a process without type or a bad Procfile. */
  predicate Asks(q: Option<DeployRequest>, r: AppRelease, port: int, proctype: string, cronExpr: string) {
    if proctype == "" || r.procfile.Malformed? then q == None
    else
      && q.Some?
      && var d := q.value;
      && d.namespace == r.namespace && d.app == r.app && d.proctype == proctype && d.provider == r.provider
      && d.serviceID == r.app + "-" + proctype && d.image == r.image && d.entrypoint == []
      && CommandIs(d.args, r.procfile, proctype) && d.env == r.env && PortIs(d.port, port, proctype)
      && d.replicas == None && d.domains == r.domains && d.sqlProxy == r.sqlProxy
      && d.cron == if cronExpr == "" then None else Some(cronExpr)
  }

  lemma RequestMeaning(r: AppRelease, port: int, proctype: string, cronExpr: string)
    ensures Asks(ReleaseRequest(r, port, proctype, cronExpr), r, port, proctype, cronExpr)
  {
    Wrapped(port);
    hide ToInt32;
  }

  lemma Wrapped(port: int)
    ensures -0x8000_0000 <= ToInt32(port) < 0x8000_0000 && (ToInt32(port) - port) % 0x1_0000_0000 == 0
  {
    assert ToInt32(port) - port == -0x1_0000_0000 * ((port + 0x8000_0000) / 0x1_0000_0000);
  }

  /** A release makes one request for the default process, and then one for each process beside it. */
  lemma RequestsMeaning(r: AppRelease, port: int, running: seq<Process>)
    ensures var all := ReleaseRequests(r, port, running);
            && |all| == 1 + |Beside(running)|
            && Asks(all[0], r, port, if r.procfile.NoProcfile? then "cmd" else "web", "")
            && forall i :: 0 <= i < |Beside(running)| ==>
                 Asks(all[i + 1], r, port, Beside(running)[i].proctype, Beside(running)[i].cronExpr)
  {
    var all := ReleaseRequests(r, port, running);
    OthersAreBeside(running);
    RequestMeaning(r, port, if r.procfile.NoProcfile? then "cmd" else "web", "");
    hide Others, Beside, ReleaseRequest, Asks;
    forall i | 0 <= i < |Beside(running)|
      ensures Asks(all[i + 1], r, port, Beside(running)[i].proctype, Beside(running)[i].cronExpr)
    {
      RequestMeaning(r, port, Beside(running)[i].proctype, Beside(running)[i].cronExpr);
    }
  }

  /** The requests are made with the port of the environment; a port that is no number refuses the release. */
  lemma ReleaseMeaning(st: State, r: AppRelease, running: seq<Process>, atoi: string -> Option<int>, worlds: seq<World>)
    requires |worlds| > |Others(running)|
    ensures var reply := Release(st, r, running, atoi, worlds);
            if "PORT" !in r.env then reply == DeployAll(st, ReleaseRequests(r, 8080, running), worlds)
            else
              match atoi(r.env["PORT"])
              case None => reply == Reply(st, Error)
              case Some(port) => reply == DeployAll(st, ReleaseRequests(r, port, running), worlds)
  {
  }

  // Cron jobs

  /** The cron job is there as the request asks for it. */
  ghost predicate JobRuns(st: State, req: DeployRequest) {
    && req.cron.Some? && req.serviceID in st.cronjobs
    && var job := st.cronjobs[req.serviceID];
       job.schedule == req.cron.value && job.parallelism == req.replicas && FreshPod(job.pod, req)
  }

  /** The cron job is as a finished request leaves it: there, or deleted if no replicas are asked for. */
  ghost predicate JobLeft(st: State, req: DeployRequest) {
    if req.replicas == Some(0) then req.serviceID !in st.cronjobs else JobRuns(st, req)
  }

  predicate RespectsJob(other: DeployRequest, req: DeployRequest) {
    other.serviceID == req.serviceID ==> other.cron.None? || other == req
  }

  lemma RunLeavesJob(st: State, req: DeployRequest, world: World)
    requires req.cron.Some? && req.serviceID != "cloudsql-proxy" && Run(st, req, world).end == Finished
    ensures JobLeft(Run(st, req, world).state, req)
  {
    CronMeaning(st, req, world);
    hide Run, FreshPod;
  }

  lemma RunKeepsJob(st: State, other: DeployRequest, world: World, req: DeployRequest)
    requires JobLeft(st, req) && req.cron.Some? && req.serviceID != "cloudsql-proxy"
    requires RespectsJob(other, req) && Run(st, other, world).end == Finished
    ensures JobLeft(Run(st, other, world).state, req)
  {
    if other.serviceID != req.serviceID {
      RunTouches(st, other, world, req.serviceID);
    } else if other.cron.None? {
      RunObjects(st, other, world);
    } else {
      RunLeavesJob(st, req, world);
    }
    hide Run, FreshPod;
  }

  lemma {:induction false} RowKeepsJob(st: State, requests: seq<Option<DeployRequest>>, worlds: seq<World>,
      req: DeployRequest)
    requires |requests| <= |worlds| && DeployAll(st, requests, worlds).end == Finished
    requires JobLeft(st, req) && req.cron.Some? && req.serviceID != "cloudsql-proxy"
    requires forall i :: 0 <= i < |requests| && requests[i].Some? ==> RespectsJob(requests[i].value, req)
    ensures JobLeft(DeployAll(st, requests, worlds).state, req)
    decreases |requests|
  {
    if requests != [] {
      RunKeepsJob(st, requests[0].value, worlds[0], req);
      hide Run, JobLeft, RespectsJob;
      RowKeepsJob(Run(st, requests[0].value, worlds[0]).state, requests[1..], worlds[1..], req);
    }
  }

  /** After a row of deploys that all finish a cron job is as its last request asks. */
  lemma {:induction false} RowLeavesJob(st: State, requests: seq<Option<DeployRequest>>, worlds: seq<World>, k: nat)
    requires |requests| <= |worlds| && k < |requests| && DeployAll(st, requests, worlds).end == Finished
    requires requests[k].Some? && requests[k].value.cron.Some? && requests[k].value.serviceID != "cloudsql-proxy"
    requires forall i :: k < i < |requests| && requests[i].Some? ==> RespectsJob(requests[i].value, requests[k].value)
    ensures JobLeft(DeployAll(st, requests, worlds).state, requests[k].value)
    decreases |requests|
  {
    var after := Run(st, requests[0].value, worlds[0]).state;
    if k == 0 {
      RunLeavesJob(st, requests[0].value, worlds[0]);
      hide Run, JobLeft, RespectsJob;
      RowKeepsJob(after, requests[1..], worlds[1..], requests[0].value);
    } else {
      hide Run, JobLeft, RespectsJob;
      RowLeavesJob(after, requests[1..], worlds[1..], k - 1);
    }
  }

  lemma {:induction false} BesideAt(running: seq<Process>, k: nat) returns (i: nat)
    requires k < |running| && running[k].proctype != "web" && running[k].proctype != "cmd"
    ensures i < |Beside(running)| && Beside(running)[i] == running[k]
    ensures forall j :: i < j < |Beside(running)| ==> Beside(running)[j] in running[k + 1..]
    decreases |running|
  {
    if k == 0 {
      i := 0;
      BesideRuns(running[1..]);
      assert running[0 + 1..] == running[1..];
    } else {
      i := BesideAt(running[1..], k - 1);
      assert running[1..][k - 1 + 1..] == running[k + 1..];
      if running[0].proctype != "web" && running[0].proctype != "cmd" {
        i := i + 1;
      }
    }
  }

  lemma {:induction false} BesideRuns(running: seq<Process>)
    ensures forall p :: p in Beside(running) ==> p in running
    decreases |running|
  {
    if running != [] {
      BesideRuns(running[1..]);
    }
  }

  /** The job of a process runs the new image with the command and environment of the release, on its schedule. */
  ghost predicate JobReleased(st: State, r: AppRelease, p: Process) {
    && r.app + "-" + p.proctype in st.cronjobs
    && var job := st.cronjobs[r.app + "-" + p.proctype];
    && job.schedule == p.cronExpr && job.parallelism == None && job.pod.containers != []
    && var c := job.pod.containers[0];
       c.image == r.image && c.env == r.env && CommandIs(c.args, r.procfile, p.proctype)
  }

  /**
   A finished release gives each cron job that was running a new pod, on the schedule it was listed with, the
   last one if it was listed with several; its parallelism is not kept.
   */
  lemma ReleaseRunsJobs(st: State, r: AppRelease, running: seq<Process>, atoi: string -> Option<int>,
      worlds: seq<World>, k: nat)
    requires |worlds| > |Others(running)| && k < |running| && Release(st, r, running, atoi, worlds).end == Finished
    requires running[k].proctype != "web" && running[k].proctype != "cmd" && running[k].cronExpr != ""
    requires r.app + "-" + running[k].proctype != "cloudsql-proxy"
    requires forall p :: p in running[k + 1..] && p.proctype == running[k].proctype ==>
               p.cronExpr == "" || p.cronExpr == running[k].cronExpr
    ensures JobReleased(Release(st, r, running, atoi, worlds).state, r, running[k])
  {
    RowReleasesJob(st, r, AppPort(r.env, atoi).value, running, worlds, k);
    hide DeployAll, ReleaseRequests, Others, JobReleased, AppPort;
  }

  lemma RowReleasesJob(st: State, r: AppRelease, port: int, running: seq<Process>, worlds: seq<World>, k: nat)
    requires |worlds| > |Others(running)| && k < |running|
    requires DeployAll(st, ReleaseRequests(r, port, running), worlds).end == Finished
    requires running[k].proctype != "web" && running[k].proctype != "cmd" && running[k].cronExpr != ""
    requires r.app + "-" + running[k].proctype != "cloudsql-proxy"
    requires forall p :: p in running[k + 1..] && p.proctype == running[k].proctype ==>
               p.cronExpr == "" || p.cronExpr == running[k].cronExpr
    ensures JobReleased(DeployAll(st, ReleaseRequests(r, port, running), worlds).state, r, running[k])
  {
    var all := ReleaseRequests(r, port, running);
    hide ReleaseRequests, Beside, Others, CommandIs, PortIs, DeployAll, JobReleased, JobLeft, RespectsJob;
    var i := BesideAt(running, k);
    RequestsMeaning(r, port, running);
    AllRequested(st, all, worlds, i + 1);
    forall j | i + 1 < j < |all| && all[j].Some? ensures RespectsJob(all[j].value, all[i + 1].value) {
      AskedRespect(all[j], Beside(running)[j - 1], all[i + 1], running[k], r, port);
    }
    RowLeavesJob(st, all, worlds, i + 1);
    JobIsReleased(DeployAll(st, all, worlds).state, all[i + 1], r, port, running[k]);
  }

  lemma AskedRespect(a: Option<DeployRequest>, p: Process, b: Option<DeployRequest>, q: Process, r: AppRelease,
      port: int)
    requires a.Some? && b.Some?
    requires Asks(a, r, port, p.proctype, p.cronExpr) && Asks(b, r, port, q.proctype, q.cronExpr)
    requires q.proctype != "web" && q.proctype != "cmd"
    requires p.proctype == q.proctype ==> p.cronExpr == "" || p.cronExpr == q.cronExpr
    ensures RespectsJob(a.value, b.value)
  {
    hide CommandIs;
    if p.proctype != q.proctype {
      SuffixesDiffer(r.app + "-", p.proctype, q.proctype);
    } else if p.cronExpr != "" {
      SameAsked(a, b, r, port, p.proctype, p.cronExpr);
    }
  }

  lemma SameAsked(a: Option<DeployRequest>, b: Option<DeployRequest>, r: AppRelease, port: int, proctype: string,
      cronExpr: string)
    requires Asks(a, r, port, proctype, cronExpr) && Asks(b, r, port, proctype, cronExpr)
    requires proctype != "web" && proctype != "cmd"
    ensures a == b
  {
  }

  lemma JobIsReleased(st: State, q: Option<DeployRequest>, r: AppRelease, port: int, p: Process)
    requires q.Some? && Asks(q, r, port, p.proctype, p.cronExpr) && p.cronExpr != "" && JobLeft(st, q.value)
    ensures JobReleased(st, r, p)
  {
    hide CommandIs, PortIs, IsProxyFor;
  }

  // Scaling

  /** The Procfile has a command for the type; without a Procfile the command of cmd is empty. */
  predicate CommandOf(procfile: Procfile, proctype: string, args: seq<string>) {
    match procfile
    case NoProcfile => proctype == "cmd" && args == []
    case Malformed => false
    case Parsed(entries) => proctype in entries && entries[proctype].command == Some(args)
  }

  /** The schedule that the Procfile has for the type. */
  predicate ScheduleOf(procfile: Procfile, proctype: string, cron: Option<string>) {
    cron == if procfile.Parsed? && proctype in procfile.entries then procfile.entries[proctype].cron else None
  }

  /** The request that a scaling makes for a process, or none for a type without a command. */
  ghost predicate AsksScale(q: Option<DeployRequest>, s: Scaling, proctype: string, replicas: int) {
    && (q.None? ==> forall args :: !CommandOf(s.procfile, proctype, args))
    && (q.Some? ==>
          var d := q.value;
          && d.namespace == s.namespace && d.app == s.app && d.proctype == proctype && d.provider == s.provider
          && d.serviceID == s.app + "-" + proctype && d.image == s.image && d.entrypoint == []
          && CommandOf(s.procfile, proctype, d.args) && d.env == s.env && d.port == 0
          && d.replicas == Some(replicas) && d.domains == [] && d.sqlProxy == s.sqlProxy
          && ScheduleOf(s.procfile, proctype, d.cron))
  }

  /** A scaling makes one request for each type, in the order in which they come. */
  lemma ScaleRequestsMeaning(s: Scaling, keys: seq<string>)
    requires forall k :: k in keys ==> k in s.structure
    ensures |ScaleRequests(s, keys)| == |keys|
    ensures forall i :: 0 <= i < |keys| ==> AsksScale(ScaleRequests(s, keys)[i], s, keys[i], s.structure[keys[i]])
  {
    forall i | 0 <= i < |keys| ensures AsksScale(ScaleRequests(s, keys)[i], s, keys[i], s.structure[keys[i]]) {
      assert keys[i] in keys;
    }
  }

  /** A scaling that finishes has found a command for every type. */
  lemma ScaleKnowsAll(st: State, s: Scaling, keys: seq<string>, worlds: seq<World>, key: string)
    requires Enumerates(keys, s.structure) && |worlds| >= |keys| && key in s.structure
    requires DeployAll(st, ScaleRequests(s, keys), worlds).end == Finished
    ensures exists args :: CommandOf(s.procfile, key, args)
  {
    var k :| 0 <= k < |keys| && keys[k] == key;
    ScaleRequestsMeaning(s, keys);
    hide ScaleRequests, DeployAll;
    AllRequested(st, ScaleRequests(s, keys), worlds, k);
  }

  /** A finished scaling leaves a process that is no cron job with the replicas, image, command and environment. */
  lemma ScaleRuns(st: State, s: Scaling, keys: seq<string>, worlds: seq<World>, key: string)
    requires Enumerates(keys, s.structure) && |worlds| >= |keys| && Inv(st)
    requires key in s.structure && ScheduleOf(s.procfile, key, None) && s.app + "-" + key != "cloudsql-proxy"
    requires DeployAll(st, ScaleRequests(s, keys), worlds).end == Finished
    ensures var after := DeployAll(st, ScaleRequests(s, keys), worlds).state; var id := s.app + "-" + key;
            && id in after.deployments && after.deployments[id].pod.containers != []
            && after.deployments[id].replicas == s.structure[key]
            && var c := after.deployments[id].pod.containers[0];
            && c.image == s.image && c.env == s.env && c.port == 0 && CommandOf(s.procfile, key, c.args)
  {
    var k :| 0 <= k < |keys| && keys[k] == key;
    var all := ScaleRequests(s, keys);
    AllRequested(st, all, worlds, k);
    ScaleNames(s, keys, k);
    ScaleRequestsMeaning(s, keys);
    hide DeployAll, Respects, Sound, ScaleRequests, CommandOf;
    DeployAllDeploys(st, all, worlds, k);
  }

  /** A finished scaling leaves a cron job with the schedule of the Procfile and that parallelism, or deletes it. */
  lemma ScaleRunsJobs(st: State, s: Scaling, keys: seq<string>, worlds: seq<World>, key: string, schedule: string)
    requires Enumerates(keys, s.structure) && |worlds| >= |keys|
    requires key in s.structure && ScheduleOf(s.procfile, key, Some(schedule)) && s.app + "-" + key != "cloudsql-proxy"
    requires DeployAll(st, ScaleRequests(s, keys), worlds).end == Finished
    ensures var after := DeployAll(st, ScaleRequests(s, keys), worlds).state; var id := s.app + "-" + key;
            if s.structure[key] == 0 then id !in after.cronjobs
            else
              && id in after.cronjobs
              && var job := after.cronjobs[id];
              && job.schedule == schedule && job.parallelism == Some(s.structure[key]) && job.pod.containers != []
              && var c := job.pod.containers[0];
              && c.image == s.image && c.env == s.env && CommandOf(s.procfile, key, c.args)
  {
    var k :| 0 <= k < |keys| && keys[k] == key;
    var all := ScaleRequests(s, keys);
    AllRequested(st, all, worlds, k);
    ScaleRequestsMeaning(s, keys);
    hide DeployAll, ScaleRequests, CommandOf, IsProxyFor, AreProxyVolumes;
    forall j | k < j < |all| && all[j].Some? ensures RespectsJob(all[j].value, all[k].value) {
      SuffixesDiffer(s.app + "-", keys[j], keys[k]);
    }
    RowLeavesJob(st, all, worlds, k);
  }

  /** A scaling touches neither services nor the ingress, however it ends. */
  lemma ScaleExposesNothing(st: State, s: Scaling, keys: seq<string>, worlds: seq<World>)
    requires Enumerates(keys, s.structure) && |worlds| >= |keys|
    ensures var r := DeployAll(st, ScaleRequests(s, keys), worlds);
            r.state.services == st.services && r.state.ingress == st.ingress && r.end != Panic
  {
    ScaleRequestsMeaning(s, keys);
    hide ScaleRequests, CommandOf, DeployAll;
    DeployAllPublishesNothing(st, ScaleRequests(s, keys), worlds);
  }

  // The default process

  /** The port that the environment asks for. */
  predicate PortOf(env: map<string, string>, atoi: string -> Option<int>, port: int) {
    if "PORT" in env then atoi(env["PORT"]) == Some(port) else port == 8080
  }

  /**
   After a finished release the default process listens on the port of the environment, and with domains each
   leads through the ingress and its service to that port; without, a load balancer does.
   */
  lemma ReleaseListens(st: State, r: AppRelease, running: seq<Process>, atoi: string -> Option<int>, worlds: seq<World>,
      port: int)
    requires |worlds| > |Others(running)| && Inv(st) && Release(st, r, running, atoi, worlds).end == Finished
    requires PortOf(r.env, atoi, port) && 0 < port < 0x8000_0000
    ensures var id := r.app + "-" + (if r.procfile.NoProcfile? then "cmd" else "web");
            var after := Release(st, r, running, atoi, worlds).state;
            && id in after.deployments && after.deployments[id].pod.containers != []
            && after.deployments[id].pod.containers[0].port == port
            && id in after.services && after.services[id].targetPort == port
            && after.services[id].selector == map["app" := r.app]
            && (if r.domains == [] then after.services[id].kind == LoadBalancer && after.services[id].port == 80
                else after.services[id].kind == NodePort && after.services[id].port == port)
  {
    hide ReleaseRequests, CommandIs, Beside, Others, DeployAll, Inv;
    FirstAsks(r, port, running);
    DefaultIsNoProxy(r.app, r.procfile);
    AllRequested(st, ReleaseRequests(r, port, running), worlds, 0);
    DeployedPortIs(st, r, port, running, worlds);
    DefaultServed(st, r, port, running, worlds);
  }

  lemma FirstAsks(r: AppRelease, port: int, running: seq<Process>)
    requires 0 < port < 0x8000_0000
    ensures var q := ReleaseRequests(r, port, running)[0];
            q.Some? ==>
              && q.value.app == r.app && q.value.domains == r.domains && q.value.port == port
              && q.value.serviceID == r.app + "-" + (if r.procfile.NoProcfile? then "cmd" else "web")
  {
    RequestsMeaning(r, port, running);
    hide ReleaseRequests, CommandIs, Beside;
    var q := ReleaseRequests(r, port, running)[0];
    if q.Some? {
      WrappedIs(q.value.port, port);
    }
  }

  lemma WrappedIs(asked: int, port: int)
    requires -0x8000_0000 <= asked < 0x8000_0000 && (asked - port) % 0x1_0000_0000 == 0 && 0 < port < 0x8000_0000
    ensures asked == port
  {
  }

  lemma DeployedPortIs(st: State, r: AppRelease, port: int, running: seq<Process>, worlds: seq<World>)
    requires |worlds| > |Others(running)| && Inv(st)
    requires r.app + "-" + DefaultProctype(r.procfile) != PROXY
    requires DeployAll(st, ReleaseRequests(r, port, running), worlds).end == Finished
    ensures var all := ReleaseRequests(r, port, running); var after := DeployAll(st, all, worlds).state;
            && all[0].Some? && var id := all[0].value.serviceID;
            && id in after.deployments && after.deployments[id].pod.containers != []
            && (all[0].value.port > 0 ==> after.deployments[id].pod.containers[0].port == all[0].value.port)
  {
    hide DeployAll, ReleaseRequests, Inv, Others;
    ReleaseMeets(st, r, port, running, worlds, 0);
  }

  lemma DefaultServed(st: State, r: AppRelease, port: int, running: seq<Process>, worlds: seq<World>)
    requires |worlds| > |Others(running)|
    requires DeployAll(st, ReleaseRequests(r, port, running), worlds).end == Finished
    ensures var all := ReleaseRequests(r, port, running); var after := DeployAll(st, all, worlds).state;
            && all[0].Some? && var req := all[0].value;
            && (req.port > 0 ==>
                  && req.serviceID in after.services
                  && var s := after.services[req.serviceID];
                  && s.targetPort == req.port && s.selector == map["app" := req.app]
                  && if req.domains == [] then s.kind == LoadBalancer && s.port == 80
                     else s.kind == NodePort && s.port == req.port)
  {
    var all := ReleaseRequests(r, port, running);
    RequestsMeaning(r, port, running);
    OthersHaveNoPort(r, port, running);
    hide ReleaseRequests, Run, CommandIs, PortIs, Beside, Others;
    ServiceMeaning(st, all[0].value, worlds[0]);
    DeployAllPublishesNothing(Run(st, all[0].value, worlds[0]).state, all[1..], worlds[1..]);
  }

  // Listing

  /** What is listed of a process: its type, count and schedule, and the command and limits of its container. */
  predicate Lists(p: Process, labels: Labels, pod: PodSpec, app: string, count: int, cronExpr: string) {
    && p.count == count && p.cronExpr == cronExpr && "type" in labels && p.proctype == labels["type"]
    && exists i :: 0 <= i < |pod.containers| && pod.containers[i].name == app + "-" + labels["type"]
                   && p.command == pod.containers[i].args
                   && ShownAs(p.cpu, pod.containers[i].resources, "cpu")
                   && ShownAs(p.memory, pod.containers[i].resources, "memory")
  }

  /** The request and the limit with a slash between, or the one of them that is set. */
  predicate ShownAs(text: string, r: Resources, t: string) {
    text == if t in r.requests && t in r.limits && r.requests[t] != "" && r.limits[t] != ""
            then r.requests[t] + "/" + r.limits[t]
            else if t in r.requests && r.requests[t] != "" then r.requests[t]
            else if t in r.limits then r.limits[t] else ""
  }

  /** The deployments that have pods, in the order of the listing. */
  function Live(st: State, names: seq<string>, live: set<Labels>): seq<string>
    requires forall n :: n in names ==> n in st.deployments
  {
    if names == [] then []
    else
      (if st.deployments[names[0]].labels in live then [names[0]] else []) + Live(st, names[1..], live)
  }

  function LiveJobs(st: State, jobs: seq<string>, live: set<Labels>): seq<string>
    requires forall n :: n in jobs ==> n in st.cronjobs
  {
    if jobs == [] then []
    else (if st.cronjobs[jobs[0]].labels in live then [jobs[0]] else []) + LiveJobs(st, jobs[1..], live)
  }

  lemma {:induction false} LiveLast(st: State, names: seq<string>, n: string, live: set<Labels>)
    requires n in st.deployments && forall m :: m in names ==> m in st.deployments
    ensures Live(st, names + [n], live)
         == Live(st, names, live) + if st.deployments[n].labels in live then [n] else []
    decreases |names|
  {
    if names != [] {
      assert (names + [n])[1..] == names[1..] + [n];
      LiveLast(st, names[1..], n, live);
    }
  }

  lemma {:induction false} LiveJobsLast(st: State, jobs: seq<string>, n: string, live: set<Labels>)
    requires n in st.cronjobs && forall m :: m in jobs ==> m in st.cronjobs
    ensures LiveJobs(st, jobs + [n], live)
         == LiveJobs(st, jobs, live) + if st.cronjobs[n].labels in live then [n] else []
    decreases |jobs|
  {
    if jobs != [] {
      assert (jobs + [n])[1..] == jobs[1..] + [n];
      LiveJobsLast(st, jobs[1..], n, live);
    }
  }

  lemma DescribedMeaning(labels: Labels, pod: PodSpec, app: string, count: int, cronExpr: string)
    requires HasAppContainer(labels, pod, app) && "type" in labels
    ensures Lists(Described(labels, pod, app, count, cronExpr), labels, pod, app, count, cronExpr)
  {
    var i := FirstNamed(pod.containers, app + "-" + labels["type"]);
    assert pod.containers[i].name == app + "-" + labels["type"];
  }

  /** Exactly the deployments with pods are listed, with their replicas, in the order of the API server. */
  lemma {:induction false} ListingMeaning(st: State, app: string, names: seq<string>, live: set<Labels>)
    requires (forall n :: n in names ==> n in st.deployments) && DeploymentsListable(st, app, names, live)
    requires forall n :: n in names ==> "type" in st.deployments[n].labels
    ensures var items, shown := DeploymentProcesses(st, app, names, live), Live(st, names, live);
            && |items| == |shown|
            && forall i :: 0 <= i < |shown| ==>
                 && shown[i] in st.deployments
                 && var d := st.deployments[shown[i]]; Lists(items[i], d.labels, d.pod, app, d.replicas, "")
    decreases |names|
  {
    hide Lists, Described, HasAppContainer;
    if names != [] {
      var n := |names| - 1;
      var d := st.deployments[names[n]];
      assert names == names[..n] + [names[n]];
      assert Listable(d.labels, d.pod, app, live);
      ListingMeaning(st, app, names[..n], live);
      LiveLast(st, names[..n], names[n], live);
      if d.labels in live {
        DescribedMeaning(d.labels, d.pod, app, d.replicas, "");
      }
    }
  }

  /** Likewise for cron jobs, with their parallelism and schedule. */
  lemma {:induction false} JobListingMeaning(st: State, app: string, jobs: seq<string>, live: set<Labels>)
    requires (forall n :: n in jobs ==> n in st.cronjobs) && JobsListable(st, app, jobs, live)
    requires forall n :: n in jobs ==> "type" in st.cronjobs[n].labels
    ensures var items, shown := CronProcesses(st, app, jobs, live), LiveJobs(st, jobs, live);
            && |items| == |shown|
            && forall i :: 0 <= i < |shown| ==>
                 && shown[i] in st.cronjobs
                 && var job := st.cronjobs[shown[i]];
                    var count := if job.parallelism.Some? then job.parallelism.value else 0;
                    Lists(items[i], job.labels, job.pod, app, count, job.schedule)
    decreases |jobs|
  {
    hide Lists, Described, HasAppContainer;
    if jobs != [] {
      var n := |jobs| - 1;
      var job := st.cronjobs[jobs[n]];
      assert jobs == jobs[..n] + [jobs[n]];
      assert Listable(job.labels, job.pod, app, live);
      JobListingMeaning(st, app, jobs[..n], live);
      LiveJobsLast(st, jobs[..n], jobs[n], live);
      if job.labels in live {
        var count := if job.parallelism.Some? then job.parallelism.value else 0;
        DescribedMeaning(job.labels, job.pod, app, count, job.schedule);
      }
    }
  }
}
