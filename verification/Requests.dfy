/**
 One deploy request, told by what stands in the namespace afterwards and by how the call ends, in terms of
 the request alone.
 */
module Requests {
  import opened AppRuns
  import opened Apps
  import opened ClusterRuns
  import opened Databases
  import opened Deploys
  import opened Ingress
  import opened IngressMerge
  import opened Kube
  import opened Options
  import opened Repeats
  import opened Sidecar

  /** A request without namespace, app, process type or provider is refused, and nothing is changed. */
  lemma RunRefuses(st: State, req: DeployRequest, world: World)
    requires req.namespace == "" || req.app == "" || req.proctype == "" || req.provider == ""
    ensures Run(st, req, world) == Reply(st, Error)
  {
  }

  ghost predicate Filled(req: DeployRequest) {
    req.namespace != "" && req.app != "" && req.proctype != "" && req.provider != ""
  }

  /** The container that runs what the request asks for. */
  predicate Runs(c: Container, req: DeployRequest) {
    && c.name == req.serviceID && c.image == req.image && c.command == req.entrypoint && c.args == req.args
    && c.env == req.env && c.port == if req.port > 0 then req.port else 0
  }

  /** A new pod has the container alone, or beside the proxy of the database that it is linked to. */
  ghost predicate FreshPod(pod: PodSpec, req: DeployRequest) {
    && pod.containers != [] && Runs(pod.containers[0], req)
    && pod.containers[0].resources == Resources(map[], map[])
    && if req.sqlProxy && "DATABASE_URL" in req.env then
         && |pod.containers| == 2 && AreProxyVolumes(pod.volumes, req.app)
         && IsProxyFor(pod.containers[1], Get(req.env, "INSTANCE_NAME"), req.env["DATABASE_URL"])
       else pod.containers[1..] == [] && pod.volumes == []
  }

  /** The pod cannot be made, because the database that it is linked to has no port. */
  predicate NoPort(req: DeployRequest) {
    req.sqlProxy && "DATABASE_URL" in req.env && !Known(req.env["DATABASE_URL"])
  }

  lemma NewPodMeaning(req: DeployRequest)
    ensures NewPod(req).Exited? <==> NoPort(req)
    ensures NewPod(req).Manifest? && req.serviceID != "cloudsql-proxy" ==> FreshPod(NewPod(req).pod, req)
  {
    var pod := PodSpec([NewContainer(req)], []);
    if req.sqlProxy {
      MergeMeaning(pod, req.app, req.env, Get(req.env, "INSTANCE_NAME"));
      hide MergeProxy, Known, IsProxyFor, AreProxyVolumes;
      if NewPod(req).Manifest? && "DATABASE_URL" in req.env && req.serviceID != "cloudsql-proxy" {
        var merged := NewPod(req).pod;
        assert merged.containers[..1] == pod.containers;
        assert merged.volumes[0..] == merged.volumes;
      }
    }
  }

  // Processes

  /**
   After a finished deploy of a process that is no cron job, its deployment runs what the request asks
   for.  A deployment that was there keeps its labels, the resources of the app container and all that is
   beside it, and its replicas unless others are asked for.
   */
  lemma DeploymentMeaning(st: State, req: DeployRequest, world: World)
    requires req.cron.None? && req.serviceID != "cloudsql-proxy" && Run(st, req, world).end == Finished
    requires req.serviceID in st.deployments ==> SoundAt(st, req.serviceID)
    ensures var after := Run(st, req, world).state; var id := req.serviceID;
            && id in after.deployments && after.cronjobs == st.cronjobs && after.secrets == st.secrets
            && var d' := after.deployments[id];
            && |d'.pod.containers| > 0 && Runs(d'.pod.containers[0], req)
            && if id in st.deployments then
                 var d := st.deployments[id];
                 && |d.pod.containers| > 0 && d'.labels == d.labels
                 && d'.pod.containers[0].resources == d.pod.containers[0].resources
                 && d'.pod.containers[1..] == d.pod.containers[1..] && d'.pod.volumes == d.pod.volumes
                 && d'.replicas == if req.replicas.Some? then req.replicas.value else d.replicas
               else
                 && d'.labels == map["app" := req.app, "type" := req.proctype, "managed-by" := "datacol"]
                 && FreshPod(d'.pod, req)
                 && d'.replicas == if req.replicas.Some? then req.replicas.value else 1
  {
    RunObjects(st, req, world);
    PutDeploymentKeeps(st, req);
    NewPodMeaning(req);
    ExposeKeepsDeployments(PutDeployment(st, req).state, req, world);
    if req.serviceID in st.deployments {
      RefreshedSound(st.deployments[req.serviceID], req);
    }
    hide NewPod, Refreshed, Expose, Sound, IsProxyFor, FreshPod;
  }

  /** Its service leads to the port of the container, and to the pods of the app, under the address it had. */
  lemma ServiceMeaning(st: State, req: DeployRequest, world: World)
    requires req.cron.None? && Run(st, req, world).end == Finished
    ensures var after := Run(st, req, world).state; var id := req.serviceID;
            if req.port <= 0 then after.services == st.services
            else
              && id in after.services
              && var s := after.services[id];
              && s.targetPort == req.port && s.selector == map["app" := req.app]
              && s.labels == map["app" := req.app, "managed-by" := "datacol"]
              && s.clusterIP == (if id in st.services then st.services[id].clusterIP else world.clusterIP)
              && s.nodePort == (if id in st.services then st.services[id].nodePort else world.nodePort)
              && if req.domains == [] then s.kind == LoadBalancer && s.port == 80
                 else s.kind == NodePort && s.port == req.port
  {
    hide NewPod, Refreshed, Publish;
  }

  /** The rule that leads a domain to a service. */
  predicate Leads(r: Rule, d: string, provider: string, id: string, port: int) {
    && r.host == d && r.service == id && r.port == port
    && r.path == if provider == "gcp" then "/*" else "/"
  }

  /**
   Each domain has a rule to the service, and no other.  Without domains the ingress stays; a new one has
   these rules alone.
   */
  lemma IngressMeaning(st: State, req: DeployRequest, world: World)
    requires req.cron.None? && Run(st, req, world).end == Finished
    requires st.ingress.Shared? ==> DistinctHosts(st.ingress.rules)
    ensures var after := Run(st, req, world).state;
            if req.port <= 0 || req.domains == [] then after.ingress == st.ingress
            else
              && after.ingress.Shared?
              && (forall r :: r in after.ingress.rules && r.host in req.domains ==>
                    Leads(r, r.host, req.provider, req.serviceID, req.port))
              && (forall d :: d in req.domains ==> exists r :: r in after.ingress.rules && r.host == d)
              && (forall r :: r in after.ingress.rules && r.host !in req.domains ==>
                    st.ingress.Shared? && r in st.ingress.rules)
  {
    var source := SourceRules(req);
    hide NewPod, Refreshed, NewService, Publish;
    if req.port > 0 && req.domains != [] {
      SourceMeaning(req);
      SourceConsistent(req);
      PublishMembers(st.ingress, source);
      hide SourceRules, Leads;
      forall d | d in req.domains ensures exists r :: r in Publish(st.ingress, source).rules && r.host == d {
        var r :| r in source && r.host == d;
        SourcePublished(st.ingress, source, r);
      }
    }
  }

  lemma SourceMeaning(req: DeployRequest)
    ensures forall r :: r in SourceRules(req) ==>
              r.host in req.domains && Leads(r, r.host, req.provider, req.serviceID, req.port)
    ensures forall d :: d in req.domains ==> exists r :: r in SourceRules(req) && r.host == d
    ensures forall h :: HasHost(SourceRules(req), h) <==> h in req.domains
  {
    var source := SourceRules(req);
    forall d | d in req.domains ensures (exists r :: r in source && r.host == d) && HasHost(source, d) {
      var i :| 0 <= i < |req.domains| && req.domains[i] == d;
      assert source[i] in source && source[i].host == d;
    }
  }

  /** Rules for hosts of the source are those of the source, and the others were there. */
  lemma PublishMembers(ingress: Shared, source: seq<Rule>)
    requires Consistent(source) && (ingress.Shared? ==> DistinctHosts(ingress.rules))
    requires Publish(ingress, source).Merged?
    ensures forall r :: r in Publish(ingress, source).rules ==>
              if HasHost(source, r.host) then r in source else ingress.Shared? && r in ingress.rules
  {
    if ingress.Shared? {
      var once := Once(source);
      OnceHosts(source);
      OnceMembers(source);
      MergeOnce(ingress.rules, source);
      ClaimedMembers(ingress.rules, once);
      SweepKeeps(ClaimAll(ingress.rules, once), once);
      hide Sweep, ClaimAll;
    } else {
      forall r | r in source ensures HasHost(source, r.host) {
        var i :| 0 <= i < |source| && source[i] == r;
      }
    }
  }

  lemma ClaimedMembers(dest: seq<Rule>, source: seq<Rule>)
    requires DistinctHosts(dest) && DistinctHosts(source)
    ensures forall r :: r in ClaimAll(dest, source) ==> if HasHost(source, r.host) then r in source else r in dest
  {
    ClaimAllMeaning(dest, source);
    forall r | r in ClaimAll(dest, source) ensures if HasHost(source, r.host) then r in source else r in dest {
      if r in Added(dest, source) {
        var i :| 0 <= i < |source| && source[i] == r;
        assert HasHost(source, r.host);
      } else {
        var i :| 0 <= i < |dest| && ReplaceAll(dest, source)[i] == r;
        assert dest[i] in dest;
      }
    }
  }

  // Cron jobs

  /**
   After a finished deploy of a cron job that asks for any replicas but none, the job has the schedule and
   the parallelism of the request and a new pod.  With none the job is deleted.  Nothing else is changed.
   */
  lemma CronMeaning(st: State, req: DeployRequest, world: World)
    requires req.cron.Some? && req.serviceID != "cloudsql-proxy" && Run(st, req, world).end == Finished
    ensures var after := Run(st, req, world).state; var id := req.serviceID;
            && after == st.(cronjobs := after.cronjobs)
            && if req.replicas == Some(0) then
                 id in st.cronjobs && after.cronjobs == map n | n in st.cronjobs && n != id :: st.cronjobs[n]
               else
                 && after.cronjobs.Keys == st.cronjobs.Keys + {id}
                 && (forall n :: n in st.cronjobs && n != id ==> after.cronjobs[n] == st.cronjobs[n])
                 && var job := after.cronjobs[id];
                 && job.schedule == req.cron.value && job.parallelism == req.replicas && FreshPod(job.pod, req)
                 && job.labels == if id in st.cronjobs then st.cronjobs[id].labels
                    else map["app" := req.app, "type" := req.proctype, "managed-by" := "datacol"]
  {
    NewPodMeaning(req);
    hide NewPod, FreshPod;
    var id := req.serviceID;
    if req.replicas == Some(0) {
      assert st.cronjobs - {id} == map n | n in st.cronjobs && n != id :: st.cronjobs[n];
    }
  }

  // How it ends

  /** A deploy exits exactly if it has to make a pod that cannot be made. */
  lemma ExitsIff(st: State, req: DeployRequest, world: World)
    ensures Run(st, req, world).end == Exit
       <==> Filled(req) && NoPort(req) && (req.cron.Some? || req.serviceID !in st.deployments)
    ensures Run(st, req, world).end == Exit ==> Run(st, req, world).state == st
  {
    NewPodMeaning(req);
    hide NewPod, NoPort, Publish, Refreshed, NewService;
  }

  /** It panics exactly where the merge of its rules does. */
  lemma PanicsIff(st: State, req: DeployRequest, world: World)
    ensures Run(st, req, world).end == Panic
       <==> && Filled(req) && req.cron.None? && (NoPort(req) ==> req.serviceID in st.deployments)
            && req.port > 0 && req.domains != [] && st.ingress.Shared?
            && MergeOutcome(st.ingress.rules, SourceRules(req)).Panicked?
  {
    NewPodMeaning(req);
    hide NewPod, NoPort, MergeOutcome, Refreshed, NewService, SourceRules;
  }

  /**
   Of what neither exits nor panics, a cron job fails only if it is to be deleted and is not there, and
   another process only if its pods are not ready, after all has been done as if they were.
   */
  lemma FailsIff(st: State, req: DeployRequest, world: World)
    requires Filled(req) && Run(st, req, world).end != Exit && Run(st, req, world).end != Panic
    ensures req.cron.Some? ==>
              (Run(st, req, world).end == Error <==> req.replicas == Some(0) && req.serviceID !in st.cronjobs)
    ensures req.cron.None? ==>
              && (Run(st, req, world).end == Error <==> !world.ready)
              && Run(st, req, world).state == Run(st, req, world.(ready := true)).state
              && Run(st, req, world.(ready := true)).end == Finished
  {
    hide NewPod, Publish, Refreshed, NewService;
  }
}
