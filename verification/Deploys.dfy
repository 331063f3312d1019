/** Deploying again, and what a deploy leaves alone. */
module Deploys {
  import opened Ingress
  import opened IngressMerge
  import opened Kube
  import opened Options
  import opened Repeats
  import opened Sidecar

  /** The deploy writes rules into the shared ingress. */
  predicate Publishes(req: DeployRequest) {
    req.cron.None? && req.port > 0 && req.domains != []
  }

  lemma SourceConsistent(req: DeployRequest)
    ensures Consistent(SourceRules(req))
  {
  }

  // The app container of a pod

  lemma NewPodHasContainer(req: DeployRequest)
    requires req.serviceID != PROXY && NewPod(req).Manifest?
    ensures var cs := NewPod(req).pod.containers;
            cs != [] && cs[0] == NewContainer(req) && FirstNamed(cs, req.serviceID) == 0
    ensures PodOk(NewPod(req).pod, req.serviceID)
  {
    if req.sqlProxy {
      var pod := PodSpec([NewContainer(req)], []);
      MergeKeepsPod(pod, req.serviceID, req.app, req.env);
    }
  }

  /** The pod has been given the proxy in the place of its app container. */
  predicate TakenByProxy(req: DeployRequest) {
    NewPod(req).Manifest? && NewContainer(req) !in NewPod(req).pod.containers
  }

  /** That happens exactly to a service of the name of the proxy that is linked to a database. */
  lemma TakenByProxyIff(req: DeployRequest)
    requires NewPod(req).Manifest?
    ensures TakenByProxy(req) <==> req.serviceID == PROXY && req.sqlProxy && "DATABASE_URL" in req.env
  {
    NewPodContainers(req);
    var pod := PodSpec([NewContainer(req)], []);
    assert pod.containers[0].name == req.serviceID;
  }

  lemma NewPodContainers(req: DeployRequest)
    requires NewPod(req).Manifest?
    ensures var cs := NewPod(req).pod.containers;
            if TakenByProxy(req) then
              && |cs| == 1 && cs[0] != NewContainer(req)
              && cs[0].name == req.serviceID == PROXY && cs[0].resources == NO_RESOURCES
            else cs != [] && cs[0] == NewContainer(req) && FirstNamed(cs, req.serviceID) == 0
  {
    if req.serviceID != PROXY {
      NewPodHasContainer(req);
    } else {
      var pod := PodSpec([NewContainer(req)], []);
      assert pod.containers[0].name == PROXY;
    }
  }

  lemma RefreshTwice(d: Deployment, req: DeployRequest)
    ensures Refreshed(Refreshed(d, req), req) == Refreshed(d, req)
  {
    var i := FirstNamed(d.pod.containers, req.serviceID);
    var once := Refreshed(d, req);
    FirstNamedIs(once.pod.containers, req.serviceID, i);
    if i < |d.pod.containers| {
      var c := NewContainer(req).(resources := d.pod.containers[i].resources);
      assert once.pod.containers[i] == c;
      assert once.pod.containers[i := c] == once.pod.containers;
    }
  }

  lemma PutDeploymentTwiceIff(st: State, req: DeployRequest)
    requires PutDeployment(st, req).end == Finished
    ensures PutDeployment(PutDeployment(st, req).state, req) == PutDeployment(st, req)
       <==> req.serviceID in st.deployments || !TakenByProxy(req)
  {
    hide Refreshed, NewPod, NewContainer, TakenByProxy;
    var id := req.serviceID;
    var once := PutDeployment(st, req).state;
    if id in st.deployments {
      RefreshTwice(st.deployments[id], req);
    } else {
      CreatedIsRefreshedIff(req);
    }
    assert once.deployments[id := once.deployments[id]] == once.deployments;
  }

  lemma CreatedIsRefreshedIff(req: DeployRequest)
    requires NewPod(req).Manifest?
    ensures var d := NewDeployment(req, NewPod(req).pod); Refreshed(d, req) == d <==> !TakenByProxy(req)
  {
    NewPodContainers(req);
    var d := NewDeployment(req, NewPod(req).pod);
    hide NewPod, TakenByProxy;
    FirstNamedIs(d.pod.containers, req.serviceID, 0);
    assert d.pod.containers[0 := d.pod.containers[0]] == d.pod.containers;
    assert Refreshed(d, req).pod.containers[0] == NewContainer(req).(resources := d.pod.containers[0].resources);
  }

  lemma ExposeTwiceIff(st: State, req: DeployRequest, world: World, later: World)
    requires Expose(st, req, world).end == Finished
    requires st.ingress.Shared? ==> DistinctHosts(st.ingress.rules)
    ensures var once := Expose(st, req, world).state;
            Expose(once, req, later) == Reply(once, Finished)
            <==> req.port <= 0 || req.domains == [] || st.ingress.NoIngress?
                 || !Unmergeable(st.ingress.rules, SourceRules(req))
  {
    hide SourceRules, Unmergeable, MergeOutcome, DistinctHosts, Consistent;
    var once := Expose(st, req, world).state;
    if req.port > 0 {
      var id := req.serviceID;
      assert once.services[id := once.services[id]] == once.services;
      if req.domains != [] {
        SourceConsistent(req);
        PublishTwiceIff(st.ingress, SourceRules(req));
      }
    }
  }

  /**
   Deploying the same request again changes nothing and succeeds, whatever the cluster would assign,
   exactly when the request does not delete a cron job, does not create a deployment whose container the
   proxy takes, and the first merge into the ingress was not spoiled by stale rules.
   */
  lemma RunTwiceIff(st: State, req: DeployRequest, world: World, later: World)
    requires Run(st, req, world).end == Finished && later.ready
    requires st.ingress.Shared? ==> DistinctHosts(st.ingress.rules)
    ensures var once := Run(st, req, world).state;
            Run(once, req, later) == Reply(once, Finished)
            <==> && !(req.cron.Some? && req.replicas == Some(0))
                 && (req.cron.None? ==> req.serviceID in st.deployments || !TakenByProxy(req))
                 && (Publishes(req) ==> st.ingress.NoIngress? || !Unmergeable(st.ingress.rules, SourceRules(req)))
  {
    hide NewPod, Unmergeable, SourceRules, DistinctHosts, NewService, TakenByProxy;
    var once := Run(st, req, world).state;
    if req.cron.Some? {
      var id := req.serviceID;
      if req.replicas != Some(0) {
        assert once.cronjobs[id := once.cronjobs[id]] == once.cronjobs;
      }
    } else {
      var deployed := PutDeployment(st, req).state;
      hide PutDeployment, Expose;
      ExposeKeepsDeployments(deployed, req, world);
      PutDeploymentTwiceIff(st, req);
      PutDeploymentKeeps(st, req);
      SameDeployments(deployed, once, req);
      ExposeTwiceIff(deployed, req, world, later);
    }
  }

  lemma ExposeKeepsDeployments(st: State, req: DeployRequest, world: World)
    ensures var r := Expose(st, req, world).state;
            r.deployments == st.deployments && r.cronjobs == st.cronjobs && r.secrets == st.secrets
  {
  }

  lemma PutDeploymentKeeps(st: State, req: DeployRequest)
    ensures PutDeployment(st, req).state == st.(deployments := PutDeployment(st, req).state.deployments)
    ensures PutDeployment(st, req).end == Finished || PutDeployment(st, req).end == Exit
  {
  }

  /** Putting a deployment looks at nothing but the deployments. */
  lemma SameDeployments(deployed: State, once: State, req: DeployRequest)
    requires once.deployments == deployed.deployments
    ensures PutDeployment(once, req).end == PutDeployment(deployed, req).end
    ensures PutDeployment(once, req).state.deployments == PutDeployment(deployed, req).state.deployments
    ensures PutDeployment(once, req).state == once.(deployments := PutDeployment(once, req).state.deployments)
    ensures PutDeployment(deployed, req).state
         == deployed.(deployments := PutDeployment(deployed, req).state.deployments)
  {
  }

  /** Which of the steps of a deploy decides each kind of objects. */
  lemma RunObjects(st: State, req: DeployRequest, world: World)
    ensures !Complete(req) ==> Run(st, req, world) == Reply(st, Error)
    ensures Complete(req) && req.cron.Some? ==> Run(st, req, world) == RunCron(st, req, req.cron.value)
    ensures Complete(req) && req.cron.None? ==>
              && Run(st, req, world).state.deployments == PutDeployment(st, req).state.deployments
              && Run(st, req, world).state.cronjobs == st.cronjobs
    ensures var services := Run(st, req, world).state.services;
            services == st.services || services == PutService(st, req, world).services
  {
    hide PutDeployment, PutService, PutIngress, NewPod;
    if req.cron.Some? {
      CronKeepsOthers(st, req, req.cron.value);
    } else {
      PutDeploymentKeeps(st, req);
      var deployed := PutDeployment(st, req).state;
      ExposeKeepsDeployments(deployed, req, world);
      ExposeServices(deployed, req, world);
      PutServiceLooksAtServices(st, deployed, req, world);
      hide Expose;
    }
  }

  lemma CronKeepsOthers(st: State, req: DeployRequest, schedule: string)
    ensures RunCron(st, req, schedule).state == st.(cronjobs := RunCron(st, req, schedule).state.cronjobs)
  {
    hide NewPod;
  }

  lemma ExposeServices(st: State, req: DeployRequest, world: World)
    ensures var services := Expose(st, req, world).state.services;
            services == st.services || services == PutService(st, req, world).services
  {
    hide PutService, Publish;
    assert PutIngress(PutService(st, req, world), req).state.services == PutService(st, req, world).services;
  }

  lemma PutServiceLooksAtServices(st: State, other: State, req: DeployRequest, world: World)
    requires st.services == other.services
    ensures PutService(st, req, world).services == PutService(other, req, world).services
  {
  }

  predicate SameAt<V(==)>(a: map<string, V>, b: map<string, V>, n: string) {
    (n in a <==> n in b) && (n in a ==> a[n] == b[n])
  }

  ghost predicate SameObjects(st: State, after: State, n: string) {
    && SameAt(st.deployments, after.deployments, n)
    && SameAt(st.services, after.services, n)
    && SameAt(st.cronjobs, after.cronjobs, n)
    && after.secrets == st.secrets
  }

  /** A deploy touches no object but those named after its service, and the ingress only to publish domains. */
  lemma RunTouches(st: State, req: DeployRequest, world: World, n: string)
    requires n != req.serviceID
    ensures SameObjects(st, Run(st, req, world).state, n)
    ensures !Publishes(req) ==> Run(st, req, world).state.ingress == st.ingress
  {
    hide PutDeployment, Expose, RunCron;
    if req.cron.Some? {
      CronTouches(st, req, req.cron.value, n);
    } else {
      var deployed := PutDeployment(st, req).state;
      PutTouches(st, req, n);
      ExposeTouches(deployed, req, world, n);
    }
  }

  lemma CronTouches(st: State, req: DeployRequest, schedule: string, n: string)
    requires n != req.serviceID
    ensures SameObjects(st, RunCron(st, req, schedule).state, n)
    ensures RunCron(st, req, schedule).state.ingress == st.ingress
  {
    hide NewPod;
  }

  lemma PutTouches(st: State, req: DeployRequest, n: string)
    requires n != req.serviceID
    ensures SameObjects(st, PutDeployment(st, req).state, n)
    ensures PutDeployment(st, req).state.ingress == st.ingress
  {
    hide NewPod, Refreshed;
  }

  lemma ExposeTouches(st: State, req: DeployRequest, world: World, n: string)
    requires n != req.serviceID
    ensures SameObjects(st, Expose(st, req, world).state, n)
    ensures req.port <= 0 || req.domains == [] ==> Expose(st, req, world).state.ingress == st.ingress
  {
    hide NewService, Publish;
  }

  /** Rules of other services for hosts that the request does not claim survive a deploy. */
  lemma OtherRulesSurvive(st: State, req: DeployRequest, world: World, r: Rule)
    requires st.ingress.Shared? && DistinctHosts(st.ingress.rules) && r in st.ingress.rules
    requires r.host !in req.domains && !(r.service == req.serviceID && r.port == req.port)
    ensures var after := Run(st, req, world).state;
            after.ingress.Shared? && r in after.ingress.rules
  {
    var source := SourceRules(req);
    hide NewPod, Refreshed, NewService, Sweep, ClaimAll, Stale, Panics, SourceRules;
    if Publishes(req) && MergeOutcome(st.ingress.rules, source).Merged? {
      NotClaimed(req, r);
      ClaimKeeps(st.ingress.rules, source, r);
      SweepKeeps(ClaimAll(st.ingress.rules, source), source);
    }
  }

  lemma NotClaimed(req: DeployRequest, r: Rule)
    requires r.host !in req.domains && !(r.service == req.serviceID && r.port == req.port)
    ensures !HasHost(SourceRules(req), r.host) && !Stale(r, SourceRules(req))
  {
  }

  lemma {:induction false} ClaimKeeps(dest: seq<Rule>, source: seq<Rule>, r: Rule)
    requires r in dest && !HasHost(source, r.host)
    ensures r in ClaimAll(dest, source)
  {
    if source != [] {
      var n := |source| - 1;
      assert source[n].host != r.host;
      assert !HasHost(source[..n], r.host);
      ClaimKeeps(dest, source[..n], r);
      var c := ClaimAll(dest, source[..n]);
      var k :| 0 <= k < |c| && c[k] == r;
      assert Claim(c, source[n])[k] == r;
    }
  }
}
