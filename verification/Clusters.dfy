/** The deployer and the other editors of the cluster, as updates of the objects of a namespace. */
module Clusters {
  import opened Options
  import opened GoSlices
  import opened Ingress
  import opened Kube
  import opened Limits
  import opened Sidecar

  class Cluster {
    var deployments: map<string, Deployment>
    var services: map<string, Service>
    var cronjobs: map<string, CronJob>
    var ingress: Shared
    var secrets: set<string>
    /** Which texts the Kubernetes library parses as quantities. */
    const isQuantity: string -> bool

    function Current(): State
      reads this
    {
      State(deployments, services, cronjobs, ingress, secrets)
    }

    constructor (isQuantity: string -> bool)
      ensures Current() == State(map[], map[], map[], NoIngress, {}) && this.isQuantity == isQuantity
    {
      deployments, services, cronjobs, ingress, secrets := map[], map[], map[], NoIngress, {};
      this.isQuantity := isQuantity;
    }

    // Deploying

    method FindContainer(containers: seq<Container>, name: string) returns (i: nat)
      ensures i == FirstNamed(containers, name)
    {
      i := 0;
      while i < |containers| && containers[i].name != name
        invariant i <= |containers|
        invariant forall j :: 0 <= j < i ==> containers[j].name != name
      {
        i := i + 1;
      }
    }

    method NewPodSpec(req: DeployRequest) returns (pod: PodSpec, exited: bool)
      ensures NewPod(req) == if exited then Exited else Manifest(pod)
    {
      pod, exited := PodSpec([NewContainer(req)], []), false;
      if req.sqlProxy {
        var template := new PodTemplate(pod);
        exited := template.MergeCloudSQLManifest(req.app, req.env);
        pod := template.Value();
      }
    }

    method CreateOrUpdateDeployment(req: DeployRequest) returns (end: End)
      modifies this`deployments
      ensures Reply(Current(), end) == PutDeployment(old(Current()), req)
    {
      end := Finished;
      if req.serviceID in deployments {
        var d := deployments[req.serviceID];
        var newcnt := NewContainer(req);
        var i := FindContainer(d.pod.containers, req.serviceID);
        if i < |d.pod.containers| {
          if req.replicas.Some? {
            d := d.(replicas := req.replicas.value);
          }
          newcnt := newcnt.(resources := d.pod.containers[i].resources);
          d := d.(pod := d.pod.(containers := d.pod.containers[i := newcnt]));
        }
        deployments := deployments[req.serviceID := d];
      } else {
        var pod, exited := NewPodSpec(req);
        if exited {
          return Exit;
        }
        deployments := deployments[req.serviceID := NewDeployment(req, pod)];
      }
    }

    method CreateOrUpdateService(svc: Service, name: string, world: World)
      modifies this`services
      ensures services == old(services)[name :=
                if name in old(services)
                then svc.(clusterIP := old(services)[name].clusterIP, nodePort := old(services)[name].nodePort)
                else svc.(clusterIP := world.clusterIP, nodePort := world.nodePort)]
    {
      var put := svc;
      if name in services {
        var oldSvc := services[name];
        put := put.(clusterIP := oldSvc.clusterIP);
        put := put.(nodePort := oldSvc.nodePort);
      } else {
        put := put.(clusterIP := world.clusterIP, nodePort := world.nodePort);
      }
      services := services[name := put];
    }

    method CreateOrUpdateIngress(source: seq<Rule>) returns (end: End)
      modifies this`ingress
      ensures match Publish(old(ingress), source)
              case Panicked => end == Panic && ingress == old(ingress)
              case Merged(rules) => end == Finished && ingress == Shared(rules)
    {
      if ingress.NoIngress? {
        ingress := Shared(source);
        return Finished;
      }
      var dest := new Slice(ingress.rules);
      var panicked := MergeIngressRules(dest, source);
      if panicked {
        return Panic;
      }
      ingress := Shared(dest.data[..dest.len]);
      end := Finished;
    }

    method DeployCronJob(req: DeployRequest, schedule: string) returns (end: End)
      modifies this`cronjobs
      ensures Reply(Current(), end) == RunCron(old(Current()), req, schedule)
    {
      var pod, exited := NewPodSpec(req);
      if exited {
        return Exit;
      }
      end := Finished;
      if req.replicas == Some(0) {
        if req.serviceID !in cronjobs {
          end := Error;
        }
        cronjobs := cronjobs - {req.serviceID};
      } else {
        var cj := CronJob(ProcLabels(req.app, req.proctype), schedule, req.replicas, pod);
        if req.serviceID in cronjobs {
          var oldcj := cronjobs[req.serviceID];
          oldcj := oldcj.(schedule := cj.schedule);
          oldcj := oldcj.(parallelism := cj.parallelism);
          cj := oldcj.(pod := cj.pod);
        }
        cronjobs := cronjobs[req.serviceID := cj];
      }
    }

    method Deploy(req: DeployRequest, world: World) returns (end: End)
      modifies this
      ensures Reply(Current(), end) == Run(old(Current()), req, world)
    {
      if req.namespace == "" || req.app == "" || req.proctype == "" || req.provider == "" {
        return Error;
      }
      if req.cron.Some? {
        end := DeployCronJob(req, req.cron.value);
        return;
      }
      end := CreateOrUpdateDeployment(req);
      if end != Finished {
        return;
      }
      if req.port > 0 {
        CreateOrUpdateService(NewService(req, "", 0), req.serviceID, world);
        if req.domains != [] {
          end := CreateOrUpdateIngress(SourceRules(req));
          if end != Finished {
            return;
          }
        }
      }
      if !world.ready {
        end := Error;
      }
    }

    // Editing

    /** What is left of the names leads from the deployments as they are now to the result of all the edits. */
    ghost predicate Editing(all: Edited, ds: map<string, Deployment>, names: seq<string>, i: nat, app: string,
        e: Edit) {
      && i <= |names|
      && (forall n :: n in names[i..] ==> n in ds)
      && var rest := EditAll(ds, names[i..], app, e, isQuantity);
         all == Edited(rest.deployments, i + rest.done)
    }

    lemma EditingStep(all: Edited, ds: map<string, Deployment>, names: seq<string>, i: nat, app: string, e: Edit)
      requires Editing(all, ds, names, i, app, e)
      ensures i == |names| ==> all == Edited(ds, i)
      ensures i < |names| ==> names[i] in ds
      ensures i < |names| ==>
                match EditDeployment(e, app, ds[names[i]], isQuantity)
                case None => all == Edited(ds, i)
                case Some(d) => Editing(all, ds[names[i] := d], names, i + 1, app, e)
    {
      hide EditDeployment;
      if i < |names| {
        assert names[i..][0] == names[i] && names[i..][1..] == names[i + 1..];
      }
    }

    method SetupCloudProxy(app: string, options: map<string, string>, names: seq<string>) returns (end: End)
      requires Listing(deployments, app, names)
      modifies this`deployments, this`secrets
      ensures Reply(Current(), end) == LinkApp(old(Current()), app, options, names, isQuantity)
    {
      secrets := secrets + {SecretName(app)};
      ghost var all := EditAll(deployments, names, app, Link(options), isQuantity);
      assert names[0..] == names;
      assert Editing(all, deployments, names, 0, app, Link(options));
      hide EditAll, Editing;
      for i := 0 to |names|
        invariant Editing(all, deployments, names, i, app, Link(options))
        invariant secrets == old(secrets) + {SecretName(app)}
      {
        EditingStep(all, deployments, names, i, app, Link(options));
        var d := deployments[names[i]];
        var template := new PodTemplate(d.pod);
        var exited := template.MergeCloudSQLManifest(app, options);
        if exited {
          return Exit;
        }
        var pod := template.Value();
        deployments := deployments[names[i] := d.(pod := pod)];
      }
      EditingStep(all, deployments, names, |names|, app, Link(options));
      end := Finished;
    }

    method TearCloudProxy(app: string, names: seq<string>) returns (end: End)
      requires Listing(deployments, app, names)
      modifies this`deployments, this`secrets
      ensures Reply(Current(), end) == UnlinkApp(old(Current()), app, names, isQuantity)
    {
      if SecretName(app) !in secrets {
        return Finished;
      }
      secrets := secrets - {SecretName(app)};
      ghost var all := EditAll(deployments, names, app, Unlink, isQuantity);
      assert names[0..] == names;
      assert Editing(all, deployments, names, 0, app, Unlink);
      hide EditAll, Editing;
      for i := 0 to |names|
        invariant Editing(all, deployments, names, i, app, Unlink)
        invariant secrets == old(secrets) - {SecretName(app)}
      {
        EditingStep(all, deployments, names, i, app, Unlink);
        var d := deployments[names[i]];
        var template := new PodTemplate(d.pod);
        template.PruneCloudSQLManifest();
        var pod := template.Value();
        if pod.containers == [] {
          return Error;
        }
        deployments := deployments[names[i] := d.(pod := pod)];
      }
      EditingStep(all, deployments, names, |names|, app, Unlink);
      end := Finished;
    }

    method SetPodEnv(app: string, env: map<string, string>, names: seq<string>) returns (end: End)
      requires Listing(deployments, app, names)
      modifies this`deployments
      ensures Reply(Current(), end) == EditApp(old(Current()), app, names, SetEnv(env), isQuantity)
    {
      ghost var all := EditAll(deployments, names, app, SetEnv(env), isQuantity);
      assert names[0..] == names;
      assert Editing(all, deployments, names, 0, app, SetEnv(env));
      hide EditAll, Editing;
      for i := 0 to |names|
        invariant Editing(all, deployments, names, i, app, SetEnv(env))
      {
        EditingStep(all, deployments, names, i, app, SetEnv(env));
        var d := deployments[names[i]];
        if d.pod.containers == [] {
          return Panic;
        }
        var container := d.pod.containers[0];
        var envVars := NonemptyVars(env);
        container := container.(env := envVars);
        d := d.(pod := d.pod.(containers := d.pod.containers[0 := container]));
        deployments := deployments[names[i] := d];
      }
      EditingStep(all, deployments, names, |names|, app, SetEnv(env));
      end := Finished;
    }

    method NonemptyVars(env: map<string, string>) returns (envVars: map<string, string>)
      ensures envVars == NonemptyKeys(env)
    {
      envVars := map[];
      var todo := env.Keys;
      while todo != {}
        invariant todo <= env.Keys
        invariant envVars == map k | k in env && k !in todo && k != "" :: env[k]
      {
        var key :| key in todo;
        todo := todo - {key};
        if |key| > 0 {
          envVars := envVars[key := env[key]];
        }
      }
    }

    method ProcessLimits(app: string, resource: string, limits: map<string, string>, names: seq<string>)
      returns (end: End)
      requires Listing(deployments, app, names)
      modifies this`deployments
      ensures Reply(Current(), end) == EditApp(old(Current()), app, names, SetLimits(resource, limits), isQuantity)
    {
      ghost var e := SetLimits(resource, limits);
      ghost var all := EditAll(deployments, names, app, e, isQuantity);
      assert names[0..] == names;
      assert Editing(all, deployments, names, 0, app, e);
      hide EditAll, Editing;
      for i := 0 to |names|
        invariant Editing(all, deployments, names, i, app, e)
      {
        EditingStep(all, deployments, names, i, app, e);
        var d := deployments[names[i]];
        var proctype := Get(d.labels, "type");
        if proctype in limits {
          var idx := FindContainer(d.pod.containers, app + "-" + proctype);
          if idx < |d.pod.containers| {
            var container := d.pod.containers[idx];
            var merged, err := MergeResourceConstraints(resource, container.resources, limits[proctype], isQuantity);
            if err {
              return Error;
            }
            container := container.(resources := merged);
            d := d.(pod := d.pod.(containers := d.pod.containers[idx := container]));
          }
        }
        assert EditDeployment(e, app, deployments[names[i]], isQuantity) == Some(d);
        deployments := deployments[names[i] := d];
      }
      EditingStep(all, deployments, names, |names|, app, e);
      end := Finished;
    }

    // Deleting

    method DeleteServices(app: string)
      modifies this`services
      ensures services == map n | n in old(services) && !OfApp(old(services)[n].labels, app) :: old(services)[n]
    {
      ghost var all := set n | n in services && OfApp(services[n].labels, app);
      var svcs := set n | n in services && OfApp(services[n].labels, app);
      while svcs != {}
        invariant svcs <= all && services == old(services) - (all - svcs)
      {
        var name :| name in svcs;
        services := services - {name};
        svcs := svcs - {name};
      }
    }

    method DeleteDeployments(app: string)
      modifies this`deployments
      ensures deployments
           == map n | n in old(deployments) && !OfApp(old(deployments)[n].labels, app) :: old(deployments)[n]
    {
      ghost var all := set n | n in deployments && OfApp(deployments[n].labels, app);
      var dps := set n | n in deployments && OfApp(deployments[n].labels, app);
      while dps != {}
        invariant dps <= all && deployments == old(deployments) - (all - dps)
      {
        var name :| name in dps;
        // the pods are scaled away before the deployment goes
        deployments := deployments[name := deployments[name].(replicas := 0)];
        deployments := deployments - {name};
        dps := dps - {name};
      }
    }

    method Delete(app: string)
      modifies this
      ensures Current() == DeleteApp(old(Current()), app)
    {
      DeleteServices(app);
      DeleteDeployments(app);
      cronjobs := map n | n in cronjobs && !OfApp(cronjobs[n].labels, app) :: cronjobs[n];
      var managed := set n | n in services && Managed(services[n].labels);
      assert forall n :: n in managed <==> n in services && Managed(services[n].labels);
      if managed == {} {
        ingress := NoIngress;
      }
    }
  }
}
