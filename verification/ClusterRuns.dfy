/**
 Runs of deploys, links, unlinks, restarts, limit changes and deletions, of any apps in any order.
 Every pod keeps its app container and at most one proxy beside it, and what a deployment has been
 set to is a fold over the run that looks at nothing else.
 */
module ClusterRuns {
  import opened Deploys
  import opened Ingress
  import opened Kube
  import opened Limits
  import opened Options
  import opened Sidecar

  datatype Action =
    | Deploy(req: DeployRequest, world: World)
    | EditEach(app: string, edit: Edit, names: seq<string>)
    | Remove(app: string)

  /** Callers name the service after app and process type; a listing names the deployments of the app. */
  ghost predicate Legal(st: State, a: Action) {
    match a
    case Deploy(req, world) =>
      Complete(req) ==> req.serviceID == req.app + "-" + req.proctype && req.serviceID != PROXY
    case EditEach(app, edit, names) => Listing(st.deployments, app, names)
    case Remove(app) => true
  }

  ghost function Step(st: State, a: Action, isQuantity: string -> bool): State
    requires Legal(st, a)
  {
    match a
    case Deploy(req, world) => Run(st, req, world).state
    case EditEach(app, edit, names) =>
      (match edit
       case Link(options) => LinkApp(st, app, options, names, isQuantity).state
       case Unlink => UnlinkApp(st, app, names, isQuantity).state
       case SetEnv(_) => EditApp(st, app, names, edit, isQuantity).state
       case SetLimits(_, _) => EditApp(st, app, names, edit, isQuantity).state)
    case Remove(app) => DeleteApp(st, app)
  }

  /** The states that a sequence of actions leads through. */
  ghost predicate IsRun(states: seq<State>, actions: seq<Action>, isQuantity: string -> bool) {
    && |states| == |actions| + 1
    && forall i :: 0 <= i < |actions| ==>
         Legal(states[i], actions[i]) && states[i + 1] == Step(states[i], actions[i], isQuantity)
  }

  // The invariant

  ghost predicate Named(labels: Labels, n: string) {
    && Managed(labels) && "app" in labels && "type" in labels
    && n == labels["app"] + "-" + labels["type"]
  }

  ghost predicate Sound(labels: Labels, pod: PodSpec, n: string) {
    Named(labels, n) && PodOk(pod, n)
  }

  ghost predicate Inv(st: State) {
    && (forall n :: n in st.deployments ==> Sound(st.deployments[n].labels, st.deployments[n].pod, n))
    && (forall n :: n in st.cronjobs ==> Sound(st.cronjobs[n].labels, st.cronjobs[n].pod, n))
  }

  lemma RefreshedSound(d: Deployment, req: DeployRequest)
    requires Sound(d.labels, d.pod, req.serviceID)
    ensures Sound(d.labels, Refreshed(d, req).pod, req.serviceID) && Refreshed(d, req).labels == d.labels
    ensures Refreshed(d, req).pod.containers ==
            [NewContainer(req).(resources := d.pod.containers[0].resources)] + d.pod.containers[1..]
    ensures Refreshed(d, req).pod.volumes == d.pod.volumes
    ensures Refreshed(d, req).replicas == if req.replicas.Some? then req.replicas.value else d.replicas
  {
    FirstNamedIs(d.pod.containers, req.serviceID, 0);
  }

  lemma DeployKeepsInv(st: State, req: DeployRequest, world: World)
    requires Inv(st) && Legal(st, Deploy(req, world))
    ensures Inv(Run(st, req, world).state)
  {
    RunObjects(st, req, world);
    hide Run, Sound, RunCron, PutDeployment;
    if Complete(req) {
      if req.cron.Some? {
        CronKeepsSound(st, req, req.cron.value);
      } else {
        PutKeepsSound(st, req);
      }
    }
  }

  lemma PutKeepsSound(st: State, req: DeployRequest)
    requires Inv(st) && req.serviceID == req.app + "-" + req.proctype && req.serviceID != PROXY
    ensures var ds := PutDeployment(st, req).state.deployments;
            forall n :: n in ds ==> Sound(ds[n].labels, ds[n].pod, n)
  {
    hide Sound, NewPod, Refreshed;
    if req.serviceID in st.deployments {
      RefreshedSound(st.deployments[req.serviceID], req);
    } else if NewPod(req).Manifest? {
      NewPodSound(req);
    }
  }

  lemma CronKeepsSound(st: State, req: DeployRequest, schedule: string)
    requires Inv(st) && req.serviceID == req.app + "-" + req.proctype && req.serviceID != PROXY
    ensures Inv(RunCron(st, req, schedule).state)
  {
    hide Sound, NewPod;
    if NewPod(req).Manifest? {
      NewPodSound(req);
      if req.serviceID in st.cronjobs {
        var cj := st.cronjobs[req.serviceID];
        KeptLabelsSound(cj.labels, cj.pod, NewPod(req).pod, req.serviceID);
      }
    }
  }

  lemma NewPodSound(req: DeployRequest)
    requires req.serviceID == req.app + "-" + req.proctype && req.serviceID != PROXY && NewPod(req).Manifest?
    ensures Sound(ProcLabels(req.app, req.proctype), NewPod(req).pod, req.serviceID)
    ensures PodOk(NewPod(req).pod, req.serviceID)
  {
    NewPodHasContainer(req);
  }

  lemma KeptLabelsSound(labels: Labels, was: PodSpec, pod: PodSpec, n: string)
    requires Sound(labels, was, n) && PodOk(pod, n)
    ensures Sound(labels, pod, n)
  {
  }

  // Editing all deployments of an app

  lemma {:induction false} EditAllAt(ds: map<string, Deployment>, names: seq<string>, app: string, e: Edit,
      isQuantity: string -> bool, n: string)
    requires Distinct(names) && forall m :: m in names ==> m in ds
    ensures var r := EditAll(ds, names, app, e, isQuantity);
            && r.deployments.Keys == ds.Keys
            && (n in names[..r.done] ==> EditDeployment(e, app, ds[n], isQuantity) == Some(r.deployments[n]))
            && (n in ds && n !in names[..r.done] ==> r.deployments[n] == ds[n])
            && (r.done < |names| ==> EditDeployment(e, app, ds[names[r.done]], isQuantity) == None)
    decreases |names|
  {
    hide EditDeployment;
    if names != [] && EditDeployment(e, app, ds[names[0]], isQuantity).Some? {
      var d := EditDeployment(e, app, ds[names[0]], isQuantity).value;
      var r := EditAll(ds, names, app, e, isQuantity);
      var rest := EditAll(ds[names[0] := d], names[1..], app, e, isQuantity);
      EditAllAt(ds[names[0] := d], names[1..], app, e, isQuantity, n);
      assert names[..r.done] == [names[0]] + names[1..][..rest.done];
      assert names[0] !in names[1..];
    }
  }

  // What deploys and edits leave alone, and what they set

  /** Everything about a deployment except the image, command, environment and port of the app. */
  datatype Settings = Settings(labels: Labels, replicas: int, resources: Resources, beside: PodSpec)

  function SettingsOf(d: Deployment): Settings
    requires d.pod.containers != []
  {
    Settings(d.labels, d.replicas, d.pod.containers[0].resources, PodSpec(d.pod.containers[1..], d.pod.volumes))
  }

  function AfterEdit(s: Settings, app: string, e: Edit, isQuantity: string -> bool): Option<Settings> {
    match e
    case Link(options) =>
      (match MergeProxy(s.beside, app, options)
       case Exited => None
       case Manifest(beside) => Some(s.(beside := beside)))
    case Unlink => Some(s.(beside := PruneProxy(s.beside)))
    case SetEnv(_) => Some(s)
    case SetLimits(resource, limits) =>
      var proctype := Get(s.labels, "type");
      if proctype !in limits then Some(s)
      else
        match MergeConstraints(s.resources, resource, limits[proctype], isQuantity)
        case None => None
        case Some(r) => Some(s.(resources := r))
  }

  lemma LinkBeside(pod: PodSpec, n: string, app: string, options: map<string, string>)
    requires PodOk(pod, n)
    ensures MergeProxy(pod, app, options).Exited?
         == MergeProxy(PodSpec(pod.containers[1..], pod.volumes), app, options).Exited?
    ensures MergeProxy(pod, app, options).Manifest? ==>
              var merged := MergeProxy(pod, app, options).pod;
              && merged.containers != [] && merged.containers[0] == pod.containers[0]
              && MergeProxy(PodSpec(pod.containers[1..], pod.volumes), app, options)
                 == Manifest(PodSpec(merged.containers[1..], merged.volumes))
  {
    var side := pod.containers[1..];
    assert HasProxy(pod.containers) == HasProxy(side) by {
      if i :| 0 <= i < |pod.containers| && pod.containers[i].name == PROXY {
        assert side[i - 1].name == PROXY;
      }
      if i :| 0 <= i < |side| && side[i].name == PROXY {
        assert pod.containers[i + 1].name == PROXY;
      }
    }
    forall proxy: Container ensures SetProxies(pod.containers, proxy) == [pod.containers[0]] + SetProxies(side, proxy) {
    }
  }

  lemma PruneBeside(pod: PodSpec, n: string)
    requires PodOk(pod, n)
    ensures PruneProxy(pod).containers != [] && PruneProxy(pod).containers[0] == pod.containers[0]
    ensures PruneProxy(PodSpec(pod.containers[1..], pod.volumes))
         == PodSpec(PruneProxy(pod).containers[1..], PruneProxy(pod).volumes)
  {
    hide FirstNamed, OtherVolumes, OneProxy;
    var side := pod.containers[1..];
    var i := FirstNamed(side, PROXY);
    forall j | 0 <= j < i + 1 ensures pod.containers[j].name != PROXY {
      assert j > 0 ==> pod.containers[j] == side[j - 1];
    }
    FirstNamedIs(pod.containers, PROXY, i + 1);
    if i < |side| {
      assert side[..i] + side[i + 1..] == (pod.containers[..i + 1] + pod.containers[i + 2..])[1..];
    }
  }

  /** An edit changes the settings without looking at the rest, and keeps the pod sound. */
  lemma EditSettings(d: Deployment, n: string, app: string, e: Edit, isQuantity: string -> bool)
    requires Sound(d.labels, d.pod, n) && OfApp(d.labels, app)
    ensures match EditDeployment(e, app, d, isQuantity)
            case None => AfterEdit(SettingsOf(d), app, e, isQuantity) == None
            case Some(d') =>
              Sound(d'.labels, d'.pod, n) && AfterEdit(SettingsOf(d), app, e, isQuantity) == Some(SettingsOf(d'))
  {
    hide MergeProxy, PruneProxy, MergeConstraints;
    match e
    case Link(options) =>
      LinkBeside(d.pod, n, app, options);
      if MergeProxy(d.pod, app, options).Manifest? {
        MergeKeepsPod(d.pod, n, app, options);
      }
    case Unlink =>
      PruneBeside(d.pod, n);
      PruneKeepsPod(d.pod, n);
    case SetEnv(_) =>
    case SetLimits(resource, limits) =>
      FirstNamedIs(d.pod.containers, n, 0);
  }

  lemma EditKeepsInv(st: State, app: string, names: seq<string>, e: Edit, isQuantity: string -> bool)
    requires Inv(st) && Listing(st.deployments, app, names)
    ensures Inv(EditApp(st, app, names, e, isQuantity).state)
  {
    hide Sound, EditDeployment;
    var r := EditAll(st.deployments, names, app, e, isQuantity);
    EditAllAt(st.deployments, names, app, e, isQuantity, "");
    forall n | n in r.deployments ensures Sound(r.deployments[n].labels, r.deployments[n].pod, n) {
      EditAllAt(st.deployments, names, app, e, isQuantity, n);
      if n in names[..r.done] {
        EditSettings(st.deployments[n], n, app, e, isQuantity);
      }
    }
  }

  lemma StepKeepsInv(st: State, a: Action, isQuantity: string -> bool)
    requires Inv(st) && Legal(st, a)
    ensures Inv(Step(st, a, isQuantity))
  {
    hide Run, EditApp, Sound;
    match a
    case Deploy(req, world) => DeployKeepsInv(st, req, world);
    case EditEach(app, edit, names) =>
      EditKeepsInv(st.(secrets := st.secrets + {SecretName(app)}), app, names, edit, isQuantity);
      EditKeepsInv(st.(secrets := st.secrets - {SecretName(app)}), app, names, edit, isQuantity);
      EditKeepsInv(st, app, names, edit, isQuantity);
    case Remove(app) =>
  }

  /** Over every run, every pod has its app container in front and at most one proxy. */
  lemma {:induction false} RunKeepsInv(states: seq<State>, actions: seq<Action>, isQuantity: string -> bool, i: nat)
    requires IsRun(states, actions, isQuantity) && Inv(states[0]) && i < |states|
    ensures Inv(states[i])
  {
    hide Inv, Step;
    if i > 0 {
      RunKeepsInv(states, actions, isQuantity, i - 1);
      StepKeepsInv(states[i - 1], actions[i - 1], isQuantity);
    }
  }

  // What a deployment has been set to

  /** The edit comes to the deployment: it is listed before the edit stops, and an unlink finds the secret. */
  ghost predicate Reaches(st: State, app: string, e: Edit, names: seq<string>, n: string, isQuantity: string -> bool)
    requires Listing(st.deployments, app, names)
  {
    && n in names[..EditAll(st.deployments, names, app, e, isQuantity).done]
    && (e.Unlink? ==> SecretName(app) in st.secrets)
  }

  ghost function After(s: Settings, n: string, st: State, a: Action, isQuantity: string -> bool): Settings
    requires Legal(st, a)
  {
    match a
    case Deploy(req, _) => if req.serviceID == n && Scales(req) then s.(replicas := req.replicas.value) else s
    case EditEach(app, e, names) =>
      var edited := AfterEdit(s, app, e, isQuantity);
      if Reaches(st, app, e, names, n, isQuantity) && edited.Some? then edited.value else s
    case Remove(_) => s
  }

  predicate Scales(req: DeployRequest) {
    Complete(req) && req.cron.None? && req.replicas.Some?
  }

  lemma StepSettings(st: State, a: Action, isQuantity: string -> bool, n: string)
    requires Inv(st) && Legal(st, a) && n in st.deployments
    requires a.Remove? ==> !OfApp(st.deployments[n].labels, a.app)
    ensures var after := Step(st, a, isQuantity);
            && n in after.deployments && after.deployments[n].pod.containers != []
            && SettingsOf(after.deployments[n]) == After(SettingsOf(st.deployments[n]), n, st, a, isQuantity)
  {
    assert Sound(st.deployments[n].labels, st.deployments[n].pod, n);
    hide Run, Sound, EditAll, EditDeployment, AfterEdit, Listing;
    match a
    case Deploy(req, world) => DeploySettings(st, req, world, n);
    case EditEach(app, e, names) =>
      EditStep(st, app, e, names, isQuantity);
      EditAllSettings(st.deployments, names, app, e, isQuantity, n);
      hide Step;
    case Remove(app) =>
  }

  lemma EditStep(st: State, app: string, e: Edit, names: seq<string>, isQuantity: string -> bool)
    requires Listing(st.deployments, app, names)
    ensures Step(st, EditEach(app, e, names), isQuantity).deployments
         == if e.Unlink? && SecretName(app) !in st.secrets then st.deployments
            else EditAll(st.deployments, names, app, e, isQuantity).deployments
  {
    hide EditAll;
  }

  lemma EditAllSettings(ds: map<string, Deployment>, names: seq<string>, app: string, e: Edit,
      isQuantity: string -> bool, n: string)
    requires Listing(ds, app, names) && n in ds && Sound(ds[n].labels, ds[n].pod, n)
    ensures var r := EditAll(ds, names, app, e, isQuantity);
            && n in r.deployments && Sound(r.deployments[n].labels, r.deployments[n].pod, n)
            && r.deployments[n].pod.containers != []
            && (n !in names[..r.done] ==> r.deployments[n] == ds[n])
            && (n in names[..r.done] ==>
                  AfterEdit(SettingsOf(ds[n]), app, e, isQuantity) == Some(SettingsOf(r.deployments[n])))
  {
    hide EditAll, EditDeployment, AfterEdit;
    EditAllAt(ds, names, app, e, isQuantity, n);
    if n in names {
      hide Listing;
      EditSettings(ds[n], n, app, e, isQuantity);
    }
  }

  lemma DeploySettings(st: State, req: DeployRequest, world: World, n: string)
    requires n in st.deployments && Sound(st.deployments[n].labels, st.deployments[n].pod, n)
    ensures var after := Run(st, req, world).state;
            && n in after.deployments && Sound(after.deployments[n].labels, after.deployments[n].pod, n)
            && after.deployments[n].pod.containers != []
            && SettingsOf(after.deployments[n])
               == if req.serviceID == n && Scales(req)
                  then SettingsOf(st.deployments[n]).(replicas := req.replicas.value)
                  else SettingsOf(st.deployments[n])
  {
    if req.serviceID == n {
      RunObjects(st, req, world);
      RefreshedSound(st.deployments[n], req);
      if req.cron.Some? {
        CronKeepsOthers(st, req, req.cron.value);
      }
      hide Run, RunCron, Refreshed, NewPod, NewContainer;
    } else {
      RunTouches(st, req, world, n);
      hide Run, Sound;
    }
  }

  /** The settings of a deployment after the actions from i to j, folded from those it had at i. */
  ghost function Expected(s: Settings, n: string, states: seq<State>, actions: seq<Action>, isQuantity: string -> bool,
      i: nat, j: nat): Settings
    requires IsRun(states, actions, isQuantity) && i <= j < |states|
  {
    if j == i then s
    else After(Expected(s, n, states, actions, isQuantity, i, j - 1), n, states[j - 1], actions[j - 1], isQuantity)
  }

  ghost predicate NotRemoved(app: string, actions: seq<Action>, i: nat, j: nat) {
    forall k :: i <= k < j <= |actions| ==> actions[k] != Remove(app)
  }

  /**
   Over every run in which its app is not deleted, a deployment stays and has the settings that the
   scalings, limit changes, links and unlinks that came to it have left.
   */
  lemma {:induction false} SettingsSurvive(states: seq<State>, actions: seq<Action>, isQuantity: string -> bool,
      n: string, i: nat, j: nat)
    requires IsRun(states, actions, isQuantity) && Inv(states[0]) && i <= j < |states|
    requires n in states[i].deployments && NotRemoved(Get(states[i].deployments[n].labels, "app"), actions, i, j)
    ensures n in states[j].deployments
    ensures states[i].deployments[n].pod.containers != [] && states[j].deployments[n].pod.containers != []
    ensures SettingsOf(states[j].deployments[n])
         == Expected(SettingsOf(states[i].deployments[n]), n, states, actions, isQuantity, i, j)
    ensures states[j].deployments[n].labels == states[i].deployments[n].labels
    decreases j
  {
    hide Step, After, EditDeployment;
    RunKeepsInv(states, actions, isQuantity, i);
    if i < j {
      SettingsSurvive(states, actions, isQuantity, n, i, j - 1);
      RunKeepsInv(states, actions, isQuantity, j - 1);
      StepSettings(states[j - 1], actions[j - 1], isQuantity, n);
      AfterKeepsLabels(SettingsOf(states[j - 1].deployments[n]), n, states[j - 1], actions[j - 1], isQuantity);
    }
  }

  lemma AfterKeepsLabels(s: Settings, n: string, st: State, a: Action, isQuantity: string -> bool)
    requires Legal(st, a)
    ensures After(s, n, st, a, isQuantity).labels == s.labels
  {
    hide MergeProxy, PruneProxy, MergeConstraints;
  }

  predicate ScalesTo(a: Action, n: string) {
    a.Deploy? && a.req.serviceID == n && Scales(a.req)
  }

  /** The replicas of a deployment are those of the last scaling, however it is released and edited since. */
  lemma {:induction false} LastScaleWins(states: seq<State>, actions: seq<Action>, isQuantity: string -> bool,
      n: string, i: nat, j: nat)
    requires IsRun(states, actions, isQuantity) && Inv(states[0]) && i < j < |states|
    requires n in states[i].deployments && NotRemoved(Get(states[i].deployments[n].labels, "app"), actions, i, j)
    requires ScalesTo(actions[i], n) && forall k :: i < k < j ==> !ScalesTo(actions[k], n)
    ensures n in states[j].deployments && states[j].deployments[n].replicas == actions[i].req.replicas.value
    decreases j
  {
    hide Step, AfterEdit, EditDeployment;
    SettingsSurvive(states, actions, isQuantity, n, i, j - 1);
    RunKeepsInv(states, actions, isQuantity, j - 1);
    StepSettings(states[j - 1], actions[j - 1], isQuantity, n);
    EditKeepsReplicas(SettingsOf(states[j - 1].deployments[n]), actions[j - 1], isQuantity);
    if i < j - 1 {
      LastScaleWins(states, actions, isQuantity, n, i, j - 1);
    }
  }

  lemma EditKeepsReplicas(s: Settings, a: Action, isQuantity: string -> bool)
    ensures a.EditEach? && AfterEdit(s, a.app, a.edit, isQuantity).Some? ==>
              AfterEdit(s, a.app, a.edit, isQuantity).value.replicas == s.replicas
  {
    hide MergeProxy, PruneProxy, MergeConstraints;
  }

  predicate SetsLimits(a: Action, app: string) {
    a.EditEach? && a.app == app && a.edit.SetLimits?
  }

  predicate Relinks(a: Action, app: string) {
    a.EditEach? && a.app == app && (a.edit.Link? || a.edit.Unlink?)
  }

  /** Resources stay as long as no limits of the app are set, and sidecars as long as it is not linked or unlinked. */
  lemma {:induction false} ResourcesAndSidecarsStay(states: seq<State>, actions: seq<Action>,
      isQuantity: string -> bool, n: string, i: nat, j: nat)
    requires IsRun(states, actions, isQuantity) && Inv(states[0]) && i <= j < |states|
    requires n in states[i].deployments && NotRemoved(Get(states[i].deployments[n].labels, "app"), actions, i, j)
    ensures n in states[j].deployments
    ensures states[i].deployments[n].pod.containers != [] && states[j].deployments[n].pod.containers != []
    ensures (forall k :: i <= k < j ==> !SetsLimits(actions[k], Get(states[i].deployments[n].labels, "app"))) ==>
              SettingsOf(states[j].deployments[n]).resources == SettingsOf(states[i].deployments[n]).resources
    ensures (forall k :: i <= k < j ==> !Relinks(actions[k], Get(states[i].deployments[n].labels, "app"))) ==>
              SettingsOf(states[j].deployments[n]).beside == SettingsOf(states[i].deployments[n]).beside
    decreases j
  {
    hide Step, After, Inv, Legal, Relinks, SetsLimits;
    SettingsSurvive(states, actions, isQuantity, n, i, j);
    if i < j {
      ResourcesAndSidecarsStay(states, actions, isQuantity, n, i, j - 1);
      SettingsSurvive(states, actions, isQuantity, n, i, j - 1);
      RunKeepsInv(states, actions, isQuantity, j - 1);
      StepSettings(states[j - 1], actions[j - 1], isQuantity, n);
      AfterLeaves(states[j - 1], actions[j - 1], isQuantity, n);
    }
  }

  lemma AfterLeaves(st: State, a: Action, isQuantity: string -> bool, n: string)
    requires Legal(st, a) && n in st.deployments && st.deployments[n].pod.containers != []
    ensures var s := SettingsOf(st.deployments[n]); var after := After(s, n, st, a, isQuantity);
            && (SetsLimits(a, Get(s.labels, "app")) || after.resources == s.resources)
            && (Relinks(a, Get(s.labels, "app")) || after.beside == s.beside)
  {
    hide EditAll, MergeProxy, PruneProxy, MergeConstraints;
  }

  lemma DeployAddress(st: State, req: DeployRequest, world: World, n: string)
    requires n in st.services
    ensures var after := Run(st, req, world).state.services;
            n in after && after[n].clusterIP == st.services[n].clusterIP && after[n].nodePort == st.services[n].nodePort
  {
    RunObjects(st, req, world);
    hide Run;
  }

  lemma EditServices(st: State, app: string, e: Edit, names: seq<string>, isQuantity: string -> bool)
    requires Listing(st.deployments, app, names)
    ensures Step(st, EditEach(app, e, names), isQuantity).services == st.services
  {
    hide EditAll;
  }

  lemma StepAddress(st: State, a: Action, isQuantity: string -> bool, n: string)
    requires Legal(st, a) && n in st.services
    requires a.Remove? ==> !OfApp(st.services[n].labels, a.app)
    ensures var after := Step(st, a, isQuantity).services;
            n in after && after[n].clusterIP == st.services[n].clusterIP && after[n].nodePort == st.services[n].nodePort
  {
    match a
    case Deploy(req, world) =>
      DeployAddress(st, req, world, n);
      hide Run;
    case EditEach(app, e, names) =>
      EditServices(st, app, e, names, isQuantity);
      hide Step;
    case Remove(_) =>
  }

  /** Until its app is deleted a service keeps the address and the node port that it was first given. */
  lemma {:induction false} AddressStays(states: seq<State>, actions: seq<Action>, isQuantity: string -> bool, n: string,
      i: nat, j: nat)
    requires IsRun(states, actions, isQuantity) && i <= j < |states| && n in states[i].services
    requires forall k :: i <= k < j && actions[k].Remove? && n in states[k].services ==>
               !OfApp(states[k].services[n].labels, actions[k].app)
    ensures n in states[j].services
    ensures states[j].services[n].clusterIP == states[i].services[n].clusterIP
    ensures states[j].services[n].nodePort == states[i].services[n].nodePort
    decreases j
  {
    hide Step, Legal;
    if i < j {
      AddressStays(states, actions, isQuantity, n, i, j - 1);
      StepAddress(states[j - 1], actions[j - 1], isQuantity, n);
    }
  }
}
