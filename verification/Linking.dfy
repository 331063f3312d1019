/** Linking all pods of an app to a database and unlinking them, and deleting apps. */
module Linking {
  import opened ClusterRuns
  import opened Deploys
  import opened Ingress
  import opened Kube
  import opened Options
  import opened Sidecar

  lemma {:induction false} EditAllFinishes(ds: map<string, Deployment>, names: seq<string>, app: string, e: Edit,
      isQuantity: string -> bool)
    requires Distinct(names) && forall m :: m in names ==> m in ds
    ensures EditAll(ds, names, app, e, isQuantity).done == |names|
       <==> forall m :: m in names ==> EditDeployment(e, app, ds[m], isQuantity).Some?
    decreases |names|
  {
    hide EditDeployment;
    if names != [] && EditDeployment(e, app, ds[names[0]], isQuantity).Some? {
      var ds' := ds[names[0] := EditDeployment(e, app, ds[names[0]], isQuantity).value];
      EditAllFinishes(ds', names[1..], app, e, isQuantity);
      assert names == [names[0]] + names[1..];
      assert names[0] !in names[1..];
    }
  }

  /** A finished edit of all deployments does not depend on the order of the listing. */
  lemma EditAllAnyOrder(ds: map<string, Deployment>, app: string, names: seq<string>, other: seq<string>, e: Edit,
      isQuantity: string -> bool)
    requires Listing(ds, app, names) && Listing(ds, app, other)
    requires EditAll(ds, names, app, e, isQuantity).done == |names|
    ensures EditAll(ds, other, app, e, isQuantity).done == |other|
    ensures EditAll(ds, other, app, e, isQuantity).deployments == EditAll(ds, names, app, e, isQuantity).deployments
  {
    hide EditAll, EditDeployment;
    EditAllFinishes(ds, names, app, e, isQuantity);
    EditAllFinishes(ds, other, app, e, isQuantity);
    var a, b := EditAll(ds, names, app, e, isQuantity).deployments, EditAll(ds, other, app, e, isQuantity).deployments;
    EditAllAt(ds, names, app, e, isQuantity, "");
    EditAllAt(ds, other, app, e, isQuantity, "");
    forall n | n in ds ensures a[n] == b[n] {
      EditAllAt(ds, names, app, e, isQuantity, n);
      EditAllAt(ds, other, app, e, isQuantity, n);
      assert names[..|names|] == names && other[..|other|] == other;
    }
  }

  /** After linking every pod of the app has the proxy, after unlinking none. */
  lemma LinkedPods(st: State, app: string, options: map<string, string>, names: seq<string>, isQuantity: string -> bool,
      n: string)
    requires Inv(st) && Listing(st.deployments, app, names) && n in names
    requires "DATABASE_URL" in options && LinkApp(st, app, options, names, isQuantity).end == Finished
    ensures n in LinkApp(st, app, options, names, isQuantity).state.deployments
    ensures HasProxy(LinkApp(st, app, options, names, isQuantity).state.deployments[n].pod.containers)
  {
    hide EditAll, MergeProxy;
    EditAllAt(st.deployments, names, app, Link(options), isQuantity, n);
    assert names[..|names|] == names;
    MergeKeepsPod(st.deployments[n].pod, n, app, options);
  }

  lemma UnlinkedPods(st: State, app: string, names: seq<string>, isQuantity: string -> bool, n: string)
    requires Inv(st) && Listing(st.deployments, app, names) && n in names && SecretName(app) in st.secrets
    ensures var r := UnlinkApp(st, app, names, isQuantity);
            && r.end == Finished && n in r.state.deployments
            && !HasProxy(r.state.deployments[n].pod.containers) && NoProxyVolumes(r.state.deployments[n].pod.volumes)
  {
    hide EditAll, PruneProxy;
    forall m | m in names ensures EditDeployment(Unlink, app, st.deployments[m], isQuantity).Some? {
      PruneKeepsPod(st.deployments[m].pod, m);
    }
    EditAllFinishes(st.deployments, names, app, Unlink, isQuantity);
    EditAllAt(st.deployments, names, app, Unlink, isQuantity, n);
    assert names[..|names|] == names;
    PruneKeepsPod(st.deployments[n].pod, n);
  }

  ghost predicate NeverLinked(d: Deployment) {
    !HasProxy(d.pod.containers) && NoProxyVolumes(d.pod.volumes)
  }

  lemma LinkUnlinkAt(st: State, app: string, options: map<string, string>, names: seq<string>,
      isQuantity: string -> bool, n: string)
    requires Inv(st) && Listing(st.deployments, app, names) && n in st.deployments
    requires LinkApp(st, app, options, names, isQuantity).end == Finished
    ensures var linked := LinkApp(st, app, options, names, isQuantity).state;
            && Inv(linked) && Listing(linked.deployments, app, names)
            && var after := UnlinkApp(linked, app, names, isQuantity);
            && after.end == Finished && n in after.state.deployments
            && (n !in names ==> after.state.deployments[n] == st.deployments[n])
            && (n in names ==> (after.state.deployments[n] == st.deployments[n] <==> NeverLinked(st.deployments[n])))
  {
    hide EditAll, PruneProxy, MergeProxy, Inv, HasProxy, NoProxyVolumes, SecretName;
    var added := st.(secrets := st.secrets + {SecretName(app)});
    assert Inv(added) by { InvIsOfObjects(st, added); }
    var linked := LinkApp(st, app, options, names, isQuantity).state;
    EditKeepsInv(added, app, names, Link(options), isQuantity);
    assert names[..|names|] == names;
    forall m | m in st.deployments
      ensures m in linked.deployments && linked.deployments[m].labels == st.deployments[m].labels
      ensures m in names ==> MergeProxy(st.deployments[m].pod, app, options) == Manifest(linked.deployments[m].pod)
      ensures m in names ==> linked.deployments[m].replicas == st.deployments[m].replicas
      ensures m !in names ==> linked.deployments[m] == st.deployments[m]
    {
      EditAllAt(st.deployments, names, app, Link(options), isQuantity, m);
    }
    EditAllAt(st.deployments, names, app, Link(options), isQuantity, n);
    assert Listing(linked.deployments, app, names);
    if names != [] {
      UnlinkedPods(linked, app, names, isQuantity, names[0]);
    } else {
      EditAllAt(linked.deployments, names, app, Unlink, isQuantity, n);
    }
    EditAllAt(linked.deployments, names, app, Unlink, isQuantity, n);
    if n in names {
      PruneUndoesMerge(st.deployments[n].pod, app, options);
    }
  }

  lemma InvIsOfObjects(st: State, other: State)
    requires Inv(st) && other.deployments == st.deployments && other.cronjobs == st.cronjobs
    ensures Inv(other)
  {
  }

  lemma LinkUnlinkElse(st: State, app: string, options: map<string, string>, names: seq<string>,
      isQuantity: string -> bool)
    requires Inv(st) && Listing(st.deployments, app, names)
    requires LinkApp(st, app, options, names, isQuantity).end == Finished
    ensures var linked := LinkApp(st, app, options, names, isQuantity).state;
            && linked.deployments.Keys == st.deployments.Keys
            && var after := UnlinkApp(linked, app, names, isQuantity);
            && after.end == Finished && after.state.deployments.Keys == st.deployments.Keys
            && after.state == st.(deployments := after.state.deployments, secrets := st.secrets - {SecretName(app)})
  {
    hide Inv, EditAll, EditDeployment, SecretName, NeverLinked;
    EditAllAt(st.deployments, names, app, Link(options), isQuantity, "");
    var linked := LinkApp(st, app, options, names, isQuantity).state;
    EditAllAt(linked.deployments, names, app, Unlink, isQuantity, "");
    if names != [] {
      LinkUnlinkAt(st, app, options, names, isQuantity, names[0]);
    }
    assert st.secrets + {SecretName(app)} - {SecretName(app)} == st.secrets - {SecretName(app)};
  }

  /** Unlinking undoes linking for all pods exactly when none of them had proxy parts before. */
  lemma UnlinkUndoesLinkIff(st: State, app: string, options: map<string, string>, names: seq<string>,
      isQuantity: string -> bool)
    requires Inv(st) && Listing(st.deployments, app, names)
    requires LinkApp(st, app, options, names, isQuantity).end == Finished
    ensures LinkApp(st, app, options, names, isQuantity).state.deployments.Keys == st.deployments.Keys
    ensures UnlinkApp(LinkApp(st, app, options, names, isQuantity).state, app, names, isQuantity)
         == Reply(st.(secrets := st.secrets - {SecretName(app)}), Finished)
       <==> forall n :: n in names ==> NeverLinked(st.deployments[n])
  {
    LinkUnlinkElse(st, app, options, names, isQuantity);
    var linked := LinkApp(st, app, options, names, isQuantity).state;
    var after := UnlinkApp(linked, app, names, isQuantity).state;
    forall n | n in st.deployments
      ensures after.deployments[n] == st.deployments[n] <==> (n !in names || NeverLinked(st.deployments[n]))
    {
      hide LinkApp, UnlinkApp;
      LinkUnlinkAt(st, app, options, names, isQuantity, n);
    }
    hide LinkApp, UnlinkApp, NeverLinked, Inv, SecretName;
    RestoredIff(st, after, names, SecretName(app));
  }

  lemma RestoredIff(st: State, after: State, names: seq<string>, secret: string)
    requires after.deployments.Keys == st.deployments.Keys && forall n :: n in names ==> n in st.deployments
    requires after == st.(deployments := after.deployments, secrets := st.secrets - {secret})
    requires forall n :: n in st.deployments ==>
      (after.deployments[n] == st.deployments[n] <==> (n !in names || NeverLinked(st.deployments[n])))
    ensures after == st.(secrets := st.secrets - {secret})
       <==> forall n :: n in names ==> NeverLinked(st.deployments[n])
  {
    hide NeverLinked;
    if forall n :: n in names ==> NeverLinked(st.deployments[n]) {
      assert after.deployments == st.deployments;
    }
  }

  // Deleting apps

  lemma DeletesCommute(st: State, a: string, b: string)
    ensures DeleteApp(DeleteApp(st, a), b) == DeleteApp(DeleteApp(st, b), a)
  {
    var ab, ba := DeleteApp(DeleteApp(st, a), b), DeleteApp(DeleteApp(st, b), a);
    assert ab.deployments == ba.deployments;
    assert ab.services == ba.services;
    assert ab.cronjobs == ba.cronjobs;
    if AnyManaged(ab.services) {
      var n :| n in ab.services && Managed(ab.services[n].labels);
      assert n in DeleteApp(st, a).services && n in DeleteApp(st, b).services;
    }
  }

  /** The object is one that datacol made, and of the app. */
  predicate Belongs(labels: Labels, app: string) {
    "managed-by" in labels && labels["managed-by"] == "datacol" && "app" in labels && labels["app"] == app
  }

  /** Deleting an app takes all its objects and no others, and the ingress exactly with the last managed service. */
  lemma DeleteSafety(st: State, app: string, n: string)
    ensures var after := DeleteApp(st, app);
            && (n in after.services <==> n in st.services && !Belongs(st.services[n].labels, app))
            && (n in after.deployments <==> n in st.deployments && !Belongs(st.deployments[n].labels, app))
            && (n in after.cronjobs <==> n in st.cronjobs && !Belongs(st.cronjobs[n].labels, app))
            && (n in after.services ==> after.services[n] == st.services[n])
            && (n in after.deployments ==> after.deployments[n] == st.deployments[n])
            && (n in after.cronjobs ==> after.cronjobs[n] == st.cronjobs[n])
            && after.secrets == st.secrets
    ensures DeleteApp(st, app).ingress
         == if exists m :: m in st.services && "managed-by" in st.services[m].labels
                           && st.services[m].labels["managed-by"] == "datacol" && !Belongs(st.services[m].labels, app)
            then st.ingress else NoIngress
  {
    if m :| m in st.services && Managed(st.services[m].labels) && !OfApp(st.services[m].labels, app) {
      assert m in DeleteApp(st, app).services;
    }
  }

  /** Nothing of the app is there. */
  ghost predicate Gone(st: State, app: string) {
    && (forall n :: n in st.deployments ==> !OfApp(st.deployments[n].labels, app))
    && (forall n :: n in st.services ==> !OfApp(st.services[n].labels, app))
    && (forall n :: n in st.cronjobs ==> !OfApp(st.cronjobs[n].labels, app))
  }

  lemma DeployKeepsGone(st: State, req: DeployRequest, world: World, app: string)
    requires Gone(st, app) && req.app != app
    ensures Gone(Run(st, req, world).state, app)
  {
    RunObjects(st, req, world);
    PutLabels(st, req);
    PutServiceLabels(st, req, world);
    CronKeepsOthers(st, req, if req.cron.Some? then req.cron.value else "");
    CronLabels(st, req, if req.cron.Some? then req.cron.value else "");
    OtherLabels(req, app);
    hide Run, PutDeployment, PutService, RunCron, ProcLabels, OfApp;
  }

  lemma OtherLabels(req: DeployRequest, app: string)
    requires req.app != app
    ensures !OfApp(ProcLabels(req.app, req.proctype), app)
    ensures !OfApp(map["app" := req.app, "managed-by" := HERITAGE], app)
  {
  }

  lemma PutLabels(st: State, req: DeployRequest)
    ensures var ds := PutDeployment(st, req).state.deployments;
            forall n :: n in ds ==>
              if n in st.deployments then ds[n].labels == st.deployments[n].labels
              else ds[n].labels == ProcLabels(req.app, req.proctype)
  {
    hide NewPod, ProcLabels;
  }

  lemma CronLabels(st: State, req: DeployRequest, schedule: string)
    ensures var cs := RunCron(st, req, schedule).state.cronjobs;
            forall n :: n in cs ==>
              if n in st.cronjobs then cs[n].labels == st.cronjobs[n].labels
              else cs[n].labels == ProcLabels(req.app, req.proctype)
  {
    hide NewPod, ProcLabels;
  }

  lemma PutServiceLabels(st: State, req: DeployRequest, world: World)
    ensures var services := PutService(st, req, world).services;
            forall n :: n in services ==>
              if n == req.serviceID then services[n].labels == map["app" := req.app, "managed-by" := HERITAGE]
              else n in st.services && services[n] == st.services[n]
  {
  }

  lemma EditKeepsGone(st: State, app: string, e: Edit, names: seq<string>, isQuantity: string -> bool, other: string)
    requires Gone(st, other) && Listing(st.deployments, app, names)
    ensures Gone(Step(st, EditEach(app, e, names), isQuantity), other)
  {
    EditStep(st, app, e, names, isQuantity);
    EditLeavesElse(st, app, e, names, isQuantity);
    hide Step, EditAll, EditDeployment;
    EditAllAt(st.deployments, names, app, e, isQuantity, "");
    forall n | n in st.deployments
      ensures EditAll(st.deployments, names, app, e, isQuantity).deployments[n].labels == st.deployments[n].labels
    {
      EditAllAt(st.deployments, names, app, e, isQuantity, n);
      EditKeepsLabels(e, app, st.deployments[n], isQuantity);
    }
  }

  lemma EditLeavesElse(st: State, app: string, e: Edit, names: seq<string>, isQuantity: string -> bool)
    requires Listing(st.deployments, app, names)
    ensures var after := Step(st, EditEach(app, e, names), isQuantity);
            after.services == st.services && after.cronjobs == st.cronjobs
  {
    hide EditAll;
  }

  lemma EditKeepsLabels(e: Edit, app: string, d: Deployment, isQuantity: string -> bool)
    ensures EditDeployment(e, app, d, isQuantity).Some? ==>
              EditDeployment(e, app, d, isQuantity).value.labels == d.labels
  {
    hide MergeProxy, PruneProxy;
  }

  lemma DeletedIsGone(st: State, app: string)
    ensures Gone(DeleteApp(st, app), app)
  {
  }

  /** A deleted app stays gone over every run in which nothing is deployed for it. */
  lemma {:induction false} DeletedStaysGone(states: seq<State>, actions: seq<Action>, isQuantity: string -> bool,
      app: string, i: nat, j: nat)
    requires IsRun(states, actions, isQuantity) && i < j < |states| && actions[i] == Remove(app)
    requires forall k :: i < k < j && actions[k].Deploy? ==> actions[k].req.app != app
    ensures Gone(states[j], app)
    decreases j
  {
    if i == j - 1 {
      hide Gone, DeleteApp, Run;
      DeletedIsGone(states[i], app);
    } else {
      DeletedStaysGone(states, actions, isQuantity, app, i, j - 1);
      StepKeepsGone(states[j - 1], actions[j - 1], isQuantity, app);
    }
  }

  lemma StepKeepsGone(st: State, a: Action, isQuantity: string -> bool, app: string)
    requires Gone(st, app) && Legal(st, a) && (a.Deploy? ==> a.req.app != app)
    ensures Gone(Step(st, a, isQuantity), app)
  {
    match a
    case Deploy(req, world) =>
      DeployKeepsGone(st, req, world, app);
      hide Run, Gone;
    case EditEach(other, e, names) =>
      EditKeepsGone(st, other, e, names, isQuantity, app);
      hide Step;
    case Remove(_) =>
  }
}
