/**
 Runs of what users do to an app: releases, scalings, limits, links, unlinks, restarts and deletions, of
 any apps in any order and however each of them ends.  The replicas of a process are those of the last
 scaling that reached it, and its resources what the last limits that reached it have made of them.
 */
module CallRuns {
  import opened AppRuns
  import opened Apps
  import opened ClusterRuns
  import opened Deploys
  import opened Edits
  import opened Kube
  import opened Limits
  import opened Options
  import opened Sidecar

  /** `running` is whatever a listing has found, and the keys of a scaling come in any order. */
  datatype Call =
    | Update(release: AppRelease, running: seq<Process>, atoi: string -> Option<int>, worlds: seq<World>)
    | Scale(scaling: Scaling, keys: seq<string>, worlds: seq<World>)
    | Change(app: string, edit: Edit, names: seq<string>)
    | Delete(app: string)

  ghost predicate Possible(st: State, call: Call) {
    match call
    case Update(_, running, _, worlds) => |worlds| > |Apps.Others(running)|
    case Scale(s, keys, worlds) => Enumerates(keys, s.structure) && |worlds| >= |keys|
    case Change(app, _, names) => Listing(st.deployments, app, names)
    case Delete(_) => true
  }

  ghost function Do(st: State, call: Call, isQuantity: string -> bool): State
    requires Possible(st, call)
  {
    match call
    case Update(r, running, atoi, worlds) => Release(st, r, running, atoi, worlds).state
    case Scale(s, keys, worlds) => DeployAll(st, ScaleRequests(s, keys), worlds).state
    case Change(app, e, names) => Step(st, EditEach(app, e, names), isQuantity)
    case Delete(app) => DeleteApp(st, app)
  }

  /** The states that a sequence of calls leads through. */
  ghost predicate AreCalls(states: seq<State>, calls: seq<Call>, isQuantity: string -> bool) {
    && |states| == |calls| + 1
    && forall i :: 0 <= i < |calls| ==>
         Possible(states[i], calls[i]) && states[i + 1] == Do(states[i], calls[i], isQuantity)
  }

  // Which calls reach a process

  /** How many requests of a row are made before it ends. */
  ghost function Attempted(st: State, requests: seq<Option<DeployRequest>>, worlds: seq<World>): (k: nat)
    requires |requests| <= |worlds|
    ensures k <= |requests| && forall i :: 0 <= i < k ==> requests[i].Some?
    decreases |requests|
  {
    if requests == [] || requests[0].None? then 0
    else
      var r := Run(st, requests[0].value, worlds[0]);
      1 + if r.end == Finished then Attempted(r.state, requests[1..], worlds[1..]) else 0
  }

  /** The scaling comes to a process of this type that is no cron job: its deployment is put, whatever comes of it. */
  ghost predicate ScaleReaches(st: State, call: Call, key: string)
    requires Possible(st, call) && call.Scale?
  {
    var requests := ScaleRequests(call.scaling, call.keys);
    exists k :: 0 <= k < Attempted(st, requests, call.worlds) && call.keys[k] == key && Scales(requests[k].value)
  }

  /** The deployment is named after the app and the process type. */
  predicate IsProcess(n: string, app: string, key: string) {
    n == app + "-" + key
  }

  ghost predicate Scaled(st: State, call: Call, n: string)
    requires Possible(st, call)
  {
    call.Scale? && exists key :: IsProcess(n, call.scaling.app, key) && ScaleReaches(st, call, key)
  }

  /** The limits name the type of the process, and the deployment comes before a text that does not parse. */
  ghost predicate Limited(st: State, call: Call, n: string, isQuantity: string -> bool)
    requires Possible(st, call)
  {
    && call.Change? && call.edit.SetLimits? && n in st.deployments
    && Reaches(st, call.app, call.edit, call.names, n, isQuantity)
    && Get(st.deployments[n].labels, "type") in call.edit.limits
  }

  /** The app is linked to a database or unlinked. */
  predicate Relinked(call: Call, app: string) {
    call.Change? && call.app == app && (call.edit.Link? || call.edit.Unlink?)
  }

  // Rows of requests

  /** The replicas that the last request made for the deployment asks for. */
  ghost function LastReplicas(st: State, requests: seq<Option<DeployRequest>>, worlds: seq<World>,
      n: string): Option<int>
    requires |requests| <= |worlds|
    decreases |requests|
  {
    if requests == [] || requests[0].None? then None
    else
      var req := requests[0].value;
      var r := Run(st, req, worlds[0]);
      var later := if r.end == Finished then LastReplicas(r.state, requests[1..], worlds[1..], n) else None;
      if later.None? && req.serviceID == n && Scales(req) then req.replicas else later
  }

  predicate ScalesAt(requests: seq<Option<DeployRequest>>, k: nat, n: string)
    requires k < |requests| && requests[k].Some?
  {
    requests[k].value.serviceID == n && Scales(requests[k].value)
  }

  lemma {:induction false} LastReplicasIsOne(st: State, requests: seq<Option<DeployRequest>>, worlds: seq<World>,
      n: string)
    requires |requests| <= |worlds|
    ensures var last := LastReplicas(st, requests, worlds, n); var made := Attempted(st, requests, worlds);
            && (last.Some? ==>
                  exists k :: 0 <= k < made && ScalesAt(requests, k, n) && requests[k].value.replicas == last)
            && (last.None? ==> forall k :: 0 <= k < made ==> !ScalesAt(requests, k, n))
    decreases |requests|
  {
    if requests != [] && requests[0].Some? {
      var r := Run(st, requests[0].value, worlds[0]);
      hide Run, Scales;
      if r.end == Finished {
        var rest, made := requests[1..], Attempted(r.state, requests[1..], worlds[1..]);
        LastReplicasIsOne(r.state, rest, worlds[1..], n);
        var later := LastReplicas(r.state, rest, worlds[1..], n);
        if later.Some? {
          var k :| 0 <= k < made && ScalesAt(rest, k, n) && rest[k].value.replicas == later;
          assert ScalesAt(requests, k + 1, n);
        } else {
          forall k | 0 < k < 1 + made ensures !ScalesAt(requests, k, n) {
            assert !ScalesAt(rest, k - 1, n);
          }
        }
      }
      if requests[0].value.serviceID == n && Scales(requests[0].value) {
        assert ScalesAt(requests, 0, n);
      }
    }
  }

  ghost function WithReplicas(s: Settings, replicas: Option<int>): Settings {
    if replicas.Some? then s.(replicas := replicas.value) else s
  }

  /** A row of requests leaves everything of a sound deployment but the replicas as it is. */
  lemma {:induction false} RowSettings(st: State, requests: seq<Option<DeployRequest>>, worlds: seq<World>, n: string)
    requires |requests| <= |worlds| && SoundAt(st, n)
    ensures var after := DeployAll(st, requests, worlds).state;
            && SoundAt(after, n)
            && SettingsOf(after.deployments[n])
               == WithReplicas(SettingsOf(st.deployments[n]), LastReplicas(st, requests, worlds, n))
    decreases |requests|
  {
    if requests != [] && requests[0].Some? {
      var r := Run(st, requests[0].value, worlds[0]);
      DeploySettings(st, requests[0].value, worlds[0], n);
      hide Run, Sound, SettingsOf;
      if r.end == Finished {
        RowSettings(r.state, requests[1..], worlds[1..], n);
      }
    }
  }

  /** A row of requests makes no deployment that is not sound, and gives it the replicas that it asks for. */
  lemma {:induction false} RowCreates(st: State, requests: seq<Option<DeployRequest>>, worlds: seq<World>, n: string)
    requires |requests| <= |worlds| && n !in st.deployments && n != PROXY
    requires forall i :: 0 <= i < |requests| && requests[i].Some? ==> requests[i].value.serviceID == n ==>
               WellNamed(requests[i].value)
    ensures var after := DeployAll(st, requests, worlds).state; var last := LastReplicas(st, requests, worlds, n);
            n in after.deployments ==>
              SoundAt(after, n) && (last.Some? ==> after.deployments[n].replicas == last.value)
    decreases |requests|
  {
    if requests != [] && requests[0].Some? {
      var req := requests[0].value;
      var r := Run(st, req, worlds[0]);
      RunCreates(st, req, worlds[0], n);
      hide Run, Sound, SettingsOf, Scales;
      if r.end == Finished {
        if n in r.state.deployments {
          RowSettings(r.state, requests[1..], worlds[1..], n);
          hide SoundAt;
          assert SettingsOf(r.state.deployments[n]).replicas == r.state.deployments[n].replicas;
        } else {
          RowCreates(r.state, requests[1..], worlds[1..], n);
        }
      }
    }
  }

  lemma RunCreates(st: State, req: DeployRequest, world: World, n: string)
    requires n !in st.deployments && (req.serviceID == n ==> WellNamed(req))
    ensures var after := Run(st, req, world).state;
            n in after.deployments ==>
              && SoundAt(after, n) && req.serviceID == n
              && (Scales(req) ==> after.deployments[n].replicas == req.replicas.value)
  {
    if req.serviceID != n {
      RunTouches(st, req, world, n);
      hide Run;
    } else {
      RunObjects(st, req, world);
      if req.cron.Some? {
        CronKeepsOthers(st, req, req.cron.value);
      } else if NewPod(req).Manifest? {
        NewPodSound(req);
      }
      hide Run, RunCron, NewPod, Sound;
    }
  }

  // One call

  /** The row of a scaling has one request for each type, so that the last one for a process is the one. */
  lemma ScaleRow(st: State, call: Call, n: string)
    requires Possible(st, call) && call.Scale?
    ensures var last := LastReplicas(st, ScaleRequests(call.scaling, call.keys), call.worlds, n);
            && (forall key :: IsProcess(n, call.scaling.app, key) && ScaleReaches(st, call, key) ==>
                  key in call.scaling.structure && last == Some(call.scaling.structure[key]))
            && (!Scaled(st, call, n) ==> last == None)
  {
    var s, keys := call.scaling, call.keys;
    var requests := ScaleRequests(s, keys);
    var last, made := LastReplicas(st, requests, call.worlds, n), Attempted(st, requests, call.worlds);
    LastReplicasIsOne(st, requests, call.worlds, n);
    hide ScaleRequests, LastReplicas, Attempted, Scales;
    forall k | 0 <= k < made
      ensures keys[k] in s.structure && requests[k].value.serviceID == s.app + "-" + keys[k]
      ensures requests[k].value.replicas == Some(s.structure[keys[k]])
    {
      ScaleRequestAt(s, keys, k);
      assert keys[k] in keys;
    }
    forall key | IsProcess(n, s.app, key) && ScaleReaches(st, call, key)
      ensures key in s.structure && last == Some(s.structure[key])
    {
      var k :| 0 <= k < made && keys[k] == key && Scales(requests[k].value);
      assert ScalesAt(requests, k, n);
      var j :| 0 <= j < made && ScalesAt(requests, j, n) && requests[j].value.replicas == last;
      if keys[j] != key {
        SuffixesDiffer(s.app + "-", keys[j], key);
      }
    }
    if last.Some? {
      var j :| 0 <= j < made && ScalesAt(requests, j, n) && requests[j].value.replicas == last;
      assert IsProcess(n, s.app, keys[j]) && ScaleReaches(st, call, keys[j]);
    }
  }

  /** What a call leaves of the replicas and the resources of a deployment, and of its labels. */
  ghost predicate Leaves(st: State, call: Call, isQuantity: string -> bool, n: string, after: State)
    requires Possible(st, call) && SoundAt(st, n)
  {
    && SoundAt(after, n)
    && var s, s' := SettingsOf(st.deployments[n]), SettingsOf(after.deployments[n]);
    && s'.labels == s.labels
    && (call.Scale? ==>
          forall key :: IsProcess(n, call.scaling.app, key) && ScaleReaches(st, call, key) ==>
            key in call.scaling.structure && s'.replicas == call.scaling.structure[key])
    && (!Scaled(st, call, n) ==> s'.replicas == s.replicas)
    && (Limited(st, call, n, isQuantity) ==>
          MergeConstraints(s.resources, call.edit.resource, call.edit.limits[Get(s.labels, "type")], isQuantity)
          == Some(s'.resources))
    && (!Limited(st, call, n, isQuantity) ==> s'.resources == s.resources)
    && (!Relinked(call, Get(s.labels, "app")) ==> s'.beside == s.beside)
  }

  lemma CallLeaves(st: State, call: Call, isQuantity: string -> bool, n: string)
    requires Possible(st, call) && SoundAt(st, n)
    requires call.Delete? ==> !OfApp(st.deployments[n].labels, call.app)
    ensures Leaves(st, call, isQuantity, n, Do(st, call, isQuantity))
  {
    hide Sound, MergeConstraints, ScaleReaches, EditAll, DeployAll;
    match call
    case Update(r, running, atoi, worlds) =>
      ReleaseKeepsSettings(st, r, running, atoi, worlds, n);
    case Scale(s, keys, worlds) =>
      RowSettings(st, ScaleRequests(s, keys), worlds, n);
      ScaleRow(st, call, n);
      hide Scaled, ScaleRequests, LastReplicas;
    case Change(app, e, names) =>
      ChangeLeaves(st, app, e, names, isQuantity, n);
    case Delete(app) =>
  }

  lemma ChangeLeaves(st: State, app: string, e: Edit, names: seq<string>, isQuantity: string -> bool, n: string)
    requires Listing(st.deployments, app, names) && SoundAt(st, n)
    ensures Leaves(st, Change(app, e, names), isQuantity, n, Do(st, Change(app, e, names), isQuantity))
  {
    EditStep(st, app, e, names, isQuantity);
    EditAllSettings(st.deployments, names, app, e, isQuantity, n);
    hide Sound, MergeConstraints, MergeProxy, PruneProxy, EditAll, Step, Listing;
  }

  // Runs of calls

  ghost predicate Undeleted(app: string, calls: seq<Call>, i: nat, j: nat) {
    forall k :: i <= k < j <= |calls| ==> calls[k] != Delete(app)
  }

  /** What no call reaches stays: replicas, resources, sidecars and labels of a process whose app is not deleted. */
  lemma {:induction false} UnreachedStays(states: seq<State>, calls: seq<Call>, isQuantity: string -> bool, n: string,
      i: nat, j: nat)
    requires AreCalls(states, calls, isQuantity) && i <= j < |states| && SoundAt(states[i], n)
    requires Undeleted(Get(states[i].deployments[n].labels, "app"), calls, i, j)
    ensures SoundAt(states[j], n)
    ensures var s, s' := SettingsOf(states[i].deployments[n]), SettingsOf(states[j].deployments[n]);
            && s'.labels == s.labels
            && ((forall k :: i <= k < j ==> !Scaled(states[k], calls[k], n)) ==> s'.replicas == s.replicas)
            && ((forall k :: i <= k < j ==> !Limited(states[k], calls[k], n, isQuantity)) ==>
                  s'.resources == s.resources)
            && ((forall k :: i <= k < j ==> !Relinked(calls[k], Get(s.labels, "app"))) ==> s'.beside == s.beside)
    decreases j
  {
    hide Do, Sound, Scaled, Limited, Relinked, Possible;
    if i < j {
      UnreachedStays(states, calls, isQuantity, n, i, j - 1);
      CallLeaves(states[j - 1], calls[j - 1], isQuantity, n);
    }
  }

  /**
   Over every run of calls: once a scaling has reached a process, its replicas are those asked for until
   another scaling reaches it or its app is deleted, whether the deployment was there before or not.
   */
  lemma LastScalingWins(states: seq<State>, calls: seq<Call>, isQuantity: string -> bool, n: string, key: string,
      i: nat, j: nat)
    requires AreCalls(states, calls, isQuantity) && i < j < |states| && n != PROXY
    requires calls[i].Scale? && IsProcess(n, calls[i].scaling.app, key) && ScaleReaches(states[i], calls[i], key)
    requires n in states[i].deployments ==> SoundAt(states[i], n)
    requires n in states[i + 1].deployments
    requires Undeleted(Get(states[i + 1].deployments[n].labels, "app"), calls, i + 1, j)
    requires forall k :: i < k < j ==> !Scaled(states[k], calls[k], n)
    ensures key in calls[i].scaling.structure && SoundAt(states[j], n)
    ensures states[j].deployments[n].replicas == calls[i].scaling.structure[key]
  {
    var s := calls[i].scaling;
    ScaleRow(states[i], calls[i], n);
    if n in states[i].deployments {
      RowSettings(states[i], ScaleRequests(s, calls[i].keys), calls[i].worlds, n);
    } else {
      ScaleCreates(states[i], calls[i], n);
    }
    hide Sound, ScaleReaches, Scaled, DeployAll, ScaleRequests, LastReplicas;
    UnreachedStays(states, calls, isQuantity, n, i + 1, j);
    assert SettingsOf(states[j].deployments[n]).replicas == states[j].deployments[n].replicas;
  }

  lemma ScaleCreates(st: State, call: Call, n: string)
    requires Possible(st, call) && call.Scale? && n !in st.deployments && n != PROXY
    ensures var after := DeployAll(st, ScaleRequests(call.scaling, call.keys), call.worlds).state;
            var last := LastReplicas(st, ScaleRequests(call.scaling, call.keys), call.worlds, n);
            n in after.deployments ==>
              SoundAt(after, n) && (last.Some? ==> after.deployments[n].replicas == last.value)
  {
    var s, keys := call.scaling, call.keys;
    forall i | 0 <= i < |keys| && ScaleRequests(s, keys)[i].Some? && ScaleRequests(s, keys)[i].value.serviceID == n
      ensures WellNamed(ScaleRequests(s, keys)[i].value)
    {
      ScaleRequestAt(s, keys, i);
    }
    hide ScaleRequests, DeployAll, LastReplicas, SoundAt;
    RowCreates(st, ScaleRequests(s, keys), call.worlds, n);
  }

  /**
   Over every run of calls: once limits have reached a process, its resources are what they have made of
   those it had, until others reach it or its app is deleted.
   */
  lemma LastLimitsWin(states: seq<State>, calls: seq<Call>, isQuantity: string -> bool, n: string, i: nat, j: nat)
    requires AreCalls(states, calls, isQuantity) && i < j < |states| && SoundAt(states[i], n)
    requires Limited(states[i], calls[i], n, isQuantity)
    requires Undeleted(Get(states[i].deployments[n].labels, "app"), calls, i, j)
    requires forall k :: i < k < j ==> !Limited(states[k], calls[k], n, isQuantity)
    ensures SoundAt(states[j], n)
    ensures var s, e := SettingsOf(states[i].deployments[n]), calls[i].edit;
            MergeConstraints(s.resources, e.resource, e.limits[Get(s.labels, "type")], isQuantity)
            == Some(SettingsOf(states[j].deployments[n]).resources)
    ensures var s, e := SettingsOf(states[i].deployments[n]), calls[i].edit;
            SetTo(s.resources, SettingsOf(states[j].deployments[n]).resources, e.resource,
                  e.limits[Get(s.labels, "type")])
  {
    CallLeaves(states[i], calls[i], isQuantity, n);
    hide Do, Sound, Scaled, Reaches, MergeConstraints, SetTo;
    var s, e := SettingsOf(states[i].deployments[n]), calls[i].edit;
    MergeSets(s.resources, e.resource, e.limits[Get(s.labels, "type")], isQuantity);
    UnreachedStays(states, calls, isQuantity, n, i + 1, j);
  }

  // Calls are runs of deploys, edits and deletions

  /** No process that the call may deploy is named like the proxy. */
  predicate NoProxy(call: Call) {
    match call
    case Update(r, running, _, _) =>
      && r.app + "-" + DefaultProctype(r.procfile) != PROXY
      && forall p :: p in Apps.Others(running) ==> r.app + "-" + p.proctype != PROXY
    case Scale(s, _, _) => forall key :: key in s.structure ==> s.app + "-" + key != PROXY
    case Change(_, _, _) => true
    case Delete(_) => true
  }

  lemma ReleaseIsLegal(r: AppRelease, port: int, running: seq<Process>)
    requires r.app + "-" + DefaultProctype(r.procfile) != PROXY
    requires forall p :: p in Apps.Others(running) ==> r.app + "-" + p.proctype != PROXY
    ensures AllLegal(ReleaseRequests(r, port, running))
  {
    var all := ReleaseRequests(r, port, running);
    hide ReleaseRequests;
    forall i | 0 <= i < |all| && all[i].Some? ensures WellNamed(all[i].value) {
      ReleaseRequestAt(r, port, running, i);
      assert i > 0 ==> Apps.Others(running)[i - 1] in Apps.Others(running);
    }
  }

  lemma ScaleIsLegal(s: Scaling, keys: seq<string>)
    requires forall key :: key in s.structure ==> s.app + "-" + key != PROXY
    requires forall k :: k in keys ==> k in s.structure
    ensures AllLegal(ScaleRequests(s, keys))
  {
    hide ScaleRequests;
    forall i | 0 <= i < |keys| && ScaleRequests(s, keys)[i].Some? ensures WellNamed(ScaleRequests(s, keys)[i].value) {
      ScaleRequestAt(s, keys, i);
      assert keys[i] in keys;
    }
  }

  lemma CallIsRun(st: State, call: Call, isQuantity: string -> bool)
    returns (states: seq<State>, actions: seq<Action>)
    requires Possible(st, call) && NoProxy(call)
    ensures IsRun(states, actions, isQuantity)
    ensures states[0] == st && states[|actions|] == Do(st, call, isQuantity)
  {
    hide DeployAll, ReleaseRequests, ScaleRequests, Step, AllLegal, DeleteApp;
    match call
    case Update(r, running, atoi, worlds) =>
      match AppPort(r.env, atoi) {
        case None => states, actions := [st], [];
        case Some(port) =>
          ReleaseIsLegal(r, port, running);
          states, actions := DeployAllIsRun(st, ReleaseRequests(r, port, running), worlds, isQuantity);
      }
    case Scale(s, keys, worlds) =>
      ScaleIsLegal(s, keys);
      states, actions := DeployAllIsRun(st, ScaleRequests(s, keys), worlds, isQuantity);
    case Change(app, e, names) =>
      states, actions := [st, Do(st, call, isQuantity)], [EditEach(app, e, names)];
    case Delete(app) =>
      DeleteIsStep(st, app, isQuantity);
      states, actions := [st, Do(st, call, isQuantity)], [Remove(app)];
  }

  lemma DeleteIsStep(st: State, app: string, isQuantity: string -> bool)
    ensures Step(st, Remove(app), isQuantity) == DeleteApp(st, app)
  {
  }

  lemma RunsConcat(a: seq<State>, f: seq<Action>, b: seq<State>, g: seq<Action>, isQuantity: string -> bool)
    requires IsRun(a, f, isQuantity) && IsRun(b, g, isQuantity) && a[|f|] == b[0]
    ensures IsRun(a + b[1..], f + g, isQuantity)
    ensures (a + b[1..])[0] == a[0] && (a + b[1..])[|f + g|] == b[|g|]
  {
    hide Step, Legal;
    var all, actions := a + b[1..], f + g;
    forall i | 0 <= i < |actions|
      ensures Legal(all[i], actions[i]) && all[i + 1] == Step(all[i], actions[i], isQuantity)
    {
      if i >= |f| {
        var k := i - |f|;
        assert all[i] == b[k] && all[i + 1] == b[k + 1] && actions[i] == g[k];
      } else {
        assert all[i] == a[i] && all[i + 1] == a[i + 1] && actions[i] == f[i];
      }
    }
  }

  /** Every run of calls is a run of the cluster, so that all that holds over its runs holds over calls. */
  lemma {:induction false} CallsAreRun(states: seq<State>, calls: seq<Call>, isQuantity: string -> bool, i: nat)
    returns (all: seq<State>, actions: seq<Action>)
    requires AreCalls(states, calls, isQuantity) && i < |states|
    requires forall k :: 0 <= k < i ==> NoProxy(calls[k])
    ensures IsRun(all, actions, isQuantity) && all[0] == states[0] && all[|actions|] == states[i]
  {
    hide Do, Step, Possible, NoProxy, Legal;
    if i == 0 {
      return [states[0]], [];
    }
    var before, past := CallsAreRun(states, calls, isQuantity, i - 1);
    var last, more := CallIsRun(states[i - 1], calls[i - 1], isQuantity);
    RunsConcat(before, past, last, more, isQuantity);
    all, actions := before + last[1..], past + more;
  }

  /** Over every run of calls, every pod has its app container in front and at most one proxy. */
  lemma CallsKeepInv(states: seq<State>, calls: seq<Call>, isQuantity: string -> bool, i: nat)
    requires AreCalls(states, calls, isQuantity) && i < |states| && Inv(states[0])
    requires forall k :: 0 <= k < i ==> NoProxy(calls[k])
    ensures Inv(states[i])
  {
    hide Do, Inv, Possible, NoProxy, IsRun, AreCalls;
    var all, actions := CallsAreRun(states, calls, isQuantity, i);
    RunLength(all, actions, isQuantity);
    RunKeepsInv(all, actions, isQuantity, |actions|);
  }

  lemma RunLength(states: seq<State>, actions: seq<Action>, isQuantity: string -> bool)
    requires IsRun(states, actions, isQuantity)
    ensures |states| == |actions| + 1
  {
  }
}
