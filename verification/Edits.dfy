/** Restarting an app and setting its limits, told by what stands in the deployments afterwards. */
module Edits {
  import opened ClusterRuns
  import opened Kube
  import opened Limits
  import opened Linking
  import opened Options
  import opened Sidecar

  /** Nothing of the namespace is touched but the deployments of the app. */
  ghost predicate TouchesOnly(st: State, after: State, names: seq<string>) {
    && after == st.(deployments := after.deployments) && after.deployments.Keys == st.deployments.Keys
    && forall n :: n in st.deployments && n !in names ==> after.deployments[n] == st.deployments[n]
  }

  lemma EditTouchesOnly(st: State, app: string, names: seq<string>, e: Edit, isQuantity: string -> bool)
    requires Listing(st.deployments, app, names)
    ensures TouchesOnly(st, EditApp(st, app, names, e, isQuantity).state, names)
  {
    hide EditAll, EditDeployment;
    EditAllAt(st.deployments, names, app, e, isQuantity, "");
    forall n | n in st.deployments && n !in names
      ensures EditApp(st, app, names, e, isQuantity).state.deployments[n] == st.deployments[n]
    {
      EditAllAt(st.deployments, names, app, e, isQuantity, n);
    }
  }

  /** After an edit that finishes each deployment of the app is edited. */
  lemma FinishedEdit(st: State, app: string, names: seq<string>, e: Edit, isQuantity: string -> bool, n: string)
    requires Listing(st.deployments, app, names) && n in names
    requires EditApp(st, app, names, e, isQuantity).end == Finished
    ensures var after := EditApp(st, app, names, e, isQuantity).state;
            n in after.deployments
            && EditDeployment(e, app, st.deployments[n], isQuantity) == Some(after.deployments[n])
  {
    hide EditAll, EditDeployment;
    EditAllAt(st.deployments, names, app, e, isQuantity, n);
    assert names[..|names|] == names;
  }

  /** A restart gives the app container of every deployment of the app the new environment, and changes nothing else. */
  lemma RestartMeaning(st: State, app: string, env: map<string, string>, names: seq<string>, isQuantity: string -> bool,
      n: string)
    requires Inv(st) && Listing(st.deployments, app, names) && n in names
    ensures var r := EditApp(st, app, names, SetEnv(env), isQuantity);
            && r.end == Finished && TouchesOnly(st, r.state, names)
            && var d, d' := st.deployments[n], r.state.deployments[n];
            && |d'.pod.containers| == |d.pod.containers| > 0
            && d'.pod.containers[0] == d.pod.containers[0].(env := d'.pod.containers[0].env)
            && d'.pod.containers[0].env == (map k | k in env && k != "" :: env[k])
            && d'.pod.containers[1..] == d.pod.containers[1..]
            && d' == d.(pod := d'.pod) && d'.pod.volumes == d.pod.volumes
  {
    forall m | m in names ensures EditDeployment(SetEnv(env), app, st.deployments[m], isQuantity).Some? {
    }
    EditAllFinishes(st.deployments, names, app, SetEnv(env), isQuantity);
    EditTouchesOnly(st, app, names, SetEnv(env), isQuantity);
    FinishedEdit(st, app, names, SetEnv(env), isQuantity, n);
    hide EditApp, Inv;
  }

  /** The text can be read: what it asks for is either nothing or a quantity. */
  ghost predicate Readable(text: string, isQuantity: string -> bool) {
    text == "0" || forall request, limit :: AsksFor(text, request, limit) ==>
      (request == "" || isQuantity(request)) && (limit == "" || isQuantity(limit))
  }

  lemma ReadableIff(held: Resources, t: string, text: string, isQuantity: string -> bool)
    ensures MergeConstraints(held, t, text, isQuantity).Some? <==> Readable(text, isQuantity)
  {
    var request, limit := AsksForSomething(text);
    SettingMeaning(held, t, text, request, limit, isQuantity);
    forall q, l | AsksFor(text, q, l) ensures q == request && l == limit {
      PartsMeaning(text, q, l);
      PartsMeaning(text, request, limit);
    }
  }

  /** The text that is set for the deployment, if any. */
  ghost predicate Asked(d: Deployment, limits: map<string, string>, text: string) {
    Get(d.labels, "type") in limits && limits[Get(d.labels, "type")] == text
  }

  lemma LimitsAt(d: Deployment, n: string, app: string, resource: string, limits: map<string, string>,
      isQuantity: string -> bool)
    requires Sound(d.labels, d.pod, n) && OfApp(d.labels, app)
    ensures var r := EditDeployment(SetLimits(resource, limits), app, d, isQuantity);
            if Get(d.labels, "type") !in limits then r == Some(d)
            else
              var c := d.pod.containers[0];
              match MergeConstraints(c.resources, resource, limits[Get(d.labels, "type")], isQuantity)
              case None => r == None
              case Some(merged) =>
                r == Some(d.(pod := d.pod.(containers := [c.(resources := merged)] + d.pod.containers[1..])))
  {
    hide MergeConstraints;
    var cs := d.pod.containers;
    FirstNamedIs(cs, n, 0);
    assert n == app + "-" + Get(d.labels, "type");
    forall c: Container ensures cs[0 := c] == [c] + cs[1..] {
    }
  }

  /** Limits are set for all processes exactly if each text that is meant for a process can be read. */
  lemma LimitsFinishIff(st: State, app: string, resource: string, limits: map<string, string>, names: seq<string>,
      isQuantity: string -> bool)
    requires Inv(st) && Listing(st.deployments, app, names)
    ensures EditApp(st, app, names, SetLimits(resource, limits), isQuantity).end
         == if forall n, text :: n in names && Asked(st.deployments[n], limits, text) ==> Readable(text, isQuantity)
            then Finished else Error
  {
    var e := SetLimits(resource, limits);
    EditAllFinishes(st.deployments, names, app, e, isQuantity);
    forall n | n in names
      ensures EditDeployment(e, app, st.deployments[n], isQuantity).Some?
         <==> forall text :: Asked(st.deployments[n], limits, text) ==> Readable(text, isQuantity)
    {
      var d := st.deployments[n];
      assert Sound(d.labels, d.pod, n);
      LimitsAt(d, n, app, resource, limits, isQuantity);
      hide EditDeployment, MergeConstraints, Readable, Sound;
      if Get(d.labels, "type") in limits {
        ReadableIff(d.pod.containers[0].resources, resource, limits[Get(d.labels, "type")], isQuantity);
        assert Asked(d, limits, limits[Get(d.labels, "type")]);
      }
    }
    hide EditAll, EditDeployment, Readable, Asked, Inv;
  }

  /** What a text makes of the resources of a container. */
  ghost predicate SetTo(was: Resources, now: Resources, t: string, text: string) {
    forall request, limit :: AsksFor(text, request, limit) ==>
      if text == "0" then
        now == Resources(map k | k in was.limits && k != t :: was.limits[k],
                         map k | k in was.requests && k != t :: was.requests[k])
      else
        now == Resources(if limit == "" then map[] else map[t := limit],
                         if request == "" then map[] else map[t := request])
  }

  lemma MergeSets(held: Resources, t: string, text: string, isQuantity: string -> bool)
    ensures var r := MergeConstraints(held, t, text, isQuantity); r.Some? ==> SetTo(held, r.value, t, text)
  {
    hide MergeConstraints, AsksFor;
    forall request, limit | AsksFor(text, request, limit)
      ensures SettingLeaves(held, t, text, request, limit, isQuantity)
    {
      SettingMeaning(held, t, text, request, limit, isQuantity);
    }
  }

  ghost predicate SettingLeaves(held: Resources, t: string, text: string, request: string, limit: string,
      isQuantity: string -> bool) {
    var r := MergeConstraints(held, t, text, isQuantity);
    r.Some? ==>
      if text == "0" then
        r.value == Resources(map k | k in held.limits && k != t :: held.limits[k],
                             map k | k in held.requests && k != t :: held.requests[k])
      else
        r.value == Resources(if limit == "" then map[] else map[t := limit],
                             if request == "" then map[] else map[t := request])
  }

  /** After limits that finish each process that is named has what its text asks for, and nothing else is changed. */
  lemma LimitsMeaning(st: State, app: string, resource: string, limits: map<string, string>, names: seq<string>,
      isQuantity: string -> bool, n: string)
    requires Inv(st) && Listing(st.deployments, app, names) && n in names
    requires EditApp(st, app, names, SetLimits(resource, limits), isQuantity).end == Finished
    ensures var after := EditApp(st, app, names, SetLimits(resource, limits), isQuantity).state;
            && TouchesOnly(st, after, names)
            && var d, d' := st.deployments[n], after.deployments[n];
            && |d.pod.containers| > 0 && |d'.pod.containers| > 0
            && d' == d.(pod := d'.pod) && d'.pod.volumes == d.pod.volumes
            && d'.pod.containers[1..] == d.pod.containers[1..]
            && d'.pod.containers[0] == d.pod.containers[0].(resources := d'.pod.containers[0].resources)
            && (Get(d.labels, "type") !in limits ==> d' == d)
            && forall text :: Asked(d, limits, text) ==>
                 SetTo(d.pod.containers[0].resources, d'.pod.containers[0].resources, resource, text)
  {
    var d := st.deployments[n];
    assert Sound(d.labels, d.pod, n);
    EditTouchesOnly(st, app, names, SetLimits(resource, limits), isQuantity);
    FinishedEdit(st, app, names, SetLimits(resource, limits), isQuantity, n);
    LimitsAt(d, n, app, resource, limits, isQuantity);
    hide EditDeployment, MergeConstraints, SetTo, EditApp, Inv;
    if Get(d.labels, "type") in limits {
      MergeSets(d.pod.containers[0].resources, resource, limits[Get(d.labels, "type")], isQuantity);
    }
  }
}
