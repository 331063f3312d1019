/**
 Linking an app to a database and unlinking it, told by what stands in the pods afterwards: the proxy is
 started for the instance on the port that the database listens on, with the credentials of the app.
 */
module Databases {
  import opened ClusterRuns
  import opened Kube
  import opened Linking
  import opened Options
  import opened Sidecar

  /** The URL names the kind of database, with or without anything behind. */
  predicate Names(url: string, kind: string) {
    url == kind || kind + "://" <= url
  }

  lemma {:induction false} SchemeMeaning(url: string, kind: string)
    requires ':' !in kind
    ensures Scheme(url) == kind <==> Names(url, kind)
    decreases |url|
  {
    if url != "" && !("://" <= url) && kind != "" {
      SchemeMeaning(url[1..], kind[1..]);
      assert kind == [kind[0]] + kind[1..] && url == [url[0]] + url[1..];
      assert kind + "://" == [kind[0]] + (kind[1..] + "://");
    } else if kind != "" {
      assert (kind + "://")[0] == kind[0] != ':';
    }
  }

  /** Only these two have a port; any other database ends the process. */
  predicate Known(url: string) {
    Names(url, "mysql") || Names(url, "postgres")
  }

  /** The proxy of the instance, listening where the database is looked for. */
  predicate IsProxyFor(c: Container, instance: string, url: string) {
    && c.name == "cloudsql-proxy" && c.image == "gcr.io/cloudsql-docker/gce-proxy:1.09"
    && c.args == [] && c.env == map[] && c.port == 0 && c.resources == Resources(map[], map[])
    && |c.command| == 4 && c.command[0] == "/cloud_sql_proxy" && c.command[1] == "--dir=/cloudsql"
    && c.command[3] == "-credential_file=/secrets/cloudsql/credentials.json"
    && (Names(url, "mysql") ==> c.command[2] == "-instances=" + instance + "=tcp:3306")
    && (Names(url, "postgres") ==> c.command[2] == "-instances=" + instance + "=tcp:5432")
  }

  predicate Instance(env: map<string, string>, instance: string) {
    instance == if "INSTANCE_NAME" in env then env["INSTANCE_NAME"] else ""
  }

  /** The volumes of the proxy: the secret of the app, and an empty one for the sockets. */
  predicate AreProxyVolumes(volumes: seq<Volume>, app: string) {
    && |volumes| == 2
    && volumes[0] == Volume("cloudsql-instance-credentials", app + "-cloudsql-secret")
    && volumes[1] == Volume("cloudsql", "")
  }

  ghost predicate Proxied(pod: PodSpec, merged: PodSpec, app: string, instance: string, url: string) {
    if exists i :: 0 <= i < |pod.containers| && pod.containers[i].name == "cloudsql-proxy" then
      && merged.volumes == pod.volumes && |merged.containers| == |pod.containers|
      && forall i :: 0 <= i < |pod.containers| ==>
           if pod.containers[i].name == "cloudsql-proxy" then IsProxyFor(merged.containers[i], instance, url)
           else merged.containers[i] == pod.containers[i]
    else
      && |merged.containers| == |pod.containers| + 1
      && merged.containers[..|pod.containers|] == pod.containers
      && IsProxyFor(merged.containers[|pod.containers|], instance, url)
      && |pod.volumes| <= |merged.volumes| && merged.volumes[..|pod.volumes|] == pod.volumes
      && (merged.volumes == pod.volumes || AreProxyVolumes(merged.volumes[|pod.volumes|..], app))
      && (merged.volumes == pod.volumes <==>
            exists i :: 0 <= i < |pod.volumes| && pod.volumes[i].name == "cloudsql-instance-credentials")
  }

  /** What merging does to any pod: nothing without a database, an exit for one without a port, else the proxy. */
  lemma MergeMeaning(pod: PodSpec, app: string, env: map<string, string>, instance: string)
    requires Instance(env, instance)
    ensures "DATABASE_URL" !in env ==> MergeProxy(pod, app, env) == Manifest(pod)
    ensures "DATABASE_URL" in env ==> (MergeProxy(pod, app, env).Manifest? <==> Known(env["DATABASE_URL"]))
    ensures "DATABASE_URL" in env && Known(env["DATABASE_URL"]) ==>
              Proxied(pod, MergeProxy(pod, app, env).pod, app, instance, env["DATABASE_URL"])
  {
    hide AddProxy, Proxied, Names, Scheme, DefaultPort, Known, IsProxyFor, ProxyContainer, Instance;
    if "DATABASE_URL" in env {
      var url := env["DATABASE_URL"];
      PortMeaning(url);
      if Known(url) {
        var port := DefaultPort(Scheme(url)).number;
        ProxyMeaning(env, instance, url, port);
        AddMeaning(pod, app, ProxyContainer(env, port), instance, url);
      }
    }
  }

  lemma PortMeaning(url: string)
    ensures Names(url, "mysql") ==> DefaultPort(Scheme(url)) == Port("3306")
    ensures Names(url, "postgres") ==> DefaultPort(Scheme(url)) == Port("5432")
    ensures DefaultPort(Scheme(url)).Port? <==> Known(url)
  {
    SchemeMeaning(url, "mysql");
    SchemeMeaning(url, "postgres");
    hide Names, Scheme;
    assert "mysql"[0] != "postgres"[0];
  }

  lemma ProxyMeaning(env: map<string, string>, instance: string, url: string, port: string)
    requires Instance(env, instance)
    requires (Names(url, "mysql") ==> port == "3306") && (Names(url, "postgres") ==> port == "5432")
    ensures IsProxyFor(ProxyContainer(env, port), instance, url)
  {
    hide Names;
  }

  lemma AddMeaning(pod: PodSpec, app: string, proxy: Container, instance: string, url: string)
    requires IsProxyFor(proxy, instance, url)
    ensures Proxied(pod, AddProxy(pod, app, proxy), app, instance, url)
  {
    hide IsProxyFor;
  }

  /** After a finished link to a database the secret is there, and every pod of the app has its proxy. */
  lemma LinkMeaning(st: State, app: string, options: map<string, string>, names: seq<string>,
      isQuantity: string -> bool, instance: string, n: string)
    requires Listing(st.deployments, app, names) && n in names && Instance(options, instance)
    requires "DATABASE_URL" in options && LinkApp(st, app, options, names, isQuantity).end == Finished
    ensures var after := LinkApp(st, app, options, names, isQuantity).state;
            && app + "-cloudsql-secret" in after.secrets && n in after.deployments
            && var d, d' := st.deployments[n], after.deployments[n];
            && d' == d.(pod := d'.pod)
            && Proxied(d.pod, d'.pod, app, instance, options["DATABASE_URL"])
  {
    hide EditAll, MergeProxy, Proxied;
    EditAllAt(st.deployments, names, app, Link(options), isQuantity, n);
    assert names[..|names|] == names;
    MergeMeaning(st.deployments[n].pod, app, options, instance);
  }

  /** A link ends the process exactly if there is a pod and the database is none of the two known ones. */
  lemma LinkExitsIff(st: State, app: string, options: map<string, string>, names: seq<string>,
      isQuantity: string -> bool)
    requires Listing(st.deployments, app, names)
    ensures LinkApp(st, app, options, names, isQuantity).end
         == if names != [] && "DATABASE_URL" in options && !Known(options["DATABASE_URL"]) then Exit else Finished
  {
    EditAllFinishes(st.deployments, names, app, Link(options), isQuantity);
    var instance := if "INSTANCE_NAME" in options then options["INSTANCE_NAME"] else "";
    forall n | n in names
      ensures EditDeployment(Link(options), app, st.deployments[n], isQuantity).Some?
         <==> "DATABASE_URL" !in options || Known(options["DATABASE_URL"])
    {
      MergeMeaning(st.deployments[n].pod, app, options, instance);
      hide MergeProxy, Known;
    }
    hide EditAll, EditDeployment, Known;
    assert names != [] ==> names[0] in names;
  }

  /** What is no part of the proxy. */
  predicate Foreign(c: Container) {
    c.name != "cloudsql-proxy"
  }

  /** After an unlink the secret is gone, and every pod keeps all containers and volumes but those of the proxy. */
  lemma UnlinkMeaning(st: State, app: string, names: seq<string>, isQuantity: string -> bool, n: string)
    requires Inv(st) && Listing(st.deployments, app, names) && n in names
    ensures var r := UnlinkApp(st, app, names, isQuantity);
            && (app + "-cloudsql-secret" !in st.secrets ==> r == Reply(st, Finished))
            && (app + "-cloudsql-secret" in st.secrets ==>
                  && r.end == Finished && r.state.secrets == st.secrets - {app + "-cloudsql-secret"}
                  && n in r.state.deployments
                  && var d, d' := st.deployments[n], r.state.deployments[n];
                  && d' == d.(pod := d'.pod)
                  && (forall c :: c in d'.pod.containers <==> c in d.pod.containers && Foreign(c))
                  && (forall v :: v in d'.pod.volumes <==>
                        v in d.pod.volumes && v.name != "cloudsql-instance-credentials" && v.name != "cloudsql"))
  {
    if app + "-cloudsql-secret" in st.secrets {
      UnlinkedPods(st, app, names, isQuantity, n);
      EditAllFinishes(st.deployments, names, app, Unlink, isQuantity);
      hide EditAll, PruneProxy, Inv;
      EditAllAt(st.deployments, names, app, Unlink, isQuantity, n);
      assert names[..|names|] == names;
      PruneMeaning(st.deployments[n].pod);
    }
  }

  lemma PruneMeaning(pod: PodSpec)
    ensures var pruned := PruneProxy(pod);
            && (!HasProxy(pruned.containers) ==>
                  forall c :: c in pruned.containers <==> c in pod.containers && Foreign(c))
            && (forall v :: v in pruned.volumes <==>
                  v in pod.volumes && v.name != "cloudsql-instance-credentials" && v.name != "cloudsql")
  {
    OtherVolumesMembers(pod.volumes);
    var cs, i := pod.containers, FirstNamed(pod.containers, PROXY);
    var pruned := PruneProxy(pod).containers;
    if !HasProxy(pruned) {
      forall c ensures c in pruned <==> c in cs && Foreign(c) {
        if c in pruned {
          var k :| 0 <= k < |pruned| && pruned[k] == c;
          assert pruned[k].name != PROXY;
        }
        if c in cs && Foreign(c) {
          var k :| 0 <= k < |cs| && cs[k] == c;
          assert k < i ==> pruned[k] == c;
          assert k > i ==> pruned[k - 1] == c;
        }
      }
    }
  }

  lemma {:induction false} OtherVolumesMembers(volumes: seq<Volume>)
    ensures forall v :: v in OtherVolumes(volumes) <==>
              v in volumes && v.name != "cloudsql-instance-credentials" && v.name != "cloudsql"
    decreases |volumes|
  {
    if volumes != [] {
      var n := |volumes| - 1;
      OtherVolumesMembers(volumes[..n]);
      assert volumes == volumes[..n] + [volumes[n]];
    }
  }
}
