/** The Cloud SQL proxy: adding its container and volumes to a pod and taking them out again. */
module Sidecar {
  import opened GoSlices

  datatype Resources = Resources(limits: map<string, string>, requests: map<string, string>)

  datatype Container = Container(
    name: string,
    image: string,
    command: seq<string>,
    args: seq<string>,
    env: map<string, string>,
    port: int,
    resources: Resources)

  /** A volume is filled from a secret, or empty when it names none. */
  datatype Volume = Volume(name: string, secret: string)

  datatype PodSpec = PodSpec(containers: seq<Container>, volumes: seq<Volume>)

  const NO_RESOURCES := Resources(map[], map[])
  const PROXY := "cloudsql-proxy"
  const PROXY_IMAGE := "gcr.io/cloudsql-docker/gce-proxy:1.09"
  const CREDENTIALS_VOLUME := "cloudsql-instance-credentials"
  const SOCKET_VOLUME := "cloudsql"

  // The manifest

  /** What stands before the first occurrence of "://", or all of it. */
  function Scheme(url: string): string {
    if url == "" || "://" <= url then "" else [url[0]] + Scheme(url[1..])
  }

  datatype Port = Port(number: string) | NoDefaultPort

  function DefaultPort(kind: string): Port {
    if kind == "mysql" then Port("3306") else if kind == "postgres" then Port("5432") else NoDefaultPort
  }

  function Get(env: map<string, string>, key: string): string {
    if key in env then env[key] else ""
  }

  function ProxyContainer(env: map<string, string>, port: string): (c: Container)
    ensures c.name == PROXY
  {
    Container(
      PROXY, PROXY_IMAGE,
      ["/cloud_sql_proxy", "--dir=/cloudsql", "-instances=" + Get(env, "INSTANCE_NAME") + "=tcp:" + port,
       "-credential_file=/secrets/cloudsql/credentials.json"],
      [], map[], 0, NO_RESOURCES)
  }

  function ProxyVolumes(app: string): seq<Volume> {
    [Volume(CREDENTIALS_VOLUME, app + "-cloudsql-secret"), Volume(SOCKET_VOLUME, "")]
  }

  predicate IsProxyVolume(v: Volume) {
    v.name == CREDENTIALS_VOLUME || v.name == SOCKET_VOLUME
  }

  // Merging

  predicate HasProxy(containers: seq<Container>) {
    exists i :: 0 <= i < |containers| && containers[i].name == PROXY
  }

  predicate HasCredentials(volumes: seq<Volume>) {
    exists i :: 0 <= i < |volumes| && volumes[i].name == CREDENTIALS_VOLUME
  }

  function SetProxies(containers: seq<Container>, proxy: Container): (r: seq<Container>)
    ensures |r| == |containers|
  {
    seq(|containers|, i requires 0 <= i < |containers| => if containers[i].name == PROXY then proxy else containers[i])
  }

  function AddProxy(pod: PodSpec, app: string, proxy: Container): PodSpec {
    if HasProxy(pod.containers) then PodSpec(SetProxies(pod.containers, proxy), pod.volumes)
    else PodSpec(pod.containers + [proxy],
                 if HasCredentials(pod.volumes) then pod.volumes else pod.volumes + ProxyVolumes(app))
  }

  datatype Manifest = Manifest(pod: PodSpec) | Exited

  /** `Exited` is the fatal log line for a database without a default port. */
  function MergeProxy(pod: PodSpec, app: string, env: map<string, string>): Manifest {
    if "DATABASE_URL" !in env then Manifest(pod)
    else
      match DefaultPort(Scheme(env["DATABASE_URL"]))
      case NoDefaultPort => Exited
      case Port(port) => Manifest(AddProxy(pod, app, ProxyContainer(env, port)))
  }

  // Pruning

  function FirstNamed(containers: seq<Container>, name: string): (i: nat)
    ensures i <= |containers|
    ensures i < |containers| ==> containers[i].name == name
    ensures forall j :: 0 <= j < i ==> containers[j].name != name
  {
    if containers == [] || containers[0].name == name then 0
    else
      var i := FirstNamed(containers[1..], name);
      assert forall j :: 0 < j < 1 + i ==> containers[j] == containers[1..][j - 1];
      1 + i
  }

  function OtherVolumes(volumes: seq<Volume>): seq<Volume> {
    if volumes == [] then []
    else
      var last := volumes[|volumes| - 1];
      OtherVolumes(volumes[..|volumes| - 1]) + if IsProxyVolume(last) then [] else [last]
  }

  function PruneProxy(pod: PodSpec): PodSpec {
    var i := FirstNamed(pod.containers, PROXY);
    PodSpec(if i < |pod.containers| then pod.containers[..i] + pod.containers[i + 1..] else pod.containers,
            OtherVolumes(pod.volumes))
  }

  // The code: the spec of a pod is edited in place

  class PodTemplate {
    const containers: Slice<Container>
    var volumes: seq<Volume>

    ghost predicate Valid()
      reads this, containers
    {
      containers.Valid()
    }

    ghost function Spec(): PodSpec
      requires Valid()
      reads this, containers, containers.data
    {
      PodSpec(containers.Contents(), volumes)
    }

    constructor (pod: PodSpec)
      ensures Valid() && Spec() == pod && fresh(containers) && fresh(containers.data)
    {
      containers := new Slice(pod.containers);
      volumes := pod.volumes;
    }

    method Value() returns (pod: PodSpec)
      requires Valid()
      ensures pod == Spec()
    {
      pod := PodSpec(containers.data[..containers.len], volumes);
    }

    method MergeCloudSQLManifest(app: string, env: map<string, string>) returns (exited: bool)
      requires Valid()
      modifies this, containers, containers.data
      ensures Valid()
      ensures MergeProxy(old(Spec()), app, env) == if exited then Exited else Manifest(Spec())
    {
      exited := false;
      if "DATABASE_URL" !in env {
        return;
      }
      var port := DefaultPort(Scheme(env["DATABASE_URL"]));
      if port.NoDefaultPort? {
        exited := true;
        return;
      }
      var sqlContainer := ProxyContainer(env, port.number);
      var found := ReplaceProxies(sqlContainer);
      if !found {
        assert SetProxies(old(containers.Contents()), sqlContainer) == old(containers.Contents());
        containers.Append(sqlContainer);
        var volfound := FindCredentials();
        if !volfound {
          volumes := volumes + ProxyVolumes(app);
        }
      }
    }

    method ReplaceProxies(sqlContainer: Container) returns (found: bool)
      requires Valid()
      modifies containers.data
      ensures Valid() && containers.Contents() == SetProxies(old(containers.Contents()), sqlContainer)
      ensures found == HasProxy(old(containers.Contents()))
    {
      found := false;
      ghost var before := containers.Contents();
      for i := 0 to containers.len
        invariant Valid()
        invariant found == exists j :: 0 <= j < i && before[j].name == PROXY
        invariant forall j :: 0 <= j < i ==> containers.data[j] == SetProxies(before, sqlContainer)[j]
        invariant forall j :: i <= j < |before| ==> containers.data[j] == before[j]
      {
        if containers.data[i].name == PROXY {
          containers.Set(i, sqlContainer);
          found := true;
        }
      }
    }

    method FindCredentials() returns (found: bool)
      ensures found == HasCredentials(volumes)
    {
      found := false;
      for i := 0 to |volumes|
        invariant found == exists j :: 0 <= j < i && volumes[j].name == CREDENTIALS_VOLUME
      {
        if volumes[i].name == CREDENTIALS_VOLUME {
          found := true;
        }
      }
    }

    method PruneCloudSQLManifest()
      requires Valid()
      modifies this, containers, containers.data
      ensures Valid()
      ensures Spec() == PruneProxy(old(Spec()))
    {
      var i := 0;
      ghost var before := containers.Contents();
      while i < containers.len && containers.data[i].name != PROXY
        invariant i <= containers.len
        invariant forall j :: 0 <= j < i ==> before[j].name != PROXY
      {
        i := i + 1;
      }
      assert i == FirstNamed(before, PROXY);
      if i < containers.len {
        var inRange := containers.RemoveAt(i);
      }
      var vls: seq<Volume> := [];
      for k := 0 to |volumes|
        invariant vls == OtherVolumes(volumes[..k])
      {
        assert volumes[..k + 1][..k] == volumes[..k];
        if volumes[k].name != CREDENTIALS_VOLUME && volumes[k].name != SOCKET_VOLUME {
          vls := vls + [volumes[k]];
        }
      }
      assert volumes[..|volumes|] == volumes;
      volumes := vls;
    }
  }

  // Linking and unlinking

  ghost predicate NoProxyVolumes(volumes: seq<Volume>) {
    forall i :: 0 <= i < |volumes| ==> !IsProxyVolume(volumes[i])
  }

  lemma {:induction false} OtherVolumesIff(volumes: seq<Volume>)
    ensures OtherVolumes(volumes) == volumes <==> NoProxyVolumes(volumes)
    ensures |OtherVolumes(volumes)| <= |volumes|
    ensures NoProxyVolumes(OtherVolumes(volumes))
    decreases |volumes|
  {
    if volumes != [] {
      var n := |volumes| - 1;
      OtherVolumesIff(volumes[..n]);
      assert volumes == volumes[..n] + [volumes[n]];
      if OtherVolumes(volumes) == volumes {
        assert !IsProxyVolume(volumes[n]);
        assert OtherVolumes(volumes[..n]) == volumes[..n];
      }
    }
  }

  lemma OtherVolumesAdded(volumes: seq<Volume>, app: string)
    ensures OtherVolumes(volumes + ProxyVolumes(app)) == OtherVolumes(volumes)
  {
    var two := volumes + ProxyVolumes(app);
    var one := volumes + ProxyVolumes(app)[..1];
    assert two[..|volumes| + 1] == one;
    assert one[..|volumes|] == volumes;
  }

  lemma FirstNamedIs(containers: seq<Container>, name: string, i: nat)
    requires i <= |containers| && (i < |containers| ==> containers[i].name == name)
    requires forall j :: 0 <= j < i ==> containers[j].name != name
    ensures FirstNamed(containers, name) == i
  {
  }

  /** Unlinking undoes linking exactly on pods without proxy container and without volumes of its names. */
  lemma PruneUndoesMerge(pod: PodSpec, app: string, env: map<string, string>)
    requires MergeProxy(pod, app, env).Manifest?
    ensures PruneProxy(MergeProxy(pod, app, env).pod) == pod
       <==> !HasProxy(pod.containers) && NoProxyVolumes(pod.volumes)
  {
    var merged := MergeProxy(pod, app, env).pod;
    OtherVolumesIff(pod.volumes);
    OtherVolumesAdded(pod.volumes, app);
    if HasProxy(pod.containers) {
      assert |PruneProxy(merged).containers| < |pod.containers| by {
        var i :| 0 <= i < |pod.containers| && pod.containers[i].name == PROXY;
        assert |merged.containers| == |pod.containers| && merged.containers[i].name == PROXY;
      }
    } else {
      var n := |pod.containers|;
      assert FirstNamed(merged.containers, PROXY) == n by {
        FirstNamedIs(merged.containers, PROXY, n);
      }
      assert PruneProxy(merged).containers == pod.containers;
    }
  }

  /** Linking a linked pod with the same database changes nothing. */
  lemma MergeIdempotent(pod: PodSpec, app: string, env: map<string, string>)
    requires MergeProxy(pod, app, env).Manifest?
    ensures MergeProxy(MergeProxy(pod, app, env).pod, app, env) == MergeProxy(pod, app, env)
  {
    if "DATABASE_URL" in env {
      var proxy := ProxyContainer(env, DefaultPort(Scheme(env["DATABASE_URL"])).number);
      var merged := AddProxy(pod, app, proxy);
      assert HasProxy(merged.containers) by {
        if HasProxy(pod.containers) {
          var i :| 0 <= i < |pod.containers| && pod.containers[i].name == PROXY;
          assert merged.containers[i].name == PROXY;
        } else {
          assert merged.containers[|pod.containers|] == proxy;
        }
      }
      assert SetProxies(merged.containers, proxy) == merged.containers;
    }
  }

  // What linking, unlinking and redeploying keep

  ghost predicate OneProxy(containers: seq<Container>) {
    forall i, j :: 0 <= i < j < |containers| ==> !(containers[i].name == PROXY && containers[j].name == PROXY)
  }

  /** The app's own container comes first, and there is at most one proxy beside it. */
  ghost predicate PodOk(pod: PodSpec, name: string) {
    && name != PROXY && pod.containers != [] && pod.containers[0].name == name
    && OneProxy(pod.containers)
    && forall i :: 0 < i < |pod.containers| ==> pod.containers[i].name != name
  }

  lemma MergeKeepsPod(pod: PodSpec, name: string, app: string, env: map<string, string>)
    requires PodOk(pod, name) && MergeProxy(pod, app, env).Manifest?
    ensures var merged := MergeProxy(pod, app, env).pod;
            PodOk(merged, name) && merged.containers[0] == pod.containers[0]
    ensures "DATABASE_URL" in env ==> HasProxy(MergeProxy(pod, app, env).pod.containers)
  {
    if "DATABASE_URL" in env {
      var merged := MergeProxy(pod, app, env).pod;
      if HasProxy(pod.containers) {
        var i :| 0 <= i < |pod.containers| && pod.containers[i].name == PROXY;
        assert merged.containers[i].name == PROXY;
      } else {
        assert merged.containers[|pod.containers|].name == PROXY;
      }
    }
  }

  lemma PruneKeepsPod(pod: PodSpec, name: string)
    requires PodOk(pod, name)
    ensures PodOk(PruneProxy(pod), name) && PruneProxy(pod).containers[0] == pod.containers[0]
    ensures !HasProxy(PruneProxy(pod).containers) && NoProxyVolumes(PruneProxy(pod).volumes)
  {
    OtherVolumesIff(pod.volumes);
    var i := FirstNamed(pod.containers, PROXY);
    assert i > 0;
  }
}
