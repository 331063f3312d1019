/** When the processes of two apps can get into each other's way: their names are app and type with a dash between. */
module Isolation {
  import opened AppRuns
  import opened Apps
  import opened ClusterRuns
  import opened Deploys
  import opened Kube
  import opened Options
  import opened Sidecar

  /** One name goes on, behind a dash, where the other ends. */
  predicate Overlapping(a: string, b: string) {
    a + "-" <= b || b + "-" <= a
  }

  lemma IDDetermines(a: string, p: string, b: string, q: string)
    requires a + "-" + p == b + "-" + q && |a| <= |b|
    ensures a == b || a + "-" <= b
  {
    var id := a + "-" + p;
    assert id[..|a|] == a && id[..|b|] == b && id[|a|] == '-';
    if |a| < |b| {
      assert id[..|a| + 1] == a + "-" && id[..|b|][..|a| + 1] == id[..|a| + 1];
    } else {
      assert a == b;
    }
  }

  lemma CollisionOverlaps(a: string, p: string, b: string, q: string)
    requires a != b && a + "-" + p == b + "-" + q
    ensures Overlapping(a, b)
  {
    if |a| <= |b| {
      IDDetermines(a, p, b, q);
    } else {
      IDDetermines(b, q, a, p);
    }
  }

  /** Two apps can have processes of one name, one of them the web process, exactly when their names overlap. */
  lemma NamesCollideIff(a: string, b: string)
    requires a != b
    ensures (exists p, q :: p != "" && q != "" && a + "-" + p == b + "-" + q) <==> Overlapping(a, b)
    ensures Overlapping(a, b) ==> exists p :: p != "" && (a + "-" + p == b + "-" + WEB || a + "-" + WEB == b + "-" + p)
  {
    if p, q :| p != "" && q != "" && a + "-" + p == b + "-" + q {
      CollisionOverlaps(a, p, b, q);
    }
    if a + "-" <= b {
      var p := b[|a| + 1..] + "-" + WEB;
      assert b == a + "-" + b[|a| + 1..];
      assert a + "-" + p == b + "-" + WEB;
    } else if b + "-" <= a {
      var q := a[|b| + 1..] + "-" + WEB;
      assert a == b + "-" + a[|b| + 1..];
      assert a + "-" + WEB == b + "-" + q;
    }
  }

  /** No release of one app touches any object of another whose name does not overlap, however it ends. */
  lemma ReleaseIsolated(st: State, r: AppRelease, running: seq<Process>, atoi: string -> Option<int>,
      worlds: seq<World>, other: string, q: string)
    requires |worlds| > |Others(running)| && other != r.app && !Overlapping(r.app, other)
    ensures SameObjects(st, Release(st, r, running, atoi, worlds).state, other + "-" + q)
  {
    if AppPort(r.env, atoi).Some? {
      var port := AppPort(r.env, atoi).value;
      hide ReleaseRequests, Others;
      forall i | 0 <= i <= |Others(running)| && ReleaseRequests(r, port, running)[i].Some?
        ensures ReleaseRequests(r, port, running)[i].value.serviceID != other + "-" + q
      {
        ReleaseRequestAt(r, port, running, i);
        if r.app + "-" + TypeAt(r, running, i) == other + "-" + q {
          CollisionOverlaps(r.app, TypeAt(r, running, i), other, q);
        }
      }
      DeployAllTouches(st, ReleaseRequests(r, port, running), worlds, other + "-" + q);
    }
  }

  lemma ScaleIsolated(st: State, s: Scaling, keys: seq<string>, worlds: seq<World>, other: string, q: string)
    requires Apps.Enumerates(keys, s.structure) && |worlds| >= |keys| && other != s.app && !Overlapping(s.app, other)
    ensures SameObjects(st, DeployAll(st, ScaleRequests(s, keys), worlds).state, other + "-" + q)
  {
    forall k | k in keys ensures s.app + "-" + k != other + "-" + q {
      if s.app + "-" + k == other + "-" + q {
        CollisionOverlaps(s.app, k, other, q);
      }
    }
    ScaleTouches(st, s, keys, worlds, other + "-" + q);
  }

  /** The deployment is one of those that a release is for: the default process, and what runs beside web and cmd. */
  ghost predicate IsReleased(r: AppRelease, running: seq<Process>, n: string) {
    || n == r.app + "-" + (if r.procfile.NoProcfile? then "cmd" else "web")
    || exists p :: p in running && p.proctype != "web" && p.proctype != "cmd" && p.cronExpr == ""
                   && n == r.app + "-" + p.proctype
  }

  /**
   A finished release of a new image leaves a deployment, of whatever app, as it is exactly when it has
   not the name of a process that is released: where names collide, the other app gets the image.
   */
  lemma ReleaseReplacesIff(st: State, r: AppRelease, running: seq<Process>, atoi: string -> Option<int>,
      worlds: seq<World>, n: string)
    requires |worlds| > |Others(running)| && Inv(st) && n in st.deployments
    requires Release(st, r, running, atoi, worlds).end == Finished
    requires st.deployments[n].pod.containers != [] && st.deployments[n].pod.containers[0].image != r.image
    ensures var after := Release(st, r, running, atoi, worlds).state;
            n in after.deployments && (after.deployments[n] == st.deployments[n] <==> !IsReleased(r, running, n))
  {
    assert n != PROXY by {
      assert Sound(st.deployments[n].labels, st.deployments[n].pod, n);
    }
    var port := AppPort(r.env, atoi).value;
    if n == r.app + "-" + DefaultProctype(r.procfile) {
      ReleaseDeploys(st, r, running, atoi, worlds, Process(DefaultProctype(r.procfile), 0, "", [], "", ""));
    } else if p :| p in running && p.proctype != "web" && p.proctype != "cmd" && p.cronExpr == ""
                   && n == r.app + "-" + p.proctype {
      ReleaseDeploys(st, r, running, atoi, worlds, p);
    } else {
      forall i | 0 <= i <= |Others(running)| && ReleaseRequests(r, port, running)[i].Some?
        ensures var q := ReleaseRequests(r, port, running)[i].value; q.serviceID == n ==> q.cron.Some?
      {
        ReleaseRequestAt(r, port, running, i);
        CronStays(r, port, running, i);
        if i > 0 {
          assert Others(running)[i - 1] in Others(running);
          OthersMeaning(running, Others(running)[i - 1]);
        }
      }
      hide ReleaseRequests, Others;
      CronsTouchNoDeployment(st, ReleaseRequests(r, port, running), worlds, n);
    }
  }

  lemma CronStays(r: AppRelease, port: int, running: seq<Process>, i: nat)
    requires i <= |Others(running)|
    ensures var q := ReleaseRequests(r, port, running)[i];
            q.Some? && i > 0 && Others(running)[i - 1].cronExpr != "" ==> q.value.cron.Some?
  {
    hide Others;
  }

  lemma {:induction false} CronsTouchNoDeployment(st: State, requests: seq<Option<DeployRequest>>, worlds: seq<World>,
      n: string)
    requires |requests| <= |worlds| && n in st.deployments
    requires forall i :: 0 <= i < |requests| && requests[i].Some? && requests[i].value.serviceID == n ==>
               requests[i].value.cron.Some?
    ensures var after := DeployAll(st, requests, worlds).state;
            n in after.deployments && after.deployments[n] == st.deployments[n]
    decreases |requests|
  {
    if requests != [] && requests[0].Some? {
      var req := requests[0].value;
      if req.serviceID == n {
        RunObjects(st, req, worlds[0]);
        CronKeepsOthers(st, req, req.cron.value);
      } else {
        RunTouches(st, req, worlds[0], n);
      }
      hide Run, RunCron;
      CronsTouchNoDeployment(Run(st, req, worlds[0]).state, requests[1..], worlds[1..], n);
    }
  }

  /** A process without a type is cmd. */
  lemma JobIDMeaning(app: string, proctype: string)
    ensures JobID(app, proctype) == if proctype == "" then app + "-cmd" else app + "-" + proctype
  {
    assert app + "-" + "cmd" == app + "-cmd";
  }
}
