/** Waiting for a deployment: how often the cluster is asked, whatever it answers. */
module Waiting {

  const TIMEOUT: nat := 120

  datatype Phase = Pending | Running | Other

  /** A pod, and whether its reason or its events tell of a failure. */
  datatype Pod = Pod(phase: Phase, failing: bool)

  /** The cluster at one moment. */
  datatype Snapshot = Snapshot(ready: bool, pods: seq<Pod>)

  predicate Failing(pods: seq<Pod>) {
    exists i :: 0 <= i < |pods| && !pods[i].phase.Other? && pods[i].failing
  }

  /** The extra time is meant for pods that are still fetching their image; it is never given. */
  method HandlePendingPods(pods: seq<Pod>) returns (timeout: nat, err: bool)
    ensures timeout == 0 && err == Failing(pods)
  {
    timeout := 0;
    for i := 0 to |pods|
      invariant !Failing(pods[..i])
    {
      assert pods[..i + 1] == pods[..i] + [pods[i]];
      if !pods[i].phase.Other? && pods[i].failing {
        return timeout, true;
      }
    }
    assert pods[..|pods|] == pods;
    err := false;
  }

  /** The moment, counted in loop passes, at which the cluster is asked about pending pods. */
  predicate AsksForPods(k: nat) {
    k > 0 && k % 10 == 0
  }

  function PodChecks(k: nat): nat {
    if k == 0 then 0 else PodChecks(k - 1) + if AsksForPods(k - 1) then 1 else 0
  }

  lemma {:induction false} PodChecksCount(k: nat)
    ensures PodChecks(k) == if k == 0 then 0 else (k - 1) / 10
  {
    if k > 0 {
      PodChecksCount(k - 1);
    }
  }

  /** The loop goes past pass k. */
  predicate Passes(cluster: nat -> Snapshot, k: nat) {
    !cluster(k).ready && !(AsksForPods(k) && Failing(cluster(k).pods))
  }

  /**
   The deployment becomes ready, its pods fail, or the time is up, whichever comes first: `checks` passes
   have asked whether it is ready, at most 120, and `podChecks` of them about the pods, at most 11;
   a cluster that never gets ready and never fails reaches both bounds.
   The last answer counts unless the pods have failed.
   */
  method WaitUntilDeploymentReady(cluster: nat -> Snapshot, atLast: bool)
    returns (checks: nat, podChecks: nat, finalChecks: nat, failed: bool, ready: bool)
    ensures 0 < checks <= 120 && podChecks <= 11
    ensures (forall k :: 0 <= k < 120 ==> Passes(cluster, k)) ==> checks == 120 && podChecks == 11
    ensures forall k :: 0 <= k < checks - 1 ==> Passes(cluster, k)
    ensures checks < 120 ==> !Passes(cluster, checks - 1)
    ensures failed == (!cluster(checks - 1).ready && !Passes(cluster, checks - 1))
    ensures podChecks == PodChecks(if cluster(checks - 1).ready then checks - 1 else checks)
    ensures finalChecks == if failed then 0 else 1
    ensures ready == (!failed && atLast)
  {
    var timeout, waited := TIMEOUT, 0;
    checks, podChecks, finalChecks, failed, ready := 0, 0, 0, false, false;
    while waited < timeout
      invariant timeout == TIMEOUT && checks == waited <= TIMEOUT
      invariant podChecks == PodChecks(waited)
      invariant forall k :: 0 <= k < waited ==> Passes(cluster, k)
      invariant finalChecks == 0 && !failed && !ready
    {
      PodChecksCount(waited + 1);
      PodChecksCount(waited);
      checks := checks + 1;
      if cluster(waited).ready {
        assert !Passes(cluster, waited);
        break;
      }
      if waited > 0 && waited % 10 == 0 {
        podChecks := podChecks + 1;
        var additionalTimeout, err := HandlePendingPods(cluster(waited).pods);
        if err {
          assert !Passes(cluster, waited);
          failed := true;
          return;
        }
        timeout := timeout + additionalTimeout;
      }
      waited := waited + 1;
    }
    PodChecksCount(waited);
    finalChecks := 1;
    ready := atLast;
  }
}
