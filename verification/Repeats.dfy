/**
 Sources that list a host more than once, always with the same rule, as the requests of an app do when a
 domain is repeated.  They are merged as if each host were listed once.
 */
module Repeats {
  import opened Ingress
  import opened IngressMerge

  /** Rules for one host are the same rule. */
  ghost predicate Consistent(source: seq<Rule>) {
    forall i, j :: 0 <= i < |source| && 0 <= j < |source| && source[i].host == source[j].host ==> source[i] == source[j]
  }

  /** The first rule for each host. */
  function Once(source: seq<Rule>): seq<Rule> {
    if source == [] then []
    else
      var last, once := source[|source| - 1], Once(source[..|source| - 1]);
      if HasHost(once, last.host) then once else once + [last]
  }

  lemma HasHostLast(rules: seq<Rule>, r: Rule, host: string)
    ensures HasHost(rules + [r], host) <==> HasHost(rules, host) || r.host == host
  {
    var all := rules + [r];
    if i :| 0 <= i < |rules| && rules[i].host == host {
      assert all[i].host == host;
    }
    assert all[|rules|].host == r.host;
  }

  lemma {:induction false} OnceHosts(source: seq<Rule>)
    ensures forall h :: HasHost(Once(source), h) <==> HasHost(source, h)
    ensures DistinctHosts(Once(source))
    ensures forall x :: x in Once(source) ==> x in source
    decreases |source|
  {
    if source != [] {
      var front, last := source[..|source| - 1], source[|source| - 1];
      assert source == front + [last];
      OnceHosts(front);
      forall h ensures HasHost(Once(source), h) <==> HasHost(source, h) {
        HasHostLast(front, last, h);
        HasHostLast(Once(front), last, h);
      }
    }
  }

  /** Nothing but repetitions is left out. */
  lemma OnceMembers(source: seq<Rule>)
    requires Consistent(source)
    ensures forall x :: x in Once(source) <==> x in source
  {
    OnceHosts(source);
    var once := Once(source);
    forall x | x in source ensures x in once {
      var i :| 0 <= i < |source| && source[i] == x;
      assert HasHost(source, x.host);
      var k :| 0 <= k < |once| && once[k].host == x.host;
      assert once[k] in source;
    }
  }

  lemma OnceStale(source: seq<Rule>, r: Rule)
    requires Consistent(source)
    ensures Stale(r, Once(source)) == Stale(r, source)
  {
    OnceHosts(source);
    OnceMembers(source);
    var once := Once(source);
    if i :| 0 <= i < |source| && SameBackend(source[i], r) {
      assert source[i] in once;
    }
    if i :| 0 <= i < |once| && SameBackend(once[i], r) {
      assert once[i] in source;
    }
  }

  /** Claiming a rule again changes nothing. */
  lemma ClaimAgain(rules: seq<Rule>, r: Rule)
    requires DistinctHosts(rules) && r in rules
    ensures Claim(rules, r) == rules
  {
    var i :| 0 <= i < |rules| && rules[i] == r;
    FirstUnique(rules, i);
  }

  lemma {:induction false} ClaimOnce(dest: seq<Rule>, source: seq<Rule>)
    requires DistinctHosts(dest) && Consistent(source)
    ensures ClaimAll(dest, Once(source)) == ClaimAll(dest, source)
    decreases |source|
  {
    if source != [] {
      var front, last := source[..|source| - 1], source[|source| - 1];
      var once := Once(front);
      ClaimOnce(dest, front);
      OnceHosts(front);
      if HasHost(once, last.host) {
        var k :| 0 <= k < |once| && once[k].host == last.host;
        assert once[k] in once;
        var j :| 0 <= j < |front| && front[j] == once[k];
        assert source[j] == last;
        SourceClaimed(dest, once);
        ClaimAllMeaning(dest, once);
        ClaimedDistinct(dest, once);
        ClaimAgain(ClaimAll(dest, once), last);
      } else {
        assert (once + [last])[..|once|] == once;
      }
    }
  }

  lemma {:induction false} SweepSame(rules: seq<Rule>, source: seq<Rule>, other: seq<Rule>)
    requires forall r :: Stale(r, source) == Stale(r, other)
    ensures Sweep(rules, source) == Sweep(rules, other) && Panics(rules, source) == Panics(rules, other)
    ensures AdjacentStale(rules, source) == AdjacentStale(rules, other)
    decreases |rules|
  {
    hide Stale;
    if rules != [] {
      SweepSame(rules[1..], source, other);
      if |rules| > 1 {
        SweepSame(rules[2..], source, other);
      }
    }
    assert forall i :: 0 <= i < |rules| ==> Stale(rules[i], source) == Stale(rules[i], other);
  }

  /** A source with repetitions is merged as the one without. */
  lemma MergeOnce(dest: seq<Rule>, source: seq<Rule>)
    requires DistinctHosts(dest) && Consistent(source)
    ensures MergeOutcome(dest, Once(source)) == MergeOutcome(dest, source)
    ensures Unmergeable(dest, Once(source)) == Unmergeable(dest, source)
  {
    ClaimOnce(dest, source);
    forall r ensures Stale(r, source) == Stale(r, Once(source)) {
      OnceStale(source, r);
    }
    SweepSame(ClaimAll(dest, source), source, Once(source));
    SweepSame(dest, source, Once(source));
    OnceMembers(source);
    var a, b := Added(dest, source), Added(dest, Once(source));
    assert a == [] <==> b == [] by {
      assert forall x :: x in a <==> x in b;
      assert a != [] ==> a[0] in b;
      assert b != [] ==> b[0] in a;
    }
  }

  /** The rules of a source claimed from that source itself. */
  lemma {:induction false} ClaimSelf(dest: seq<Rule>, source: seq<Rule>)
    requires forall r :: r in source ==> r in dest
    requires Consistent(dest)
    ensures ClaimAll(dest, source) == dest
    decreases |source|
  {
    if source != [] {
      ClaimSelf(dest, source[..|source| - 1]);
      var r := source[|source| - 1];
      assert r in source;
      var i :| 0 <= i < |dest| && dest[i] == r;
      var k := FirstWithHost(dest, r.host);
      assert k <= i && dest[k].host == dest[i].host;
    }
  }

  /** Publishing twice is publishing once, exactly when the first merge was not spoiled by stale rules. */
  lemma PublishTwiceIff(ingress: Shared, source: seq<Rule>)
    requires Publish(ingress, source).Merged? && Consistent(source)
    requires ingress.Shared? ==> DistinctHosts(ingress.rules)
    ensures Publish(Shared(Publish(ingress, source).rules), source) == Publish(ingress, source)
       <==> ingress.NoIngress? || !Unmergeable(ingress.rules, source)
  {
    if ingress.NoIngress? {
      ClaimSelf(source, source);
      forall x | x in source ensures !Stale(x, source) {
        ReplacedStale(x, source);
      }
      SweepNone(source, source);
    } else {
      OnceHosts(source);
      MergeOnce(ingress.rules, source);
      MergeTwiceIff(ingress.rules, Once(source));
      MergedDistinct(ingress.rules, Once(source));
      MergeOnce(MergeOutcome(ingress.rules, source).rules, source);
    }
  }

  lemma MergedDistinct(dest: seq<Rule>, source: seq<Rule>)
    requires DistinctHosts(dest) && DistinctHosts(source) && MergeOutcome(dest, source).Merged?
    ensures DistinctHosts(MergeOutcome(dest, source).rules)
  {
    ClaimAllMeaning(dest, source);
    ClaimedDistinct(dest, source);
    SweepDistinct(ClaimAll(dest, source), source);
  }

  lemma {:induction false} SweepNone(rules: seq<Rule>, source: seq<Rule>)
    requires forall x :: x in rules ==> !Stale(x, source)
    ensures Sweep(rules, source) == rules
    decreases |rules|
  {
    if rules != [] {
      SweepNone(rules[1..], source);
    }
  }

  /** After publishing, every rule of the source is there. */
  lemma SourcePublished(ingress: Shared, source: seq<Rule>, r: Rule)
    requires r in source && Consistent(source) && (ingress.Shared? ==> DistinctHosts(ingress.rules))
    ensures Publish(ingress, source).Merged? ==> r in Publish(ingress, source).rules
  {
    if ingress.Shared? {
      var once := Once(source);
      OnceHosts(source);
      OnceMembers(source);
      MergeOnce(ingress.rules, source);
      SourceClaimed(ingress.rules, once);
      ReplacedStale(r, once);
      SweepKeeps(ClaimAll(ingress.rules, once), once);
    }
  }
}
