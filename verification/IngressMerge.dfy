/**
 What the merge of ingress rules is for, and exactly when the two loops achieve it.
 */
module IngressMerge {
  import opened Ingress

  // The two loops on any rules

  function Unstale(rules: seq<Rule>, source: seq<Rule>): (r: seq<Rule>)
    ensures forall x :: x in r <==> x in rules && !Stale(x, source)
  {
    if rules == [] then []
    else (if Stale(rules[0], source) then [] else [rules[0]]) + Unstale(rules[1..], source)
  }

  ghost predicate AdjacentStale(rules: seq<Rule>, source: seq<Rule>) {
    exists i, j :: 0 <= i && j == i + 1 && j < |rules| && Stale(rules[i], source) && Stale(rules[j], source)
  }

  lemma AdjacentTail(rules: seq<Rule>, k: nat, source: seq<Rule>)
    requires k <= |rules|
    ensures AdjacentStale(rules[k..], source) ==> AdjacentStale(rules, source)
    ensures AdjacentStale(rules, source) && k == 1 && |rules| > 1 ==>
              AdjacentStale(rules[k..], source) || (Stale(rules[0], source) && Stale(rules[1], source))
  {
    if AdjacentStale(rules[k..], source) {
      var i, j :| 0 <= i && j == i + 1 && j < |rules[k..]|
                  && Stale(rules[k..][i], source) && Stale(rules[k..][j], source);
      assert Stale(rules[k + i], source) && Stale(rules[k + j], source);
    }
    if AdjacentStale(rules, source) && k == 1 && |rules| > 1 {
      var i, j :| 0 <= i && j == i + 1 && j < |rules| && Stale(rules[i], source) && Stale(rules[j], source);
      if i > 0 {
        assert rules[1..][i - 1] == rules[i] && rules[1..][j - 1] == rules[j];
      }
    }
  }

  lemma {:induction false} SweepFilters(rules: seq<Rule>, source: seq<Rule>)
    requires !AdjacentStale(rules, source)
    ensures Sweep(rules, source) == Unstale(rules, source)
    decreases |rules|
  {
    hide Stale;
    if rules != [] {
      AdjacentTail(rules, 1, source);
      if !Stale(rules[0], source) {
        SweepFilters(rules[1..], source);
      } else if |rules| > 1 {
        AdjacentTail(rules, 2, source);
        assert !Stale(rules[1], source);
        assert rules[1..][0] == rules[1] && rules[1..][1..] == rules[2..];
        SweepFilters(rules[2..], source);
      }
    }
  }

  lemma {:induction false} SweepLeaves(rules: seq<Rule>, source: seq<Rule>)
    requires AdjacentStale(rules, source)
    ensures exists x :: x in Sweep(rules, source) && Stale(x, source)
    decreases |rules|
  {
    hide Stale;
    AdjacentTail(rules, 1, source);
    if !Stale(rules[0], source) {
      SweepLeaves(rules[1..], source);
      assert forall x :: x in Sweep(rules[1..], source) ==> x in Sweep(rules, source);
    } else if Stale(rules[1], source) {
      assert rules[1] in Sweep(rules, source);
    } else {
      if |rules| > 2 {
        AdjacentTail(rules[1..], 1, source);
      }
      assert rules[1..][1..] == rules[2..] && rules[1..][0] == rules[1];
      SweepLeaves(rules[2..], source);
      assert forall x :: x in Sweep(rules[2..], source) ==> x in Sweep(rules, source);
    }
  }

  /** The second loop removes the stale rules exactly when no two of them are neighbours. */
  lemma SweepFiltersIff(rules: seq<Rule>, source: seq<Rule>)
    ensures Sweep(rules, source) == Unstale(rules, source) <==> !AdjacentStale(rules, source)
  {
    if AdjacentStale(rules, source) {
      SweepLeaves(rules, source);
    } else {
      SweepFilters(rules, source);
    }
  }

  // The meaning of the merge, for distinct hosts

  function Lookup(source: seq<Rule>, host: string): (r: Rule)
    requires HasHost(source, host)
    ensures r in source && r.host == host
  {
    source[FirstWithHost(source, host)]
  }

  function Replaced(r: Rule, source: seq<Rule>): (r': Rule)
    ensures r'.host == r.host
  {
    if HasHost(source, r.host) then Lookup(source, r.host) else r
  }

  function ReplaceAll(dest: seq<Rule>, source: seq<Rule>): (rules: seq<Rule>)
    ensures |rules| == |dest|
  {
    seq(|dest|, i requires 0 <= i < |dest| => Replaced(dest[i], source))
  }

  /** The rules of the source for new hosts, in the order of the source. */
  function Added(dest: seq<Rule>, source: seq<Rule>): (rules: seq<Rule>)
    ensures forall x :: x in rules <==> x in source && !HasHost(dest, x.host)
  {
    if source == [] then []
    else
      var n := |source| - 1;
      assert source == source[..n] + [source[n]];
      Added(dest, source[..n]) + if HasHost(dest, source[n].host) then [] else [source[n]]
  }

  /** The old rules in their order, replaced where the source has their host, without the stale ones. */
  function Kept(dest: seq<Rule>, source: seq<Rule>): (rules: seq<Rule>)
  {
    if dest == [] then []
    else (if Stale(dest[0], source) then [] else [Replaced(dest[0], source)]) + Kept(dest[1..], source)
  }

  function Intended(dest: seq<Rule>, source: seq<Rule>): seq<Rule> {
    Kept(dest, source) + Added(dest, source)
  }

  lemma {:induction false} FirstUnique(rules: seq<Rule>, i: nat)
    requires DistinctHosts(rules) && i < |rules|
    ensures FirstWithHost(rules, rules[i].host) == i
  {
    var j := FirstWithHost(rules, rules[i].host);
    assert j <= i;
    assert rules[j].host == rules[i].host;
  }

  lemma LookupLast(source: seq<Rule>, host: string)
    requires source != [] && DistinctHosts(source)
    ensures var n := |source| - 1;
            source[n].host == host ==> HasHost(source, host) && Lookup(source, host) == source[n]
    ensures var n := |source| - 1;
            source[n].host != host ==> HasHost(source, host) == HasHost(source[..n], host)
    ensures var n := |source| - 1;
            source[n].host != host && HasHost(source, host) ==> Lookup(source, host) == Lookup(source[..n], host)
  {
    var n := |source| - 1;
    if source[n].host == host {
      FirstUnique(source, n);
    } else {
      if i :| 0 <= i < |source| && source[i].host == host {
        assert source[..n][i] == source[i];
        FirstUnique(source, i);
        FirstUnique(source[..n], i);
      }
      if i :| 0 <= i < n && source[..n][i].host == host {
        assert source[i] == source[..n][i];
      }
    }
  }

  lemma ClaimedHosts(dest: seq<Rule>, source: seq<Rule>, host: string)
    ensures HasHost(ReplaceAll(dest, source) + Added(dest, source), host) ==>
              HasHost(dest, host) || HasHost(source, host)
  {
    var c := ReplaceAll(dest, source) + Added(dest, source);
    if i :| 0 <= i < |c| && c[i].host == host {
      if i < |dest| {
        assert dest[i].host == host;
      } else {
        assert c[i] in Added(dest, source);
      }
    }
  }

  lemma {:induction false} AddedDistinct(dest: seq<Rule>, source: seq<Rule>)
    requires DistinctHosts(source)
    ensures DistinctHosts(Added(dest, source))
    decreases |source|
  {
    if source != [] {
      var n := |source| - 1;
      var rest := Added(dest, source[..n]);
      AddedDistinct(dest, source[..n]);
      forall i | 0 <= i < |rest| ensures rest[i].host != source[n].host {
        assert rest[i] in source[..n];
      }
    }
  }

  lemma ClaimedDistinct(dest: seq<Rule>, source: seq<Rule>)
    requires DistinctHosts(dest) && DistinctHosts(source)
    ensures DistinctHosts(ReplaceAll(dest, source) + Added(dest, source))
  {
    AddedDistinct(dest, source);
    var added := Added(dest, source);
    forall i, j | 0 <= i < |dest| && 0 <= j < |added| ensures dest[i].host != added[j].host {
      assert added[j] in added;
    }
  }

  lemma ReplaceStep(dest: seq<Rule>, S: seq<Rule>, r: Rule)
    requires DistinctHosts(S + [r])
    ensures !HasHost(S, r.host)
    ensures forall i :: 0 <= i < |dest| ==>
              ReplaceAll(dest, S + [r])[i] == if dest[i].host == r.host then r else ReplaceAll(dest, S)[i]
  {
    hide Lookup;
    var source := S + [r];
    assert source[..|S|] == S;
    assert source[|S|] == r;
    assert forall k :: 0 <= k < |S| ==> source[k] == S[k];
    forall i | 0 <= i < |dest|
      ensures Replaced(dest[i], source) == if dest[i].host == r.host then r else Replaced(dest[i], S)
    {
      LookupLast(source, dest[i].host);
    }
  }

  lemma AddedStep(dest: seq<Rule>, S: seq<Rule>, r: Rule)
    ensures Added(dest, S + [r]) == Added(dest, S) + if HasHost(dest, r.host) then [] else [r]
  {
    assert (S + [r])[..|S|] == S;
  }

  lemma ClaimKnown(rules: seq<Rule>, added: seq<Rule>, r: Rule, i: nat)
    requires DistinctHosts(rules + added) && i < |rules| && rules[i].host == r.host
    ensures Claim(rules + added, r) == rules[i := r] + added
  {
    FirstUnique(rules + added, i);
  }

  lemma ClaimNew(rules: seq<Rule>, added: seq<Rule>, r: Rule)
    requires !HasHost(rules + added, r.host)
    ensures Claim(rules + added, r) == rules + (added + [r])
  {
    assert FirstWithHost(rules + added, r.host) == |rules + added|;
  }

  lemma ReplaceKnown(dest: seq<Rule>, S: seq<Rule>, r: Rule, i: nat)
    requires DistinctHosts(dest) && DistinctHosts(S + [r]) && i < |dest| && dest[i].host == r.host
    ensures ReplaceAll(dest, S + [r]) == ReplaceAll(dest, S)[i := r]
  {
    hide Replaced, ReplaceAll, HasHost;
    ReplaceStep(dest, S, r);
    var a, b := ReplaceAll(dest, S + [r]), ReplaceAll(dest, S)[i := r];
    assert |a| == |b| && forall j :: 0 <= j < |a| ==> a[j] == b[j];
  }

  lemma ReplaceNew(dest: seq<Rule>, S: seq<Rule>, r: Rule)
    requires DistinctHosts(S + [r]) && !HasHost(dest, r.host)
    ensures ReplaceAll(dest, S + [r]) == ReplaceAll(dest, S)
  {
    hide Replaced, ReplaceAll;
    ReplaceStep(dest, S, r);
    var a, b := ReplaceAll(dest, S + [r]), ReplaceAll(dest, S);
    assert |a| == |b| && forall j :: 0 <= j < |a| ==> a[j] == b[j];
  }

  /** One round of the first loop. */
  lemma ClaimStep(dest: seq<Rule>, S: seq<Rule>, r: Rule)
    requires DistinctHosts(dest) && DistinctHosts(S) && DistinctHosts(S + [r])
    ensures Claim(ReplaceAll(dest, S) + Added(dest, S), r) == ReplaceAll(dest, S + [r]) + Added(dest, S + [r])
  {
    hide Replaced, ReplaceAll, Added, Claim;
    ReplaceStep(dest, S, r);
    AddedStep(dest, S, r);
    ClaimedDistinct(dest, S);
    if HasHost(dest, r.host) {
      var i :| 0 <= i < |dest| && dest[i].host == r.host;
      SameHosts(dest, S, i);
      ReplaceKnown(dest, S, r, i);
      ClaimKnown(ReplaceAll(dest, S), Added(dest, S), r, i);
      assert Added(dest, S + [r]) == Added(dest, S);
    } else {
      ReplaceNew(dest, S, r);
      ClaimedHosts(dest, S, r.host);
      ClaimNew(ReplaceAll(dest, S), Added(dest, S), r);
    }
  }

  lemma SameHosts(dest: seq<Rule>, source: seq<Rule>, i: nat)
    requires i < |dest|
    ensures ReplaceAll(dest, source)[i].host == dest[i].host
  {
  }

  /** First loop: replace where the host is known, append in source order otherwise. */
  lemma {:induction false} ClaimAllMeaning(dest: seq<Rule>, source: seq<Rule>)
    requires DistinctHosts(dest) && DistinctHosts(source)
    ensures ClaimAll(dest, source) == ReplaceAll(dest, source) + Added(dest, source)
    decreases |source|
  {
    if source == [] {
      assert ReplaceAll(dest, source) == dest;
    } else {
      var n := |source| - 1;
      assert source[..n] + [source[n]] == source;
      ClaimAllMeaning(dest, source[..n]);
      ClaimStep(dest, source[..n], source[n]);
    }
  }

  lemma ReplacedStale(r: Rule, source: seq<Rule>)
    ensures Stale(Replaced(r, source), source) == Stale(r, source)
    ensures r in source ==> !Stale(r, source)
  {
    if HasHost(source, r.host) {
      assert HasHost(source, Replaced(r, source).host);
    }
    if r in source {
      var i :| 0 <= i < |source| && source[i] == r;
      assert HasHost(source, r.host);
    }
  }

  lemma {:induction false} UnstaleConcat(a: seq<Rule>, b: seq<Rule>, source: seq<Rule>)
    ensures Unstale(a + b, source) == Unstale(a, source) + Unstale(b, source)
    decreases |a|
  {
    if a == [] {
      assert a + b == b;
    } else {
      assert (a + b)[1..] == a[1..] + b;
      UnstaleConcat(a[1..], b, source);
    }
  }

  lemma {:induction false} UnstaleReplaced(dest: seq<Rule>, source: seq<Rule>)
    ensures Unstale(ReplaceAll(dest, source), source) == Kept(dest, source)
    decreases |dest|
  {
    if dest != [] {
      ReplacedStale(dest[0], source);
      assert ReplaceAll(dest, source)[1..] == ReplaceAll(dest[1..], source);
      UnstaleReplaced(dest[1..], source);
    }
  }

  lemma {:induction false} UnstaleAll(rules: seq<Rule>, source: seq<Rule>)
    requires forall x :: x in rules ==> !Stale(x, source)
    ensures Unstale(rules, source) == rules
    decreases |rules|
  {
    if rules != [] {
      UnstaleAll(rules[1..], source);
    }
  }

  lemma IntendedIsUnstale(dest: seq<Rule>, source: seq<Rule>)
    requires DistinctHosts(dest) && DistinctHosts(source)
    ensures Unstale(ClaimAll(dest, source), source) == Intended(dest, source)
  {
    ClaimAllMeaning(dest, source);
    UnstaleConcat(ReplaceAll(dest, source), Added(dest, source), source);
    UnstaleReplaced(dest, source);
    forall x | x in Added(dest, source) ensures !Stale(x, source) {
      ReplacedStale(x, source);
    }
    UnstaleAll(Added(dest, source), source);
  }

  /** Where the claimed rules are stale: where the old ones are. */
  lemma ClaimedStale(dest: seq<Rule>, source: seq<Rule>, i: nat)
    requires DistinctHosts(dest) && DistinctHosts(source) && i < |dest| + |Added(dest, source)|
    ensures |ClaimAll(dest, source)| == |dest| + |Added(dest, source)|
    ensures Stale(ClaimAll(dest, source)[i], source) == (i < |dest| && Stale(dest[i], source))
  {
    ClaimAllMeaning(dest, source);
    var c := ClaimAll(dest, source);
    if i < |dest| {
      ReplacedStale(dest[i], source);
    } else {
      assert c[i] == Added(dest, source)[i - |dest|];
      assert c[i] in Added(dest, source);
      ReplacedStale(c[i], source);
    }
  }

  /** Two stale rules side by side, or the last of several stale rules with no new rule behind it. */
  ghost predicate Unmergeable(dest: seq<Rule>, source: seq<Rule>) {
    || AdjacentStale(dest, source)
    || (Added(dest, source) == [] && Panics(dest, source))
  }

  /** `c` is stale where `dest` is, and not behind it. */
  ghost predicate StaleAlike(dest: seq<Rule>, c: seq<Rule>, source: seq<Rule>) {
    |dest| <= |c| && forall i :: 0 <= i < |c| ==> Stale(c[i], source) == (i < |dest| && Stale(dest[i], source))
  }

  lemma AdjacentAlike(dest: seq<Rule>, c: seq<Rule>, source: seq<Rule>)
    requires StaleAlike(dest, c, source)
    ensures AdjacentStale(dest, source) == AdjacentStale(c, source)
  {
    hide Stale;
    if i, j :| 0 <= i && j == i + 1 && j < |dest| && Stale(dest[i], source) && Stale(dest[j], source) {
      assert Stale(c[i], source) && Stale(c[j], source);
    }
    if i, j :| 0 <= i && j == i + 1 && j < |c| && Stale(c[i], source) && Stale(c[j], source) {
      assert Stale(dest[i], source) && Stale(dest[j], source);
    }
  }

  lemma PanicsAlike(dest: seq<Rule>, c: seq<Rule>, source: seq<Rule>)
    requires StaleAlike(dest, c, source)
    ensures Panics(c, source) == (|c| == |dest| && Panics(dest, source))
  {
    hide Stale;
    if |c| == |dest| > 0 {
      var k := |c| - 1;
      if i :| 0 <= i < k && Stale(dest[i], source) {
        assert Stale(c[i], source);
      }
      if i :| 0 <= i < k && Stale(c[i], source) {
        assert Stale(dest[i], source);
      }
    }
  }

  lemma UnmergeableClaimed(dest: seq<Rule>, source: seq<Rule>)
    requires DistinctHosts(dest) && DistinctHosts(source)
    ensures var c := ClaimAll(dest, source);
            Unmergeable(dest, source) <==> AdjacentStale(c, source) || Panics(c, source)
  {
    hide Stale, AdjacentStale, Panics;
    var c := ClaimAll(dest, source);
    ClaimAllMeaning(dest, source);
    forall i | 0 <= i < |c| ensures Stale(c[i], source) == (i < |dest| && Stale(dest[i], source)) {
      ClaimedStale(dest, source, i);
    }
    AdjacentAlike(dest, c, source);
    PanicsAlike(dest, c, source);
  }

  /** The merge does what it is meant to do exactly when the stale rules are not in its way. */
  lemma MergeIffMergeable(dest: seq<Rule>, source: seq<Rule>)
    requires DistinctHosts(dest) && DistinctHosts(source)
    ensures MergeOutcome(dest, source) == Merged(Intended(dest, source)) <==> !Unmergeable(dest, source)
  {
    UnmergeableClaimed(dest, source);
    IntendedIsUnstale(dest, source);
    SweepFiltersIff(ClaimAll(dest, source), source);
  }

  /** Any two stale rules are for one host. */
  ghost predicate AtMostOneStale(dest: seq<Rule>, source: seq<Rule>) {
    forall r, r' :: r in dest && r' in dest && Stale(r, source) && Stale(r', source) ==> r.host == r'.host
  }

  lemma MergeOneStale(dest: seq<Rule>, source: seq<Rule>)
    requires DistinctHosts(dest) && DistinctHosts(source) && AtMostOneStale(dest, source)
    ensures MergeOutcome(dest, source) == Merged(Intended(dest, source))
  {
    hide Stale;
    MergeIffMergeable(dest, source);
    assert !AdjacentStale(dest, source);
    assert !Panics(dest, source);
  }

  // Consequences

  lemma {:induction false} KeptMembers(dest: seq<Rule>, source: seq<Rule>, x: Rule)
    ensures x in Kept(dest, source) <==> exists r :: r in dest && !Stale(r, source) && x == Replaced(r, source)
    decreases |dest|
  {
    if dest != [] {
      KeptMembers(dest[1..], source, x);
      assert dest == [dest[0]] + dest[1..];
    }
  }

  /** A rule is there afterwards if the app claims it, or if it was there, unclaimed and not stale. */
  lemma IntendedMembers(dest: seq<Rule>, source: seq<Rule>, x: Rule)
    requires DistinctHosts(source)
    ensures x in Intended(dest, source) <==>
            x in source || (x in dest && !HasHost(source, x.host) && !Stale(x, source))
  {
    KeptMembers(dest, source, x);
    ReplacedStale(x, source);
    if x in source {
      var k :| 0 <= k < |source| && source[k] == x;
      FirstUnique(source, k);
      if HasHost(dest, x.host) {
        var i :| 0 <= i < |dest| && dest[i].host == x.host;
        ReplacedStale(dest[i], source);
        assert dest[i] in dest && x == Replaced(dest[i], source);
      }
    }
  }

  lemma {:induction false} KeptDistinct(dest: seq<Rule>, source: seq<Rule>)
    requires DistinctHosts(dest)
    ensures DistinctHosts(Kept(dest, source))
    ensures forall x :: x in Kept(dest, source) ==> HasHost(dest, x.host)
    decreases |dest|
  {
    if dest != [] {
      var rest := Kept(dest[1..], source);
      KeptDistinct(dest[1..], source);
      forall x | x in rest ensures x.host != dest[0].host && HasHost(dest, x.host) {
        var i :| 0 <= i < |dest[1..]| && dest[1..][i].host == x.host;
        assert dest[i + 1].host == x.host;
      }
      assert dest[0].host == dest[0].host;
      forall x | x in Kept(dest, source) ensures HasHost(dest, x.host) {
        if x !in rest {
          assert x == Replaced(dest[0], source) && dest[0].host == x.host;
        }
      }
    }
  }

  lemma IntendedDistinct(dest: seq<Rule>, source: seq<Rule>)
    requires DistinctHosts(dest) && DistinctHosts(source)
    ensures DistinctHosts(Intended(dest, source))
  {
    KeptDistinct(dest, source);
    AddedDistinct(dest, source);
    var kept, added := Kept(dest, source), Added(dest, source);
    forall i, j | 0 <= i < |kept| && 0 <= j < |added| ensures kept[i].host != added[j].host {
      assert kept[i] in kept && added[j] in added;
    }
  }

  lemma {:induction false} KeptUnchanged(rules: seq<Rule>, source: seq<Rule>)
    requires forall x :: x in rules ==> !Stale(x, source) && Replaced(x, source) == x
    ensures Kept(rules, source) == rules
    decreases |rules|
  {
    hide Stale, Replaced;
    if rules != [] {
      assert rules[0] in rules;
      KeptUnchanged(rules[1..], source);
    }
  }

  lemma IntendedFixed(dest: seq<Rule>, source: seq<Rule>, x: Rule)
    requires DistinctHosts(source) && x in Intended(dest, source)
    ensures !Stale(x, source) && Replaced(x, source) == x
  {
    IntendedMembers(dest, source, x);
    ReplacedStale(x, source);
    if k :| 0 <= k < |source| && source[k] == x {
      FirstUnique(source, k);
    }
  }

  lemma NothingAdded(dest: seq<Rule>, source: seq<Rule>)
    requires DistinctHosts(source)
    ensures Added(Intended(dest, source), source) == []
  {
    var once := Intended(dest, source);
    forall x | x in source ensures HasHost(once, x.host) {
      IntendedMembers(dest, source, x);
      var i :| 0 <= i < |once| && once[i] == x;
      assert once[i].host == x.host;
    }
    if Added(once, source) != [] {
      assert Added(once, source)[0] in Added(once, source);
    }
  }

  /** Merging the same rules again changes nothing. */
  lemma MergeIdempotent(dest: seq<Rule>, source: seq<Rule>)
    requires DistinctHosts(dest) && DistinctHosts(source) && !Unmergeable(dest, source)
    ensures var once := Intended(dest, source);
            MergeOutcome(dest, source) == Merged(once) && MergeOutcome(once, source) == Merged(once)
  {
    hide Stale, Replaced, MergeOutcome;
    var once := Intended(dest, source);
    MergeIffMergeable(dest, source);
    IntendedDistinct(dest, source);
    forall x | x in once ensures !Stale(x, source) && Replaced(x, source) == x {
      IntendedFixed(dest, source, x);
    }
    KeptUnchanged(once, source);
    NothingAdded(dest, source);
    assert Intended(once, source) == once;
    MergeOneStale(once, source);
  }

  lemma {:induction false} SweepKeeps(rules: seq<Rule>, source: seq<Rule>)
    ensures forall x :: x in rules && !Stale(x, source) ==> x in Sweep(rules, source)
    ensures forall x :: x in Sweep(rules, source) ==> x in rules
    ensures |Sweep(rules, source)| <= |rules|
    ensures AnyStale(rules, |rules|, source) ==> |Sweep(rules, source)| < |rules|
    decreases |rules|
  {
    hide Stale;
    if rules == [] {
    } else if !Stale(rules[0], source) {
      SweepKeeps(rules[1..], source);
      if i :| 0 <= i < |rules| && Stale(rules[i], source) {
        assert Stale(rules[1..][i - 1], source);
      }
    } else if |rules| > 1 {
      SweepKeeps(rules[2..], source);
      assert rules == [rules[0], rules[1]] + rules[2..];
    }
  }

  lemma {:induction false} SweepDistinct(rules: seq<Rule>, source: seq<Rule>)
    requires DistinctHosts(rules)
    ensures DistinctHosts(Sweep(rules, source))
    decreases |rules|
  {
    hide Stale;
    if rules != [] && (!Stale(rules[0], source) || |rules| > 1) {
      var k := if Stale(rules[0], source) then 1 else 0;
      var rest := Sweep(rules[k + 1..], source);
      SweepDistinct(rules[k + 1..], source);
      SweepKeeps(rules[k + 1..], source);
      forall j | 0 <= j < |rest| ensures rest[j].host != rules[k].host {
        assert rest[j] in rest;
        var m :| 0 <= m < |rules[k + 1..]| && rules[k + 1..][m] == rest[j];
      }
    }
  }

  /** The merge can be repeated without effect exactly when it did what it is meant to do. */
  lemma MergeTwiceIff(dest: seq<Rule>, source: seq<Rule>)
    requires DistinctHosts(dest) && DistinctHosts(source) && MergeOutcome(dest, source).Merged?
    ensures MergeOutcome(MergeOutcome(dest, source).rules, source) == MergeOutcome(dest, source)
       <==> !Unmergeable(dest, source)
  {
    if !Unmergeable(dest, source) {
      MergeIdempotent(dest, source);
    } else {
      var c := ClaimAll(dest, source);
      UnmergeableClaimed(dest, source);
      ClaimAllMeaning(dest, source);
      ClaimedDistinct(dest, source);
      StaleStays(c, source);
      SourceClaimed(dest, source);
    }
  }

  /** What is in the way of one merge makes the next one remove something. */
  lemma StaleStays(c: seq<Rule>, source: seq<Rule>)
    requires DistinctHosts(c) && DistinctHosts(source) && AdjacentStale(c, source)
    ensures (forall r :: r in source ==> r in c) ==> MergeOutcome(Sweep(c, source), source) != Merged(Sweep(c, source))
  {
    hide Stale, AdjacentStale, Sweep;
    if forall r :: r in source ==> r in c {
      var x := Sweep(c, source);
      SweepLeaves(c, source);
      SweepKeeps(c, source);
      SweepDistinct(c, source);
      forall r | r in source ensures HasHost(x, r.host) {
        ReplacedStale(r, source);
        var i :| 0 <= i < |x| && x[i] == r;
        assert x[i].host == r.host;
      }
      if Added(x, source) != [] {
        assert Added(x, source)[0] in Added(x, source);
      }
      var y :| y in x && Stale(y, source);
      var i :| 0 <= i < |x| && x[i] == y;
      ClaimedStale(x, source, i);
      var again := ClaimAll(x, source);
      assert Stale(again[i], source);
      SweepKeeps(again, source);
    }
  }

  lemma SourceClaimed(dest: seq<Rule>, source: seq<Rule>)
    requires DistinctHosts(dest) && DistinctHosts(source)
    ensures forall r :: r in source ==> r in ClaimAll(dest, source)
  {
    ClaimAllMeaning(dest, source);
    forall r | r in source ensures r in ClaimAll(dest, source) {
      var k :| 0 <= k < |source| && source[k] == r;
      FirstUnique(source, k);
      if HasHost(dest, r.host) {
        var i :| 0 <= i < |dest| && dest[i].host == r.host;
        assert ReplaceAll(dest, source)[i] == r;
      } else {
        assert r in Added(dest, source);
      }
    }
  }

  // With more than one stale rule the merge goes wrong

  /** The rule behind a removed one is passed over. */
  lemma StaleRuleSurvives()
    ensures var source := [Rule("new.com", "/", "a-web", 80)];
            var x, y := Rule("x.com", "/", "a-web", 80), Rule("y.com", "/", "a-web", 80);
            MergeOutcome([x, y], source) == Merged([y] + source) && Stale(y, source)
  {
    var source := [Rule("new.com", "/", "a-web", 80)];
    var x, y := Rule("x.com", "/", "a-web", 80), Rule("y.com", "/", "a-web", 80);
    assert SameBackend(source[0], x) && SameBackend(source[0], y);
    assert source[..0] == [];
    assert FirstWithHost([x, y], "new.com") == 2;
    assert ClaimAll([x, y], source) == [x, y, source[0]];
    assert HasHost(source, source[0].host);
    assert Sweep([source[0]], source) == [source[0]];
    assert [x, y, source[0]][2..] == [source[0]];
  }

  /** The last rule is seen again behind the end, and slicing there is out of range. */
  lemma StaleRulePanics()
    ensures var source := [Rule("new.com", "/", "a-web", 80)];
            var x, y := Rule("x.com", "/", "a-web", 80), Rule("y.com", "/", "a-web", 80);
            MergeOutcome(source + [x, y], source) == Panicked
  {
    var source := [Rule("new.com", "/", "a-web", 80)];
    var x, y := Rule("x.com", "/", "a-web", 80), Rule("y.com", "/", "a-web", 80);
    var dest := source + [x, y];
    assert SameBackend(source[0], x) && SameBackend(source[0], y);
    assert source[..0] == [];
    assert FirstWithHost(dest, "new.com") == 0;
    assert ClaimAll(dest, source) == dest;
    assert Stale(dest[1], source) && AnyStale(dest, 2, source);
  }
}
