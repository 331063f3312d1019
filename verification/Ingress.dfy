/**
 The merge of one app's ingress rules into the rules shared by all apps of a namespace.

 The second loop of the merge ranges over the slice as it was before the loop while it removes from
 the live one, so that the element behind a removed rule is never looked at and, once something has
 been removed, the last rule is looked at again behind the end.  `Sweep` and `Panics` say what
 this comes to for every list of rules; the rest says when it is what the merge is meant to do.
 */
module Ingress {
  import opened GoSlices

  datatype Rule = Rule(host: string, path: string, service: string, port: int)

  datatype Outcome = Merged(rules: seq<Rule>) | Panicked

  predicate SameBackend(a: Rule, b: Rule) {
    a.service == b.service && a.port == b.port
  }

  function RulesFor(service: string, path: string, port: int, domains: seq<string>): (rules: seq<Rule>)
    ensures |rules| == |domains|
  {
    seq(|domains|, i requires 0 <= i < |domains| => Rule(domains[i], path, service, port))
  }

  ghost predicate DistinctHosts(rules: seq<Rule>) {
    forall i, j :: 0 <= i < j < |rules| ==> rules[i].host != rules[j].host
  }

  predicate HasHost(rules: seq<Rule>, host: string) {
    exists i :: 0 <= i < |rules| && rules[i].host == host
  }

  // First loop: rules of the source replace rules of the same host or are appended

  function FirstWithHost(rules: seq<Rule>, host: string): (i: nat)
    ensures i <= |rules|
    ensures i < |rules| ==> rules[i].host == host
    ensures forall j :: 0 <= j < i ==> rules[j].host != host
  {
    if rules == [] || rules[0].host == host then 0
    else
      var i := FirstWithHost(rules[1..], host);
      assert forall j :: 0 < j < 1 + i ==> rules[j] == rules[1..][j - 1];
      1 + i
  }

  function Claim(rules: seq<Rule>, r: Rule): seq<Rule> {
    var i := FirstWithHost(rules, r.host);
    if i < |rules| then rules[i := r] else rules + [r]
  }

  function ClaimAll(dest: seq<Rule>, source: seq<Rule>): seq<Rule> {
    if source == [] then dest
    else Claim(ClaimAll(dest, source[..|source| - 1]), source[|source| - 1])
  }

  // Second loop: rules of the app whose host the app no longer has

  predicate Stale(r: Rule, source: seq<Rule>) {
    (exists i :: 0 <= i < |source| && SameBackend(source[i], r)) && !HasHost(source, r.host)
  }

  /** What is left when the rule behind a removed one is passed over. */
  function Sweep(rules: seq<Rule>, source: seq<Rule>): seq<Rule> {
    if rules == [] then []
    else if !Stale(rules[0], source) then [rules[0]] + Sweep(rules[1..], source)
    else if |rules| == 1 then []
    else [rules[1]] + Sweep(rules[2..], source)
  }

  /** One of the first k rules is stale. */
  predicate AnyStale(rules: seq<Rule>, k: nat, source: seq<Rule>)
    requires k <= |rules|
  {
    exists i :: 0 <= i < k && Stale(rules[i], source)
  }

  /** The last rule is stale and is seen again after another one has been removed. */
  predicate Panics(rules: seq<Rule>, source: seq<Rule>) {
    rules != [] && Stale(rules[|rules| - 1], source) && AnyStale(rules, |rules| - 1, source)
  }

  function MergeOutcome(dest: seq<Rule>, source: seq<Rule>): Outcome {
    var claimed := ClaimAll(dest, source);
    if Panics(claimed, source) then Panicked else Merged(Sweep(claimed, source))
  }

  /** The one ingress of a namespace, shared by its apps. */
  datatype Shared = NoIngress | Shared(rules: seq<Rule>)

  /** Creates the shared ingress with the rules of one app, or merges them into it. */
  function Publish(ingress: Shared, source: seq<Rule>): Outcome {
    match ingress
    case NoIngress => Merged(source)
    case Shared(rules) => MergeOutcome(rules, source)
  }

  method IsStale(r: Rule, source: seq<Rule>) returns (stale: bool)
    ensures stale == Stale(r, source)
  {
    var related, found := false, false;
    var i := 0;
    while i < |source|
      invariant 0 <= i <= |source|
      invariant related == exists j :: 0 <= j < i && SameBackend(source[j], r)
      invariant !found && forall j :: 0 <= j < i ==> source[j].host != r.host
    {
      if SameBackend(source[i], r) {
        related := true;
      }
      if source[i].host == r.host {
        found := true;
        break;
      }
      i := i + 1;
    }
    stale := related && !found;
  }

  /** First loop of the merge. */
  method ClaimHosts(dest: Slice<Rule>, source: seq<Rule>)
    requires dest.Valid()
    modifies dest, dest.data
    ensures dest.Valid() && (dest.data == old(dest.data) || fresh(dest.data))
    ensures dest.Contents() == ClaimAll(old(dest.Contents()), source)
  {
    for k := 0 to |source|
      invariant dest.Valid() && (dest.data == old(dest.data) || fresh(dest.data))
      invariant dest.Contents() == ClaimAll(old(dest.Contents()), source[..k])
    {
      var r := source[k];
      assert source[..k + 1][..k] == source[..k];
      var foundAt := 0;
      while foundAt < dest.len && dest.data[foundAt].host != r.host
        invariant foundAt <= dest.len
        invariant forall j :: 0 <= j < foundAt ==> dest.Contents()[j].host != r.host
      {
        foundAt := foundAt + 1;
      }
      assert foundAt == FirstWithHost(dest.Contents(), r.host);
      if foundAt < dest.len {
        dest.Set(foundAt, r);
      } else {
        dest.Append(r);
      }
    }
    assert source[..|source|] == source;
  }

  /** The live rules: what has been swept so far, and the rules that the range will still come to. */
  ghost predicate Swept(live: seq<Rule>, i: nat, claimed: seq<Rule>, source: seq<Rule>)
    requires |live| <= |claimed|
  {
    if i >= |live| then live == Sweep(claimed, source)
    else
      var next := i + (|claimed| - |live|);
      live[i..] == claimed[next..] && live[..i] + Sweep(claimed[next..], source) == Sweep(claimed, source)
  }

  lemma SweptKeep(live: seq<Rule>, i: nat, claimed: seq<Rule>, source: seq<Rule>)
    requires i < |live| <= |claimed| && Swept(live, i, claimed, source) && !Stale(live[i], source)
    ensures Swept(live, i + 1, claimed, source)
  {
    var rest := claimed[i + (|claimed| - |live|)..];
    assert rest[0] == live[i];
    assert rest[1..] == claimed[i + 1 + (|claimed| - |live|)..];
    assert live[i + 1..] == live[i..][1..];
    assert live[..i] + ([rest[0]] + Sweep(rest[1..], source)) == live[..i + 1] + Sweep(rest[1..], source);
    if i + 1 == |live| {
      assert live[..i + 1] == live;
    }
  }

  lemma SweptRemove(live: seq<Rule>, i: nat, claimed: seq<Rule>, source: seq<Rule>)
    requires i < |live| <= |claimed| && Swept(live, i, claimed, source) && Stale(live[i], source)
    ensures Swept(live[..i] + live[i + 1..], i + 1, claimed, source)
  {
    var rest := claimed[i + (|claimed| - |live|)..];
    var live' := live[..i] + live[i + 1..];
    assert rest[0] == live[i];
    if i + 1 == |live| {
      assert live' == live[..i] + [];
    } else {
      assert live[i + 1] == live[i..][1] == rest[1];
      assert live'[..i + 1] == live[..i] + [rest[1]];
      assert live[..i] + ([rest[1]] + Sweep(rest[2..], source)) == live'[..i + 1] + Sweep(rest[2..], source);
      assert rest[2..] == claimed[i + 1 + (|claimed| - |live'|)..];
      assert live'[i + 1..] == live[i..][2..];
      if i + 1 == |live'| {
        assert live'[..i + 1] == live';
      }
    }
  }

  lemma SweptEnds(claimed: seq<Rule>, live: seq<Rule>, source: seq<Rule>)
    requires |live| <= |claimed|
    ensures Swept(claimed, 0, claimed, source)
    ensures Swept(live, |claimed|, claimed, source) ==> live == Sweep(claimed, source)
  {
    assert claimed[0..] == claimed && claimed[..0] == [];
    if claimed == [] {
      assert Sweep(claimed, source) == [];
    }
  }

  lemma SweptBehind(live: seq<Rule>, i: nat, claimed: seq<Rule>, source: seq<Rule>)
    requires |live| <= i && |live| <= |claimed| && Swept(live, i, claimed, source)
    ensures Swept(live, i + 1, claimed, source)
  {
  }

  lemma SweptSame(live: seq<Rule>, i: nat, claimed: seq<Rule>, source: seq<Rule>)
    requires i < |live| == |claimed| && Swept(live, i, claimed, source)
    ensures live[i] == claimed[i]
  {
    assert live[i..][0] == claimed[i..][0];
  }

  /**
   The state of the second loop at index i: the slots of the range, of which those behind the live
   rules hold the last rule, and the first rule that was removed, if any.
   */
  ghost predicate Sweeping(live: seq<Rule>, slots: seq<Rule>, i: nat, first: nat, claimed: seq<Rule>,
      source: seq<Rule>) {
    var n := |claimed|;
    && |live| <= n == |slots| && i <= n && live == slots[..|live|]
    && (forall j :: |live| <= j < n ==> slots[j] == claimed[n - 1])
    && Swept(live, i, claimed, source)
    && first <= n && (if first < n then first < i && |live| < n && Stale(claimed[first], source) else |live| == n)
    && !AnyStale(claimed, if first < n then first else i, source)
    && (i == n && first < n - 1 ==> !Stale(claimed[n - 1], source))
  }

  lemma SweepingStarts(claimed: seq<Rule>, source: seq<Rule>)
    ensures Sweeping(claimed, claimed, 0, |claimed|, claimed, source)
  {
    hide Stale;
    SweptEnds(claimed, claimed, source);
  }

  lemma SweepingKeeps(live: seq<Rule>, slots: seq<Rule>, i: nat, first: nat, claimed: seq<Rule>, source: seq<Rule>)
    requires Sweeping(live, slots, i, first, claimed, source) && i < |claimed| && !Stale(slots[i], source)
    ensures Sweeping(live, slots, i + 1, first, claimed, source)
  {
    hide Stale, Swept;
    if i < |live| {
      assert slots[i] == live[i];
      SweptKeep(live, i, claimed, source);
    } else {
      SweptBehind(live, i, claimed, source);
    }
    if |live| == |claimed| {
      SweptSame(live, i, claimed, source);
    }
  }

  lemma SweepingRemoves(live: seq<Rule>, slots: seq<Rule>, i: nat, first: nat, claimed: seq<Rule>, source: seq<Rule>,
      slots': seq<Rule>)
    requires Sweeping(live, slots, i, first, claimed, source) && i < |live| && Stale(slots[i], source)
    requires |slots'| == |slots| && slots'[..|live| - 1] == live[..i] + live[i + 1..]
    requires slots'[|live| - 1..] == slots[|live| - 1..]
    ensures var first' := if first < |claimed| then first else i;
            Sweeping(live[..i] + live[i + 1..], slots', i + 1, first', claimed, source)
  {
    hide Stale, Swept;
    var n := |claimed|;
    var live' := live[..i] + live[i + 1..];
    assert |live'| == |live| - 1 && live' == slots'[..|live'|];
    assert slots[i] == live[i];
    SweptRemove(live, i, claimed, source);
    if |live| == n {
      SweptSame(live, i, claimed, source);
      SweptLast(live, i, claimed, source);
    }
    forall j | |live| - 1 <= j < n ensures slots'[j] == claimed[n - 1] {
      assert slots'[j] == slots'[|live| - 1..][j - (|live| - 1)] == slots[j];
      if j == |live| - 1 {
        SweptLast(live, i, claimed, source);
        assert slots[j] == live[|live| - 1];
      }
    }
  }

  /** Before its end the live slice still ends in the last rule. */
  lemma SweptLast(live: seq<Rule>, i: nat, claimed: seq<Rule>, source: seq<Rule>)
    requires i < |live| <= |claimed| && Swept(live, i, claimed, source)
    ensures live[|live| - 1] == claimed[|claimed| - 1]
  {
    assert live[i..][|live| - 1 - i] == live[|live| - 1];
  }

  lemma SweepingPanics(live: seq<Rule>, slots: seq<Rule>, i: nat, first: nat, claimed: seq<Rule>, source: seq<Rule>)
    requires Sweeping(live, slots, i, first, claimed, source) && |live| <= i < |claimed| && Stale(slots[i], source)
    ensures Panics(claimed, source)
  {
    hide Stale, Swept;
  }

  lemma SweepingEnds(live: seq<Rule>, slots: seq<Rule>, first: nat, claimed: seq<Rule>, source: seq<Rule>)
    requires Sweeping(live, slots, |claimed|, first, claimed, source)
    ensures live == Sweep(claimed, source) && !Panics(claimed, source)
  {
    hide Stale;
    SweptEnds(claimed, live, source);
  }

  /** Second loop of the merge.  `panicked` stands for the slice expression that is out of range. */
  method SweepStale(dest: Slice<Rule>, source: seq<Rule>) returns (panicked: bool)
    requires dest.Valid()
    modifies dest, dest.data
    ensures dest.Valid() && dest.data == old(dest.data)
    ensures panicked == Panics(old(dest.Contents()), source)
    ensures !panicked ==> dest.Contents() == Sweep(old(dest.Contents()), source)
  {
    hide Sweep, Stale, Sweeping, Panics;
    panicked := false;
    ghost var claimed := dest.Contents();
    // the range is that of the slice before the loop
    var ranged, n := dest.data, dest.len;
    ghost var first: nat := n;
    SweepingStarts(claimed, source);
    for i := 0 to n
      invariant dest.Valid() && dest.data == ranged && dest.len <= n <= ranged.Length
      invariant Sweeping(dest.Contents(), ranged[..n], i, first, claimed, source)
    {
      var r := ranged[i];
      var stale := IsStale(r, source);
      ghost var live, slots := dest.Contents(), ranged[..n];
      if stale {
        var inRange := dest.RemoveAt(i);
        if !inRange {
          SweepingPanics(live, slots, i, first, claimed, source);
          panicked := true;
          return;
        }
        assert ranged[..n][..|live| - 1] == dest.Contents();
        assert ranged[..n][|live| - 1..] == slots[|live| - 1..];
        SweepingRemoves(live, slots, i, first, claimed, source, ranged[..n]);
        first := if first < n then first else i;
      } else {
        SweepingKeeps(live, slots, i, first, claimed, source);
      }
    }
    SweepingEnds(dest.Contents(), ranged[..n], first, claimed, source);
  }

  /** Merges the rules of one app into the shared rules in place. */
  method MergeIngressRules(dest: Slice<Rule>, source: seq<Rule>) returns (panicked: bool)
    requires dest.Valid()
    modifies dest, dest.data
    ensures dest.Valid()
    ensures panicked == (MergeOutcome(old(dest.Contents()), source) == Panicked)
    ensures !panicked ==> MergeOutcome(old(dest.Contents()), source) == Merged(dest.Contents())
  {
    ClaimHosts(dest, source);
    panicked := SweepStale(dest, source);
  }
}
