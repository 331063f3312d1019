/** Adding a domain to an app, or removing it when it is written with a leading colon. */
module Domains {
  import opened GoSlices

  function IndexOf(domains: seq<string>, item: string): (i: nat)
    ensures i <= |domains|
    ensures i < |domains| ==> domains[i] == item
    ensures item !in domains[..i]
    ensures i == |domains| <==> item !in domains
  {
    if domains == [] || domains[0] == item then 0
    else
      assert domains == [domains[0]] + domains[1..];
      var i := IndexOf(domains[1..], item);
      assert domains[..i + 1] == [domains[0]] + domains[1..][..i];
      i + 1
  }

  lemma {:induction false} IsIndexOf(domains: seq<string>, item: string, i: nat)
    requires i <= |domains| && (i < |domains| ==> domains[i] == item)
    requires forall j :: 0 <= j < i ==> domains[j] != item
    ensures IndexOf(domains, item) == i
    decreases |domains|
  {
    if i > 0 {
      IsIndexOf(domains[1..], item, i - 1);
    }
  }

  predicate Dotted(item: string) {
    item != "" && item[0] == ':'
  }

  function Without(domains: seq<string>, item: string): seq<string> {
    var i := IndexOf(domains, item);
    if i < |domains| then domains[..i] + domains[i + 1..] else domains
  }

  function MergeDomains(domains: seq<string>, item: string): seq<string> {
    if item == "" then domains
    else if Dotted(item) then Without(domains, item[1..])
    else if item in domains then domains
    else domains + [item]
  }

  method MergeAppDomains(domains: Slice<string>, item: string)
    requires domains.Valid()
    modifies domains, domains.data
    ensures domains.Valid()
    ensures domains.Contents() == MergeDomains(old(domains.Contents()), item)
  {
    if item == "" {
      return;
    }
    var dotted := item[0] == ':';
    var wanted := if dotted then item[1..] else item;
    var i := 0;
    while i < domains.len && domains.data[i] != wanted
      invariant i <= domains.len
      invariant forall j :: 0 <= j < i ==> domains.Contents()[j] != wanted
    {
      i := i + 1;
    }
    var found := i < domains.len;
    IsIndexOf(domains.Contents(), wanted, i);
    if dotted && found {
      var inRange := domains.RemoveAt(i);
    } else if !dotted && !found {
      domains.Append(wanted);
    }
  }

  ghost predicate Unique(domains: seq<string>) {
    forall i, j :: 0 <= i < j < |domains| ==> domains[i] != domains[j]
  }

  /** The list behaves as a set of domains: with or without the item, and no domain twice. */
  lemma MergeDomainsIsSet(domains: seq<string>, item: string, d: string)
    requires Unique(domains)
    ensures Unique(MergeDomains(domains, item))
    ensures d in MergeDomains(domains, item) <==>
            if item == "" then d in domains
            else if Dotted(item) then d in domains && d != item[1..]
            else d in domains || d == item
  {
    if item != "" && Dotted(item) {
      var i := IndexOf(domains, item[1..]);
      if i < |domains| {
        assert domains == domains[..i] + [domains[i]] + domains[i + 1..];
        assert domains[i] !in domains[i + 1..];
      }
    }
  }

  /** Removing a domain right after it was added restores the list, order included. */
  lemma RemoveUndoesAdd(domains: seq<string>, item: string)
    requires item != "" && !Dotted(item) && item !in domains
    ensures MergeDomains(MergeDomains(domains, item), [':'] + item) == domains
  {
    var added := domains + [item];
    assert MergeDomains(domains, item) == added;
    assert ([':'] + item)[1..] == item;
    IsIndexOf(added, item, |domains|);
  }

  /** Adding leaves the list in front as it is. */
  lemma AddKeepsOrder(list: seq<string>, item: string)
    requires item != "" && item[0] != ':'
    ensures MergeDomains(list, item) == if item in list then list else list + [item]
  {
  }

  /** Removing leaves the others in their order. */
  lemma RemoveKeepsOrder(before: seq<string>, item: string, behind: seq<string>)
    requires item !in before && item !in behind
    ensures MergeDomains(before + [item] + behind, ":" + item) == before + behind
    ensures MergeDomains(before + behind, ":" + item) == before + behind
  {
    hide IndexOf;
    var list := before + [item] + behind;
    assert (":" + item)[1..] == item;
    IsIndexOf(list, item, |before|);
    IsIndexOf(before + behind, item, |before + behind|);
    assert list[..|before|] == before && list[|before| + 1..] == behind;
  }
}
