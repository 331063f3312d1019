/** Policy bindings grouped by role: merging them keeps exactly the grants, whatever order the maps are walked in. */
module Bindings {

  datatype Binding = Binding(role: string, members: seq<string>)

  type Roles = map<string, set<string>>

  ghost predicate HasRole(bs: seq<Binding>, role: string) {
    exists i :: 0 <= i < |bs| && bs[i].role == role
  }

  ghost predicate Grants(bs: seq<Binding>, role: string, member: string) {
    exists i :: 0 <= i < |bs| && bs[i].role == role && member in bs[i].members
  }

  ghost predicate NoRepeats(xs: seq<string>) {
    forall i, j :: 0 <= i < j < |xs| ==> xs[i] != xs[j]
  }

  /** Every role has one binding and every member stands in it once. */
  ghost predicate Normal(bs: seq<Binding>) {
    && (forall i, j :: 0 <= i < j < |bs| ==> bs[i].role != bs[j].role)
    && (forall i :: 0 <= i < |bs| ==> NoRepeats(bs[i].members))
  }

  ghost predicate SameGrants(a: seq<Binding>, b: seq<Binding>) {
    && (forall role :: HasRole(a, role) <==> HasRole(b, role))
    && (forall role, member :: Grants(a, role, member) <==> Grants(b, role, member))
  }

  /** The map holds the bindings. */
  ghost predicate Groups(bm: Roles, bs: seq<Binding>) {
    && (forall role :: role in bm <==> HasRole(bs, role))
    && (forall role, member :: role in bm && member in bm[role] <==> Grants(bs, role, member))
  }

  method RolesToMembersMap(bindings: seq<Binding>) returns (bm: Roles)
    ensures Groups(bm, bindings)
  {
    bm := map[];
    for i := 0 to |bindings|
      invariant Groups(bm, bindings[..i])
    {
      var b := bindings[i];
      ghost var before := bm;
      if b.role !in bm {
        bm := bm[b.role := {}];
      }
      assert Members(b.members[..0]) == {};
      assert bm[b.role] + {} == bm[b.role];
      for j := 0 to |b.members|
        invariant bm == Added(before, b.role, b.members[..j])
      {
        bm := bm[b.role := bm[b.role] + {b.members[j]}];
        assert b.members[..j + 1] == b.members[..j] + [b.members[j]];
        ghost var had := if b.role in before then before[b.role] else {};
        assert had + Members(b.members[..j + 1]) == had + Members(b.members[..j]) + {b.members[j]};
      }
      assert b.members[..|b.members|] == b.members;
      assert bindings[..i + 1] == bindings[..i] + [b];
      GroupsOneMore(before, bindings[..i], b);
    }
    assert bindings[..|bindings|] == bindings;
  }

  function Members(xs: seq<string>): set<string> {
    set m | m in xs
  }

  function Added(bm: Roles, role: string, members: seq<string>): Roles {
    bm[role := (if role in bm then bm[role] else {}) + Members(members)]
  }

  lemma GroupsOneMore(bm: Roles, bs: seq<Binding>, b: Binding)
    requires Groups(bm, bs)
    ensures Groups(Added(bm, b.role, b.members), bs + [b])
  {
    var more := bs + [b];
    forall role ensures HasRole(more, role) <==> HasRole(bs, role) || role == b.role {
      if i :| 0 <= i < |bs| && bs[i].role == role {
        assert more[i].role == role;
      }
      assert more[|bs|] == b;
    }
    forall role, member
      ensures Grants(more, role, member) <==> Grants(bs, role, member) || (role == b.role && member in b.members)
    {
      if i :| 0 <= i < |bs| && bs[i].role == role && member in bs[i].members {
        assert more[i] == bs[i];
      }
      assert more[|bs|] == b;
    }
  }

  method ListMembers(members: set<string>) returns (list: seq<string>)
    ensures NoRepeats(list) && forall m :: m in list <==> m in members
  {
    list := [];
    var todo := members;
    while todo != {}
      invariant todo <= members && NoRepeats(list)
      invariant forall m :: m in list <==> m in members && m !in todo
    {
      var m :| m in todo;
      list := list + [m];
      todo := todo - {m};
    }
  }

  /** A list of bindings that lists the map. */
  ghost predicate Lists(bs: seq<Binding>, bm: Roles) {
    Normal(bs) && Groups(bm, bs)
  }

  /** Walks the map in any order; rolesToMembersBinding and mergeBindings both do. */
  method RolesToMembersBinding(bm: Roles) returns (bindings: seq<Binding>)
    ensures Lists(bindings, bm)
  {
    bindings := [];
    var todo := bm.Keys;
    ghost var listed: Roles := map[];
    while todo != {}
      invariant todo <= bm.Keys && listed == map r | r in bm && r !in todo :: bm[r]
      invariant Lists(bindings, listed)
    {
      var role :| role in todo;
      var members := ListMembers(bm[role]);
      assert !HasRole(bindings, role);
      GroupsOneMore(listed, bindings, Binding(role, members));
      assert Members(members) == bm[role];
      assert {} + Members(members) == bm[role];
      assert Added(listed, role, members) == listed[role := bm[role]];
      bindings := bindings + [Binding(role, members)];
      listed := listed[role := bm[role]];
      todo := todo - {role};
    }
    assert listed == bm;
  }

  method MergeBindings(bindings: seq<Binding>) returns (rb: seq<Binding>)
    ensures Normal(rb) && SameGrants(rb, bindings)
  {
    var bm := RolesToMembersMap(bindings);
    rb := RolesToMembersBinding(bm);
  }

  /** The policy that is written back: the grants there were and the new ones, nothing twice. */
  method AddToPolicy(bindings: seq<Binding>, newBindings: seq<Binding>) returns (rb: seq<Binding>)
    ensures Normal(rb) && SameGrants(rb, bindings + newBindings)
  {
    var mergedBindings := MergeBindings(bindings + newBindings);
    var mergedBindingsMap := RolesToMembersMap(mergedBindings);
    rb := RolesToMembersBinding(mergedBindingsMap);
  }

  /** Grants determine a normal list up to the order of the bindings and of their members. */
  lemma NormalFormIsUnique(a: seq<Binding>, b: seq<Binding>, i: nat)
    requires Normal(a) && Normal(b) && SameGrants(a, b) && i < |a|
    ensures exists j :: 0 <= j < |b| && b[j].role == a[i].role && multiset(b[j].members) == multiset(a[i].members)
  {
    assert HasRole(a, a[i].role);
    var j :| 0 <= j < |b| && b[j].role == a[i].role;
    forall m ensures m in a[i].members <==> m in b[j].members {
      assert m in a[i].members ==> Grants(a, a[i].role, m);
      assert m in b[j].members ==> Grants(b, b[j].role, m);
      if Grants(a, a[i].role, m) {
        var k :| 0 <= k < |a| && a[k].role == a[i].role && m in a[k].members;
        assert k == i;
        var l :| 0 <= l < |b| && b[l].role == a[i].role && m in b[l].members;
        assert l == j;
      }
    }
    OnceEach(a[i].members);
    OnceEach(b[j].members);
    forall m ensures multiset(a[i].members)[m] == multiset(b[j].members)[m] {
    }
  }

  lemma {:induction false} OnceEach(xs: seq<string>)
    requires NoRepeats(xs)
    ensures forall m :: multiset(xs)[m] == if m in xs then 1 else 0
  {
    if xs != [] {
      var n := |xs| - 1;
      assert xs == xs[..n] + [xs[n]];
      OnceEach(xs[..n]);
    }
  }
}
