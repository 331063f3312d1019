/** The registry of stacks that a user is logged in to, with the one in use. */
module Registry {
  import opened GoSlices
  import opened Options

  datatype Auth = Auth(
    name: string,
    provider: string,
    apiServer: string,
    apiKey: string,
    project: string,
    bucket: string,
    region: string)

  datatype Logins = Logins(context: string, auths: seq<Auth>)

  function Index(auths: seq<Auth>, name: string): (i: nat)
    ensures i <= |auths| && (i < |auths| ==> auths[i].name == name)
    ensures forall j :: 0 <= j < i ==> auths[j].name != name
  {
    if auths == [] || auths[0].name == name then 0
    else
      var i := Index(auths[1..], name);
      assert forall j :: 0 < j < i + 1 ==> auths[j] == auths[1..][j - 1];
      i + 1
  }

  function Without(auths: seq<Auth>, name: string): seq<Auth> {
    var i := Index(auths, name);
    if i < |auths| then auths[..i] + auths[i + 1..] else auths
  }

  function Find(auths: seq<Auth>, name: string): Option<Auth> {
    var i := Index(auths, name);
    if i < |auths| then Some(auths[i]) else None
  }

  /** Without a name the stack in use is looked up, if there is one. */
  function Get(l: Logins, stack: string): Option<Auth> {
    var name := if stack == "" then l.context else stack;
    if name == "" then None else Find(l.auths, name)
  }

  function Set(l: Logins, a: Auth): Logins {
    Logins(a.name, Without(l.auths, a.name) + [a])
  }

  function Delete(l: Logins): Logins {
    if l.context == "" || Find(l.auths, l.context) == None then l
    else Logins("", Without(l.auths, l.context))
  }

  class Apprc {
    var context: string
    const auths: Slice<Auth>

    ghost predicate Valid()
      reads this, auths
    {
      auths.Valid()
    }

    ghost function Value(): Logins
      requires Valid()
      reads this, auths, auths.data
    {
      Logins(context, auths.Contents())
    }

    constructor (l: Logins)
      ensures Valid() && Value() == l && fresh(auths) && fresh(auths.data)
    {
      context := l.context;
      auths := new Slice(l.auths);
    }

    method IndexOf(name: string) returns (i: nat)
      requires Valid()
      ensures i == Index(auths.Contents(), name)
    {
      i := 0;
      while i < auths.len && auths.data[i].name != name
        invariant i <= auths.len
        invariant forall j :: 0 <= j < i ==> auths.Contents()[j].name != name
      {
        i := i + 1;
      }
    }

    method GetAuth(stack: string) returns (a: Option<Auth>)
      requires Valid()
      ensures a == Get(Value(), stack)
    {
      var name := if stack == "" then context else stack;
      if name != "" {
        var i := IndexOf(name);
        if i < auths.len {
          return Some(auths.data[i]);
        }
      }
      a := None;
    }

    method SetAuth(a: Auth)
      requires Valid()
      modifies this, auths, auths.data
      ensures Valid() && Value() == Set(old(Value()), a)
    {
      var i := IndexOf(a.name);
      if i < auths.len {
        var inRange := auths.RemoveAt(i);
      }
      context := a.name;
      auths.Append(a);
    }

    method DeleteAuth()
      requires Valid()
      modifies this, auths, auths.data
      ensures Valid() && Value() == Delete(old(Value()))
    {
      if context != "" {
        var i := IndexOf(context);
        if i < auths.len {
          var inRange := auths.RemoveAt(i);
          context := "";
        }
      }
    }
  }

  lemma IsIndex(auths: seq<Auth>, name: string, i: nat)
    requires i <= |auths| && (i < |auths| ==> auths[i].name == name)
    requires forall j :: 0 <= j < i ==> auths[j].name != name
    ensures Index(auths, name) == i
  {
  }

  /** Logging in makes the stack the one that is found, exactly when no second entry of its name hides it. */
  lemma SetThenGetIff(l: Logins, a: Auth)
    ensures Get(Set(l, a), a.name) == Some(a)
       <==> a.name != "" && (var hidden := Find(Without(l.auths, a.name), a.name); hidden == None || hidden == Some(a))
    ensures Get(Set(l, a), "") == Get(Set(l, a), a.name)
  {
    FindAppend(Without(l.auths, a.name), a, a.name);
    hide Index, Without;
  }

  ghost predicate DistinctNames(l: Logins) {
    forall i, j :: 0 <= i < j < |l.auths| ==> l.auths[i].name != l.auths[j].name
  }

  lemma FindAppend(rest: seq<Auth>, a: Auth, name: string)
    ensures Find(rest + [a], name)
         == if Find(rest, name).Some? then Find(rest, name) else if a.name == name then Some(a) else None
  {
    hide Index;
    var i := Index(rest, name);
    IsIndex(rest + [a], name, if i < |rest| || a.name == name then i else |rest| + 1);
  }

  /** Where every stack has one entry, logging in and out keep it so and leave the other stacks alone. */
  lemma SetKeepsDistinctNames(l: Logins, a: Auth, other: string)
    requires DistinctNames(l) && other != ""
    ensures DistinctNames(Set(l, a))
    ensures a.name != "" ==> Get(Set(l, a), a.name) == Some(a)
    ensures other != a.name ==> Get(Set(l, a), other) == Get(l, other)
  {
    WithoutOther(l.auths, a.name, other);
    hide Index, Without;
    FindAppend(Without(l.auths, a.name), a, a.name);
    FindAppend(Without(l.auths, a.name), a, other);
  }

  lemma DeleteKeepsDistinctNames(l: Logins, other: string)
    requires DistinctNames(l) && other != ""
    ensures DistinctNames(Delete(l))
    ensures other != l.context ==> Get(Delete(l), other) == Get(l, other)
    ensures l.context != "" ==> Get(Delete(l), l.context) == None
  {
    WithoutOther(l.auths, l.context, other);
    hide Index, Without;
  }

  lemma WithoutOther(auths: seq<Auth>, name: string, other: string)
    requires forall i, j :: 0 <= i < j < |auths| ==> auths[i].name != auths[j].name
    ensures forall j :: 0 <= j < |Without(auths, name)| ==> Without(auths, name)[j].name != name
    ensures forall i, j :: 0 <= i < j < |Without(auths, name)| ==>
              Without(auths, name)[i].name != Without(auths, name)[j].name
    ensures other != name ==> Find(Without(auths, name), other) == Find(auths, other)
  {
    hide Index;
    if other != name {
      FindOther(auths, name, other);
    }
  }

  lemma FindOther(auths: seq<Auth>, name: string, other: string)
    requires other != name
    ensures Find(Without(auths, name), other) == Find(auths, other)
  {
    hide Index;
    var i, k := Index(auths, name), Index(auths, other);
    if i < |auths| {
      var rest := auths[..i] + auths[i + 1..];
      forall j | 0 <= j < |rest| ensures rest[j] == auths[if j < i then j else j + 1] {
      }
      IsIndex(rest, other, if k < i then k else k - 1);
    }
  }
}
