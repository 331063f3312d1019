/** The lists that tell which apps use a resource and which resources an app uses. */
module ResourceLinks {
  import opened Domains
  import opened GoSlices

  /** Appends a name that is not yet in the list. */
  method AppendOnce(list: Slice<string>, name: string)
    requires list.Valid()
    modifies list, list.data
    ensures list.Valid() && (list.data == old(list.data) || fresh(list.data))
    ensures list.Contents() == Linked(old(list.Contents()), name)
  {
    var found := false;
    for i := 0 to list.len
      invariant found == (name in list.Contents()[..i])
    {
      assert list.Contents()[..i + 1] == list.Contents()[..i] + [list.data[i]];
      if list.data[i] == name {
        found := true;
      }
    }
    assert list.Contents()[..list.len] == list.Contents();
    if !found {
      list.Append(name);
    }
  }

  method RemoveFirst(list: Slice<string>, name: string)
    requires list.Valid()
    modifies list, list.data
    ensures list.Valid() && list.data == old(list.data)
    ensures list.Contents() == Without(old(list.Contents()), name)
  {
    var i := 0;
    while i < list.len && list.data[i] != name
      invariant i <= list.len
      invariant forall j :: 0 <= j < i ==> list.Contents()[j] != name
    {
      i := i + 1;
    }
    IsIndexOf(list.Contents(), name, i);
    if i < list.len {
      var inRange := list.RemoveAt(i);
    }
  }

  function Linked(list: seq<string>, name: string): seq<string> {
    if name in list then list else list + [name]
  }

  method AppendApp(rsApps: Slice<string>, appResources: Slice<string>, app: string, resource: string)
    requires rsApps.Valid() && appResources.Valid() && rsApps != appResources && rsApps.data != appResources.data
    modifies rsApps, rsApps.data, appResources, appResources.data
    ensures rsApps.Valid() && rsApps.Contents() == Linked(old(rsApps.Contents()), app)
    ensures appResources.Valid() && appResources.Contents() == Linked(old(appResources.Contents()), resource)
  {
    AppendOnce(rsApps, app);
    AppendOnce(appResources, resource);
  }

  method RemoveApp(rsApps: Slice<string>, appResources: Slice<string>, app: string, resource: string)
    requires rsApps.Valid() && appResources.Valid() && rsApps != appResources && rsApps.data != appResources.data
    modifies rsApps, rsApps.data, appResources, appResources.data
    ensures rsApps.Valid() && rsApps.Contents() == Without(old(rsApps.Contents()), app)
    ensures appResources.Valid() && appResources.Contents() == Without(old(appResources.Contents()), resource)
  {
    RemoveFirst(rsApps, app);
    RemoveFirst(appResources, resource);
  }

  /** Unlinking undoes linking exactly when there was no link before, and repeated links stay one. */
  lemma UnlinkUndoesLinkIff(list: seq<string>, name: string)
    ensures Without(Linked(list, name), name) == list <==> name !in list
    ensures Linked(Linked(list, name), name) == Linked(list, name)
    ensures list <= Linked(list, name) && forall x :: x in Linked(list, name) <==> x in list || x == name
    ensures Unique(list) ==> Unique(Linked(list, name)) && name !in Without(list, name)
  {
    if name !in list {
      IsIndexOf(list + [name], name, |list|);
    }
    var i := IndexOf(list, name);
    if i < |list| {
      assert |Without(list, name)| == |list| - 1;
      if Unique(list) {
        assert name !in list[i + 1..];
      }
    }
  }
}
