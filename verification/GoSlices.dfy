/**
 Go slices with their backing array: a header of an array and a length, append with and without room,
 and the `append(s[:i], s[i+1:]...)` idiom that moves elements in place.
 */
module GoSlices {

  class Slice<T> {
    var data: array<T>
    var len: nat

    ghost predicate Valid()
      reads this
    {
      len <= data.Length
    }

    ghost function Contents(): seq<T>
      requires Valid()
      reads this, data
    {
      data[..len]
    }

    constructor (elements: seq<T>)
      ensures Valid() && Contents() == elements && fresh(data)
    {
      data := new T[|elements|](i requires 0 <= i < |elements| => elements[i]);
      len := |elements|;
    }

    /** `s = append(s, x)`: in place while there is room, otherwise into a larger array. */
    method Append(x: T)
      requires Valid()
      modifies this, data
      ensures Valid() && Contents() == old(Contents()) + [x]
      ensures data == old(data) || fresh(data)
    {
      if len < data.Length {
        data[len] := x;
      } else {
        var capacity: nat :| capacity > len;
        var was, n := data, len;
        data := new T[capacity](i requires 0 <= i < capacity reads was =>
                                  if i < n && i < was.Length then was[i] else x);
      }
      len := len + 1;
      assert data[..len - 1] == old(data[..len]);
    }

    method Set(i: nat, x: T)
      requires Valid() && i < len
      modifies data
      ensures Valid() && Contents() == old(Contents())[i := x]
    {
      data[i] := x;
    }

    /**
     `s = append(s[:i], s[i+1:]...)`.  The elements behind i move down inside the backing array, whose
     last live slot keeps its old element.  Slicing at i + 1 > len is out of range.
     */
    method RemoveAt(i: nat) returns (inRange: bool)
      requires Valid()
      modifies this, data
      ensures Valid() && data == old(data)
      ensures inRange == (i < old(len))
      ensures inRange ==> len == old(len) - 1
      ensures inRange ==> Contents() == old(Contents())[..i] + old(Contents())[i + 1..]
      ensures inRange ==> forall j :: len <= j < data.Length ==> data[j] == old(data[j])
      ensures !inRange ==> len == old(len) && data[..] == old(data[..])
    {
      inRange := i + 1 <= len;
      if !inRange {
        return;
      }
      var last := len - 1;
      for j := i to last
        invariant data == old(data) && len == old(len)
        invariant forall k :: 0 <= k < i ==> data[k] == old(data[k])
        invariant forall k :: i <= k < j ==> data[k] == old(data[k + 1])
        invariant forall k :: j <= k < data.Length ==> data[k] == old(data[k])
      {
        data[j] := data[j + 1];
      }
      len := last;
    }
  }
}
