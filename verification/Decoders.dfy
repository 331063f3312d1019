/**
 The decoding loops of the generated file: one method per shape of field and the skipping of
 unknown records, each proved equal to the wire format at the index where it starts.
 */
module Decoders {
  import opened Options
  import opened Varint
  import opened Wire

  /** Length, checks and bytes of a string, bytes or map field. */
  method ReadChunkAt(dAtA: Bytes, start: nat) returns (b: Bytes, iNdEx: nat, err: Option<Error>)
    requires start <= |dAtA|
    ensures match ReadChunk(dAtA[start..])
            case GotChunk(x, n) => err == None && b == x && iNdEx == start + n
            case NoChunk(e) => err == Some(e)
    ensures start <= iNdEx <= |dAtA|
  {
    hide ReadVarint;
    b := [];
    var l := |dAtA|;
    var length;
    length, iNdEx, err := DecodeVarint(dAtA, start, TWO_TO_THE_64);
    if err.Some? {
      return;
    }
    var intStringLen := Signed(length, TWO_TO_THE_64);
    if intStringLen < 0 {
      err := Some(InvalidLength);
      return;
    }
    var postIndex := iNdEx + intStringLen;
    if postIndex > l {
      err := Some(UnexpectedEOF);
      return;
    }
    b := dAtA[iNdEx..postIndex];
    assert dAtA[start..][iNdEx - start..postIndex - start] == b;
    iNdEx := postIndex;
  }

  method TextField(dAtA: Bytes, start: nat, wireType: nat, held: Bytes)
    returns (b: Bytes, iNdEx: nat, err: Option<Error>)
    requires start <= |dAtA|
    ensures start <= iNdEx <= |dAtA|
    ensures ReadField(Text(held), wireType, dAtA[start..])
         == if err == None then Got(Text(b), iNdEx - start) else Lost(Text(b), err.value)
  {
    b, iNdEx, err := held, start, None;
    if wireType != 2 {
      err := Some(WrongWireType);
      return;
    }
    var x;
    x, iNdEx, err := ReadChunkAt(dAtA, start);
    if err.None? {
      b := x;
    }
  }

  method TextsField(dAtA: Bytes, start: nat, wireType: nat, held: seq<Bytes>)
    returns (bs: seq<Bytes>, iNdEx: nat, err: Option<Error>)
    requires start <= |dAtA|
    ensures start <= iNdEx <= |dAtA|
    ensures ReadField(Texts(held), wireType, dAtA[start..])
         == if err == None then Got(Texts(bs), iNdEx - start) else Lost(Texts(bs), err.value)
  {
    bs, iNdEx, err := held, start, None;
    if wireType != 2 {
      err := Some(WrongWireType);
      return;
    }
    var x;
    x, iNdEx, err := ReadChunkAt(dAtA, start);
    if err.None? {
      bs := bs + [x];
    }
  }

  method Int64Field(dAtA: Bytes, start: nat, wireType: nat, held: int64)
    returns (n: int64, iNdEx: nat, err: Option<Error>)
    requires start <= |dAtA|
    ensures start <= iNdEx <= |dAtA|
    ensures ReadField(Int64(held), wireType, dAtA[start..])
         == if err == None then Got(Int64(n), iNdEx - start) else Lost(Int64(n), err.value)
  {
    n, iNdEx, err := held, start, None;
    if wireType != 0 {
      err := Some(WrongWireType);
      return;
    }
    var x;
    x, iNdEx, err := DecodeVarint(dAtA, start, TWO_TO_THE_64);
    n := Signed(x, TWO_TO_THE_64);
  }

  method Int32Field(dAtA: Bytes, start: nat, wireType: nat, held: int32)
    returns (n: int32, iNdEx: nat, err: Option<Error>)
    requires start <= |dAtA|
    ensures start <= iNdEx <= |dAtA|
    ensures ReadField(Int32(held), wireType, dAtA[start..])
         == if err == None then Got(Int32(n), iNdEx - start) else Lost(Int32(n), err.value)
  {
    n, iNdEx, err := held, start, None;
    if wireType != 0 {
      err := Some(WrongWireType);
      return;
    }
    var x;
    x, iNdEx, err := DecodeVarint(dAtA, start, TWO_TO_THE_32);
    n := Signed(x, TWO_TO_THE_32);
  }

  /** A tag that is not looked at and the value behind it. */
  method TextHalf(dAtA: Bytes, start: nat) returns (b: Bytes, iNdEx: nat, err: Option<Error>)
    requires start <= |dAtA|
    ensures match ReadHalf(dAtA[start..], false)
            case GotHalf(v, n) => err == None && v == Chunk(b) && iNdEx == start + n
            case NoHalf(e) => err == Some(e)
    ensures start <= iNdEx <= |dAtA|
  {
    b := [];
    var key;
    key, iNdEx, err := DecodeVarint(dAtA, start, TWO_TO_THE_64);
    if err.Some? {
      return;
    }
    assert dAtA[start..][iNdEx - start..] == dAtA[iNdEx..];
    b, iNdEx, err := ReadChunkAt(dAtA, iNdEx);
  }

  method CountHalf(dAtA: Bytes, start: nat) returns (n: int32, iNdEx: nat, err: Option<Error>)
    requires start <= |dAtA|
    ensures match ReadHalf(dAtA[start..], true)
            case GotHalf(v, k) => err == None && v == Number(n) && iNdEx == start + k
            case NoHalf(e) => err == Some(e)
    ensures start <= iNdEx <= |dAtA|
  {
    n := 0;
    var key;
    key, iNdEx, err := DecodeVarint(dAtA, start, TWO_TO_THE_64);
    if err.Some? {
      return;
    }
    assert dAtA[start..][iNdEx - start..] == dAtA[iNdEx..];
    var x;
    x, iNdEx, err := DecodeVarint(dAtA, iNdEx, TWO_TO_THE_32);
    n := Signed(x, TWO_TO_THE_32);
  }

  /** The entry of a map field; the halves are read up to the end of the buffer, not of the entry. */
  method EntryAt(dAtA: Bytes, start: nat, counts: bool)
    returns (key: Bytes, text: Bytes, count: int32, iNdEx: nat, err: Option<Error>)
    requires start <= |dAtA|
    ensures match ReadEntry(dAtA[start..], counts)
            case GotEntry(k, v, n) =>
              && err == None && key == k && v == (if counts then Number(count) else Chunk(text))
              && iNdEx == start + n
            case NoEntry(e) => err == Some(e)
    ensures start <= iNdEx <= |dAtA|
  {
    hide ReadChunk, ReadHalf;
    key, text, count := [], [], 0;
    var entry, postIndex;
    entry, postIndex, err := ReadChunkAt(dAtA, start);
    iNdEx := postIndex;
    if err.Some? {
      return;
    }
    ghost var body := postIndex - |entry|;
    iNdEx := postIndex - |entry|;
    assert dAtA[start..][body - start..] == dAtA[body..];
    key, iNdEx, err := TextHalf(dAtA, iNdEx);
    if err.Some? {
      return;
    }
    assert dAtA[body..][iNdEx - body..] == dAtA[iNdEx..];
    if iNdEx < postIndex {
      if counts {
        count, iNdEx, err := CountHalf(dAtA, iNdEx);
      } else {
        text, iNdEx, err := TextHalf(dAtA, iNdEx);
      }
      if err.Some? {
        return;
      }
    }
    iNdEx := postIndex;
  }

  method TextMapField(dAtA: Bytes, start: nat, wireType: nat, held: map<Bytes, Bytes>)
    returns (m: map<Bytes, Bytes>, iNdEx: nat, err: Option<Error>)
    requires start <= |dAtA|
    ensures start <= iNdEx <= |dAtA|
    ensures ReadField(TextMap(held), wireType, dAtA[start..])
         == if err == None then Got(TextMap(m), iNdEx - start) else Lost(TextMap(m), err.value)
  {
    m, iNdEx, err := held, start, None;
    if wireType != 2 {
      err := Some(WrongWireType);
      return;
    }
    var key, text, count;
    key, text, count, iNdEx, err := EntryAt(dAtA, start, false);
    if err.None? {
      m := m[key := text];
    }
  }

  method CountMapField(dAtA: Bytes, start: nat, wireType: nat, held: map<Bytes, int32>)
    returns (m: map<Bytes, int32>, iNdEx: nat, err: Option<Error>)
    requires start <= |dAtA|
    ensures start <= iNdEx <= |dAtA|
    ensures ReadField(CountMap(held), wireType, dAtA[start..])
         == if err == None then Got(CountMap(m), iNdEx - start) else Lost(CountMap(m), err.value)
  {
    m, iNdEx, err := held, start, None;
    if wireType != 2 {
      err := Some(WrongWireType);
      return;
    }
    var key, text, count;
    key, text, count, iNdEx, err := EntryAt(dAtA, start, true);
    if err.None? {
      m := m[key := count];
    }
  }

  /** The low three bits of a varint do not depend on the word that holds it. */
  lemma WireTypeBits(raw: nat)
    ensures raw % TWO_TO_THE_64 % 8 == raw % 8
  {
  }

  /** Length of the first record of dAtA; it may point behind the end, which the caller checks. */
  method SkipTypes(dAtA: Bytes) returns (n: nat, err: Option<Error>)
    requires dAtA != []
    ensures match Skip(dAtA) case Ok(k) => err == None && n == k case Err(e) => err == Some(e)
    decreases |dAtA|
  {
    hide ReadVarint, SkipGroup;
    n := 0;
    var wire, iNdEx;
    wire, iNdEx, err := DecodeVarint(dAtA, 0, TWO_TO_THE_64);
    assert dAtA[0..] == dAtA;
    if err.Some? {
      return;
    }
    WireTypeBits(ReadVarint(dAtA).value);
    var x;
    match wire % 8 {
      case 0 =>
        x, n, err := DecodeVarint(dAtA, iNdEx, TWO_TO_THE_64);
      case 1 =>
        n := iNdEx + 8;
      case 2 =>
        x, iNdEx, err := DecodeVarint(dAtA, iNdEx, TWO_TO_THE_64);
        if err.Some? {
          return;
        }
        var length := Signed(x, TWO_TO_THE_64);
        if length < 0 {
          err := Some(InvalidLength);
          return;
        }
        n := iNdEx + length;
      case 3 =>
        n, err := SkipGroupAt(dAtA, iNdEx);
      case 4 =>
        n := iNdEx;
      case 5 =>
        n := iNdEx + 4;
      case _ =>
        err := Some(IllegalWireType);
    }
  }

  /** The loop over the records of a group, which ends behind the tag that closes it. */
  method SkipGroupAt(dAtA: Bytes, first: nat) returns (n: nat, err: Option<Error>)
    requires 1 <= first <= |dAtA|
    ensures match SkipGroup(dAtA[first..])
            case Ok(k) => err == None && n == first + k
            case Err(e) => err == Some(e)
    decreases |dAtA|, 0
  {
    hide ReadVarint, Skip;
    n, err := first, None;
    while true
      invariant first <= n <= |dAtA|
      invariant match SkipGroup(dAtA[n..])
                case Ok(k) => SkipGroup(dAtA[first..]) == Ok(n - first + k)
                case Err(e) => SkipGroup(dAtA[first..]) == Err(e)
      decreases |dAtA| - n
    {
      var start := n;
      var innerWire, iNdEx;
      innerWire, iNdEx, err := DecodeVarint(dAtA, n, TWO_TO_THE_64);
      if err.Some? {
        return;
      }
      WireTypeBits(ReadVarint(dAtA[start..]).value);
      if innerWire % 8 == 4 {
        n := iNdEx;
        return;
      }
      var next;
      next, err := SkipTypes(dAtA[start..]);
      if err.Some? {
        return;
      }
      if start + next > |dAtA| {
        // the next tag is then read behind the end
        err := Some(UnexpectedEOF);
        return;
      }
      assert dAtA[start..][next..] == dAtA[start + next..];
      n := start + next;
    }
  }

  /** The tag of a record and the two checks behind it. */
  method ReadTag(dAtA: Bytes, start: nat)
    returns (fieldNum: int, wireType: nat, iNdEx: nat, err: Option<Error>)
    requires start < |dAtA|
    ensures start <= iNdEx <= |dAtA|
    ensures match ReadVarint(dAtA[start..])
            case Bad(e, _) => err == Some(e)
            case Read(raw, n) =>
              && fieldNum == FieldNumber(raw) && wireType == raw % 8 && iNdEx == start + n
              && err == if raw % 8 == 4 then Some(EndGroupOutsideGroup)
                        else if fieldNum <= 0 then Some(IllegalTag) else None
  {
    hide ReadVarint, Signed;
    var wire;
    wire, iNdEx, err := DecodeVarint(dAtA, start, TWO_TO_THE_64);
    if err.None? {
      WireTypeBits(ReadVarint(dAtA[start..]).value);
    }
    fieldNum, wireType := Signed(wire / 8 % TWO_TO_THE_32, TWO_TO_THE_32), wire % 8;
    if err.Some? {
      return;
    }
    if wireType == 4 {
      err := Some(EndGroupOutsideGroup);
      return;
    }
    if fieldNum <= 0 {
      err := Some(IllegalTag);
      return;
    }
  }

  /** The default case: the whole record, tag included, is skipped. */
  method SkipField(dAtA: Bytes, preIndex: nat) returns (iNdEx: nat, err: Option<Error>)
    requires preIndex < |dAtA|
    ensures preIndex <= iNdEx <= |dAtA|
    ensures match Skip(dAtA[preIndex..])
            case Err(e) => err == Some(e)
            case Ok(k) => if preIndex + k > |dAtA| then err == Some(UnexpectedEOF)
                          else err == None && iNdEx == preIndex + k
  {
    iNdEx := preIndex;
    var skippy;
    skippy, err := SkipTypes(dAtA[iNdEx..]);
    if err.Some? {
      return;
    }
    if iNdEx + skippy > |dAtA| {
      err := Some(UnexpectedEOF);
      return;
    }
    iNdEx := iNdEx + skippy;
  }

  // One round of Unmarshal, for the loop invariants of the messages

  /** What is left to do when a round of the loop that started at `pre` has ended at `iNdEx`. */
  ghost predicate Round(before: Message, after: Message, dAtA: Bytes, pre: nat, iNdEx: nat, err: Option<Error>)
    requires pre <= |dAtA|
  {
    if err.Some? then Decode(before, dAtA[pre..]) == Outcome(after, err)
    else pre < iNdEx <= |dAtA| && Decode(before, dAtA[pre..]) == Decode(after, dAtA[iNdEx..])
  }

  lemma NothingLeft(m: Message, dAtA: Bytes)
    ensures Decode(m, dAtA[|dAtA|..]) == Outcome(m, None)
  {
  }

  lemma TagRound(m: Message, dAtA: Bytes, pre: nat, err: Option<Error>)
    requires pre < |dAtA| && err.Some?
    requires match ReadVarint(dAtA[pre..])
             case Bad(e, _) => err == Some(e)
             case Read(raw, n) =>
               err == if raw % 8 == 4 then Some(EndGroupOutsideGroup)
                      else if FieldNumber(raw) <= 0 then Some(IllegalTag) else None
    ensures Round(m, m, dAtA, pre, pre, err)
  {
    hide FieldNumber, ReadVarint, Skip, ReadField;
  }

  /** What the switch does with one record: the field it names has read its value, or the record is skipped. */
  ghost predicate Switched(before: Message, after: Message, dAtA: Bytes, pre: nat, start: nat, fieldNum: int,
      wireType: nat, iNdEx: nat, err: Option<Error>)
    requires pre < start <= |dAtA| && fieldNum >= 1
  {
    pre <= iNdEx <= |dAtA| && |after| == |before| &&
    if fieldNum <= |before| then
      && start <= iNdEx
      && after == before[fieldNum - 1 := after[fieldNum - 1]]
      && ReadField(before[fieldNum - 1], wireType, dAtA[start..])
      == if err == None then Got(after[fieldNum - 1], iNdEx - start) else Lost(after[fieldNum - 1], err.value)
    else
      && after == before
      && match Skip(dAtA[pre..])
         case Err(e) => err == Some(e)
         case Ok(k) => if pre + k > |dAtA| then err == Some(UnexpectedEOF)
                       else err == None && iNdEx == pre + k
  }

  lemma SwitchRound(before: Message, after: Message, dAtA: Bytes, pre: nat, start: nat, iNdEx: nat, err: Option<Error>)
    requires pre < start <= |dAtA|
    requires ReadVarint(dAtA[pre..]).Read? && start == pre + ReadVarint(dAtA[pre..]).next
    requires ReadVarint(dAtA[pre..]).value % 8 != 4 && FieldNumber(ReadVarint(dAtA[pre..]).value) >= 1
    requires var raw := ReadVarint(dAtA[pre..]).value;
             Switched(before, after, dAtA, pre, start, FieldNumber(raw), raw % 8, iNdEx, err)
    ensures Round(before, after, dAtA, pre, iNdEx, err)
  {
    hide FieldNumber, ReadVarint, Skip, ReadField;
    assert dAtA[pre..][start - pre..] == dAtA[start..];
    if err == None {
      assert dAtA[pre..][iNdEx - pre..] == dAtA[iNdEx..];
    }
  }
}
