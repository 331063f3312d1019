/**
 Base 128 varints as the generated codec reads and writes them: the wire form as a pair of
 functions, and the three loops of the generated file proved against them.
 */
module Varint {
  import opened Options

  type byte = b: nat | b < 256
  type Bytes = seq<byte>

  const TWO_TO_THE_64: int := 0x1_0000_0000_0000_0000
  const TWO_TO_THE_63: int := 0x8000_0000_0000_0000
  const TWO_TO_THE_32: int := 0x1_0000_0000
  const TWO_TO_THE_31: int := 0x8000_0000

  type int64 = n: int | -TWO_TO_THE_63 <= n < TWO_TO_THE_63
  type int32 = n: int | -TWO_TO_THE_31 <= n < TWO_TO_THE_31

  datatype Error =
    | IntOverflow
    | UnexpectedEOF
    | InvalidLength
    | EndGroupOutsideGroup
    | IllegalTag
    | WrongWireType
    | IllegalWireType

  /** `Bad` carries the bits read before the failure: a numeric field keeps them. */
  datatype Reading = Read(value: nat, next: nat) | Bad(error: Error, partial: nat)

  /** Reads one varint from the front of `s`; `shift` is the shift the loop has reached. */
  function ReadVarint(s: Bytes, shift: nat := 0): (r: Reading)
    ensures r.Read? ==> 1 <= r.next <= |s|
  {
    if shift >= 64 then Bad(IntOverflow, 0)
    else if s == [] then Bad(UnexpectedEOF, 0)
    else if s[0] < 0x80 then Read(s[0], 1)
    else
      match ReadVarint(s[1..], shift + 7)
      case Read(v, n) => Read(s[0] % 0x80 + 0x80 * v, n + 1)
      case Bad(e, p) => Bad(e, s[0] % 0x80 + 0x80 * p)
  }

  function PutVarint(v: nat): (s: Bytes)
    ensures |s| >= 1
  {
    if v < 0x80 then [v] else [v % 0x80 + 0x80] + PutVarint(v / 0x80)
  }

  /** Two's complement reading of `x` in a word of `width` values. */
  function Signed(x: nat, width: nat): (n: int)
    requires x < width && width % 2 == 0
    ensures -(width as int) <= 2 * n < width
  {
    if x < width / 2 then x else x - width
  }

  /** Go's conversion of a signed integer of at most 64 bits to uint64. */
  function ToUint64(n: int64): (u: nat)
    ensures u < TWO_TO_THE_64
  {
    if n < 0 then n + TWO_TO_THE_64 else n
  }

  // Widths and the inverse of reading

  function Power128(k: nat): (p: nat)
    ensures p >= 1
  {
    if k == 0 then 1 else 0x80 * Power128(k - 1)
  }

  /** A value needs at most `k` bytes exactly when it is below 128^k. */
  lemma {:induction false} PutVarintWidth(v: nat, k: nat)
    ensures |PutVarint(v)| <= k <==> k > 0 && v < Power128(k)
  {
    if k > 1 && v >= 0x80 {
      PutVarintWidth(v / 0x80, k - 1);
    } else if k == 1 {
      assert Power128(1) == 0x80 * Power128(0);
    }
  }

  lemma Uint64Width(v: nat)
    requires v < TWO_TO_THE_64
    ensures 1 <= |PutVarint(v)| <= 10
  {
    assert Power128(10) >= TWO_TO_THE_64 by {
      assert Power128(3) == 0x20_0000;
      assert Power128(6) == 0x400_0000_0000;
      assert Power128(9) == 0x8000_0000_0000_0000;
    }
    PutVarintWidth(v, 10);
  }

  /** Negative numbers always take the full ten bytes. */
  lemma NegativeWidth(n: int64)
    requires n < 0
    ensures |PutVarint(ToUint64(n))| == 10
  {
    Uint64Width(ToUint64(n));
    assert Power128(9) == TWO_TO_THE_63 by {
      assert Power128(3) == 0x20_0000;
      assert Power128(6) == 0x400_0000_0000;
    }
    PutVarintWidth(ToUint64(n), 9);
  }

  lemma {:induction false} ReadPutAt(v: nat, shift: nat)
    requires shift + 7 * (|PutVarint(v)| - 1) < 64
    ensures ReadVarint(PutVarint(v), shift) == Read(v, |PutVarint(v)|)
  {
    if v >= 0x80 {
      ReadPutAt(v / 0x80, shift + 7);
      assert PutVarint(v)[1..] == PutVarint(v / 0x80);
    }
  }

  lemma ReadPut(v: nat)
    requires v < TWO_TO_THE_64
    ensures ReadVarint(PutVarint(v)) == Read(v, |PutVarint(v)|)
  {
    Uint64Width(v);
    ReadPutAt(v, 0);
  }

  /** What was read does not depend on the bytes behind it. */
  lemma {:induction false} ReadVarintStable(s: Bytes, t: Bytes, shift: nat := 0)
    requires ReadVarint(s, shift).Read?
    ensures ReadVarint(s + t, shift) == ReadVarint(s, shift)
  {
    assert (s + t)[0] == s[0];
    if s[0] >= 0x80 {
      ReadVarintStable(s[1..], t, shift + 7);
      assert (s + t)[1..] == s[1..] + t;
    }
  }

  /** The bytes read are themselves a complete varint, at most ten long. */
  lemma {:induction false} ReadVarintLocal(s: Bytes, shift: nat := 0)
    requires ReadVarint(s, shift).Read?
    ensures ReadVarint(s[..ReadVarint(s, shift).next], shift) == ReadVarint(s, shift)
    ensures shift + 7 * (ReadVarint(s, shift).next - 1) < 64
  {
    if s[0] >= 0x80 {
      ReadVarintLocal(s[1..], shift + 7);
      var n := ReadVarint(s, shift).next;
      assert s[..n][1..] == s[1..][..n - 1];
    }
  }

  // The loops

  /** The words a varint is accumulated in: uint64 and int, or int32. */
  predicate IsWordSize(width: int) {
    width == TWO_TO_THE_32 || width == TWO_TO_THE_64
  }

  lemma ModAccumulate(acc: nat, x: nat, width: nat)
    requires IsWordSize(width)
    ensures (acc % width + x) % width == (acc + x) % width
  {
    if width == TWO_TO_THE_32 {
      assert (acc % 0x1_0000_0000 + x) % 0x1_0000_0000 == (acc + x) % 0x1_0000_0000;
    } else {
      assert (acc % 0x1_0000_0000_0000_0000 + x) % 0x1_0000_0000_0000_0000 == (acc + x) % 0x1_0000_0000_0000_0000;
    }
  }

  /** The low bits of `acc` in a word, and `v |= (b & 0x7F) << shift` on them. */
  function Low(acc: nat, width: nat): nat
    requires IsWordSize(width)
  {
    acc % width
  }

  function Accumulate(v: nat, b: byte, mul: nat, width: nat): nat
    requires IsWordSize(width)
  {
    (v + (b % 0x80) * mul) % width
  }

  function Advance(acc: nat, b: byte, mul: nat): nat {
    acc + (b % 0x80) * mul
  }

  lemma AccumulateLow(acc: nat, b: byte, mul: nat, width: nat)
    requires IsWordSize(width)
    ensures Accumulate(Low(acc, width), b, mul, width) == Low(Advance(acc, b, mul), width)
  {
    var x: nat := (b % 0x80) * mul;
    ModAccumulate(acc, x, width);
  }

  /** `whole` is the reading in which the loop has consumed `done` bytes worth `acc`, `rest` being to come. */
  ghost predicate Continues(whole: Reading, rest: Reading, acc: nat, mul: nat, done: nat) {
    match rest
    case Read(v, n) => whole == Read(acc + mul * v, done + n)
    case Bad(e, p) => whole == Bad(e, acc + mul * p)
  }

  lemma ContinuesStep(whole: Reading, s: Bytes, shift: nat, acc: nat, mul: nat, done: nat)
    requires shift < 64 && s != []
    requires Continues(whole, ReadVarint(s, shift), acc, mul, done)
    ensures if s[0] < 0x80 then whole == Read(Advance(acc, s[0], mul), done + 1)
            else Continues(whole, ReadVarint(s[1..], shift + 7), Advance(acc, s[0], mul), mul * 0x80, done + 1)
  {
    if s[0] >= 0x80 {
      var rest := ReadVarint(s[1..], shift + 7);
      Distribute(mul, s[0] % 0x80, if rest.Read? then rest.value else rest.partial);
    }
  }

  lemma ContinuesEnd(whole: Reading, s: Bytes, shift: nat, acc: nat, mul: nat, done: nat)
    requires shift >= 64 || s == []
    requires Continues(whole, ReadVarint(s, shift), acc, mul, done)
    ensures whole == Bad(if shift >= 64 then IntOverflow else UnexpectedEOF, acc)
  {
  }

  lemma Distribute(mul: nat, low: nat, tail: nat)
    ensures mul * (low + 0x80 * tail) == low * mul + (mul * 0x80) * tail
  {
  }

  /**
   The reading loop that precedes every tag, length and number. `width` is the number of values of
   the Go type that accumulates: `v |= (b & 0x7F) << shift` keeps the low bits of that type.
   */
  method DecodeVarint(dAtA: Bytes, start: nat, width: nat)
    returns (v: nat, iNdEx: nat, err: Option<Error>)
    requires start <= |dAtA|
    requires IsWordSize(width)
    ensures match ReadVarint(dAtA[start..])
            case Read(raw, n) => err == None && v == Low(raw, width) && iNdEx == start + n
            case Bad(e, p) => err == Some(e) && v == Low(p, width)
    ensures start <= iNdEx <= |dAtA|
  {
    v, iNdEx, err := 0, start, None;
    var shift: nat, mul: nat := 0, 1;
    ghost var acc: nat := 0;
    ghost var whole := ReadVarint(dAtA[start..]);
    assert Continues(whole, whole, acc, mul, 0);
    assert Low(0, width) == 0;
    hide ReadVarint, Continues, IsWordSize, Accumulate, Advance, Low;
    while true
      invariant start <= iNdEx <= |dAtA|
      invariant v == Low(acc, width)
      invariant Continues(whole, ReadVarint(dAtA[iNdEx..], shift), acc, mul, iNdEx - start)
      decreases |dAtA| - iNdEx
    {
      if shift >= 64 {
        ContinuesEnd(whole, dAtA[iNdEx..], shift, acc, mul, iNdEx - start);
        err := Some(IntOverflow);
        return;
      }
      if iNdEx >= |dAtA| {
        ContinuesEnd(whole, dAtA[iNdEx..], shift, acc, mul, iNdEx - start);
        err := Some(UnexpectedEOF);
        return;
      }
      ContinuesStep(whole, dAtA[iNdEx..], shift, acc, mul, iNdEx - start);
      assert dAtA[iNdEx..][1..] == dAtA[iNdEx + 1..];
      var b := dAtA[iNdEx];
      iNdEx := iNdEx + 1;
      AccumulateLow(acc, b, mul, width);
      v := Accumulate(v, b, mul, width);
      acc := Advance(acc, b, mul);
      if b < 0x80 {
        return;
      }
      shift, mul := shift + 7, mul * 0x80;
    }
  }

  /** Number of bytes of the varint for x. */
  method SovTypes(x: nat) returns (n: nat)
    requires x < TWO_TO_THE_64
    ensures n == |PutVarint(x)|
    ensures 1 <= n <= 10
  {
    n := 0;
    var y := x;
    while true
      invariant n + |PutVarint(y)| == |PutVarint(x)|
      decreases y
    {
      n := n + 1;
      if y / 0x80 == 0 {
        break;
      }
      y := y / 0x80;
    }
    Uint64Width(x);
  }

  /** Writes the varint for v at `offset` and returns the index behind it; no other byte changes. */
  method EncodeVarintTypes(dAtA: array<byte>, offset: nat, v: nat) returns (i: nat)
    requires offset + |PutVarint(v)| <= dAtA.Length
    modifies dAtA
    ensures i == offset + |PutVarint(v)|
    ensures dAtA[..i] == old(dAtA[..offset]) + PutVarint(v)
    ensures dAtA[i..] == old(dAtA[i..])
  {
    i := offset;
    var x := v;
    ghost var done: Bytes := [];
    while x >= 0x80
      invariant offset <= i
      invariant i + |PutVarint(x)| <= dAtA.Length
      invariant done + PutVarint(x) == PutVarint(v)
      invariant dAtA[..i] == old(dAtA[..offset]) + done
      invariant forall j :: i <= j < dAtA.Length ==> dAtA[j] == old(dAtA[j])
      decreases x
    {
      done := done + [x % 0x80 + 0x80];
      dAtA[i] := x % 0x80 + 0x80;
      x := x / 0x80;
      i := i + 1;
    }
    dAtA[i] := x;
    i := i + 1;
  }
}
