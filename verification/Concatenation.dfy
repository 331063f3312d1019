/**
 Decoding is a left-to-right pass: whatever decodes successfully decodes in the same way in front of
 any other bytes, so that decoding a concatenation is decoding one part after the other.
 */
module Concatenation {
  import opened Options
  import opened Varint
  import opened Wire

  lemma SliceOfConcat(s: Bytes, t: Bytes, n: nat)
    requires n <= |s|
    ensures (s + t)[n..] == s[n..] + t
  {
  }

  lemma ReadChunkStable(s: Bytes, t: Bytes)
    requires ReadChunk(s).GotChunk?
    ensures ReadChunk(s + t) == ReadChunk(s)
  {
    ReadVarintStable(s, t);
    var n := ReadVarint(s).next;
    var next := ReadChunk(s).next;
    assert (s + t)[n..next] == s[n..next];
  }

  lemma ReadHalfStable(s: Bytes, t: Bytes, number: bool)
    requires ReadHalf(s, number).GotHalf?
    ensures ReadHalf(s + t, number) == ReadHalf(s, number)
  {
    ReadVarintStable(s, t);
    var n := ReadVarint(s).next;
    SliceOfConcat(s, t, n);
    if number {
      ReadVarintStable(s[n..], t);
    } else {
      ReadChunkStable(s[n..], t);
    }
  }

  lemma ReadHalvesStable(s: Bytes, t: Bytes, len: nat, next: nat, counts: bool)
    requires ReadHalves(s, len, next, counts).GotEntry?
    ensures ReadHalves(s + t, len, next, counts) == ReadHalves(s, len, next, counts)
  {
    ReadHalfStable(s, t, false);
    var k := ReadHalf(s, false).next;
    SliceOfConcat(s, t, k);
    if k < len {
      ReadHalfStable(s[k..], t, counts);
    }
  }

  lemma ReadEntryStable(s: Bytes, t: Bytes, counts: bool)
    requires ReadEntry(s, counts).GotEntry?
    ensures ReadEntry(s + t, counts) == ReadEntry(s, counts)
  {
    hide ReadHalves;
    ReadChunkStable(s, t);
    var GotChunk(body, next) := ReadChunk(s);
    SliceOfConcat(s, t, next - |body|);
    ReadHalvesStable(s[next - |body|..], t, |body|, next, counts);
  }

  lemma ReadFieldStable(held: Value, wireType: nat, s: Bytes, t: Bytes)
    requires ReadField(held, wireType, s).Got?
    ensures ReadField(held, wireType, s + t) == ReadField(held, wireType, s)
  {
    match held
    case Text(_) => ReadChunkStable(s, t);
    case Texts(_) => ReadChunkStable(s, t);
    case Int64(_) => ReadVarintStable(s, t);
    case Int32(_) => ReadVarintStable(s, t);
    case TextMap(_) => ReadEntryStable(s, t, false);
    case CountMap(_) => ReadEntryStable(s, t, true);
  }

  lemma {:induction false} SkipStable(s: Bytes, t: Bytes)
    requires Skip(s).Ok?
    ensures Skip(s + t) == Skip(s)
    decreases |s|, 0
  {
    ReadVarintStable(s, t);
    var Read(raw, n) := ReadVarint(s);
    SliceOfConcat(s, t, n);
    if raw % 8 == 0 || raw % 8 == 2 {
      ReadVarintStable(s[n..], t);
    } else if raw % 8 == 3 {
      SkipGroupStable(s[n..], t);
    }
  }

  lemma {:induction false} SkipGroupStable(s: Bytes, t: Bytes)
    requires SkipGroup(s).Ok?
    ensures SkipGroup(s + t) == SkipGroup(s)
    decreases |s|, 1
  {
    ReadVarintStable(s, t);
    if ReadVarint(s).value % 8 != 4 {
      SkipStable(s, t);
      var k := Skip(s).n;
      SliceOfConcat(s, t, k);
      SkipGroupStable(s[k..], t);
    }
  }

  lemma DecodeStepStable(m: Message, s: Bytes, t: Bytes)
    requires DecodeStep(m, s).Advance?
    ensures DecodeStep(m, s + t) == DecodeStep(m, s)
  {
    ReadVarintStable(s, t);
    var Read(raw, n) := ReadVarint(s);
    SliceOfConcat(s, t, n);
    var fieldNum := FieldNumber(raw);
    if fieldNum <= |m| {
      ReadFieldStable(m[fieldNum - 1], raw % 8, s[n..], t);
    } else {
      SkipStable(s, t);
    }
  }

  /** Decoding s + t is decoding s and then t into the message that s produced, for all byte strings. */
  lemma {:induction false} DecodeConcat(m: Message, s: Bytes, t: Bytes)
    requires Decode(m, s).err == None
    ensures Decode(m, s + t) == Decode(Decode(m, s).msg, t)
    decreases |s|
  {
    if s == [] {
      assert s + t == t;
    } else {
      DecodeStepStable(m, s, t);
      var Advance(m', n) := DecodeStep(m, s);
      SliceOfConcat(s, t, n);
      DecodeConcat(m', s[n..], t);
    }
  }
}
