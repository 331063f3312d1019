/**
 What the bytes of a message mean by the grammar of the wire format, told without the encoder and decoder:
 numbers in base 128 with the low digits first, records with the field number and the wire type in the
 tag, entries of a map as messages of two fields.  What is written is such a sequence of records, and each
 record is read as the value that it holds.
 */
module WireMeaning {
  import opened Concatenation
  import opened Options
  import opened UnknownFields
  import opened Varint
  import opened Wire
  import M = MapEntries
  import R = RoundTrip

  // Numbers

  /** The number whose base 128 digits, low ones first, are the lower seven bits of the bytes. */
  function Digits(s: Bytes): nat {
    if s == [] then 0 else s[0] % 128 + 128 * Digits(s[1..])
  }

  /** Every byte but the last says that another one follows. */
  predicate Chained(s: Bytes) {
    s != [] && s[|s| - 1] < 128 && forall i :: 0 <= i < |s| - 1 ==> s[i] >= 128
  }

  lemma {:induction false} VarintMeaningAt(s: Bytes, shift: nat, n: nat, v: nat)
    ensures ReadVarint(s, shift) == Read(v, n)
       <==> n <= |s| && Chained(s[..n]) && shift + 7 * (n - 1) < 64 && v == Digits(s[..n])
  {
    if shift < 64 && s != [] {
      if n > 0 && n <= |s| {
        assert s[..n][0] == s[0] && s[..n][1..] == s[1..][..n - 1];
      }
      if s[0] >= 128 && n > 0 {
        if ReadVarint(s[1..], shift + 7).Read? {
          VarintMeaningAt(s[1..], shift + 7, n - 1, ReadVarint(s[1..], shift + 7).value);
        }
        if n > 1 && n <= |s| {
          VarintMeaningAt(s[1..], shift + 7, n - 1, Digits(s[1..][..n - 1]));
          ChainedTail(s, n);
        }
      } else if s[0] < 128 && n > 1 && n <= |s| {
        assert s[..n][0] == s[0];
      }
    }
  }

  lemma ChainedTail(s: Bytes, n: nat)
    requires 1 < n <= |s| && s[0] >= 128
    ensures Chained(s[..n]) <==> Chained(s[1..][..n - 1])
  {
    var a, b := s[..n], s[1..][..n - 1];
    assert forall i :: 0 <= i < n - 1 ==> b[i] == a[i + 1];
    if Chained(b) {
      forall i | 0 <= i < n - 1 ensures a[i] >= 128 {
        assert i > 0 ==> b[i - 1] == a[i];
      }
    }
  }

  /** A number of at most ten bytes is read as its digits say, and nothing else is read as a number. */
  lemma VarintMeaning(s: Bytes, n: nat, v: nat)
    ensures ReadVarint(s) == Read(v, n) <==> n <= |s| && n <= 10 && Chained(s[..n]) && v == Digits(s[..n])
  {
    VarintMeaningAt(s, 0, n, v);
  }

  /** How many bytes the reading of a number looks at before it fails. */
  function Looked(s: Bytes, room: nat): (n: nat)
    ensures n <= |s|
  {
    if |s| < room then |s| else room
  }

  lemma {:induction false} VarintFailsAt(s: Bytes, shift: nat, room: nat)
    requires shift + 7 * room == 70
    ensures ReadVarint(s, shift).Bad? <==> forall i :: 0 <= i < Looked(s, room) ==> s[i] >= 128
    ensures ReadVarint(s, shift).Bad? ==>
              ReadVarint(s, shift)
              == Bad(if |s| < room then UnexpectedEOF else IntOverflow, Digits(s[..Looked(s, room)]))
    decreases room
  {
    if room > 0 && s != [] {
      VarintFailsAt(s[1..], shift + 7, room - 1);
      var n := Looked(s, room);
      assert s[..n][0] == s[0] && s[..n][1..] == s[1..][..n - 1];
      if forall i :: 0 <= i < Looked(s[1..], room - 1) ==> s[1..][i] >= 128 {
        assert forall i :: 1 <= i < n ==> s[i] == s[1..][i - 1];
      } else {
        var i :| 0 <= i < Looked(s[1..], room - 1) && s[1..][i] < 128;
        assert s[i + 1] < 128;
      }
    }
  }

  /** A number fails where it does not end: within ten bytes, or with the bytes; its digits so far are kept. */
  lemma VarintFails(s: Bytes)
    ensures ReadVarint(s).Bad? <==> forall i :: 0 <= i < Looked(s, 10) ==> s[i] >= 128
    ensures ReadVarint(s).Bad? ==>
              ReadVarint(s) == Bad(if |s| < 10 then UnexpectedEOF else IntOverflow, Digits(s[..Looked(s, 10)]))
  {
    VarintFailsAt(s, 0, 10);
  }

  /** What is written for a number has its digits and no more bytes than needed. */
  lemma VarintWritten(v: nat)
    requires v < TWO_TO_THE_64
    ensures var s := PutVarint(v);
            Chained(s) && Digits(s) == v && |s| <= 10 && (|s| > 1 ==> s[|s| - 1] != 0)
  {
    ReadPut(v);
    Uint64Width(v);
    VarintMeaning(PutVarint(v), |PutVarint(v)|, v);
    assert PutVarint(v)[..|PutVarint(v)|] == PutVarint(v);
    LastNotZero(v);
  }

  lemma {:induction false} LastNotZero(v: nat)
    ensures |PutVarint(v)| > 1 ==> PutVarint(v)[|PutVarint(v)| - 1] != 0
    ensures |PutVarint(v)| == 1 ==> PutVarint(v)[0] == v
  {
    if v >= 128 {
      LastNotZero(v / 128);
    }
  }

  // Reading a record

  /** The field number in a tag, of which 64 bits are kept, and 32 without the wire type. */
  function FieldIn(tag: nat): nat {
    tag % 0x1_0000_0000_0000_0000 / 8 % 0x1_0000_0000
  }

  ghost function FieldOf(u: Unknown): nat {
    if ReadVarint(u.tag).Read? then FieldIn(ReadVarint(u.tag).value) else 0
  }

  predicate Congruent(n: int, v: nat, width: nat)
    requires width > 0
  {
    (n - v) % width == 0
  }

  /** The number of the record in two's complement, in a word of 64 or 32 bits. */
  predicate Same(number: Bytes, v: Value) {
    (v.Int64? && Congruent(v.long, Digits(number), 0x1_0000_0000_0000_0000))
    || (v.Int32? && Congruent(v.short, Digits(number), 0x1_0000_0000))
  }

  predicate IsNumber(v: Value) {
    v.Int64? || v.Int32?
  }

  lemma TagDigits(u: Unknown)
    requires WellFormed(u)
    ensures ReadVarint(u.tag) == Read(Digits(u.tag), |u.tag|)
  {
    VarintMeaning(u.tag, |u.tag|, ReadVarint(u.tag).value);
    assert u.tag[..|u.tag|] == u.tag;
  }

  lemma NumberedStep(m: Message, u: Unknown, i: nat)
    requires WellFormed(u) && i < |m| && ValidMessage(m) && FieldOf(u) == i + 1
    ensures var raw := ReadVarint(u.tag).value;
            ReadVarint(Flatten(u)) == ReadVarint(u.tag) && FieldNumber(raw) == i + 1 && raw % 8 != 4
    ensures u.Delimited? ==> ReadVarint(u.tag).value % 8 == 2
    ensures u.Varying? ==> ReadVarint(u.tag).value % 8 == 0
    ensures !u.Delimited? ==> ReadVarint(u.tag).value % 8 != 2
    ensures !u.Varying? ==> ReadVarint(u.tag).value % 8 != 0
  {
    hide ReadVarint, Flatten, FieldNumber;
    FirstTag(u, []);
    assert Flatten(u) + [] == Flatten(u);
    FieldNumberIs(ReadVarint(u.tag).value, i);
  }

  lemma FieldNumberIs(raw: nat, i: nat)
    requires FieldIn(raw) == i + 1 <= 15
    ensures FieldNumber(raw) == i + 1
  {
  }

  lemma StepIsDecode(m: Message, s: Bytes, m': Message)
    requires s != [] && DecodeStep(m, s) == Wire.Advance(m', |s|)
    ensures Decode(m, s) == Outcome(m', None)
  {
    assert s[|s|..] == [];
  }

  lemma ReadDelimited(u: Unknown)
    requires WellFormed(u) && u.Delimited?
    ensures |u.tag| <= |Flatten(u)| && Flatten(u)[|u.tag|..] == u.len + u.data
    ensures ReadChunk(u.len + u.data) == GotChunk(u.data, |u.len| + |u.data|)
  {
    M.DelimitedChunk(u.len, u.data, []);
    assert u.len + (u.data + []) == u.len + u.data;
  }

  /** A text or an element of a list. */
  lemma DecodeDelimited(m: Message, u: Unknown, i: nat)
    requires WellFormed(u) && i < |m| && ValidMessage(m) && FieldOf(u) == i + 1
    requires u.Delimited? && (m[i].Text? || m[i].Texts?)
    ensures Decode(m, Flatten(u))
         == Outcome(m[i := if m[i].Text? then Text(u.data) else Texts(m[i].texts + [u.data])], None)
  {
    NumberedStep(m, u, i);
    ReadDelimited(u);
    var v := if m[i].Text? then Text(u.data) else Texts(m[i].texts + [u.data]);
    hide ReadVarint, FieldNumber, Skip, Flatten, ReadChunk, WellFormed;
    R.DecodeStepKnown(m, Flatten(u), ReadVarint(u.tag).value, |u.tag|, v, |u.len| + |u.data|);
    FlattenLength(u);
    StepIsDecode(m, Flatten(u), m[i := v]);
  }

  lemma FlattenLength(u: Unknown)
    requires WellFormed(u)
    ensures u.Delimited? ==> |Flatten(u)| == |u.tag| + (|u.len| + |u.data|)
    ensures u.Varying? ==> |Flatten(u)| == |u.tag| + |u.number|
    ensures |u.tag| > 0 && ReadVarint(u.tag).Read? && ReadVarint(u.tag).next == |u.tag|
  {
  }

  /** A number, in two's complement of the width of its field. */
  lemma DecodeVarying(m: Message, u: Unknown, i: nat) returns (v: Value)
    requires WellFormed(u) && i < |m| && ValidMessage(m) && FieldOf(u) == i + 1
    requires u.Varying? && IsNumber(m[i])
    ensures SameKind(v, m[i]) && Same(u.number, v) && Decode(m, Flatten(u)) == Outcome(m[i := v], None)
  {
    NumberedStep(m, u, i);
    FlattenLength(u);
    assert Flatten(u)[|u.tag|..] == u.number;
    hide ReadVarint, FieldNumber, Skip, Flatten, Signed, Digits, Congruent, WellFormed, ReadField;
    v := ReadNumber(m[i], u.number);
    R.DecodeStepKnown(m, Flatten(u), ReadVarint(u.tag).value, |u.tag|, v, |u.number|);
    StepIsDecode(m, Flatten(u), m[i := v]);
  }

  lemma ReadNumber(held: Value, number: Bytes) returns (v: Value)
    requires IsNumber(held) && IsVarint(number)
    ensures SameKind(v, held) && Same(number, v) && ReadField(held, 0, number) == Got(v, |number|)
  {
    hide ReadVarint, Signed, Digits, Congruent;
    VarintMeaning(number, |number|, ReadVarint(number).value);
    assert number[..|number|] == number;
    var raw := Digits(number);
    v := if held.Int64? then Int64(Signed(raw % TWO_TO_THE_64, TWO_TO_THE_64))
         else Int32(Signed(raw % TWO_TO_THE_32, TWO_TO_THE_32));
    SignedCongruent(raw);
  }

  lemma SignedCongruent(raw: nat)
    ensures Congruent(Signed(raw % TWO_TO_THE_64, TWO_TO_THE_64), raw, TWO_TO_THE_64)
    ensures Congruent(Signed(raw % TWO_TO_THE_32, TWO_TO_THE_32), raw, TWO_TO_THE_32)
  {
    hide Signed, Congruent;
    SignedCongruent64(raw);
    SignedCongruent32(raw);
  }

  lemma SignedCongruent64(raw: nat)
    ensures Congruent(Signed(raw % TWO_TO_THE_64, TWO_TO_THE_64), raw, TWO_TO_THE_64)
  {
    var n := Signed(raw % TWO_TO_THE_64, TWO_TO_THE_64);
    assert n - raw == -0x1_0000_0000_0000_0000 * (raw / 0x1_0000_0000_0000_0000)
        || n - raw == -0x1_0000_0000_0000_0000 * (raw / 0x1_0000_0000_0000_0000 + 1);
  }

  lemma SignedCongruent32(raw: nat)
    ensures Congruent(Signed(raw % TWO_TO_THE_32, TWO_TO_THE_32), raw, TWO_TO_THE_32)
  {
    var n := Signed(raw % TWO_TO_THE_32, TWO_TO_THE_32);
    assert n - raw == -0x1_0000_0000 * (raw / 0x1_0000_0000)
        || n - raw == -0x1_0000_0000 * (raw / 0x1_0000_0000 + 1);
  }

  /** The map with the key and value of an entry. */
  function Entered(held: Value, key: Bytes, p: M.Part): (v: Value)
    requires (held.TextMap? && p.TextPart?) || (held.CountMap? && p.CountPart?)
    ensures SameKind(held, v)
  {
    if p.TextPart? then TextMap(held.entries[key := p.b]) else CountMap(held.counts[key := p.n])
  }

  /** An entry of a map that has its key first and its value second. */
  lemma DecodeEntry(m: Message, i: nat, tag: Bytes, key: Bytes, p: M.Part)
    requires IsTag(tag, 2) && i < |m| && ValidMessage(m) && FieldIn(ReadVarint(tag).value) == i + 1
    requires (m[i].TextMap? && p.TextPart?) || (m[i].CountMap? && p.CountPart?)
    requires |PutChunk(M.Body([M.KeyPart(key), p]))| < TWO_TO_THE_63
    ensures var data := M.Body([M.KeyPart(key), p]); var u := Delimited(tag, PutVarint(|data|), data);
            WellFormed(u) && Decode(m, Flatten(u)) == Outcome(m[i := Entered(m[i], key, p)], None)
  {
    var data := M.Body([M.KeyPart(key), p]);
    var u := Delimited(tag, PutVarint(|data|), data);
    BodyShorter(data);
    ReadPut(|data|);
    LengthFits(|data|);
    hide ReadVarint, M.Body, PutVarint, ReadField, ReadEntry, Decode;
    EntryRead(key, p, p.CountPart?);
    EntryField(m[i], PutChunk(data), key, p);
    DecodeField(m, u, i, Entered(m[i], key, p));
  }

  lemma DecodeField(m: Message, u: Unknown, i: nat, v: Value)
    requires WellFormed(u) && i < |m| && ValidMessage(m) && FieldOf(u) == i + 1 && u.Delimited?
    requires ReadField(m[i], 2, u.len + u.data) == Got(v, |u.len + u.data|)
    ensures Decode(m, Flatten(u)) == Outcome(m[i := v], None)
  {
    NumberedStep(m, u, i);
    ReadDelimited(u);
    FlattenLength(u);
    hide ReadVarint, FieldNumber, Skip, Flatten, WellFormed, ReadField, ReadChunk, DecodeStep, Decode, FieldOf, Keys;
    R.DecodeStepKnown(m, Flatten(u), ReadVarint(u.tag).value, |u.tag|, v, |u.len| + |u.data|);
    StepIsDecode(m, Flatten(u), m[i := v]);
  }

  lemma EntryField(held: Value, s: Bytes, key: Bytes, p: M.Part)
    requires (held.TextMap? && p.TextPart?) || (held.CountMap? && p.CountPart?)
    requires ReadEntry(s, p.CountPart?) == GotEntry(key, if p.CountPart? then Number(p.n) else Chunk(p.b), |s|)
    ensures ReadField(held, 2, s) == Got(Entered(held, key, p), |s|)
  {
    hide ReadEntry;
  }

  lemma EntryRead(key: Bytes, p: M.Part, counts: bool)
    requires (p.TextPart? || p.CountPart?) && counts == p.CountPart?
    requires |PutChunk(M.Body([M.KeyPart(key), p]))| < TWO_TO_THE_63
    ensures var s := PutChunk(M.Body([M.KeyPart(key), p]));
            ReadEntry(s, counts) == GotEntry(key, if counts then Number(p.n) else Chunk(p.b), |s|)
  {
    var parts := [M.KeyPart(key), p];
    hide ReadEntry, M.Body, PutChunk, Decode;
    assert M.Slots(parts) == [M.KeySlot, M.ValueSlot];
    assert [M.KeySlot, M.ValueSlot][..2] == [M.KeySlot, M.ValueSlot];
    M.WellPlacedReadsRight(parts, [], counts);
    BodyShorter(M.Body(parts));
    EntryMeans(key, p, counts);
    assert PutChunk(M.Body(parts)) + [] == PutChunk(M.Body(parts));
  }

  lemma BodyShorter(b: Bytes)
    ensures |b| <= |PutChunk(b)|
  {
  }

  /** A key and a value mean these two, by the grammar of an entry. */
  lemma EntryMeans(key: Bytes, p: M.Part, counts: bool)
    requires p.TextPart? || p.CountPart?
    requires counts == p.CountPart? && |M.Body([M.KeyPart(key), p])| < TWO_TO_THE_63
    ensures Decode(M.EmptyEntry(counts), M.Body([M.KeyPart(key), p]))
         == Outcome([Text(key), if p.TextPart? then Text(p.b) else Int32(p.n)], None)
  {
    var parts := [M.KeyPart(key), p];
    hide Decode, M.Body;
    M.BodyMeans(M.EmptyEntry(counts), parts, counts);
    assert parts[1..] == [p] && [p][1..] == [];
    var m := M.Read1(M.EmptyEntry(counts), parts[0]);
    assert M.ReadAll(m, [p]) == M.ReadAll(M.Read1(m, p), []);
  }

  /** A record of another wire type than that of its field is refused, and nothing is changed. */
  lemma DecodeMismatch(m: Message, u: Unknown, i: nat)
    requires WellFormed(u) && i < |m| && ValidMessage(m) && FieldOf(u) == i + 1
    requires if IsNumber(m[i]) then !u.Varying? else !u.Delimited?
    ensures Decode(m, Flatten(u)) == Outcome(m, Some(WrongWireType))
  {
    NumberedStep(m, u, i);
    FlattenLength(u);
    assert Flatten(u) != [];
    assert m[i := m[i]] == m;
    hide ReadVarint, FieldNumber, Skip, WellFormed, Flatten;
  }

  /** Tags that are refused, whatever follows: the end of a group, and numbers that are not positive as an int32. */
  lemma DecodeBadTag(m: Message, tag: Bytes, t: Bytes)
    requires Chained(tag) && |tag| <= 10
    ensures Digits(tag) % 8 == 4 ==> Decode(m, tag + t) == Outcome(m, Some(EndGroupOutsideGroup))
    ensures Digits(tag) % 8 != 4 && (FieldIn(Digits(tag)) == 0 || FieldIn(Digits(tag)) >= 0x8000_0000) ==>
              Decode(m, tag + t) == Outcome(m, Some(IllegalTag))
  {
    var s := tag + t;
    assert s[..|tag|] == tag;
    VarintMeaning(s, |tag|, Digits(tag));
    hide ReadVarint, Digits;
  }

  /** A text or list element whose length is negative as an int64, or reaches behind the end. */
  lemma DecodeBadLength(m: Message, i: nat, tag: Bytes, len: Bytes, data: Bytes)
    requires i < |m| && ValidMessage(m) && (m[i].Text? || m[i].Texts?)
    requires Chained(tag) && |tag| <= 10 && FieldIn(Digits(tag)) == i + 1 && Digits(tag) % 8 == 2
    requires Chained(len) && |len| <= 10 && Digits(len) < TWO_TO_THE_64
    ensures Digits(len) >= TWO_TO_THE_63 ==> Decode(m, tag + (len + data)) == Outcome(m, Some(InvalidLength))
    ensures |data| < Digits(len) < TWO_TO_THE_63 ==>
              Decode(m, tag + (len + data)) == Outcome(m, Some(UnexpectedEOF))
  {
    hide ReadVarint, Digits, Skip, FieldNumber, ReadChunk, Chained;
    var s := tag + (len + data);
    assert s[..|tag|] == tag && s[|tag|..] == len + data;
    VarintMeaning(s, |tag|, Digits(tag));
    FieldNumberIs(Digits(tag), i);
    BadChunk(len, data);
    assert m[i := m[i]] == m;
  }

  /** A number that does not end, or not within ten bytes, leaves the digits that were read in its field. */
  lemma DecodeBadNumber(m: Message, i: nat, tag: Bytes, number: Bytes) returns (v: Value)
    requires i < |m| && ValidMessage(m) && IsNumber(m[i])
    requires Chained(tag) && |tag| <= 10 && FieldIn(Digits(tag)) == i + 1 && Digits(tag) % 8 == 0
    requires forall k :: 0 <= k < Looked(number, 10) ==> number[k] >= 128
    ensures SameKind(v, m[i]) && Same(number[..Looked(number, 10)], v)
    ensures Decode(m, tag + number)
         == Outcome(m[i := v], Some(if |number| < 10 then UnexpectedEOF else IntOverflow))
  {
    hide ReadVarint, Digits, Skip, FieldNumber, Chained, Signed, Congruent, ReadField;
    var s := tag + number;
    assert s[..|tag|] == tag && s[|tag|..] == number;
    VarintMeaning(s, |tag|, Digits(tag));
    FieldNumberIs(Digits(tag), i);
    v := LoseNumber(m[i], number);
  }

  lemma LoseNumber(held: Value, number: Bytes) returns (v: Value)
    requires IsNumber(held) && forall k :: 0 <= k < Looked(number, 10) ==> number[k] >= 128
    ensures SameKind(v, held) && Same(number[..Looked(number, 10)], v)
    ensures ReadField(held, 0, number) == Lost(v, if |number| < 10 then UnexpectedEOF else IntOverflow)
  {
    hide ReadVarint, Signed, Digits, Congruent;
    VarintFails(number);
    var raw := Digits(number[..Looked(number, 10)]);
    v := if held.Int64? then Int64(Signed(raw % TWO_TO_THE_64, TWO_TO_THE_64))
         else Int32(Signed(raw % TWO_TO_THE_32, TWO_TO_THE_32));
    SignedCongruent(raw);
  }

  lemma BadChunk(len: Bytes, data: Bytes)
    requires Chained(len) && |len| <= 10 && Digits(len) < TWO_TO_THE_64
    ensures Digits(len) >= TWO_TO_THE_63 ==> ReadChunk(len + data) == NoChunk(InvalidLength)
    ensures |data| < Digits(len) < TWO_TO_THE_63 ==> ReadChunk(len + data) == NoChunk(UnexpectedEOF)
  {
    hide ReadVarint, Digits, Chained;
    assert (len + data)[..|len|] == len;
    VarintMeaning(len + data, |len|, Digits(len));
  }

  // Writing records

  /** The bytes that a number is written as, sign-extended to 64 bits. */
  function Word(n: int64): nat {
    if n < 0 then n + 0x1_0000_0000_0000_0000 else n
  }

  /** The record that the grammar has for an element of field i + 1. */
  ghost function Tree(i: nat, e: Elem): Unknown
    requires i < 15
  {
    match e
    case Chunk(b) => Delimited([8 * (i + 1) + 2], PutVarint(|b|), b)
    case Number(n) => Varying([8 * (i + 1)], PutVarint(Word(n)))
    case Pair(k, x) =>
      var data := M.Body([M.KeyPart(k), M.TextPart(x)]);
      Delimited([8 * (i + 1) + 2], PutVarint(|data|), data)
    case Count(k, n) =>
      var data := M.Body([M.KeyPart(k), M.CountPart(n)]);
      Delimited([8 * (i + 1) + 2], PutVarint(|data|), data)
  }

  lemma EntryBytes(k: Bytes, x: Bytes, n: int32)
    ensures PairBody(k, x) == M.Body([M.KeyPart(k), M.TextPart(x)])
    ensures CountBody(k, n) == M.Body([M.KeyPart(k), M.CountPart(n)])
  {
    hide M.PartBytes;
    TwoParts(M.KeyPart(k), M.TextPart(x));
    TwoParts(M.KeyPart(k), M.CountPart(n));
    PartTags(k, x, n);
  }

  lemma PartTags(k: Bytes, x: Bytes, n: int32)
    ensures M.PartBytes(M.KeyPart(k)) == [10] + PutChunk(k)
    ensures M.PartBytes(M.TextPart(x)) == [18] + PutChunk(x)
    ensures M.PartBytes(M.CountPart(n)) == [16] + PutVarint(Word(n))
  {
  }

  lemma TwoParts(p: M.Part, q: M.Part)
    ensures M.Body([p, q]) == M.PartBytes(p) + M.PartBytes(q)
  {
    assert [p, q][1..] == [q] && [q][1..] == [];
    assert M.Body([q]) == M.PartBytes(q) + [];
  }

  /** What is written for an element is its record, well formed and in its shortest form. */
  lemma RecordIsTree(i: nat, e: Elem)
    requires i < 15 && |Record(i, e)| < TWO_TO_THE_63
    ensures Record(i, e) == Flatten(Tree(i, e)) && WellFormed(Tree(i, e)) && FieldOf(Tree(i, e)) == i + 1
  {
    hide WellFormed, FieldOf, Flatten, PutChunk, PairBody, CountBody, M.Body;
    var tag := 8 * (i + 1) + 2;
    match e
    case Chunk(b) => DelimitedTree(i, tag, b);
    case Number(n) => VaryingTree(i, 8 * (i + 1), n);
    case Pair(k, x) =>
      EntryBytes(k, x, 0);
      DelimitedTree(i, tag, PairBody(k, x));
    case Count(k, n) =>
      EntryBytes(k, [], n);
      DelimitedTree(i, tag, CountBody(k, n));
  }

  lemma DelimitedTree(i: nat, tag: byte, b: Bytes)
    requires tag % 8 == 2 && tag / 8 == i + 1 && tag < 128 && |b| < TWO_TO_THE_63
    ensures var u := Delimited([tag], PutVarint(|b|), b);
            [tag] + PutChunk(b) == Flatten(u) && WellFormed(u) && FieldOf(u) == i + 1
  {
    hide ReadVarint, PutVarint, FieldIn;
    TagIsVarint(tag);
    SmallField(tag);
    ReadPut(|b|);
    LengthFits(|b|);
  }

  lemma LengthFits(n: nat)
    requires n < TWO_TO_THE_63
    ensures n % TWO_TO_THE_64 == n
  {
  }

  lemma VaryingTree(i: nat, tag: byte, n: int64)
    requires tag % 8 == 0 && tag / 8 == i + 1 && tag < 128
    ensures var u := Varying([tag], PutVarint(Word(n)));
            [tag] + PutVarint(Word(n)) == Flatten(u) && WellFormed(u) && FieldOf(u) == i + 1
  {
    hide ReadVarint, PutVarint, FieldIn;
    TagIsVarint(tag);
    SmallField(tag);
    ReadPut(Word(n));
  }

  lemma SmallField(tag: byte)
    ensures FieldIn(tag) == tag / 8
  {
  }

  lemma TagIsVarint(tag: byte)
    requires tag < 128
    ensures ReadVarint([tag]) == Read(tag, 1)
  {
  }

  lemma {:induction false} FlattenConcat(a: seq<Unknown>, b: seq<Unknown>)
    ensures FlattenAll(a + b) == FlattenAll(a) + FlattenAll(b)
    decreases |a|
  {
    if a == [] {
      assert a + b == b;
    } else {
      assert (a + b)[1..] == a[1..] + b;
      FlattenConcat(a[1..], b);
    }
  }

  /** A scalar that is not zero, or something in a list or a map. */
  predicate Present(v: Value) {
    match v
    case Text(b) => b != []
    case Int64(n) => n != 0
    case Int32(n) => n != 0
    case Texts(bs) => bs != []
    case TextMap(m) => m != map[]
    case CountMap(m) => m != map[]
  }

  ghost predicate RecordsOf(us: seq<Unknown>, number: nat) {
    forall u :: u in us ==> WellFormed(u) && FieldOf(u) == number
  }

  lemma {:induction false} RecordsAreTrees(i: nat, es: seq<Elem>) returns (us: seq<Unknown>)
    requires i < 15 && |Records(i, es)| < TWO_TO_THE_63
    ensures FlattenAll(us) == Records(i, es) && RecordsOf(us, i + 1)
    ensures |us| == |es| && forall k :: 0 <= k < |es| ==> us[k] == Tree(i, es[k])
    decreases |es|
  {
    hide WellFormed, FieldOf, Flatten, Tree, Record;
    if es == [] {
      return [];
    }
    RecordIsTree(i, es[0]);
    var rest := RecordsAreTrees(i, es[1..]);
    us := [Tree(i, es[0])] + rest;
    assert us[1..] == rest;
  }

  lemma AbsentUnwritten(v: Value, order: seq<Bytes>)
    requires IsOrder(order, Keys(v)) && !Present(v)
    ensures Elems(v, order) == []
  {
    FirstIsIn(order);
  }

  lemma FirstIsIn(order: seq<Bytes>)
    ensures order == [] || order[0] in order
  {
  }

  /**
   What is written is a sequence of well-formed records, in the order of the field numbers, and none for a
   field that is zero or empty.
   */
  lemma {:induction false} EncodeIsRecords(m: Message, orders: seq<seq<Bytes>>, i: nat) returns (us: seq<Unknown>)
    requires ValidMessage(m) && IsOrders(orders, m) && i <= |m| && |Encode(m, orders, i)| < TWO_TO_THE_63
    ensures FlattenAll(us) == Encode(m, orders, i)
    ensures forall u :: u in us ==> WellFormed(u) && i < FieldOf(u) <= |m| && Present(m[FieldOf(u) - 1])
    ensures forall a, b :: 0 <= a < b < |us| ==> FieldOf(us[a]) <= FieldOf(us[b])
    decreases |m| - i
  {
    hide WellFormed, FieldOf, Flatten, Tree, Records;
    if i == |m| {
      return [];
    }
    if !Present(m[i]) {
      AbsentUnwritten(m[i], orders[i]);
    }
    assert |Encode(m, orders, i)| == |FieldBytes(i, m[i], orders[i])| + |Encode(m, orders, i + 1)|;
    var own := RecordsAreTrees(i, Elems(m[i], orders[i]));
    var rest := EncodeIsRecords(m, orders, i + 1);
    us := own + rest;
    FlattenConcat(own, rest);
    hide Present, Elems, Encode, IsOrder;
    Ascending(own, rest, i);
  }

  lemma Ascending(own: seq<Unknown>, rest: seq<Unknown>, i: nat)
    requires (forall u :: u in own ==> FieldOf(u) == i + 1) && (forall u :: u in rest ==> i + 1 < FieldOf(u))
    requires forall a, b :: 0 <= a < b < |rest| ==> FieldOf(rest[a]) <= FieldOf(rest[b])
    ensures forall a, b :: 0 <= a < b < |own + rest| ==> FieldOf((own + rest)[a]) <= FieldOf((own + rest)[b])
  {
    hide FieldOf;
    var us := own + rest;
    forall a, b | 0 <= a < b < |us| ensures FieldOf(us[a]) <= FieldOf(us[b]) {
      assert us[a] in own || us[a] == rest[a - |own|];
      assert us[b] in own || us[b] in rest;
      assert a >= |own| ==> us[b] == rest[b - |own|];
    }
  }
}
