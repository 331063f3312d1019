/**
 What an entry of a map means by its two-field grammar, and exactly which entries the generated code
 reads so.  An entry is a message with a key in field 1 and a value in field 2: fields may come in any
 order, a missing one is zero, of a repeated one the last counts, and unknown ones are passed over.
 */
module MapEntries {
  import opened Concatenation
  import opened Options
  import opened RoundTrip
  import opened UnknownFields
  import opened Varint
  import opened Wire

  /** A record inside an entry; a value is a text or an int32, depending on the map. */
  datatype Part =
    | KeyPart(b: Bytes)
    | TextPart(b: Bytes)
    | CountPart(n: int32)
    | OtherPart(u: Unknown)

  datatype Slot = KeySlot | ValueSlot | OtherSlot

  function SlotOf(p: Part): Slot {
    match p
    case KeyPart(_) => KeySlot
    case TextPart(_) => ValueSlot
    case CountPart(_) => ValueSlot
    case OtherPart(_) => OtherSlot
  }

  function Slots(parts: seq<Part>): seq<Slot> {
    seq(|parts|, i requires 0 <= i < |parts| => SlotOf(parts[i]))
  }

  /** The entry as a message, before anything has been read. */
  function EmptyEntry(counts: bool): Message {
    [Text([]), if counts then Int32(0) else Text([])]
  }

  ghost predicate PartOf(p: Part, counts: bool) {
    match p
    case KeyPart(_) => true
    case TextPart(_) => !counts
    case CountPart(_) => counts
    case OtherPart(u) => WellFormed(u) && IsUnknownTo(u, EmptyEntry(counts))
  }

  ghost function PartBytes(p: Part): Bytes {
    match p
    case KeyPart(b) => Record(0, Chunk(b))
    case TextPart(b) => Record(1, Chunk(b))
    case CountPart(n) => Record(1, Number(n))
    case OtherPart(u) => Flatten(u)
  }

  ghost function Body(parts: seq<Part>): Bytes {
    if parts == [] then [] else PartBytes(parts[0]) + Body(parts[1..])
  }

  /** Entries of a map, of a length that fits. */
  ghost predicate Parts(parts: seq<Part>, counts: bool) {
    (forall p :: p in parts ==> PartOf(p, counts)) && |PutChunk(Body(parts))| < TWO_TO_THE_63
  }

  function PartValue(p: Part): Value
    requires !p.OtherPart?
  {
    if p.CountPart? then Int32(p.n) else Text(p.b)
  }

  function Read1(m: Message, p: Part): Message
    requires |m| == 2
  {
    match SlotOf(p)
    case KeySlot => m[0 := PartValue(p)]
    case ValueSlot => m[1 := PartValue(p)]
    case OtherSlot => m
  }

  function ReadAll(m: Message, parts: seq<Part>): (r: Message)
    requires |m| == 2
    ensures |r| == 2
    decreases |parts|
  {
    if parts == [] then m else ReadAll(Read1(m, parts[0]), parts[1..])
  }

  // The meaning by the grammar is that of any other message

  lemma PartMeans(m: Message, p: Part, counts: bool)
    requires SameShape(m, EmptyEntry(counts)) && PartOf(p, counts) && |PartBytes(p)| < TWO_TO_THE_63
    ensures Decode(m, PartBytes(p)) == Outcome(Read1(m, p), None)
  {
    match p
    case KeyPart(b) => DecodeRecord(m, 0, Chunk(b));
    case TextPart(b) => DecodeRecord(m, 1, Chunk(b));
    case CountPart(n) => DecodeRecord(m, 1, Number(n));
    case OtherPart(u) => DecodeUnknown(m, u);
  }

  lemma {:induction false} BodyMeans(m: Message, parts: seq<Part>, counts: bool)
    requires SameShape(m, EmptyEntry(counts)) && (forall p :: p in parts ==> PartOf(p, counts))
    requires |Body(parts)| < TWO_TO_THE_63
    ensures Decode(m, Body(parts)) == Outcome(ReadAll(m, parts), None)
    decreases |parts|
  {
    if parts != [] {
      var p, rest := parts[0], parts[1..];
      hide PartBytes, PartOf;
      assert p in parts;
      PartMeans(m, p, counts);
      DecodeConcat(m, PartBytes(p), Body(rest));
      assert SameShape(Read1(m, p), EmptyEntry(counts)) by {
        ReadKeepsShape(m, p, counts);
      }
      BodyMeans(Read1(m, p), rest, counts);
    }
  }

  lemma ReadKeepsShape(m: Message, p: Part, counts: bool)
    requires SameShape(m, EmptyEntry(counts)) && PartOf(p, counts)
    ensures SameShape(Read1(m, p), EmptyEntry(counts))
  {
  }

  /** The generated code reads the entry as the grammar has it, whatever stands behind. */
  ghost predicate ReadsRight(parts: seq<Part>, t: Bytes, counts: bool) {
    var m := Decode(EmptyEntry(counts), Body(parts)).msg;
    var s := PutChunk(Body(parts));
    ReadEntry(s + t, counts) == GotEntry(m[0].text, if counts then Number(m[1].short) else Chunk(m[1].text), |s|)
  }

  // The reading by position

  lemma EntryIsHalves(body: Bytes, counts: bool)
    requires |PutChunk(body)| < TWO_TO_THE_63
    ensures ReadEntry(PutChunk(body), counts) == ReadHalves(body, |body|, |PutChunk(body)|, counts)
  {
    var s := PutChunk(body);
    ReadPutChunk(body, []);
    assert s + [] == s && s[|s| - |body|..] == body;
  }

  lemma NumberHalf(n: int32, t: Bytes)
    ensures ReadHalf(Record(1, Number(n)) + t, true) == GotHalf(Number(n), |Record(1, Number(n))|)
  {
    var tail := PutVarint(ToUint64(n));
    assert Record(1, Number(n)) + t == [0x10] + (tail + t);
    ReadOneByte(0x10, tail + t);
    assert ([0x10] + (tail + t))[1..] == tail + t;
    ReadPutNumber(n, t);
    SignExtension(n);
  }

  lemma ChunkHalf(i: nat, b: Bytes, t: Bytes)
    requires i < 15 && |b| < TWO_TO_THE_63
    ensures ReadHalf(Record(i, Chunk(b)) + t, false) == GotHalf(Chunk(b), |Record(i, Chunk(b))|)
  {
    TagOf(i, Chunk(b));
    ReadTextHalf(TagByte(i, Chunk(b)), b, t);
  }

  /** The first two records of an entry, if they can be read as key and value, are its key and its value. */
  lemma ReadTwo(parts: seq<Part>, counts: bool, key: Bytes, v: Elem)
    requires parts != [] && |PutChunk(Body(parts))| < TWO_TO_THE_63
    requires ReadHalf(Body(parts), false) == GotHalf(Chunk(key), |PartBytes(parts[0])|)
    requires |parts| == 1 ==> v == if counts then Number(0) else Chunk([])
    requires |parts| > 1 ==> ReadHalf(Body(parts[1..]), counts).GotHalf? && ReadHalf(Body(parts[1..]), counts).val == v
    ensures ReadEntry(PutChunk(Body(parts)), counts) == GotEntry(key, v, |PutChunk(Body(parts))|)
  {
    hide ReadHalf, PartBytes;
    EntryIsHalves(Body(parts), counts);
    assert Body(parts)[|PartBytes(parts[0])|..] == Body(parts[1..]);
    if |parts| > 1 {
      PartIsLong(parts, counts);
    }
  }

  lemma PartIsLong(parts: seq<Part>, counts: bool)
    requires parts != []
    requires |parts| > 1 ==> ReadHalf(Body(parts[1..]), counts).GotHalf?
    ensures |parts| > 1 ==> |PartBytes(parts[0])| < |Body(parts)|
  {
  }

  // Entries that are read right whatever they hold

  /** A key alone, or a key and a value and behind them only unknown records. */
  predicate WellPlaced(slots: seq<Slot>) {
    || slots == [KeySlot]
    || (|slots| >= 2 && slots[..2] == [KeySlot, ValueSlot] && forall i :: 2 <= i < |slots| ==> slots[i] == OtherSlot)
  }

  lemma {:induction false} OthersChangeNothing(m: Message, parts: seq<Part>)
    requires |m| == 2 && forall p :: p in parts ==> p.OtherPart?
    ensures ReadAll(m, parts) == m
    decreases |parts|
  {
    if parts != [] {
      assert parts[0] in parts;
      OthersChangeNothing(m, parts[1..]);
    }
  }

  lemma WellPlacedParts(parts: seq<Part>, counts: bool)
    requires WellPlaced(Slots(parts)) && forall p :: p in parts ==> PartOf(p, counts)
    ensures parts != [] && parts[0].KeyPart?
    ensures |parts| > 1 ==> if counts then parts[1].CountPart? else parts[1].TextPart?
    ensures |parts| > 1 ==> forall p :: p in parts[1..][1..] ==> p.OtherPart?
  {
    var slots := Slots(parts);
    assert forall i :: 0 <= i < |parts| ==> slots[i] == SlotOf(parts[i]);
    if |parts| > 1 {
      assert slots[..2][0] == slots[0] && slots[..2][1] == slots[1];
      assert parts[1] in parts;
      var rest := parts[1..][1..];
      forall p | p in rest ensures p.OtherPart? {
        var i :| 0 <= i < |rest| && rest[i] == p;
        assert parts[i + 2] == p && slots[i + 2] == OtherSlot;
      }
    }
  }

  lemma WellPlacedMeans(parts: seq<Part>, counts: bool)
    requires WellPlaced(Slots(parts)) && forall p :: p in parts ==> PartOf(p, counts)
    ensures parts != [] && parts[0].KeyPart?
    ensures |parts| > 1 ==> if counts then parts[1].CountPart? else parts[1].TextPart?
    ensures ReadAll(EmptyEntry(counts), parts)
         == [PartValue(parts[0]), if |parts| > 1 then PartValue(parts[1]) else EmptyEntry(counts)[1]]
  {
    hide WellPlaced, PartOf;
    WellPlacedParts(parts, counts);
    var m := Read1(EmptyEntry(counts), parts[0]);
    if |parts| > 1 {
      OthersChangeNothing(Read1(m, parts[1]), parts[1..][1..]);
      assert ReadAll(m, parts[1..]) == Read1(m, parts[1]);
    } else {
      assert ReadAll(m, parts[1..]) == m;
    }
  }

  lemma WellPlacedReadsRight(parts: seq<Part>, t: Bytes, counts: bool)
    requires Parts(parts, counts) && WellPlaced(Slots(parts))
    ensures ReadsRight(parts, t, counts)
  {
    WellPlacedMeans(parts, counts);
    BodyMeans(EmptyEntry(counts), parts, counts);
    assert Body(parts) == PartBytes(parts[0]) + Body(parts[1..]);
    ChunkHalf(0, parts[0].b, Body(parts[1..]));
    var v := if counts then Number(0) else Chunk([]);
    if |parts| > 1 {
      var behind := Body(parts[1..][1..]);
      assert Body(parts[1..]) == PartBytes(parts[1]) + behind;
      if counts {
        NumberHalf(parts[1].n, behind);
        v := Number(parts[1].n);
      } else {
        ChunkHalf(1, parts[1].b, behind);
        v := Chunk(parts[1].b);
      }
    }
    hide ReadHalf, Decode, ReadEntry;
    ReadTwo(parts, counts, parts[0].b, v);
    ReadEntryStable(PutChunk(Body(parts)), t, counts);
  }

  // Every other order is read wrong for some contents

  /** One record with contents that are not zero, or with zero. */
  function Mark(slot: Slot, marked: bool, counts: bool): Part {
    match slot
    case KeySlot => KeyPart(if marked then [65] else [])
    case ValueSlot => if counts then CountPart(if marked then -1 else 0) else TextPart(if marked then [65] else [])
    case OtherSlot => OtherPart(Delimited([0x1a], if marked then [1] else [0], if marked then [65] else []))
  }

  /** An entry in which one record is marked, if i is in range. */
  function Marked(slots: seq<Slot>, i: int, counts: bool): (parts: seq<Part>)
    ensures |parts| == |slots|
    decreases |slots|
  {
    if slots == [] then [] else [Mark(slots[0], i == 0, counts)] + Marked(slots[1..], i - 1, counts)
  }

  lemma MarkIsPart(slot: Slot, marked: bool, counts: bool)
    ensures PartOf(Mark(slot, marked, counts), counts) && SlotOf(Mark(slot, marked, counts)) == slot
    ensures |PartBytes(Mark(slot, marked, counts))| <= 12
  {
    hide ReadVarint, PutVarint, FieldNumber;
    if slot == OtherSlot {
      OtherMarkIsPart(marked, counts);
    } else {
      Uint64Width(ToUint64(-1));
      Uint64Width(0);
      Uint64Width(1);
      assert ToUint64(0) == 0;
    }
  }

  lemma OtherMarkIsPart(marked: bool, counts: bool)
    ensures var p := Mark(OtherSlot, marked, counts); PartOf(p, counts) && |PartBytes(p)| <= 3
  {
    hide Flatten;
    assert ReadVarint([0x1a]) == Read(0x1a, 1) && ReadVarint([1]) == Read(1, 1) && ReadVarint([0]) == Read(0, 1);
    assert FieldNumber(0x1a) == 3;
    assert |PartBytes(Mark(OtherSlot, marked, counts))| <= 3 by {
      FlattenMark(marked);
    }
  }

  lemma FlattenMark(marked: bool)
    ensures |PartBytes(Mark(OtherSlot, marked, false))| == |PartBytes(Mark(OtherSlot, marked, true))| <= 3
  {
  }

  lemma {:induction false} MarkedParts(slots: seq<Slot>, i: int, counts: bool)
    ensures var parts := Marked(slots, i, counts);
            && Slots(parts) == slots && (forall p :: p in parts ==> PartOf(p, counts))
            && |Body(parts)| <= 12 * |slots|
    decreases |slots|
  {
    hide PartOf, PartBytes, Mark, SlotOf;
    if slots != [] {
      var rest := Marked(slots[1..], i - 1, counts);
      MarkedParts(slots[1..], i - 1, counts);
      MarkIsPart(slots[0], i == 0, counts);
      assert Marked(slots, i, counts)[1..] == rest;
      assert slots == [slots[0]] + slots[1..] == [SlotOf(Mark(slots[0], i == 0, counts))] + Slots(rest);
    }
  }

  function FieldOf(slot: Slot): nat
    requires slot != OtherSlot
  {
    if slot == KeySlot then 0 else 1
  }

  lemma {:induction false} AbsentStays(m: Message, slots: seq<Slot>, i: int, counts: bool, slot: Slot)
    requires |m| == 2 && slot != OtherSlot && slot !in slots
    ensures ReadAll(m, Marked(slots, i, counts))[FieldOf(slot)] == m[FieldOf(slot)]
    decreases |slots|
  {
    if slots != [] {
      assert slots[0] in slots;
      var p := Mark(slots[0], i == 0, counts);
      assert Marked(slots, i, counts)[1..] == Marked(slots[1..], i - 1, counts);
      AbsentStays(Read1(m, p), slots[1..], i - 1, counts, slot);
    }
  }

  /** Of a field that is not marked nothing but zeros is read. */
  lemma {:induction false} UnmarkedIsZero(m: Message, slots: seq<Slot>, i: int, counts: bool, slot: Slot)
    requires |m| == 2 && slot != OtherSlot && m[FieldOf(slot)] == EmptyEntry(counts)[FieldOf(slot)]
    requires 0 <= i < |slots| ==> slots[i] != slot
    ensures ReadAll(m, Marked(slots, i, counts))[FieldOf(slot)] == EmptyEntry(counts)[FieldOf(slot)]
    decreases |slots|
  {
    if slots != [] {
      var p := Mark(slots[0], i == 0, counts);
      assert Marked(slots, i, counts)[1..] == Marked(slots[1..], i - 1, counts);
      UnmarkedIsZero(Read1(m, p), slots[1..], i - 1, counts, slot);
    }
  }

  function MarkValue(slot: Slot, counts: bool): Value
    requires slot != OtherSlot
  {
    if slot == ValueSlot && counts then Int32(-1) else Text([65])
  }

  lemma MarkReads(m: Message, slot: Slot, counts: bool)
    requires |m| == 2 && slot != OtherSlot
    ensures Read1(m, Mark(slot, true, counts)) == m[FieldOf(slot) := MarkValue(slot, counts)]
  {
  }

  /** Of the last record of a field the contents are read. */
  lemma {:induction false} LastCounts(m: Message, slots: seq<Slot>, i: nat, counts: bool)
    requires |m| == 2 && i < |slots| && slots[i] != OtherSlot && slots[i] !in slots[i + 1..]
    ensures ReadAll(m, Marked(slots, i, counts))[FieldOf(slots[i])] == MarkValue(slots[i], counts)
    decreases |slots|
  {
    hide MarkValue;
    if slots[0] != OtherSlot {
      MarkReads(m, slots[0], counts);
    }
    hide Mark, Read1;
    var p := Mark(slots[0], i == 0, counts);
    assert Marked(slots, i, counts)[1..] == Marked(slots[1..], i - 1, counts);
    if i == 0 {
      AbsentStays(Read1(m, p), slots[1..], -1, counts, slots[0]);
    } else {
      assert slots[1..][i - 1 + 1..] == slots[i + 1..];
      LastCounts(Read1(m, p), slots[1..], i - 1, counts);
    }
  }

  /** What the first half of an entry is read as. */
  lemma MarkAsKey(slot: Slot, marked: bool, counts: bool, t: Bytes)
    ensures var p := Mark(slot, marked, counts); var h := ReadHalf(PartBytes(p) + t, false);
            if counts && slot == ValueSlot then marked ==> h.NoHalf?
            else h == GotHalf(Chunk(if marked then [65] else []), |PartBytes(p)|)
  {
    var b: Bytes := if marked then [65] else [];
    if counts && slot == ValueSlot {
      if marked {
        NegativeAsKey(-1, t);
      }
    } else {
      hide ReadHalf, PutVarint, ReadVarint;
      MarkIsRecord(slot, marked, counts);
      ChunkHalf(if slot == OtherSlot then 2 else FieldOf(slot), b, t);
    }
  }

  lemma MarkIsRecord(slot: Slot, marked: bool, counts: bool)
    requires !(counts && slot == ValueSlot)
    ensures PartBytes(Mark(slot, marked, counts))
         == Record(if slot == OtherSlot then 2 else FieldOf(slot), Chunk(if marked then [65] else []))
  {
    assert PutVarint(1) == [1] && PutVarint(0) == [0];
  }

  /** A negative number in the place of a length is refused. */
  lemma NegativeLength(n: int32, t: Bytes)
    requires n < 0
    ensures ReadChunk(PutVarint(ToUint64(n)) + t).NoChunk?
  {
    hide ReadVarint, PutVarint;
    ReadPutNumber(n, t);
    SignExtension(n);
  }

  lemma NegativeAsKey(n: int32, t: Bytes)
    requires n < 0
    ensures ReadHalf(Record(1, Number(n)) + t, false).NoHalf?
  {
    NegativeLength(n, t);
    var tail := PutVarint(ToUint64(n));
    hide ReadVarint, PutVarint, ReadChunk, ToUint64;
    assert Record(1, Number(n)) + t == [0x10] + (tail + t);
    ReadOneByte(0x10, tail + t);
    assert ([0x10] + (tail + t))[1..] == tail + t;
  }

  /** What a record is read as in the place of an int32, if it is no value: its length. */
  lemma MarkAsNumber(slot: Slot, t: Bytes)
    requires slot != ValueSlot
    ensures var h := ReadHalf(PartBytes(Mark(slot, true, true)) + t, true); h.GotHalf? && h.val == Number(1)
  {
    var p := Mark(slot, true, true);
    var s := PartBytes(p) + t;
    assert PutVarint(1) == [1];
    assert PartBytes(p) == [if slot == KeySlot then 0x0a else 0x1a] + ([1] + [65]);
    assert s == [s[0]] + (s[1..]) && s[1..][0] == 1;
    ReadOneByte(s[0], s[1..]);
  }

  lemma MarkedFits(slots: seq<Slot>, i: int, counts: bool)
    requires |slots| < TWO_TO_THE_58
    ensures var parts := Marked(slots, i, counts);
            Parts(parts, counts) && Slots(parts) == slots && |Body(parts)| < TWO_TO_THE_63
    ensures ReadsRight(Marked(slots, i, counts), [], counts) ==>
              var parts := Marked(slots, i, counts);
              var m, s := ReadAll(EmptyEntry(counts), parts), PutChunk(Body(parts));
              && m[0].Text? && (if counts then m[1].Int32? else m[1].Text?)
              && ReadEntry(s, counts)
                 == GotEntry(m[0].text, if counts then Number(m[1].short) else Chunk(m[1].text), |s|)
  {
    var parts := Marked(slots, i, counts);
    MarkedParts(slots, i, counts);
    Uint64Width(|Body(parts)|);
    BodyMeans(EmptyEntry(counts), parts, counts);
    hide ReadEntry, Decode, Body, PutVarint;
    assert PutChunk(Body(parts)) + [] == PutChunk(Body(parts));
  }

  const TWO_TO_THE_58: int := 0x400_0000_0000_0000

  /** The key that is read is what the first record holds. */
  lemma MarkedKey(slots: seq<Slot>, i: int, counts: bool)
    requires slots != [] && |slots| < TWO_TO_THE_58 && (slots[0] == KeySlot || i == 0)
    ensures var parts := Marked(slots, i, counts); var e := ReadEntry(PutChunk(Body(parts)), counts);
            e.GotEntry? ==> e.key == if i == 0 then [65] else []
  {
    hide ReadHalf, ReadEntry, PartBytes, Mark, PutChunk, ReadsRight, PartOf;
    var parts := Marked(slots, i, counts);
    MarkedFits(slots, i, counts);
    KeyIsFirstHalf(Body(parts), counts);
    assert Body(parts) == PartBytes(parts[0]) + Body(parts[1..]);
    MarkAsKey(slots[0], i == 0, counts, Body(parts[1..]));
  }

  lemma KeyIsFirstHalf(body: Bytes, counts: bool)
    requires |PutChunk(body)| < TWO_TO_THE_63
    ensures var e, h := ReadEntry(PutChunk(body), counts), ReadHalf(body, false);
            e.GotEntry? ==> h.GotHalf? && e.key == h.val.b
  {
    hide ReadHalf;
    EntryIsHalves(body, counts);
  }

  /** The value that is read is what the second record holds: of an int32 map its length, if it is no value. */
  lemma MarkedValue(slots: seq<Slot>, i: nat, counts: bool)
    requires |slots| >= 2 && |slots| < TWO_TO_THE_58 && slots[0] == KeySlot && i >= 1
    requires if slots[1] == ValueSlot then i >= 2 else i == 1
    ensures var parts := Marked(slots, i, counts); var e := ReadEntry(PutChunk(Body(parts)), counts);
            e.GotEntry? ==>
              e.val == if slots[1] == ValueSlot then (if counts then Number(0) else Chunk([]))
                       else (if counts then Number(1) else Chunk([65]))
  {
    hide ReadHalf, ReadEntry, PartBytes, Mark, PutChunk, ReadsRight, PartOf;
    var parts := Marked(slots, i, counts);
    var rest := parts[1..];
    MarkedFits(slots, i, counts);
    MarkAsKey(KeySlot, false, counts, Body(rest));
    SecondHalf(slots[1], i == 1, counts, Body(rest[1..]));
    assert parts[0] == Mark(KeySlot, false, counts) && rest[0] == Mark(slots[1], i == 1, counts);
    assert Body(parts) == PartBytes(parts[0]) + Body(rest);
    assert Body(rest) == PartBytes(rest[0]) + Body(rest[1..]);
    var v := ReadHalf(Body(rest), counts).val;
    ReadTwo(parts, counts, [], v);
  }

  lemma SecondHalf(slot: Slot, marked: bool, counts: bool, t: Bytes)
    requires marked == (slot != ValueSlot)
    ensures var h := ReadHalf(PartBytes(Mark(slot, marked, counts)) + t, counts);
            && h.GotHalf?
            && h.val == if slot == ValueSlot then (if counts then Number(0) else Chunk([]))
                        else (if counts then Number(1) else Chunk([65]))
  {
    if !counts {
      MarkAsKey(slot, marked, false, t);
    } else if slot == ValueSlot {
      NumberHalf(0, t);
    } else {
      MarkAsNumber(slot, t);
    }
  }

  /** An empty entry takes its key from whatever stands behind it, and there may be nothing. */
  lemma EmptyEntryReadsBehind(t: Bytes, counts: bool)
    ensures ReadEntry([0] + t, counts)
         == match ReadHalf(t, false)
            case NoHalf(e) => EntryRead.NoEntry(e)
            case GotHalf(key, _) => GotEntry(key.b, if counts then Number(0) else Chunk([]), 1)
  {
    ReadOneByte(0, t);
    assert ([0] + t)[1..1] == [] && ([0] + t)[1..] == t;
  }

  lemma {:induction false} LastOf(slots: seq<Slot>, slot: Slot, from: nat) returns (i: nat)
    requires from < |slots| && slot in slots[from..]
    ensures from <= i < |slots| && slots[i] == slot && slot !in slots[i + 1..]
    decreases |slots| - from
  {
    if slots[from] == slot && slot !in slots[from + 1..] {
      return from;
    }
    assert slots[from..] == [slots[from]] + slots[from + 1..];
    i := LastOf(slots, slot, from + 1);
  }

  /** In any other order some contents are read wrong even if nothing stands behind the entry. */
  lemma MisplacedReadsWrong(slots: seq<Slot>, counts: bool) returns (parts: seq<Part>)
    requires |slots| < TWO_TO_THE_58 && !WellPlaced(slots)
    ensures Parts(parts, counts) && Slots(parts) == slots && !ReadsRight(parts, [], counts)
  {
    var zero := EmptyEntry(counts);
    var i := 0;
    if slots == [] {
      EmptyEntryReadsBehind([], counts);
    } else if slots[0] != KeySlot {
      MarkedKey(slots, 0, counts);
      UnmarkedIsZero(zero, slots, 0, counts, KeySlot);
    } else if KeySlot in slots[1..] {
      i := LastOf(slots, KeySlot, 1);
      MarkedKey(slots, i, counts);
      LastCounts(zero, slots, i, counts);
    } else if slots[1] != ValueSlot {
      i := 1;
      MarkedValue(slots, 1, counts);
      UnmarkedIsZero(zero, slots, 1, counts, ValueSlot);
    } else {
      var k := NotOther(slots);
      assert slots[k] in slots[2..];
      i := LastOf(slots, ValueSlot, 2);
      MarkedValue(slots, i, counts);
      LastCounts(zero, slots, i, counts);
    }
    parts := Marked(slots, i, counts);
    MarkedFits(slots, i, counts);
    hide ReadEntry, ReadsRight, Parts, Marked;
  }

  lemma NotOther(slots: seq<Slot>) returns (k: nat)
    requires |slots| >= 2 && slots[0] == KeySlot && slots[1] == ValueSlot
    requires !WellPlaced(slots) && KeySlot !in slots[1..]
    ensures 2 <= k < |slots| && slots[k] == ValueSlot
  {
    assert slots[..2] == [KeySlot, ValueSlot];
    k :| 2 <= k < |slots| && slots[k] != OtherSlot;
    assert slots[1..][k - 1] == slots[k];
  }

  /**
   The generated code reads all entries with records in this order as the grammar has it, whatever they
   hold and whatever stands behind, exactly when the key comes first, the value second if at all, and
   nothing but unknown records behind.
   */
  lemma EntriesReadRightIff(slots: seq<Slot>, counts: bool)
    requires |slots| < TWO_TO_THE_58
    ensures (forall parts, t :: Parts(parts, counts) && Slots(parts) == slots ==> ReadsRight(parts, t, counts))
       <==> WellPlaced(slots)
  {
    if WellPlaced(slots) {
      forall parts, t | Parts(parts, counts) && Slots(parts) == slots ensures ReadsRight(parts, t, counts) {
        WellPlacedReadsRight(parts, t, counts);
      }
    } else {
      var parts := MisplacedReadsWrong(slots, counts);
      hide ReadsRight, Parts, Slots, WellPlaced;
      assert !ReadsRight(parts, [], counts);
    }
  }

  // Entries that are read right by coincidence

  /** The entry is read right if what follows it starts with an empty text, in a record of any tag. */
  lemma EmptyEntryRightIff(t: Bytes, counts: bool)
    ensures ReadsRight([], t, counts) <==> ReadHalf(t, false).GotHalf? && ReadHalf(t, false).val == Chunk([])
  {
    EmptyEntryReadsBehind(t, counts);
    assert Body([]) == [] && PutChunk([]) == [0];
  }

  /** Where a text is read the record holds one, and where a number is read it holds one or starts with its length. */
  ghost predicate Legible(p: Part, number: bool) {
    match p
    case KeyPart(_) => true
    case TextPart(_) => true
    case CountPart(_) => number
    case OtherPart(u) => (u.Delimited? && IsVarint(u.len)) || (number && u.Varying? && IsVarint(u.number))
  }

  function Truncated(raw: nat): int32 {
    Signed(raw % TWO_TO_THE_32, TWO_TO_THE_32)
  }

  /** What is seen in the record, whatever its tag. */
  ghost function Seen(p: Part, number: bool): Value
    requires Legible(p, number)
  {
    match p
    case KeyPart(b) => if number then Int32(Truncated(|b|)) else Text(b)
    case TextPart(b) => if number then Int32(Truncated(|b|)) else Text(b)
    case CountPart(n) => Int32(n)
    case OtherPart(u) =>
      if !number then Text(u.data)
      else Int32(Truncated(ReadVarint(if u.Varying? then u.number else u.len).value))
  }

  /**
   An entry in any order, of texts or of numbers, whose first two records can be read at all, is read right
   exactly when the key and the value that it means are what these two happen to hold.
   */
  lemma EntryReadsRightIff(parts: seq<Part>, t: Bytes, counts: bool)
    requires Parts(parts, counts) && parts != []
    requires Legible(parts[0], false) && (|parts| > 1 ==> Legible(parts[1], counts))
    ensures ReadsRight(parts, t, counts)
       <==> ReadAll(EmptyEntry(counts), parts)
            == [Seen(parts[0], false), if |parts| > 1 then Seen(parts[1], counts) else EmptyEntry(counts)[1]]
  {
    hide ReadHalf, Decode, ReadEntry, PartBytes, PartOf, Seen;
    BodyMeans(EmptyEntry(counts), parts, counts);
    SeenShape(parts[0], false);
    if |parts| > 1 {
      SeenShape(parts[1], counts);
    }
    LegibleRead(parts, counts);
    ReadEntryStable(PutChunk(Body(parts)), t, counts);
    hide Body, PutChunk;
    var m := ReadAll(EmptyEntry(counts), parts);
    assert m == [m[0], m[1]];
    PartsKeepShape(EmptyEntry(counts), parts, counts);
  }

  lemma SeenShape(p: Part, number: bool)
    requires Legible(p, number)
    ensures if number then Seen(p, number).Int32? else Seen(p, number).Text?
  {
  }

  lemma {:induction false} PartsKeepShape(m: Message, parts: seq<Part>, counts: bool)
    requires SameShape(m, EmptyEntry(counts)) && forall p :: p in parts ==> PartOf(p, counts)
    ensures SameShape(ReadAll(m, parts), EmptyEntry(counts))
    decreases |parts|
  {
    if parts != [] {
      assert parts[0] in parts;
      ReadKeepsShape(m, parts[0], counts);
      PartsKeepShape(Read1(m, parts[0]), parts[1..], counts);
    }
  }

  function ElemOf(v: Value): Elem
    requires v.Text? || v.Int32?
  {
    if v.Text? then Chunk(v.text) else Number(v.short)
  }

  lemma LegibleRead(parts: seq<Part>, counts: bool)
    requires Parts(parts, counts) && parts != []
    requires Legible(parts[0], false) && (|parts| > 1 ==> Legible(parts[1], counts))
    requires Seen(parts[0], false).Text?
    requires |parts| > 1 ==> if counts then Seen(parts[1], counts).Int32? else Seen(parts[1], counts).Text?
    ensures ReadEntry(PutChunk(Body(parts)), counts)
         == GotEntry(Seen(parts[0], false).text,
                     ElemOf(if |parts| > 1 then Seen(parts[1], counts) else EmptyEntry(counts)[1]),
                     |PutChunk(Body(parts))|)
  {
    assert parts[0] in parts;
    assert Body(parts) == PartBytes(parts[0]) + Body(parts[1..]);
    SeenFirst(parts[0], Body(parts[1..]), counts);
    if |parts| > 1 {
      assert parts[1] in parts;
      assert Body(parts[1..]) == PartBytes(parts[1]) + Body(parts[1..][1..]);
      if counts {
        SeenNumber(parts[1], Body(parts[1..][1..]));
      } else {
        SeenFirst(parts[1], Body(parts[1..][1..]), counts);
      }
    }
    hide ReadHalf, ReadEntry, PartBytes, Seen, Legible, PartOf;
    ReadTwo(parts, counts, Seen(parts[0], false).text,
            ElemOf(if |parts| > 1 then Seen(parts[1], counts) else EmptyEntry(counts)[1]));
  }

  lemma SeenFirst(p: Part, t: Bytes, counts: bool)
    requires PartOf(p, counts) && Legible(p, false) && |PartBytes(p)| < TWO_TO_THE_63
    ensures Seen(p, false).Text?
    ensures ReadHalf(PartBytes(p) + t, false) == GotHalf(Chunk(Seen(p, false).text), |PartBytes(p)|)
  {
    match p
    case KeyPart(b) => ChunkHalf(0, b, t);
    case TextPart(b) => ChunkHalf(1, b, t);
    case OtherPart(u) =>
      DelimitedHalf(u.tag, u.len, u.data, t);
      hide ReadHalf;
  }

  lemma DelimitedHalf(tag: Bytes, len: Bytes, data: Bytes, t: Bytes)
    requires IsVarint(tag) && IsVarint(len) && ReadVarint(len).value % TWO_TO_THE_64 == |data| < TWO_TO_THE_63
    ensures ReadHalf(tag + (len + data) + t, false) == GotHalf(Chunk(data), |tag| + |len| + |data|)
  {
    hide ReadVarint, ReadChunk;
    var rest := len + (data + t);
    assert tag + (len + data) + t == tag + rest;
    ReadTag(tag, rest);
    DelimitedChunk(len, data, t);
  }

  lemma DelimitedChunk(len: Bytes, data: Bytes, t: Bytes)
    requires IsVarint(len) && ReadVarint(len).value % TWO_TO_THE_64 == |data| < TWO_TO_THE_63
    ensures ReadChunk(len + (data + t)) == GotChunk(data, |len| + |data|)
  {
    hide ReadVarint;
    ReadTag(len, data + t);
    assert (len + (data + t))[|len|..|len| + |data|] == data;
  }

  lemma VaryingHalf(tag: Bytes, number: Bytes, t: Bytes)
    requires IsVarint(tag) && IsVarint(number)
    ensures ReadHalf(tag + (number + t), true).GotHalf?
    ensures ReadHalf(tag + (number + t), true).val == Number(Truncated(ReadVarint(number).value))
  {
    ReadTag(tag, number + t);
    ReadTag(number, t);
    hide ReadVarint;
  }

  lemma SeenNumber(p: Part, t: Bytes)
    requires PartOf(p, true) && Legible(p, true) && |PartBytes(p)| < TWO_TO_THE_63
    ensures Seen(p, true).Int32?
    ensures ReadHalf(PartBytes(p) + t, true).GotHalf?
    ensures ReadHalf(PartBytes(p) + t, true).val == Number(Seen(p, true).short)
  {
    match p
    case KeyPart(b) => LengthHalf(b, t);
    case CountPart(n) => NumberHalf(n, t);
    case OtherPart(u) =>
      hide ReadHalf, ReadVarint;
      if u.Varying? {
        assert PartBytes(p) + t == u.tag + (u.number + t);
        VaryingHalf(u.tag, u.number, t);
      } else {
        assert PartBytes(p) + t == u.tag + (u.len + (u.data + t));
        VaryingHalf(u.tag, u.len, u.data + t);
      }
  }

  lemma LengthHalf(b: Bytes, t: Bytes)
    requires |b| < TWO_TO_THE_63
    ensures ReadHalf(Record(0, Chunk(b)) + t, true).GotHalf?
    ensures ReadHalf(Record(0, Chunk(b)) + t, true).val == Number(Truncated(|b|))
  {
    TagOf(0, Chunk(b));
    var tag := TagByte(0, Chunk(b));
    assert Record(0, Chunk(b)) + t == [tag] + (PutVarint(|b|) + (b + t));
    ReadOneByte(tag, PutVarint(|b|) + (b + t));
    assert ([tag] + (PutVarint(|b|) + (b + t)))[1..] == PutVarint(|b|) + (b + t);
    ReadPut(|b|);
    ReadVarintStable(PutVarint(|b|), b + t);
  }
}
