/**
 Marshal followed by Unmarshal, for every message, every order of its maps and every message that
 is decoded into.
 */
module RoundTrip {
  import opened Options
  import opened Varint
  import opened Wire
  import opened Concatenation
  import opened Sizes

  /** A scalar that is not zero wins, lists are appended and map entries overlaid. */
  function MergeValue(a: Value, b: Value): (r: Value)
    requires SameKind(a, b)
    ensures SameKind(a, r)
  {
    match b
    case Text(x) => if x == [] then a else b
    case Int64(n) => if n == 0 then a else b
    case Int32(n) => if n == 0 then a else b
    case Texts(xs) => Texts(a.texts + xs)
    case TextMap(m) => TextMap(a.entries + m)
    case CountMap(m) => CountMap(a.counts + m)
  }

  /** `a` with the fields from index `from` on merged with those of `b`. */
  function Merge(a: Message, b: Message, from: nat := 0): (r: Message)
    requires SameShape(a, b)
    ensures SameShape(a, r)
  {
    seq(|a|, i requires 0 <= i < |a| => if i < from then a[i] else MergeValue(a[i], b[i]))
  }

  // One record

  function Apply(v: Value, e: Elem): Value {
    match (v, e)
    case (Text(_), Chunk(b)) => Text(b)
    case (Int64(_), Number(n)) => Int64(n)
    case (Int32(_), Number(n)) => if FitsInt32(n) then Int32(n) else v
    case (Texts(bs), Chunk(b)) => Texts(bs + [b])
    case (TextMap(m), Pair(k, x)) => TextMap(m[k := x])
    case (CountMap(m), Count(k, n)) => CountMap(m[k := n])
    case _ => v
  }

  predicate ElemOf(e: Elem, v: Value) {
    match v
    case Text(_) => e.Chunk?
    case Texts(_) => e.Chunk?
    case Int64(_) => e.Number?
    case Int32(_) => e.Number? && FitsInt32(e.n)
    case TextMap(_) => e.Pair?
    case CountMap(_) => e.Count?
  }

  lemma ReadPutChunk(b: Bytes, t: Bytes)
    requires |b| < TWO_TO_THE_63
    ensures ReadChunk(PutChunk(b) + t) == GotChunk(b, |PutChunk(b)|)
  {
    hide ReadVarint, PutVarint;
    ReadPut(|b|);
    ReadVarintStable(PutVarint(|b|), b + t);
    assert PutChunk(b) + t == PutVarint(|b|) + (b + t);
    var n := |PutVarint(|b|)|;
    assert (PutChunk(b) + t)[n..n + |b|] == b;
  }

  /** Sign extension to 64 bits and truncation to 32 lose nothing that fits. */
  lemma SignExtension(n: int64)
    ensures Signed(ToUint64(n) % TWO_TO_THE_64, TWO_TO_THE_64) == n
    ensures FitsInt32(n) ==> Signed(ToUint64(n) % TWO_TO_THE_32, TWO_TO_THE_32) == n
  {
  }

  lemma ReadPutNumber(n: int64, t: Bytes)
    ensures ReadVarint(PutVarint(ToUint64(n)) + t) == Read(ToUint64(n), |PutVarint(ToUint64(n))|)
  {
    ReadPut(ToUint64(n));
    ReadVarintStable(PutVarint(ToUint64(n)), t);
  }

  lemma ReadOneByte(b: byte, t: Bytes)
    requires b < 0x80
    ensures ReadVarint([b] + t) == Read(b, 1)
  {
    assert ([b] + t)[0] == b;
  }

  lemma ReadTextHalf(tag: byte, b: Bytes, t: Bytes)
    requires tag < 0x80 && |b| < TWO_TO_THE_63
    ensures ReadHalf([tag] + PutChunk(b) + t, false) == GotHalf(Chunk(b), 1 + |PutChunk(b)|)
  {
    var s := [tag] + PutChunk(b) + t;
    assert s == [tag] + (PutChunk(b) + t);
    ReadOneByte(tag, PutChunk(b) + t);
    assert s[1..] == PutChunk(b) + t;
    ReadPutChunk(b, t);
  }

  lemma ReadCountHalf(n: int32)
    ensures var s := [0x10] + PutVarint(ToUint64(n)); ReadHalf(s, true) == GotHalf(Number(n), |s|)
  {
    var tail := PutVarint(ToUint64(n));
    ReadOneByte(0x10, tail);
    assert ([0x10] + tail)[1..] == tail == tail + [];
    ReadPutNumber(n, []);
    SignExtension(n);
  }

  lemma ReadTwoHalves(first: Bytes, second: Bytes, k: Bytes, v: Elem, next: nat, counts: bool)
    requires ReadHalf(first + second, false) == GotHalf(Chunk(k), |first|)
    requires ReadHalf(second, counts) == GotHalf(v, |second|)
    ensures ReadHalves(first + second, |first + second|, next, counts) == GotEntry(k, v, next)
  {
    assert (first + second)[|first|..] == second;
  }

  lemma ReadBody(e: Elem, next: nat)
    requires e.Pair? || e.Count?
    requires |Body(e)| < TWO_TO_THE_63
    ensures ReadHalves(Body(e), |Body(e)|, next, e.Count?)
         == GotEntry(e.key, if e.Count? then Number(e.count) else Chunk(e.val), next)
  {
    var first := [0x0a] + PutChunk(e.key);
    if e.Count? {
      var second := [0x10] + PutVarint(ToUint64(e.count));
      assert Body(e) == first + second;
      ReadTextHalf(0x0a, e.key, second);
      ReadCountHalf(e.count);
      ReadTwoHalves(first, second, e.key, Number(e.count), next, true);
    } else {
      var second := [0x12] + PutChunk(e.val);
      assert Body(e) == first + second;
      ReadTextHalf(0x0a, e.key, second);
      ReadTextHalf(0x12, e.val, []);
      assert second + [] == second;
      ReadTwoHalves(first, second, e.key, Chunk(e.val), next, false);
    }
  }

  function Body(e: Elem): Bytes
    requires (e.Pair? || e.Count?)
  {
    if e.Count? then CountBody(e.key, e.count) else PairBody(e.key, e.val)
  }

  lemma ReadPutEntry(e: Elem)
    requires e.Pair? || e.Count?
    requires |Payload(e)| < TWO_TO_THE_63
    ensures ReadEntry(Payload(e), e.Count?)
         == GotEntry(e.key, if e.Count? then Number(e.count) else Chunk(e.val), |Payload(e)|)
  {
    var s := Payload(e);
    assert s == PutChunk(Body(e)) == PutChunk(Body(e)) + [];
    ReadPutChunk(Body(e), []);
    assert s[|s| - |Body(e)|..] == Body(e);
    ReadBody(e, |s|);
  }

  /**
   The halves of an entry are told apart by their position only, whatever their tags: an entry with its
   value (tag 0x12) in front of its key (tag 0x0a) is read with the two exchanged.
   */
  lemma EntryReadByPosition(first: Bytes, second: Bytes, tag: byte, tag': byte)
    requires tag < 0x80 && tag' < 0x80
    requires |PutChunk(([tag] + PutChunk(first)) + ([tag'] + PutChunk(second)))| < TWO_TO_THE_63
    ensures var s := PutChunk(([tag] + PutChunk(first)) + ([tag'] + PutChunk(second)));
            ReadEntry(s, false) == GotEntry(first, Chunk(second), |s|)
  {
    var one, two := [tag] + PutChunk(first), [tag'] + PutChunk(second);
    var s := PutChunk(one + two);
    ReadTextHalf(tag, first, two);
    ReadTextHalf(tag', second, []);
    assert two + [] == two;
    ReadTwoHalves(one, two, first, Chunk(second), |s|, false);
    ReadPutChunk(one + two, []);
    assert s + [] == s && s[|s| - |one + two|..] == one + two;
  }

  lemma ReadPayload(v: Value, e: Elem)
    requires ElemOf(e, v) && |Payload(e)| < TWO_TO_THE_63
    ensures ReadField(v, if e.Number? then 0 else 2, Payload(e)) == Got(Apply(v, e), |Payload(e)|)
  {
    assert Payload(e) + [] == Payload(e);
    match e
    case Chunk(b) => ReadPutChunk(b, []);
    case Number(n) =>
      ReadPutNumber(n, []);
      SignExtension(n);
    case Pair(_, _) => ReadPutEntry(e);
    case Count(_, _) => ReadPutEntry(e);
  }

  lemma TagOf(i: nat, e: Elem)
    requires i < 15
    ensures FieldNumber(TagByte(i, e)) == i + 1
    ensures TagByte(i, e) % 8 == if e.Number? then 0 else 2
    ensures TagByte(i, e) < 0x80
  {
  }

  lemma DecodeStepKnown(m: Message, s: Bytes, raw: nat, n: nat, v: Value, k: nat)
    requires ReadVarint(s) == Read(raw, n) && raw % 8 != 4 && 1 <= FieldNumber(raw) <= |m|
    requires ReadField(m[FieldNumber(raw) - 1], raw % 8, s[n..]) == Got(v, k)
    ensures DecodeStep(m, s) == Advance(m[FieldNumber(raw) - 1 := v], n + k)
  {
    hide ReadField, Skip, FieldNumber, Signed, ReadVarint;
  }

  lemma DecodeStepRecord(m: Message, i: nat, e: Elem)
    requires i < |m| <= 15 && ElemOf(e, m[i]) && |Record(i, e)| < TWO_TO_THE_63
    ensures DecodeStep(m, Record(i, e)) == Advance(m[i := Apply(m[i], e)], |Record(i, e)|)
  {
    hide ReadField, Skip, FieldNumber, Signed, ReadVarint, DecodeStep, Apply, Payload;
    var s := Record(i, e);
    TagOf(i, e);
    ReadOneByte(TagByte(i, e), Payload(e));
    assert s[1..] == Payload(e);
    ReadPayload(m[i], e);
    DecodeStepKnown(m, s, TagByte(i, e), 1, Apply(m[i], e), |Payload(e)|);
  }

  lemma DecodeRecord(m: Message, i: nat, e: Elem)
    requires i < |m| <= 15 && ElemOf(e, m[i]) && |Record(i, e)| < TWO_TO_THE_63
    ensures Decode(m, Record(i, e)) == Outcome(m[i := Apply(m[i], e)], None)
  {
    DecodeStepRecord(m, i, e);
    assert Record(i, e)[|Record(i, e)|..] == [];
  }

  // All records of a field

  function ApplyAll(v: Value, es: seq<Elem>): (r: Value)
    ensures SameKind(v, r)
    decreases |es|
  {
    if es == [] then v else ApplyAll(Apply(v, es[0]), es[1..])
  }

  ghost predicate AllOf(es: seq<Elem>, v: Value) {
    forall e :: e in es ==> ElemOf(e, v)
  }

  lemma {:induction false} DecodeRecords(m: Message, i: nat, es: seq<Elem>)
    requires i < |m| <= 15 && AllOf(es, m[i])
    requires |Records(i, es)| < TWO_TO_THE_63
    ensures Decode(m, Records(i, es)) == Outcome(m[i := ApplyAll(m[i], es)], None)
    decreases |es|
  {
    if es == [] {
      assert m[i := m[i]] == m;
    } else {
      assert ElemOf(es[0], m[i]) && AllOf(es[1..], m[i]);
      var first, rest := Record(i, es[0]), Records(i, es[1..]);
      var m' := m[i := Apply(m[i], es[0])];
      assert |first| + |rest| == |Records(i, es)|;
      DecodeRecord(m, i, es[0]);
      DecodeConcat(m, first, rest);
      DecodeRecords(m', i, es[1..]);
      assert m'[i := ApplyAll(m'[i], es[1..])] == m[i := ApplyAll(m[i], es)];
    }
  }

  lemma {:induction false} ApplyChunks(xs: seq<Bytes>, ys: seq<Bytes>)
    ensures ApplyAll(Texts(xs), Chunks(ys)) == Texts(xs + ys)
    decreases |ys|
  {
    if ys == [] {
      assert xs + ys == xs;
    } else {
      assert Chunks(ys)[1..] == Chunks(ys[1..]);
      ApplyChunks(xs + [ys[0]], ys[1..]);
      assert xs + [ys[0]] + ys[1..] == xs + ys;
    }
  }

  function Restrict<V>(m: map<Bytes, V>, order: seq<Bytes>): map<Bytes, V> {
    map k | k in m && k in order :: m[k]
  }

  lemma Overlay<V>(a: map<Bytes, V>, m: map<Bytes, V>, order: seq<Bytes>)
    requires order != [] && order[0] in m
    ensures a[order[0] := m[order[0]]] + Restrict(m, order[1..]) == a + Restrict(m, order)
  {
    assert order == [order[0]] + order[1..];
  }

  lemma {:induction false} ApplyPairs(a: map<Bytes, Bytes>, m: map<Bytes, Bytes>, order: seq<Bytes>)
    requires forall k :: k in order ==> k in m
    ensures ApplyAll(TextMap(a), Pairs(m, order)) == TextMap(a + Restrict(m, order))
    decreases |order|
  {
    if order == [] {
      assert a + Restrict(m, order) == a;
    } else {
      assert Pairs(m, order)[1..] == Pairs(m, order[1..]);
      ApplyPairs(a[order[0] := m[order[0]]], m, order[1..]);
      Overlay(a, m, order);
    }
  }

  lemma {:induction false} ApplyCounts(a: map<Bytes, int32>, m: map<Bytes, int32>, order: seq<Bytes>)
    requires forall k :: k in order ==> k in m
    ensures ApplyAll(CountMap(a), Counts(m, order)) == CountMap(a + Restrict(m, order))
    decreases |order|
  {
    if order == [] {
      assert a + Restrict(m, order) == a;
    } else {
      assert Counts(m, order)[1..] == Counts(m, order[1..]);
      ApplyCounts(a[order[0] := m[order[0]]], m, order[1..]);
      Overlay(a, m, order);
    }
  }

  lemma ApplyField(a: Value, b: Value, order: seq<Bytes>)
    requires SameKind(a, b) && IsOrder(order, Keys(b))
    ensures ApplyAll(a, Elems(b, order)) == MergeValue(a, b)
    ensures AllOf(Elems(b, order), a)
  {
    match b
    case Texts(ys) => ApplyChunks(a.texts, ys); ChunksAre(ys);
    case TextMap(m) =>
      assert Keys(b) == m.Keys;
      ApplyPairs(a.entries, m, order);
      assert Restrict(m, order) == m;
      PairsAre(m, order);
    case CountMap(m) =>
      assert Keys(b) == m.Keys;
      ApplyCounts(a.counts, m, order);
      assert Restrict(m, order) == m;
      CountsAre(m, order);
    case _ =>
  }

  lemma ChunksAre(bs: seq<Bytes>)
    ensures forall e :: e in Chunks(bs) ==> e.Chunk?
  {
  }

  lemma PairsAre(m: map<Bytes, Bytes>, order: seq<Bytes>)
    requires forall k :: k in order ==> k in m
    ensures forall e :: e in Pairs(m, order) ==> e.Pair?
  {
  }

  lemma CountsAre(m: map<Bytes, int32>, order: seq<Bytes>)
    requires forall k :: k in order ==> k in m
    ensures forall e :: e in Counts(m, order) ==> e.Count?
  {
  }

  // All fields

  lemma {:induction false} DecodeEncodeFrom(a: Message, b: Message, orders: seq<seq<Bytes>>, i: nat)
    requires SameShape(a, b) && ValidMessage(b) && IsOrders(orders, b) && i <= |b|
    requires |Encode(b, orders, i)| < TWO_TO_THE_63
    ensures Decode(a, Encode(b, orders, i)) == Outcome(Merge(a, b, i), None)
    decreases |b| - i
  {
    if i == |b| {
      assert Merge(a, b, i) == a;
    } else {
      var first := FieldBytes(i, b[i], orders[i]);
      var rest := Encode(b, orders, i + 1);
      assert |first| + |rest| == |Encode(b, orders, i)|;
      ApplyField(a[i], b[i], orders[i]);
      DecodeRecords(a, i, Elems(b[i], orders[i]));
      var a' := a[i := MergeValue(a[i], b[i])];
      DecodeConcat(a, first, rest);
      DecodeEncodeFrom(a', b, orders, i + 1);
      assert Merge(a', b, i + 1) == Merge(a, b, i);
    }
  }

  /** Unmarshal(Marshal(b)) into a message that already holds `a` merges b into a. */
  lemma DecodeIntoMerges(a: Message, b: Message, orders: seq<seq<Bytes>>)
    requires SameShape(a, b) && ValidMessage(b) && IsOrders(orders, b) && FitsMemory(b)
    ensures Decode(a, Encode(b, orders)) == Outcome(Merge(a, b), None)
  {
    EncodeSize(b, orders);
    DecodeEncodeFrom(a, b, orders, 0);
  }

  /** Unmarshal into an empty message undoes Marshal, whatever the order of the maps. */
  lemma DecodeInvertsEncode(m: Message, orders: seq<seq<Bytes>>)
    requires ValidMessage(m) && IsOrders(orders, m) && FitsMemory(m)
    ensures Decode(Empty(m), Encode(m, orders)) == Outcome(m, None)
  {
    DecodeIntoMerges(Empty(m), m, orders);
    forall i | 0 <= i < |m| ensures Merge(Empty(m), m)[i] == m[i] {
      MergeZero(m[i]);
    }
  }

  lemma MergeZero(v: Value)
    ensures MergeValue(Zero(v), v) == v
  {
    match v
    case Texts(xs) => assert [] + xs == xs;
    case TextMap(m) => assert map[] + m == m;
    case CountMap(m) => assert map[] + m == m;
    case _ =>
  }

  /** Two encodings back to back decode to the merged message: the last nonzero scalar wins. */
  lemma ConcatenationIsMerge(a: Message, b: Message, orderA: seq<seq<Bytes>>, orderB: seq<seq<Bytes>>)
    requires SameShape(a, b) && ValidMessage(a) && ValidMessage(b)
    requires IsOrders(orderA, a) && IsOrders(orderB, b)
    requires FitsMemory(a) && FitsMemory(b)
    ensures Decode(Empty(a), Encode(a, orderA) + Encode(b, orderB)) == Outcome(Merge(a, b), None)
  {
    DecodeInvertsEncode(a, orderA);
    DecodeConcat(Empty(a), Encode(a, orderA), Encode(b, orderB));
    DecodeIntoMerges(a, b, orderB);
  }

  /** Two messages of one type with the same bytes are the same message. */
  lemma EncodeIsInjective(a: Message, b: Message, orderA: seq<seq<Bytes>>, orderB: seq<seq<Bytes>>)
    requires SameShape(a, b) && ValidMessage(a) && ValidMessage(b)
    requires IsOrders(orderA, a) && IsOrders(orderB, b) && FitsMemory(a)
    requires Encode(a, orderA) == Encode(b, orderB)
    ensures a == b
  {
    DecodeInvertsEncode(a, orderA);
    EncodeSize(a, orderA);
    EncodeSize(b, orderB);
    DecodeInvertsEncode(b, orderB);
    assert Empty(a) == Empty(b);
  }
}
