/**
 The loops of the generated codec, one method per shape of field.  In the generated file they are
 written out again for every field; each is proved against the wire format.
 */
module Codec {
  import opened Varint
  import opened Wire
  import opened Sizes

  // Size

  method SizeText(b: Bytes) returns (n: nat)
    requires |b| < TWO_TO_THE_64
    ensures n == FieldSize(Text(b))
  {
    n := 0;
    if |b| > 0 {
      var v := SovTypes(|b|);
      n := 1 + |b| + v;
    }
  }

  method SizeNumber(x: int64) returns (n: nat)
    ensures n == FieldSize(Int64(x))
    ensures FitsInt32(x) ==> n == FieldSize(Int32(x))
  {
    n := 0;
    if x != 0 {
      var v := SovTypes(ToUint64(x));
      n := 1 + v;
    }
  }

  method SizeTexts(bs: seq<Bytes>) returns (n: nat)
    requires forall i :: 0 <= i < |bs| ==> |bs[i]| < TWO_TO_THE_64
    ensures n == FieldSize(Texts(bs))
  {
    n := 0;
    for i := 0 to |bs|
      invariant n + ChunksSize(bs[i..]) == ChunksSize(bs)
    {
      assert bs[i..][1..] == bs[i + 1..];
      var v := SovTypes(|bs[i]|);
      n := n + (1 + |bs[i]| + v);
    }
  }

  method SizeTextMap(m: map<Bytes, Bytes>) returns (n: nat)
    requires FitEntries(TextMap(m))
    ensures n == FieldSize(TextMap(m))
  {
    n := 0;
    var rest := m.Keys;
    ghost var v := TextMap(m);
    while rest != {}
      invariant rest <= Keys(v) == m.Keys
      invariant n + EntriesSize(v, rest) == EntriesSize(v, Keys(v))
      decreases rest
    {
      var k :| k in rest;
      EntriesSizeRemove(v, rest, k);
      assert EntrySize(v, k) < TWO_TO_THE_63;
      var sk := SovTypes(|k|);
      var sv := SovTypes(|m[k]|);
      var mapEntrySize := 1 + |k| + sk + 1 + |m[k]| + sv;
      var se := SovTypes(mapEntrySize);
      n := n + (mapEntrySize + 1 + se);
      rest := rest - {k};
    }
  }

  method SizeCountMap(m: map<Bytes, int32>) returns (n: nat)
    requires FitEntries(CountMap(m))
    ensures n == FieldSize(CountMap(m))
  {
    n := 0;
    var rest := m.Keys;
    ghost var v := CountMap(m);
    while rest != {}
      invariant rest <= Keys(v) == m.Keys
      invariant n + EntriesSize(v, rest) == EntriesSize(v, Keys(v))
      decreases rest
    {
      var k :| k in rest;
      EntriesSizeRemove(v, rest, k);
      assert EntrySize(v, k) < TWO_TO_THE_63;
      var sk := SovTypes(|k|);
      var sv := SovTypes(ToUint64(m[k]));
      var mapEntrySize := 1 + |k| + sk + 1 + sv;
      var se := SovTypes(mapEntrySize);
      n := n + (mapEntrySize + 1 + se);
      rest := rest - {k};
    }
  }

  // Marshalling

  /** What Marshal has written when the fields below |orders| are done. */
  ghost function Prefix(m: Message, orders: seq<seq<Bytes>>): Bytes
    requires ValidMessage(m) && OrdersSoFar(orders, m)
    decreases |orders|
  {
    if orders == [] then []
    else
      var k := |orders| - 1;
      Prefix(m, orders[..k]) + FieldBytes(k, m[k], orders[k])
  }

  ghost predicate OrdersSoFar(orders: seq<seq<Bytes>>, m: Message) {
    |orders| <= |m| && forall i :: 0 <= i < |orders| ==> IsOrder(orders[i], Keys(m[i]))
  }

  lemma {:induction false} PrefixThenEncode(m: Message, orders: seq<seq<Bytes>>, k: nat)
    requires ValidMessage(m) && IsOrders(orders, m) && k <= |m|
    ensures Prefix(m, orders[..k]) + Encode(m, orders, k) == Encode(m, orders)
    decreases k
  {
    hide FieldBytes;
    if k > 0 {
      PrefixThenEncode(m, orders, k - 1);
      assert orders[..k][..k - 1] == orders[..k - 1];
      Associate(Prefix(m, orders[..k - 1]), FieldBytes(k - 1, m[k - 1], orders[k - 1]), Encode(m, orders, k));
    }
  }

  /** The fields below |orders| of m fill the buffer up to index i, and the others will fit behind. */
  ghost predicate Written(dAtA: array<byte>, i: nat, m: Message, orders: seq<seq<Bytes>>)
    reads dAtA
  {
    && ValidMessage(m) && OrdersSoFar(orders, m)
    && i + MessageSize(m, |orders|) == MessageSize(m) <= dAtA.Length
    && Filled(dAtA, i, Prefix(m, orders))
  }

  lemma WrittenNone(dAtA: array<byte>, m: Message)
    requires ValidMessage(m) && MessageSize(m) <= dAtA.Length
    ensures Written(dAtA, 0, m, [])
  {
  }

  lemma WrittenAll(dAtA: array<byte>, i: nat, m: Message, orders: seq<seq<Bytes>>)
    requires Written(dAtA, i, m, orders) && |orders| == |m|
    ensures IsOrders(orders, m) && i == MessageSize(m) && dAtA[..i] == Encode(m, orders)
  {
    assert orders[..|m|] == orders;
    PrefixThenEncode(m, orders, |m|);
  }

  lemma PrefixGrows(m: Message, orders: seq<seq<Bytes>>, order: seq<Bytes>)
    requires ValidMessage(m) && OrdersSoFar(orders + [order], m)
    ensures Prefix(m, orders + [order]) == Prefix(m, orders) + FieldBytes(|orders|, m[|orders|], order)
  {
    assert (orders + [order])[..|orders|] == orders;
  }

  /** The first i bytes of the buffer are `done`. */
  ghost predicate Filled(dAtA: array<byte>, i: nat, done: Bytes)
    reads dAtA
  {
    |done| == i <= dAtA.Length && dAtA[..i] == done
  }

  method CopyBytes(dAtA: array<byte>, i: nat, b: Bytes, ghost done: Bytes)
    requires Filled(dAtA, i, done) && i + |b| <= dAtA.Length
    modifies dAtA
    ensures Filled(dAtA, i + |b|, done + b)
    ensures forall x :: i + |b| <= x < dAtA.Length ==> dAtA[x] == old(dAtA[x])
  {
    forall j | 0 <= j < |b| {
      dAtA[i + j] := b[j];
    }
  }

  method PutVarintAt(dAtA: array<byte>, i: nat, v: nat, ghost done: Bytes) returns (j: nat)
    requires Filled(dAtA, i, done) && i + |PutVarint(v)| <= dAtA.Length
    modifies dAtA
    ensures j == i + |PutVarint(v)| && Filled(dAtA, j, done + PutVarint(v))
    ensures forall x :: j <= x < dAtA.Length ==> dAtA[x] == old(dAtA[x])
  {
    j := EncodeVarintTypes(dAtA, i, v);
    forall x | j <= x < dAtA.Length ensures dAtA[x] == old(dAtA[x]) {
      assert dAtA[x] == dAtA[j..][x - j];
    }
  }

  method PutByte(dAtA: array<byte>, i: nat, tag: byte, ghost done: Bytes) returns (j: nat)
    requires Filled(dAtA, i, done) && i < dAtA.Length
    modifies dAtA
    ensures j == i + 1 && Filled(dAtA, j, done + [tag])
    ensures forall x :: j <= x < dAtA.Length ==> dAtA[x] == old(dAtA[x])
  {
    dAtA[i] := tag;
    j := i + 1;
  }

  /** A tag, a length and the bytes. */
  method PutTagged(dAtA: array<byte>, i: nat, tag: byte, b: Bytes, ghost done: Bytes) returns (j: nat)
    requires Filled(dAtA, i, done) && i + ChunkSize(b) <= dAtA.Length
    modifies dAtA
    ensures j == i + ChunkSize(b) && Filled(dAtA, j, done + ([tag] + PutChunk(b)))
    ensures forall x :: j <= x < dAtA.Length ==> dAtA[x] == old(dAtA[x])
  {
    j := PutByte(dAtA, i, tag, done);
    j := PutVarintAt(dAtA, j, |b|, done + [tag]);
    CopyBytes(dAtA, j, b, done + [tag] + PutVarint(|b|));
    j := j + |b|;
    assert done + [tag] + PutVarint(|b|) + b == done + ([tag] + PutChunk(b));
  }

  method PutText(dAtA: array<byte>, i: nat, tag: byte, b: Bytes, ghost f: nat, ghost done: Bytes) returns (j: nat)
    requires f < 15 && tag == TagByte(f, Chunk(b))
    requires Filled(dAtA, i, done) && i + |Record(f, Chunk(b))| <= dAtA.Length
    modifies dAtA
    ensures Filled(dAtA, j, done + Record(f, Chunk(b)))
    ensures forall x :: j <= x < dAtA.Length ==> dAtA[x] == old(dAtA[x])
  {
    j := PutTagged(dAtA, i, tag, b, done);
  }

  method PutNumber(dAtA: array<byte>, i: nat, tag: byte, n: int64, ghost done: Bytes) returns (j: nat)
    requires Filled(dAtA, i, done) && i + NumberSize(n) <= dAtA.Length
    modifies dAtA
    ensures j == i + NumberSize(n) && Filled(dAtA, j, done + ([tag] + PutVarint(ToUint64(n))))
    ensures forall x :: j <= x < dAtA.Length ==> dAtA[x] == old(dAtA[x])
  {
    j := PutByte(dAtA, i, tag, done);
    j := PutVarintAt(dAtA, j, ToUint64(n), done + [tag]);
    assert done + [tag] + PutVarint(ToUint64(n)) == done + ([tag] + PutVarint(ToUint64(n)));
  }

  method PutPair(dAtA: array<byte>, i: nat, tag: byte, k: Bytes, v: Bytes, ghost f: nat, ghost done: Bytes)
    returns (j: nat)
    requires f < 15 && tag == TagByte(f, Pair(k, v)) && ChunkSize(k) + ChunkSize(v) < TWO_TO_THE_63
    requires Filled(dAtA, i, done) && i + |Record(f, Pair(k, v))| <= dAtA.Length
    modifies dAtA
    ensures Filled(dAtA, j, done + Record(f, Pair(k, v)))
    ensures forall x :: j <= x < dAtA.Length ==> dAtA[x] == old(dAtA[x])
  {
    j := PutByte(dAtA, i, tag, done);
    var sk := SovTypes(|k|);
    var sv := SovTypes(|v|);
    var mapSize := 1 + |k| + sk + 1 + |v| + sv;
    ghost var len := PutVarint(mapSize);
    ghost var first, second := [0x0a] + PutChunk(k), [0x12] + PutChunk(v);
    assert PairBody(k, v) == first + second;
    j := PutVarintAt(dAtA, j, mapSize, done + [tag]);
    j := PutTagged(dAtA, j, 0x0a, k, done + [tag] + len);
    j := PutTagged(dAtA, j, 0x12, v, done + [tag] + len + first);
    Reassociate(done, [tag], len, first, second);
  }

  method PutCount(dAtA: array<byte>, i: nat, tag: byte, k: Bytes, n: int32, ghost f: nat, ghost done: Bytes)
    returns (j: nat)
    requires f < 15 && tag == TagByte(f, Count(k, n)) && ChunkSize(k) + NumberSize(n) < TWO_TO_THE_63
    requires Filled(dAtA, i, done) && i + |Record(f, Count(k, n))| <= dAtA.Length
    modifies dAtA
    ensures Filled(dAtA, j, done + Record(f, Count(k, n)))
    ensures forall x :: j <= x < dAtA.Length ==> dAtA[x] == old(dAtA[x])
  {
    j := PutByte(dAtA, i, tag, done);
    var sk := SovTypes(|k|);
    var sv := SovTypes(ToUint64(n));
    var mapSize := 1 + |k| + sk + 1 + sv;
    ghost var len := PutVarint(mapSize);
    ghost var first, second := [0x0a] + PutChunk(k), [0x10] + PutVarint(ToUint64(n));
    assert CountBody(k, n) == first + second;
    j := PutVarintAt(dAtA, j, mapSize, done + [tag]);
    j := PutTagged(dAtA, j, 0x0a, k, done + [tag] + len);
    j := PutNumber(dAtA, j, 0x10, n, done + [tag] + len + first);
    Reassociate(done, [tag], len, first, second);
  }

  lemma Reassociate(done: Bytes, tag: Bytes, len: Bytes, first: Bytes, second: Bytes)
    ensures done + tag + len + first + second == done + (tag + (len + (first + second)))
  {
  }

  lemma NoRecords(f: nat, es: seq<Elem>)
    requires f < 15
    ensures Records(f, es[..0]) == []
  {
  }

  lemma RecordsOne(i: nat, e: Elem)
    requires i < 15
    ensures Records(i, [e]) == Record(i, e)
  {
    assert [e][1..] == [];
    assert Records(i, [e]) == Record(i, e) + [];
  }

  lemma {:induction false} RecordsSplit(f: nat, es: seq<Elem>, x: nat)
    requires f < 15 && x < |es|
    ensures Records(f, es[..x + 1]) == Records(f, es[..x]) + Record(f, es[x])
    ensures |Records(f, es[..x + 1])| <= |Records(f, es)|
    decreases |es|
  {
    hide Record;
    if x == 0 {
      RecordsOne(f, es[0]);
      assert es[..1] == [es[0]];
      assert es[..0] == [];
    } else {
      RecordsSplit(f, es[1..], x - 1);
      assert es[..x + 1][1..] == es[1..][..x];
      assert es[..x][1..] == es[1..][..x - 1];
    }
  }

  lemma NextRecord(f: nat, es: seq<Elem>, x: nat, start: Bytes, room: nat)
    requires f < 15 && x < |es| && |start| + |Records(f, es)| <= room
    ensures start + Records(f, es[..x]) + Record(f, es[x]) == start + Records(f, es[..x + 1])
    ensures |start + Records(f, es[..x])| + |Record(f, es[x])| <= room
  {
    RecordsSplit(f, es, x);
    Associate(start, Records(f, es[..x]), Record(f, es[x]));
  }

  method MarshalText(dAtA: array<byte>, i: nat, tag: byte, b: Bytes, ghost m: Message, ghost orders: seq<seq<Bytes>>)
    returns (j: nat, ghost orders': seq<seq<Bytes>>)
    requires Written(dAtA, i, m, orders) && |orders| < |m| && m[|orders|] == Text(b)
    requires tag == TagByte(|orders|, Chunk(b))
    modifies dAtA
    ensures Written(dAtA, j, m, orders') && |orders'| == |orders| + 1
    ensures i <= j && forall x :: j <= x < dAtA.Length ==> dAtA[x] == old(dAtA[x])
  {
    orders' := orders + [[]];
    PrefixGrows(m, orders, []);
    j := i;
    if |b| > 0 {
      RecordsOne(|orders|, Chunk(b));
      j := PutText(dAtA, j, tag, b, |orders|, Prefix(m, orders));
    }
  }

  method MarshalNumber(dAtA: array<byte>, i: nat, tag: byte, n: int64, ghost m: Message, ghost orders: seq<seq<Bytes>>)
    returns (j: nat, ghost orders': seq<seq<Bytes>>)
    requires Written(dAtA, i, m, orders) && |orders| < |m|
    requires m[|orders|] == Int64(n) || (FitsInt32(n) && m[|orders|] == Int32(n))
    requires tag == TagByte(|orders|, Number(n))
    modifies dAtA
    ensures Written(dAtA, j, m, orders') && |orders'| == |orders| + 1
    ensures i <= j && forall x :: j <= x < dAtA.Length ==> dAtA[x] == old(dAtA[x])
  {
    orders' := orders + [[]];
    PrefixGrows(m, orders, []);
    j := i;
    if n != 0 {
      RecordsOne(|orders|, Number(n));
      j := PutNumber(dAtA, j, tag, n, Prefix(m, orders));
    }
  }

  lemma {:induction false} ChunksAt(bs: seq<Bytes>)
    ensures |Chunks(bs)| == |bs| && forall x :: 0 <= x < |bs| ==> Chunks(bs)[x] == Chunk(bs[x])
    decreases |bs|
  {
    if bs != [] {
      ChunksAt(bs[1..]);
    }
  }

  method PutTexts(dAtA: array<byte>, i: nat, tag: byte, bs: seq<Bytes>, ghost f: nat, ghost start: Bytes)
    returns (j: nat)
    requires f < 15 && tag == TagByte(f, Chunk([]))
    requires Filled(dAtA, i, start) && i + |Records(f, Chunks(bs))| <= dAtA.Length
    modifies dAtA
    ensures Filled(dAtA, j, start + Records(f, Chunks(bs)))
    ensures forall x :: j <= x < dAtA.Length ==> dAtA[x] == old(dAtA[x])
  {
    hide Record, Records;
    ghost var es := Chunks(bs);
    ChunksAt(bs);
    NoRecords(f, es);
    ghost var done := start;
    j := i;
    assert es[..0] == [];
    for x := 0 to |bs|
      invariant forall y :: j <= y < dAtA.Length ==> dAtA[y] == old(dAtA[y])
      invariant done == start + Records(f, es[..x]) && Filled(dAtA, j, done)
    {
      NextRecord(f, es, x, start, dAtA.Length);
      j := PutText(dAtA, j, tag, bs[x], f, done);
      done := done + Record(f, Chunk(bs[x]));
    }
    assert es[..|bs|] == es;
  }

  method MarshalTexts(dAtA: array<byte>, i: nat, tag: byte, bs: seq<Bytes>, ghost m: Message,
      ghost orders: seq<seq<Bytes>>)
    returns (j: nat, ghost orders': seq<seq<Bytes>>)
    requires Written(dAtA, i, m, orders) && |orders| < |m| && m[|orders|] == Texts(bs)
    requires tag == TagByte(|orders|, Chunk([]))
    modifies dAtA
    ensures Written(dAtA, j, m, orders') && |orders'| == |orders| + 1
    ensures i <= j && forall x :: j <= x < dAtA.Length ==> dAtA[x] == old(dAtA[x])
  {
    orders' := orders + [[]];
    FieldBytesSize(|orders|, m[|orders|], []);
    PrefixGrows(m, orders, []);
    j := PutTexts(dAtA, i, tag, bs, |orders|, Prefix(m, orders));
  }

  /** The keys of a map in the order in which a range loop happens to visit them. */
  method Range<V>(m: map<Bytes, V>) returns (order: seq<Bytes>)
    ensures IsOrder(order, m.Keys)
  {
    order := [];
    var rest := m.Keys;
    while rest != {}
      invariant rest <= m.Keys && IsOrder(order, m.Keys - rest)
      decreases rest
    {
      var k :| k in rest;
      order := order + [k];
      rest := rest - {k};
    }
  }

  lemma {:induction false} PairsAt(m: map<Bytes, Bytes>, order: seq<Bytes>)
    requires forall k :: k in order ==> k in m
    ensures |Pairs(m, order)| == |order|
    ensures forall x :: 0 <= x < |order| ==> order[x] in m && Pairs(m, order)[x] == Pair(order[x], m[order[x]])
    decreases |order|
  {
    if order != [] {
      PairsAt(m, order[1..]);
    }
  }

  lemma {:induction false} CountsAt(m: map<Bytes, int32>, order: seq<Bytes>)
    requires forall k :: k in order ==> k in m
    ensures |Counts(m, order)| == |order|
    ensures forall x :: 0 <= x < |order| ==> order[x] in m && Counts(m, order)[x] == Count(order[x], m[order[x]])
    decreases |order|
  {
    if order != [] {
      CountsAt(m, order[1..]);
    }
  }

  method PutPairs(dAtA: array<byte>, i: nat, tag: byte, entries: map<Bytes, Bytes>, order: seq<Bytes>, ghost f: nat,
      ghost start: Bytes)
    returns (j: nat)
    requires f < 15 && tag == TagByte(f, Pair([], [])) && IsOrder(order, Keys(TextMap(entries)))
    requires FitEntries(TextMap(entries))
    requires Filled(dAtA, i, start) && i + |FieldBytes(f, TextMap(entries), order)| <= dAtA.Length
    modifies dAtA
    ensures Filled(dAtA, j, start + FieldBytes(f, TextMap(entries), order))
    ensures forall x :: j <= x < dAtA.Length ==> dAtA[x] == old(dAtA[x])
  {
    ghost var es := Elems(TextMap(entries), order);
    PairsAt(entries, order);
    ghost var done := start;
    j := i;
    assert es[..0] == [];
    for x := 0 to |order|
      invariant forall y :: j <= y < dAtA.Length ==> dAtA[y] == old(dAtA[y])
      invariant done == start + Records(f, es[..x]) && Filled(dAtA, j, done)
    {
      NextRecord(f, es, x, start, dAtA.Length);
      var k := order[x];
      assert k in Keys(TextMap(entries)) && EntrySize(TextMap(entries), k) < TWO_TO_THE_63;
      j := PutPair(dAtA, j, tag, k, entries[k], f, done);
      done := done + Record(f, Pair(k, entries[k]));
    }
    assert es[..|order|] == es;
  }

  method MarshalTextMap(dAtA: array<byte>, i: nat, tag: byte, entries: map<Bytes, Bytes>, ghost m: Message,
      ghost orders: seq<seq<Bytes>>)
    returns (j: nat, ghost orders': seq<seq<Bytes>>)
    requires Written(dAtA, i, m, orders) && |orders| < |m| && m[|orders|] == TextMap(entries)
    requires tag == TagByte(|orders|, Pair([], [])) && FitEntries(m[|orders|])
    modifies dAtA
    ensures Written(dAtA, j, m, orders') && |orders'| == |orders| + 1
    ensures i <= j && forall x :: j <= x < dAtA.Length ==> dAtA[x] == old(dAtA[x])
  {
    var order := Range(entries);
    FieldBytesSize(|orders|, m[|orders|], order);
    orders' := orders + [order];
    PrefixGrows(m, orders, order);
    j := PutPairs(dAtA, i, tag, entries, order, |orders|, Prefix(m, orders));
  }

  method PutCounts(dAtA: array<byte>, i: nat, tag: byte, entries: map<Bytes, int32>, order: seq<Bytes>, ghost f: nat,
      ghost start: Bytes)
    returns (j: nat)
    requires f < 15 && tag == TagByte(f, Pair([], [])) && IsOrder(order, Keys(CountMap(entries)))
    requires FitEntries(CountMap(entries))
    requires Filled(dAtA, i, start) && i + |FieldBytes(f, CountMap(entries), order)| <= dAtA.Length
    modifies dAtA
    ensures Filled(dAtA, j, start + FieldBytes(f, CountMap(entries), order))
    ensures forall x :: j <= x < dAtA.Length ==> dAtA[x] == old(dAtA[x])
  {
    ghost var es := Elems(CountMap(entries), order);
    CountsAt(entries, order);
    ghost var done := start;
    j := i;
    assert es[..0] == [];
    for x := 0 to |order|
      invariant forall y :: j <= y < dAtA.Length ==> dAtA[y] == old(dAtA[y])
      invariant done == start + Records(f, es[..x]) && Filled(dAtA, j, done)
    {
      NextRecord(f, es, x, start, dAtA.Length);
      var k := order[x];
      assert k in Keys(CountMap(entries)) && EntrySize(CountMap(entries), k) < TWO_TO_THE_63;
      j := PutCount(dAtA, j, tag, k, entries[k], f, done);
      done := done + Record(f, Count(k, entries[k]));
    }
    assert es[..|order|] == es;
  }

  method MarshalCountMap(dAtA: array<byte>, i: nat, tag: byte, entries: map<Bytes, int32>, ghost m: Message,
      ghost orders: seq<seq<Bytes>>)
    returns (j: nat, ghost orders': seq<seq<Bytes>>)
    requires Written(dAtA, i, m, orders) && |orders| < |m| && m[|orders|] == CountMap(entries)
    requires tag == TagByte(|orders|, Pair([], [])) && FitEntries(m[|orders|])
    modifies dAtA
    ensures Written(dAtA, j, m, orders') && |orders'| == |orders| + 1
    ensures i <= j && forall x :: j <= x < dAtA.Length ==> dAtA[x] == old(dAtA[x])
  {
    var order := Range(entries);
    FieldBytesSize(|orders|, m[|orders|], order);
    orders' := orders + [order];
    PrefixGrows(m, orders, order);
    j := PutCounts(dAtA, i, tag, entries, order, |orders|, Prefix(m, orders));
  }
}
