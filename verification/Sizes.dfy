/**
 The size of an encoding, without any order of the maps, and its agreement with what is written in
 every order.
 */
module Sizes {
  import opened Varint
  import opened Wire

  function ChunkSize(b: Bytes): nat {
    1 + |b| + |PutVarint(|b|)|
  }

  function NumberSize(n: int64): nat
  {
    1 + |PutVarint(ToUint64(n))|
  }

  /** Length of a map entry between its own length and the next record. */
  function EntrySize(v: Value, k: Bytes): nat
    requires k in Keys(v)
  {
    match v
    case TextMap(m) => ChunkSize(k) + ChunkSize(m[k])
    case CountMap(m) => ChunkSize(k) + NumberSize(m[k])
  }

  function EntryRecordSize(v: Value, k: Bytes): nat
    requires k in Keys(v)
  {
    EntrySize(v, k) + 1 + |PutVarint(EntrySize(v, k))|
  }

  ghost function EntriesSize(v: Value, keys: set<Bytes>): nat
    requires keys <= Keys(v)
  {
    if keys == {} then 0
    else var k :| k in keys; EntryRecordSize(v, k) + EntriesSize(v, keys - {k})
  }

  function ChunksSize(bs: seq<Bytes>): nat {
    if bs == [] then 0 else ChunkSize(bs[0]) + ChunksSize(bs[1..])
  }

  ghost function FieldSize(v: Value): nat
  {
    match v
    case Text(b) => if b == [] then 0 else ChunkSize(b)
    case Int64(n) => if n == 0 then 0 else NumberSize(n)
    case Int32(n) => if n == 0 then 0 else NumberSize(n)
    case Texts(bs) => ChunksSize(bs)
    case TextMap(_) => EntriesSize(v, Keys(v))
    case CountMap(_) => EntriesSize(v, Keys(v))
  }

  ghost function MessageSize(m: Message, i: nat := 0): nat
    requires ValidMessage(m) && i <= |m|
    decreases |m| - i
  {
    if i == |m| then 0 else FieldSize(m[i]) + MessageSize(m, i + 1)
  }

  /** The sum over a set of entries does not depend on which one is taken first. */
  lemma {:induction false} EntriesSizeRemove(v: Value, keys: set<Bytes>, k: Bytes)
    requires keys <= Keys(v) && k in keys
    ensures EntriesSize(v, keys) == EntryRecordSize(v, k) + EntriesSize(v, keys - {k})
    decreases keys
  {
    var j :| j in keys && EntriesSize(v, keys) == EntryRecordSize(v, j) + EntriesSize(v, keys - {j});
    if j != k {
      EntriesSizeRemove(v, keys - {j}, k);
      EntriesSizeRemove(v, keys - {k}, j);
      assert keys - {j} - {k} == keys - {k} - {j};
    }
  }

  lemma {:induction false} ChunkRecords(i: nat, bs: seq<Bytes>)
    requires i < 15
    ensures |Records(i, Chunks(bs))| == ChunksSize(bs)
    decreases |bs|
  {
    if bs != [] {
      assert Chunks(bs)[1..] == Chunks(bs[1..]);
      ChunkRecords(i, bs[1..]);
    }
  }

  ghost function EntryElems(v: Value, order: seq<Bytes>): seq<Elem>
    requires v.TextMap? || v.CountMap?
    requires forall k :: k in order ==> k in Keys(v)
  {
    Elems(v, order)
  }

  lemma EntryElemsStep(v: Value, order: seq<Bytes>)
    requires v.TextMap? || v.CountMap?
    requires order != [] && forall k :: k in order ==> k in Keys(v)
    ensures |EntryElems(v, order)| > 0
    ensures EntryElems(v, order)[1..] == EntryElems(v, order[1..])
    ensures 1 + |Payload(EntryElems(v, order)[0])| == EntryRecordSize(v, order[0])
  {
    assert order[0] in order;
  }

  ghost function ToSet(order: seq<Bytes>): set<Bytes> {
    set k | k in order
  }

  ghost predicate Distinct(order: seq<Bytes>) {
    forall i, j :: 0 <= i < j < |order| ==> order[i] != order[j]
  }

  lemma ToSetRemove(order: seq<Bytes>)
    requires order != [] && Distinct(order)
    ensures order[0] in ToSet(order) && ToSet(order) - {order[0]} == ToSet(order[1..])
  {
    assert order == [order[0]] + order[1..];
    assert order[0] !in order[1..];
  }

  lemma {:induction false} EntryRecords(i: nat, v: Value, order: seq<Bytes>)
    requires i < 15 && (v.TextMap? || v.CountMap?)
    requires Distinct(order) && forall k :: k in order ==> k in Keys(v)
    ensures ToSet(order) <= Keys(v)
    ensures |Records(i, EntryElems(v, order))| == EntriesSize(v, ToSet(order))
    decreases |order|
  {
    if order == [] {
      assert ToSet(order) == {};
    } else {
      EntryElemsStep(v, order);
      EntryRecords(i, v, order[1..]);
      ToSetRemove(order);
      EntriesSizeRemove(v, ToSet(order), order[0]);
    }
  }

  lemma FieldBytesSize(i: nat, v: Value, order: seq<Bytes>)
    requires i < 15 && IsOrder(order, Keys(v))
    ensures |FieldBytes(i, v, order)| == FieldSize(v)
  {
    match v
    case Texts(bs) => ChunkRecords(i, bs);
    case TextMap(_) =>
      EntryRecords(i, v, order);
      assert ToSet(order) == Keys(v);
    case CountMap(_) =>
      EntryRecords(i, v, order);
      assert ToSet(order) == Keys(v);
    case Text(b) => SingleRecord(i, v, order);
    case Int64(n) => SingleRecord(i, v, order);
    case Int32(n) => SingleRecord(i, v, order);
  }

  lemma SingleRecord(i: nat, v: Value, order: seq<Bytes>)
    requires i < 15 && (v.Text? || v.Int64? || v.Int32?)
    requires IsOrder(order, Keys(v))
    ensures |Records(i, Elems(v, order))| == FieldSize(v)
  {
    var es := Elems(v, order);
    if es != [] {
      assert es[1..] == [];
      assert Records(i, es) == Record(i, es[0]) + Records(i, es[1..]);
    }
  }

  lemma {:induction false} EncodeSize(m: Message, orders: seq<seq<Bytes>>, i: nat := 0)
    requires ValidMessage(m) && IsOrders(orders, m) && i <= |m|
    ensures |Encode(m, orders, i)| == MessageSize(m, i)
    decreases |m| - i
  {
    if i < |m| {
      FieldBytesSize(i, m[i], orders[i]);
      EncodeSize(m, orders, i + 1);
    }
  }

  // A message whose size is a Go int has only lengths that are

  ghost predicate FitsMemory(m: Message)
    requires ValidMessage(m)
  {
    MessageSize(m) < TWO_TO_THE_63
  }

  /** Every length that the computation of the size handles is a Go int. */
  ghost predicate FitField(v: Value) {
    match v
    case Text(b) => |b| < TWO_TO_THE_63
    case Texts(bs) => forall i :: 0 <= i < |bs| ==> |bs[i]| < TWO_TO_THE_63
    case _ => FitEntries(v)
  }

  ghost predicate FitEntries(v: Value) {
    forall k :: k in Keys(v) ==> EntrySize(v, k) < TWO_TO_THE_63
  }

  lemma {:induction false} ChunkBelowChunks(bs: seq<Bytes>, i: nat)
    requires i < |bs|
    ensures |bs[i]| <= ChunksSize(bs)
    decreases |bs|
  {
    if i > 0 {
      ChunkBelowChunks(bs[1..], i - 1);
    }
  }

  lemma FieldFits(v: Value)
    requires FieldSize(v) < TWO_TO_THE_63
    ensures FitField(v)
  {
    match v
    case Texts(bs) =>
      forall i | 0 <= i < |bs| ensures |bs[i]| < TWO_TO_THE_63 {
        ChunkBelowChunks(bs, i);
      }
    case TextMap(_) => EntriesFit(v);
    case CountMap(_) => EntriesFit(v);
    case _ =>
  }

  lemma EntriesFit(v: Value)
    requires EntriesSize(v, Keys(v)) < TWO_TO_THE_63
    ensures FitEntries(v)
  {
    forall k | k in Keys(v) ensures EntrySize(v, k) < TWO_TO_THE_63 {
      EntriesSizeRemove(v, Keys(v), k);
    }
  }

  lemma {:induction false} FieldBelowMessage(m: Message, i: nat, j: nat)
    requires ValidMessage(m) && i <= j < |m|
    ensures FieldSize(m[j]) <= MessageSize(m, i)
    decreases |m| - i
  {
    if i < j {
      FieldBelowMessage(m, i + 1, j);
    }
  }

  lemma FieldsFit(m: Message)
    requires ValidMessage(m) && FitsMemory(m)
    ensures forall i :: 0 <= i < |m| ==> FitField(m[i])
  {
    forall i | 0 <= i < |m| ensures FitField(m[i]) {
      FieldBelowMessage(m, 0, i);
      FieldFits(m[i]);
    }
  }
}
