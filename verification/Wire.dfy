/**
 The wire format of the messages in api/models: what the generated encoders write and what the
 generated decoders make of any byte sequence.  A message is the sequence of its fields, field
 number `i + 1` standing at index `i`; the constructor of a value is the kind of the field.
 */
module Wire {
  import opened Options
  import opened Varint

  datatype Value =
    | Text(text: Bytes)                      // string and bytes
    | Int64(long: int64)
    | Int32(short: int32)
    | Texts(texts: seq<Bytes>)               // repeated string
    | TextMap(entries: map<Bytes, Bytes>)    // map<string, string>
    | CountMap(counts: map<Bytes, int32>)      // map<string, int32>

  type Message = seq<Value>

  predicate SameKind(a: Value, b: Value) {
    a.Text? == b.Text? && a.Int64? == b.Int64? && a.Int32? == b.Int32? &&
    a.Texts? == b.Texts? && a.TextMap? == b.TextMap? && a.CountMap? == b.CountMap?
  }

  predicate SameShape(a: Message, b: Message) {
    |a| == |b| && forall i :: 0 <= i < |a| ==> SameKind(a[i], b[i])
  }

  /** Field numbers below 16 have a tag of one byte. */
  predicate ValidMessage(m: Message) {
    |m| <= 15
  }

  function Zero(v: Value): (z: Value)
    ensures SameKind(v, z)
  {
    match v
    case Text(_) => Text([])
    case Int64(_) => Int64(0)
    case Int32(_) => Int32(0)
    case Texts(_) => Texts([])
    case TextMap(_) => TextMap(map[])
    case CountMap(_) => CountMap(map[])
  }

  /** The freshly allocated message of the same type. */
  function Empty(m: Message): (e: Message)
    ensures SameShape(m, e)
  {
    seq(|m|, i requires 0 <= i < |m| => Zero(m[i]))
  }

  // Encoding

  /** One record's worth of a field. */
  datatype Elem =
    | Chunk(b: Bytes)
    | Number(n: int64)
    | Pair(key: Bytes, val: Bytes)
    | Count(key: Bytes, count: int32)

  function PutChunk(b: Bytes): (s: Bytes)
    ensures |s| == |PutVarint(|b|)| + |b|
  {
    PutVarint(|b|) + b
  }

  function PairBody(k: Bytes, v: Bytes): Bytes {
    ([0x0a] + PutChunk(k)) + ([0x12] + PutChunk(v))
  }

  function CountBody(k: Bytes, n: int32): Bytes
  {
    ([0x0a] + PutChunk(k)) + ([0x10] + PutVarint(ToUint64(n)))
  }

  function Payload(e: Elem): Bytes
  {
    match e
    case Chunk(b) => PutChunk(b)
    case Number(n) => PutVarint(ToUint64(n))
    case Pair(k, v) => PutChunk(PairBody(k, v))
    case Count(k, n) => PutChunk(CountBody(k, n))
  }

  /** Wire type 0 for numbers, 2 for everything with a length. */
  function TagByte(i: nat, e: Elem): (t: byte)
    requires i < 15
  {
    (i + 1) * 8 + if e.Number? then 0 else 2
  }

  function Record(i: nat, e: Elem): (s: Bytes)
    requires i < 15
  {
    [TagByte(i, e)] + Payload(e)
  }

  function Keys(v: Value): set<Bytes> {
    match v
    case TextMap(m) => m.Keys
    case CountMap(m) => m.Keys
    case _ => {}
  }

  /** `order` is one way in which a range loop can visit the keys. */
  ghost predicate IsOrder(order: seq<Bytes>, keys: set<Bytes>) {
    && (forall k :: k in order <==> k in keys)
    && (forall i, j :: 0 <= i < j < |order| ==> order[i] != order[j])
  }

  ghost predicate IsOrders(orders: seq<seq<Bytes>>, m: Message) {
    |orders| == |m| && forall i :: 0 <= i < |m| ==> IsOrder(orders[i], Keys(m[i]))
  }

  /** The records of a field: none for a zero scalar, one per element or map entry otherwise. */
  ghost function Elems(v: Value, order: seq<Bytes>): seq<Elem>
    requires forall k :: k in order ==> k in Keys(v)
  {
    match v
    case Text(b) => if b == [] then [] else [Chunk(b)]
    case Int64(n) => if n == 0 then [] else [Number(n)]
    case Int32(n) => if n == 0 then [] else [Number(n)]
    case Texts(bs) => Chunks(bs)
    case TextMap(m) => assert Keys(v) == m.Keys; Pairs(m, order)
    case CountMap(m) => assert Keys(v) == m.Keys; Counts(m, order)
  }

  ghost function Chunks(bs: seq<Bytes>): seq<Elem>
  {
    if bs == [] then [] else [Chunk(bs[0])] + Chunks(bs[1..])
  }

  ghost function Pairs(m: map<Bytes, Bytes>, order: seq<Bytes>): seq<Elem>
    requires forall k :: k in order ==> k in m
  {
    if order == [] then [] else [Pair(order[0], m[order[0]])] + Pairs(m, order[1..])
  }

  ghost function Counts(m: map<Bytes, int32>, order: seq<Bytes>): seq<Elem>
    requires forall k :: k in order ==> k in m
  {
    if order == [] then [] else [Count(order[0], m[order[0]])] + Counts(m, order[1..])
  }

  ghost function Records(i: nat, es: seq<Elem>): Bytes
    requires i < 15
  {
    if es == [] then [] else Record(i, es[0]) + Records(i, es[1..])
  }

  ghost function FieldBytes(i: nat, v: Value, order: seq<Bytes>): Bytes
    requires i < 15 && IsOrder(order, Keys(v))
  {
    Records(i, Elems(v, order))
  }

  /** What Marshal writes from field index `i` on, ranging over each map in the given order. */
  ghost function Encode(m: Message, orders: seq<seq<Bytes>>, i: nat := 0): Bytes
    requires ValidMessage(m) && IsOrders(orders, m) && i <= |m|
    decreases |m| - i
  {
    if i == |m| then [] else FieldBytes(i, m[i], orders[i]) + Encode(m, orders, i + 1)
  }

  lemma Associate(a: Bytes, b: Bytes, c: Bytes)
    ensures a + b + c == a + (b + c)
    ensures |a + b| == |a| + |b| && |b + c| == |b| + |c|
  {
  }

  // Decoding

  datatype ChunkRead = GotChunk(b: Bytes, next: nat) | NoChunk(error: Error)

  /** A length and that many bytes. */
  function ReadChunk(s: Bytes): (r: ChunkRead)
    ensures r.GotChunk? ==> |r.b| + 1 <= r.next <= |s|
  {
    match ReadVarint(s)
    case Bad(e, _) => NoChunk(e)
    case Read(raw, n) =>
      var len := Signed(raw % TWO_TO_THE_64, TWO_TO_THE_64);
      if len < 0 then NoChunk(InvalidLength)
      else if n + len > |s| then NoChunk(UnexpectedEOF)
      else GotChunk(s[n..n + len], n + len)
  }

  predicate FitsInt32(n: int) {
    -TWO_TO_THE_31 <= n < TWO_TO_THE_31
  }

  datatype HalfRead = GotHalf(val: Elem, next: nat) | NoHalf(error: Error)

  /** One half of a map entry: a tag, which nobody looks at, and a string or an int32. */
  function ReadHalf(s: Bytes, number: bool): (r: HalfRead)
    ensures r.GotHalf? ==> 2 <= r.next <= |s|
    ensures r.GotHalf? ==> if number then r.val.Number? && FitsInt32(r.val.n) else r.val.Chunk?
  {
    match ReadVarint(s)
    case Bad(e, _) => NoHalf(e)
    case Read(_, n) =>
      if number then
        match ReadVarint(s[n..])
        case Bad(e, _) => NoHalf(e)
        case Read(raw, k) => GotHalf(Number(Signed(raw % TWO_TO_THE_32, TWO_TO_THE_32)), n + k)
      else
        match ReadChunk(s[n..])
        case NoChunk(e) => NoHalf(e)
        case GotChunk(b, k) => GotHalf(Chunk(b), n + k)
  }

  datatype EntryRead = GotEntry(key: Bytes, val: Elem, next: nat) | NoEntry(error: Error)

  /**
   A map entry.  Only the order of the two halves counts: both may run up to the end of the buffer,
   and the next record starts where the length of the entry says.
   */
  function ReadEntry(s: Bytes, counts: bool): (r: EntryRead)
    ensures r.GotEntry? ==> 1 <= r.next <= |s|
    ensures r.GotEntry? ==> if counts then r.val.Number? && FitsInt32(r.val.n) else r.val.Chunk?
  {
    match ReadChunk(s)
    case NoChunk(e) => NoEntry(e)
    case GotChunk(body, next) => ReadHalves(s[next - |body|..], |body|, next, counts)
  }

  /** The halves of an entry of `len` bytes at the front of `s`. */
  function ReadHalves(s: Bytes, len: nat, next: nat, counts: bool): (r: EntryRead)
    ensures r.GotEntry? ==> r.next == next
    ensures r.GotEntry? ==> if counts then r.val.Number? && FitsInt32(r.val.n) else r.val.Chunk?
  {
    match ReadHalf(s, false)
    case NoHalf(e) => NoEntry(e)
    case GotHalf(key, k) =>
      if k >= len then GotEntry(key.b, if counts then Number(0) else Chunk([]), next)
      else
        match ReadHalf(s[k..], counts)
        case NoHalf(e) => NoEntry(e)
        case GotHalf(v, _) => GotEntry(key.b, v, next)
  }

  datatype FieldRead = Got(value: Value, next: nat) | Lost(value: Value, error: Error)

  /** The case of the decoder's switch for a field that holds `held`; `s` starts behind the tag. */
  function ReadField(held: Value, wireType: nat, s: Bytes): (r: FieldRead)
    ensures SameKind(held, r.value)
    ensures r.Got? ==> r.next <= |s|
  {
    match held
    case Text(_) =>
      if wireType != 2 then Lost(held, WrongWireType)
      else (match ReadChunk(s)
            case NoChunk(e) => Lost(held, e)
            case GotChunk(b, n) => Got(Text(b), n))
    case Texts(bs) =>
      if wireType != 2 then Lost(held, WrongWireType)
      else (match ReadChunk(s)
            case NoChunk(e) => Lost(held, e)
            case GotChunk(b, n) => Got(Texts(bs + [b]), n))
    case Int64(_) =>
      if wireType != 0 then Lost(held, WrongWireType)
      else (match ReadVarint(s)
            case Bad(e, p) => Lost(Int64(Signed(p % TWO_TO_THE_64, TWO_TO_THE_64)), e)
            case Read(raw, n) => Got(Int64(Signed(raw % TWO_TO_THE_64, TWO_TO_THE_64)), n))
    case Int32(_) =>
      if wireType != 0 then Lost(held, WrongWireType)
      else (match ReadVarint(s)
            case Bad(e, p) => Lost(Int32(Signed(p % TWO_TO_THE_32, TWO_TO_THE_32)), e)
            case Read(raw, n) => Got(Int32(Signed(raw % TWO_TO_THE_32, TWO_TO_THE_32)), n))
    case TextMap(m) =>
      if wireType != 2 then Lost(held, WrongWireType)
      else (match ReadEntry(s, false)
            case NoEntry(e) => Lost(held, e)
            case GotEntry(k, v, n) => Got(TextMap(m[k := v.b]), n))
    case CountMap(m) =>
      if wireType != 2 then Lost(held, WrongWireType)
      else (match ReadEntry(s, true)
            case NoEntry(e) => Lost(held, e)
            case GotEntry(k, v, n) => Got(CountMap(m[k := v.n]), n))
  }

  datatype Length = Ok(n: nat) | Err(error: Error)

  /** Length of the record at the front of `s`; it may point behind the end of `s`. */
  function Skip(s: Bytes): (r: Length)
    ensures r.Ok? ==> r.n >= 1
    decreases |s|, 0
  {
    match ReadVarint(s)
    case Bad(e, _) => Err(e)
    case Read(raw, n) =>
      match raw % 8
      case 0 => (match ReadVarint(s[n..])
                 case Bad(e, _) => Err(e)
                 case Read(_, k) => Ok(n + k))
      case 1 => Ok(n + 8)
      case 2 => (match ReadVarint(s[n..])
                 case Bad(e, _) => Err(e)
                 case Read(len, k) =>
                   var length := Signed(len % TWO_TO_THE_64, TWO_TO_THE_64);
                   if length < 0 then Err(InvalidLength) else Ok(n + k + length))
      case 3 => (match SkipGroup(s[n..])
                 case Err(e) => Err(e)
                 case Ok(k) => Ok(n + k))
      case 4 => Ok(n)
      case 5 => Ok(n + 4)
      case _ => Err(IllegalWireType)
  }

  /** Length of the records up to and including the end of the group. */
  function SkipGroup(s: Bytes): (r: Length)
    ensures r.Ok? ==> 1 <= r.n <= |s|
    decreases |s|, 1
  {
    match ReadVarint(s)
    case Bad(e, _) => Err(e)
    case Read(raw, n) =>
      if raw % 8 == 4 then Ok(n)
      else
        match Skip(s)
        case Err(e) => Err(e)
        case Ok(k) =>
          if k > |s| then Err(UnexpectedEOF)
          else
            match SkipGroup(s[k..])
            case Err(e) => Err(e)
            case Ok(j) => Ok(k + j)
  }

  datatype Step = Advance(msg: Message, next: nat) | Fail(msg: Message, error: Error)

  function FieldNumber(raw: nat): int {
    Signed(raw % TWO_TO_THE_64 / 8 % TWO_TO_THE_32, TWO_TO_THE_32)
  }

  /** One round of the decoding loop. */
  function DecodeStep(m: Message, s: Bytes): (r: Step)
    ensures SameShape(m, r.msg)
    ensures r.Advance? ==> 1 <= r.next <= |s|
  {
    match ReadVarint(s)
    case Bad(e, _) => Fail(m, e)
    case Read(raw, n) =>
      var fieldNum := FieldNumber(raw);
      if raw % 8 == 4 then Fail(m, EndGroupOutsideGroup)
      else if fieldNum <= 0 then Fail(m, IllegalTag)
      else if fieldNum <= |m| then
        match ReadField(m[fieldNum - 1], raw % 8, s[n..])
        case Got(v, k) => Advance(m[fieldNum - 1 := v], n + k)
        case Lost(v, e) => Fail(m[fieldNum - 1 := v], e)
      else
        match Skip(s)
        case Err(e) => Fail(m, e)
        case Ok(k) => if k > |s| then Fail(m, UnexpectedEOF) else Advance(m, k)
  }

  datatype Outcome = Outcome(msg: Message, err: Option<Error>)

  /** The message that Unmarshal leaves behind when it starts from `m`, and the error it returns. */
  function Decode(m: Message, s: Bytes): (r: Outcome)
    ensures SameShape(m, r.msg)
    decreases |s|
  {
    if s == [] then Outcome(m, None)
    else
      match DecodeStep(m, s)
      case Fail(m', e) => Outcome(m', Some(e))
      case Advance(m', n) => Decode(m', s[n..])
  }
}
