/**
 Records of fields that the reader does not know: the grammar of a well-formed record, and the skipping
 of exactly such records.
 */
module UnknownFields {
  import opened Options
  import opened Varint
  import opened Wire
  import opened Concatenation

  /** A record as a tree.  Tags and lengths are any varint, padded or not. */
  datatype Unknown =
    | Varying(tag: Bytes, number: Bytes)
    | Fixed64(tag: Bytes, data: Bytes)
    | Delimited(tag: Bytes, len: Bytes, data: Bytes)
    | Group(tag: Bytes, children: seq<Unknown>, end: Bytes)
    | Fixed32(tag: Bytes, data: Bytes)

  ghost predicate IsVarint(s: Bytes) {
    ReadVarint(s).Read? && ReadVarint(s).next == |s|
  }

  ghost predicate IsTag(s: Bytes, wireType: nat) {
    IsVarint(s) && ReadVarint(s).value % 8 == wireType
  }

  ghost predicate WellFormed(u: Unknown) {
    match u
    case Varying(tag, number) => IsTag(tag, 0) && IsVarint(number)
    case Fixed64(tag, data) => IsTag(tag, 1) && |data| == 8
    case Delimited(tag, len, data) =>
      IsTag(tag, 2) && IsVarint(len) && ReadVarint(len).value % TWO_TO_THE_64 == |data| < TWO_TO_THE_63
    case Group(tag, children, end) =>
      IsTag(tag, 3) && IsTag(end, 4) && forall c :: c in children ==> WellFormed(c)
    case Fixed32(tag, data) => IsTag(tag, 5) && |data| == 4
  }

  ghost function Flatten(u: Unknown): Bytes
    decreases u, 0
  {
    match u
    case Varying(tag, number) => tag + number
    case Fixed64(tag, data) => tag + data
    case Delimited(tag, len, data) => tag + (len + data)
    case Group(tag, children, end) => tag + (FlattenAll(children) + end)
    case Fixed32(tag, data) => tag + data
  }

  ghost function FlattenAll(us: seq<Unknown>): Bytes
    decreases us, 1
  {
    if us == [] then [] else Flatten(us[0]) + FlattenAll(us[1..])
  }

  lemma ReadTag(tag: Bytes, t: Bytes)
    requires IsVarint(tag)
    ensures ReadVarint(tag + t) == ReadVarint(tag)
    ensures (tag + t)[|tag|..] == t
  {
    ReadVarintStable(tag, t);
  }

  // Skipping stops exactly at the end of a record

  lemma {:induction false} SkipRecord(u: Unknown)
    requires WellFormed(u)
    ensures Skip(Flatten(u)) == Ok(|Flatten(u)|)
    decreases u, 0
  {
    match u
    case Varying(tag, number) => ReadTag(tag, number);
    case Fixed64(tag, data) => ReadTag(tag, data);
    case Delimited(tag, len, data) =>
      ReadTag(tag, len + data);
      ReadTag(len, data);
    case Group(tag, children, end) =>
      ReadTag(tag, FlattenAll(children) + end);
      SkipChildren(children, end);
    case Fixed32(tag, data) => ReadTag(tag, data);
  }

  lemma {:induction false} SkipChildren(us: seq<Unknown>, end: Bytes)
    requires IsTag(end, 4) && forall c :: c in us ==> WellFormed(c)
    ensures SkipGroup(FlattenAll(us) + end) == Ok(|FlattenAll(us)| + |end|)
    decreases us, 1
  {
    if us == [] {
      assert FlattenAll(us) + end == end;
    } else {
      var first, rest := Flatten(us[0]), FlattenAll(us[1..]) + end;
      assert us[0] in us;
      assert FlattenAll(us) + end == first + rest;
      SkipRecord(us[0]);
      FirstTag(us[0], rest);
      SkipStable(first, rest);
      SliceOfConcat(first, rest, |first|);
      assert first[|first|..] + rest == rest;
      SkipChildren(us[1..], end);
    }
  }

  /** A record does not start with the end of a group. */
  lemma FirstTag(u: Unknown, t: Bytes)
    requires WellFormed(u)
    ensures ReadVarint(Flatten(u) + t) == ReadVarint(u.tag)
    ensures ReadVarint(u.tag).value % 8 != 4
  {
    var rest := Flatten(u)[|u.tag|..] + t;
    assert Flatten(u) + t == u.tag + rest;
    ReadTag(u.tag, rest);
  }

  // Whatever is skipped is a record

  lemma TagAt(s: Bytes)
    requires ReadVarint(s).Read?
    ensures IsVarint(s[..ReadVarint(s).next])
    ensures ReadVarint(s[..ReadVarint(s).next]) == ReadVarint(s)
  {
    ReadVarintLocal(s);
  }

  lemma DelimitedAt(s: Bytes) returns (u: Unknown)
    requires Skip(s).Ok? && Skip(s).n <= |s| && ReadVarint(s).value % 8 == 2
    ensures WellFormed(u) && Flatten(u) == s[..Skip(s).n]
  {
    var n, end := ReadVarint(s).next, Skip(s).n;
    TagAt(s);
    TagAt(s[n..]);
    var k := ReadVarint(s[n..]).next;
    u := Delimited(s[..n], s[n..][..k], s[n + k..end]);
    assert s[..n] + (s[n..][..k] + s[n + k..end]) == s[..end];
  }

  lemma GroupAt(s: Bytes, n: nat, k: nat, children: Bytes, close: Bytes)
    requires n + k <= |s| && children + close == s[n..][..k]
    ensures s[..n] + (children + close) == s[..n + k]
  {
  }

  /** The record that Skip has jumped over, when it is not the stray end of a group. */
  lemma {:induction false} SkippedIsRecord(s: Bytes) returns (u: Unknown)
    requires Skip(s).Ok? && Skip(s).n <= |s| && ReadVarint(s).value % 8 != 4
    ensures WellFormed(u) && Flatten(u) == s[..Skip(s).n]
    decreases |s|, 0
  {
    var n := ReadVarint(s).next;
    var tag := s[..n];
    TagAt(s);
    var end := Skip(s).n;
    match ReadVarint(s).value % 8
    case 0 =>
      TagAt(s[n..]);
      u := Varying(tag, s[n..][..end - n]);
    case 1 => u := Fixed64(tag, s[n..end]);
    case 2 => u := DelimitedAt(s);
    case 3 =>
      var children, close := SkippedAreRecords(s[n..]);
      u := Group(tag, children, close);
      GroupAt(s, n, end - n, FlattenAll(children), close);
    case 5 => u := Fixed32(tag, s[n..end]);
  }

  lemma {:induction false} SkippedAreRecords(s: Bytes) returns (us: seq<Unknown>, end: Bytes)
    requires SkipGroup(s).Ok?
    ensures IsTag(end, 4) && forall c :: c in us ==> WellFormed(c)
    ensures FlattenAll(us) + end == s[..SkipGroup(s).n]
    decreases |s|, 1
  {
    if ReadVarint(s).value % 8 == 4 {
      TagAt(s);
      us, end := [], s[..ReadVarint(s).next];
    } else {
      var u := SkippedIsRecord(s);
      var k := Skip(s).n;
      var rest;
      rest, end := SkippedAreRecords(s[k..]);
      us := [u] + rest;
      PrependRecord(u, rest, end, s, k, SkipGroup(s[k..]).n);
    }
  }

  lemma PrependRecord(u: Unknown, us: seq<Unknown>, end: Bytes, s: Bytes, k: nat, j: nat)
    requires k <= |s| && j <= |s| - k
    requires Flatten(u) == s[..k] && FlattenAll(us) + end == s[k..][..j]
    ensures FlattenAll([u] + us) + end == s[..k + j]
  {
    assert ([u] + us)[1..] == us;
    assert FlattenAll([u] + us) + end == Flatten(u) + (FlattenAll(us) + end);
    assert s[..k] + s[k..][..j] == s[..k + j];
  }

  lemma SkipPrefixRecord(s: Bytes, u: Unknown)
    requires WellFormed(u) && Flatten(u) <= s
    ensures Skip(s) == Ok(|Flatten(u)|)
  {
    var n := |Flatten(u)|;
    SkipRecord(u);
    SkipStable(Flatten(u), s[n..]);
    assert s == Flatten(u) + s[n..];
  }

  /** Skip accepts a prefix of s exactly when that prefix is a well-formed record. */
  lemma SkipExactlyRecords(s: Bytes, n: nat)
    requires n <= |s|
    requires ReadVarint(s).Read? ==> ReadVarint(s).value % 8 != 4
    ensures Skip(s) == Ok(n) <==> exists u :: WellFormed(u) && Flatten(u) == s[..n]
  {
    if Skip(s) == Ok(n) {
      var u := SkippedIsRecord(s);
    } else if u :| WellFormed(u) && Flatten(u) == s[..n] {
      SkipPrefixRecord(s, u);
    }
  }

  // Messages

  /** The reader of `m` has no case for the field of `u`. */
  ghost predicate IsUnknownTo(u: Unknown, m: Message) {
    ReadVarint(u.tag).Read? && FieldNumber(ReadVarint(u.tag).value) > |m|
  }

  lemma DecodeUnknown(m: Message, u: Unknown)
    requires WellFormed(u) && IsUnknownTo(u, m)
    ensures Decode(m, Flatten(u)) == Outcome(m, None)
  {
    var s := Flatten(u);
    assert s + [] == s;
    FirstTag(u, []);
    SkipRecord(u);
    assert DecodeStep(m, s) == Advance(m, |s|);
    assert s[|s|..] == [];
  }

  /** A record with an unknown field number between two records changes nothing. */
  lemma UnknownRecordIsIgnored(m: Message, s: Bytes, u: Unknown, t: Bytes)
    requires WellFormed(u) && IsUnknownTo(u, m)
    requires Decode(m, s).err == None
    ensures Decode(m, s + (Flatten(u) + t)) == Decode(m, s + t)
  {
    var m' := Decode(m, s).msg;
    DecodeConcat(m, s, t);
    DecodeConcat(m, s, Flatten(u) + t);
    DecodeUnknown(m', u);
    DecodeConcat(m', Flatten(u), t);
  }
}
