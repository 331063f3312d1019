/**
 The generated message types with one of every shape of field.  Fields, constants and the order of the
 cases are those of the generated file; View is the message that the wire format talks about.
 */
module Messages {
  import opened Options
  import opened Varint
  import opened Wire
  import opened Sizes
  import opened Codec
  import opened Decoders
  import opened RoundTrip

  class App {
    var Name: Bytes
    var Status: Bytes
    var ReleaseId: Bytes
    var Endpoint: Bytes
    var BuildId: Bytes
    var Domains: seq<Bytes>
    var Resources: seq<Bytes>
    var RepoUrl: Bytes

    constructor ()
      ensures View() == Empty(View())
    {
      Name := [];
      Status := [];
      ReleaseId := [];
      Endpoint := [];
      BuildId := [];
      Domains := [];
      Resources := [];
      RepoUrl := [];
    }

    ghost function View(): (m: Message)
      reads this
      ensures ValidMessage(m)
    {
      [Text(Name), Text(Status), Text(ReleaseId), Text(Endpoint),
       Text(BuildId), Texts(Domains), Texts(Resources), Text(RepoUrl)]
    }

    method Size() returns (n: nat)
      requires FitsMemory(View())
      ensures n == MessageSize(View())
    {
      ghost var m := View();
      FieldsFit(m);
      n := 0;
      var s1 := SizeText(Name);
      n := n + s1;
      assert n + MessageSize(m, 1) == MessageSize(m);
      var s2 := SizeText(Status);
      n := n + s2;
      assert n + MessageSize(m, 2) == MessageSize(m);
      var s3 := SizeText(ReleaseId);
      n := n + s3;
      assert n + MessageSize(m, 3) == MessageSize(m);
      var s4 := SizeText(Endpoint);
      n := n + s4;
      assert n + MessageSize(m, 4) == MessageSize(m);
      var s5 := SizeText(BuildId);
      n := n + s5;
      assert n + MessageSize(m, 5) == MessageSize(m);
      var s6 := SizeTexts(Domains);
      n := n + s6;
      assert n + MessageSize(m, 6) == MessageSize(m);
      var s7 := SizeTexts(Resources);
      n := n + s7;
      assert n + MessageSize(m, 7) == MessageSize(m);
      var s8 := SizeText(RepoUrl);
      n := n + s8;
      assert n + MessageSize(m, 8) == MessageSize(m);
    }

    method MarshalTo(dAtA: array<byte>) returns (i: nat, ghost orders: seq<seq<Bytes>>)
      requires FitsMemory(View()) && MessageSize(View()) <= dAtA.Length
      modifies dAtA
      ensures IsOrders(orders, View()) && i == MessageSize(View())
      ensures dAtA[..i] == Encode(View(), orders)
      ensures forall x :: i <= x < dAtA.Length ==> dAtA[x] == old(dAtA[x])
    {
      hide Written, MessageSize;
      ghost var m := View();
      i, orders := 0, [];
      FieldsFit(m);
      WrittenNone(dAtA, m);
      i, orders := MarshalText(dAtA, i, 0x0a, Name, m, orders);
      i, orders := MarshalText(dAtA, i, 0x12, Status, m, orders);
      i, orders := MarshalText(dAtA, i, 0x1a, ReleaseId, m, orders);
      i, orders := MarshalText(dAtA, i, 0x22, Endpoint, m, orders);
      i, orders := MarshalText(dAtA, i, 0x2a, BuildId, m, orders);
      i, orders := MarshalTexts(dAtA, i, 0x32, Domains, m, orders);
      i, orders := MarshalTexts(dAtA, i, 0x3a, Resources, m, orders);
      i, orders := MarshalText(dAtA, i, 0x42, RepoUrl, m, orders);
      WrittenAll(dAtA, i, m, orders);
    }

    method Marshal() returns (data: Bytes, ghost orders: seq<seq<Bytes>>)
      requires FitsMemory(View())
      ensures IsOrders(orders, View()) && data == Encode(View(), orders)
      ensures |data| == MessageSize(View())
      ensures Decode(Empty(View()), data) == Outcome(View(), None)
      ensures var m := Decode(Empty(View()), data).msg;
              && |m| == 8 && m[0] == Text(Name) && m[1] == Text(Status) && m[2] == Text(ReleaseId)
              && m[3] == Text(Endpoint) && m[4] == Text(BuildId) && m[5] == Texts(Domains)
              && m[6] == Texts(Resources) && m[7] == Text(RepoUrl)
    {
      hide Decode, Encode, IsOrders;
      var size := Size();
      var dAtA := new byte[size];
      var n;
      n, orders := MarshalTo(dAtA);
      data := dAtA[..n];
      DecodeInvertsEncode(View(), orders);
    }

    /** The switch over the field number. */
    method UnmarshalField(dAtA: Bytes, preIndex: nat, start: nat, fieldNum: int, wireType: nat)
      returns (iNdEx: nat, err: Option<Error>)
      requires preIndex < start <= |dAtA| && fieldNum >= 1
      modifies this
      ensures Switched(old(View()), View(), dAtA, preIndex, start, fieldNum, wireType, iNdEx, err)
    {
      hide ReadField, Skip;
      match fieldNum {
        case 1 => Name, iNdEx, err := TextField(dAtA, start, wireType, Name);
        case 2 => Status, iNdEx, err := TextField(dAtA, start, wireType, Status);
        case 3 => ReleaseId, iNdEx, err := TextField(dAtA, start, wireType, ReleaseId);
        case 4 => Endpoint, iNdEx, err := TextField(dAtA, start, wireType, Endpoint);
        case 5 => BuildId, iNdEx, err := TextField(dAtA, start, wireType, BuildId);
        case 6 => Domains, iNdEx, err := TextsField(dAtA, start, wireType, Domains);
        case 7 => Resources, iNdEx, err := TextsField(dAtA, start, wireType, Resources);
        case 8 => RepoUrl, iNdEx, err := TextField(dAtA, start, wireType, RepoUrl);
        case _ => iNdEx, err := SkipField(dAtA, preIndex);
      }
    }

    method Unmarshal(dAtA: Bytes) returns (err: Option<Error>)
      modifies this
      ensures Decode(old(View()), dAtA) == Outcome(View(), err)
    {
      hide FieldNumber, ReadVarint, ReadField, Skip, Decode, Switched;
      var l := |dAtA|;
      var iNdEx := 0;
      err := None;
      assert dAtA[0..] == dAtA;
      while iNdEx < l
        invariant 0 <= iNdEx <= l && err == None
        invariant Decode(old(View()), dAtA) == Decode(View(), dAtA[iNdEx..])
        decreases l - iNdEx
      {
        ghost var before := View();
        var preIndex := iNdEx;
        var fieldNum, wireType, start;
        fieldNum, wireType, start, err := ReadTag(dAtA, iNdEx);
        if err.Some? {
          TagRound(before, dAtA, preIndex, err);
          return;
        }
        iNdEx, err := UnmarshalField(dAtA, preIndex, start, fieldNum, wireType);
        SwitchRound(before, View(), dAtA, preIndex, start, iNdEx, err);
        if err.Some? {
          return;
        }
      }
      NothingLeft(View(), dAtA);
    }
  }

  class Build {
    var Id: Bytes
    var App: Bytes
    var RemoteId: Bytes
    var Status: Bytes
    var CreatedAt: int64
    var Procfile: Bytes
    var Version: Bytes

    constructor ()
      ensures View() == Empty(View())
    {
      Id := [];
      App := [];
      RemoteId := [];
      Status := [];
      CreatedAt := 0;
      Procfile := [];
      Version := [];
    }

    ghost function View(): (m: Message)
      reads this
      ensures ValidMessage(m)
    {
      [Text(Id), Text(App), Text(RemoteId), Text(Status),
       Int64(CreatedAt), Text(Procfile), Text(Version)]
    }

    method Size() returns (n: nat)
      requires FitsMemory(View())
      ensures n == MessageSize(View())
    {
      ghost var m := View();
      FieldsFit(m);
      n := 0;
      var s1 := SizeText(Id);
      n := n + s1;
      assert n + MessageSize(m, 1) == MessageSize(m);
      var s2 := SizeText(App);
      n := n + s2;
      assert n + MessageSize(m, 2) == MessageSize(m);
      var s3 := SizeText(RemoteId);
      n := n + s3;
      assert n + MessageSize(m, 3) == MessageSize(m);
      var s4 := SizeText(Status);
      n := n + s4;
      assert n + MessageSize(m, 4) == MessageSize(m);
      var s5 := SizeNumber(CreatedAt);
      n := n + s5;
      assert n + MessageSize(m, 5) == MessageSize(m);
      var s6 := SizeText(Procfile);
      n := n + s6;
      assert n + MessageSize(m, 6) == MessageSize(m);
      var s7 := SizeText(Version);
      n := n + s7;
      assert n + MessageSize(m, 7) == MessageSize(m);
    }

    method MarshalTo(dAtA: array<byte>) returns (i: nat, ghost orders: seq<seq<Bytes>>)
      requires FitsMemory(View()) && MessageSize(View()) <= dAtA.Length
      modifies dAtA
      ensures IsOrders(orders, View()) && i == MessageSize(View())
      ensures dAtA[..i] == Encode(View(), orders)
      ensures forall x :: i <= x < dAtA.Length ==> dAtA[x] == old(dAtA[x])
    {
      hide Written, MessageSize;
      ghost var m := View();
      i, orders := 0, [];
      FieldsFit(m);
      WrittenNone(dAtA, m);
      i, orders := MarshalText(dAtA, i, 0x0a, Id, m, orders);
      i, orders := MarshalText(dAtA, i, 0x12, App, m, orders);
      i, orders := MarshalText(dAtA, i, 0x1a, RemoteId, m, orders);
      i, orders := MarshalText(dAtA, i, 0x22, Status, m, orders);
      i, orders := MarshalNumber(dAtA, i, 0x28, CreatedAt, m, orders);
      i, orders := MarshalText(dAtA, i, 0x32, Procfile, m, orders);
      i, orders := MarshalText(dAtA, i, 0x3a, Version, m, orders);
      WrittenAll(dAtA, i, m, orders);
    }

    method Marshal() returns (data: Bytes, ghost orders: seq<seq<Bytes>>)
      requires FitsMemory(View())
      ensures IsOrders(orders, View()) && data == Encode(View(), orders)
      ensures |data| == MessageSize(View())
      ensures Decode(Empty(View()), data) == Outcome(View(), None)
      ensures var m := Decode(Empty(View()), data).msg;
              && |m| == 7 && m[0] == Text(Id) && m[1] == Text(App) && m[2] == Text(RemoteId)
              && m[3] == Text(Status) && m[4] == Int64(CreatedAt) && m[5] == Text(Procfile)
              && m[6] == Text(Version)
    {
      hide Decode, Encode, IsOrders;
      var size := Size();
      var dAtA := new byte[size];
      var n;
      n, orders := MarshalTo(dAtA);
      data := dAtA[..n];
      DecodeInvertsEncode(View(), orders);
    }

    /** The switch over the field number. */
    method UnmarshalField(dAtA: Bytes, preIndex: nat, start: nat, fieldNum: int, wireType: nat)
      returns (iNdEx: nat, err: Option<Error>)
      requires preIndex < start <= |dAtA| && fieldNum >= 1
      modifies this
      ensures Switched(old(View()), View(), dAtA, preIndex, start, fieldNum, wireType, iNdEx, err)
    {
      hide ReadField, Skip;
      match fieldNum {
        case 1 => Id, iNdEx, err := TextField(dAtA, start, wireType, Id);
        case 2 => App, iNdEx, err := TextField(dAtA, start, wireType, App);
        case 3 => RemoteId, iNdEx, err := TextField(dAtA, start, wireType, RemoteId);
        case 4 => Status, iNdEx, err := TextField(dAtA, start, wireType, Status);
        case 5 => CreatedAt, iNdEx, err := Int64Field(dAtA, start, wireType, CreatedAt);
        case 6 => Procfile, iNdEx, err := TextField(dAtA, start, wireType, Procfile);
        case 7 => Version, iNdEx, err := TextField(dAtA, start, wireType, Version);
        case _ => iNdEx, err := SkipField(dAtA, preIndex);
      }
    }

    method Unmarshal(dAtA: Bytes) returns (err: Option<Error>)
      modifies this
      ensures Decode(old(View()), dAtA) == Outcome(View(), err)
    {
      hide FieldNumber, ReadVarint, ReadField, Skip, Decode, Switched;
      var l := |dAtA|;
      var iNdEx := 0;
      err := None;
      assert dAtA[0..] == dAtA;
      while iNdEx < l
        invariant 0 <= iNdEx <= l && err == None
        invariant Decode(old(View()), dAtA) == Decode(View(), dAtA[iNdEx..])
        decreases l - iNdEx
      {
        ghost var before := View();
        var preIndex := iNdEx;
        var fieldNum, wireType, start;
        fieldNum, wireType, start, err := ReadTag(dAtA, iNdEx);
        if err.Some? {
          TagRound(before, dAtA, preIndex, err);
          return;
        }
        iNdEx, err := UnmarshalField(dAtA, preIndex, start, fieldNum, wireType);
        SwitchRound(before, View(), dAtA, preIndex, start, iNdEx, err);
        if err.Some? {
          return;
        }
      }
      NothingLeft(View(), dAtA);
    }
  }

  class Process {
    var Proctype: Bytes
    var Count: int32
    var Status: Bytes
    var Cpu: Bytes
    var Memory: Bytes
    var Command: seq<Bytes>
    var CronExpr: Bytes

    constructor ()
      ensures View() == Empty(View())
    {
      Proctype := [];
      Count := 0;
      Status := [];
      Cpu := [];
      Memory := [];
      Command := [];
      CronExpr := [];
    }

    ghost function View(): (m: Message)
      reads this
      ensures ValidMessage(m)
    {
      [Text(Proctype), Int32(Count), Text(Status), Text(Cpu),
       Text(Memory), Texts(Command), Text(CronExpr)]
    }

    method Size() returns (n: nat)
      requires FitsMemory(View())
      ensures n == MessageSize(View())
    {
      ghost var m := View();
      FieldsFit(m);
      n := 0;
      var s1 := SizeText(Proctype);
      n := n + s1;
      assert n + MessageSize(m, 1) == MessageSize(m);
      var s2 := SizeNumber(Count);
      n := n + s2;
      assert n + MessageSize(m, 2) == MessageSize(m);
      var s3 := SizeText(Status);
      n := n + s3;
      assert n + MessageSize(m, 3) == MessageSize(m);
      var s4 := SizeText(Cpu);
      n := n + s4;
      assert n + MessageSize(m, 4) == MessageSize(m);
      var s5 := SizeText(Memory);
      n := n + s5;
      assert n + MessageSize(m, 5) == MessageSize(m);
      var s6 := SizeTexts(Command);
      n := n + s6;
      assert n + MessageSize(m, 6) == MessageSize(m);
      var s7 := SizeText(CronExpr);
      n := n + s7;
      assert n + MessageSize(m, 7) == MessageSize(m);
    }

    method MarshalTo(dAtA: array<byte>) returns (i: nat, ghost orders: seq<seq<Bytes>>)
      requires FitsMemory(View()) && MessageSize(View()) <= dAtA.Length
      modifies dAtA
      ensures IsOrders(orders, View()) && i == MessageSize(View())
      ensures dAtA[..i] == Encode(View(), orders)
      ensures forall x :: i <= x < dAtA.Length ==> dAtA[x] == old(dAtA[x])
    {
      hide Written, MessageSize;
      ghost var m := View();
      i, orders := 0, [];
      FieldsFit(m);
      WrittenNone(dAtA, m);
      i, orders := MarshalText(dAtA, i, 0x0a, Proctype, m, orders);
      i, orders := MarshalNumber(dAtA, i, 0x10, Count, m, orders);
      i, orders := MarshalText(dAtA, i, 0x1a, Status, m, orders);
      i, orders := MarshalText(dAtA, i, 0x22, Cpu, m, orders);
      i, orders := MarshalText(dAtA, i, 0x2a, Memory, m, orders);
      i, orders := MarshalTexts(dAtA, i, 0x32, Command, m, orders);
      i, orders := MarshalText(dAtA, i, 0x3a, CronExpr, m, orders);
      WrittenAll(dAtA, i, m, orders);
    }

    method Marshal() returns (data: Bytes, ghost orders: seq<seq<Bytes>>)
      requires FitsMemory(View())
      ensures IsOrders(orders, View()) && data == Encode(View(), orders)
      ensures |data| == MessageSize(View())
      ensures Decode(Empty(View()), data) == Outcome(View(), None)
      ensures var m := Decode(Empty(View()), data).msg;
              && |m| == 7 && m[0] == Text(Proctype) && m[1] == Int32(Count) && m[2] == Text(Status)
              && m[3] == Text(Cpu) && m[4] == Text(Memory) && m[5] == Texts(Command)
              && m[6] == Text(CronExpr)
    {
      hide Decode, Encode, IsOrders;
      var size := Size();
      var dAtA := new byte[size];
      var n;
      n, orders := MarshalTo(dAtA);
      data := dAtA[..n];
      DecodeInvertsEncode(View(), orders);
    }

    /** The switch over the field number. */
    method UnmarshalField(dAtA: Bytes, preIndex: nat, start: nat, fieldNum: int, wireType: nat)
      returns (iNdEx: nat, err: Option<Error>)
      requires preIndex < start <= |dAtA| && fieldNum >= 1
      modifies this
      ensures Switched(old(View()), View(), dAtA, preIndex, start, fieldNum, wireType, iNdEx, err)
    {
      hide ReadField, Skip;
      match fieldNum {
        case 1 => Proctype, iNdEx, err := TextField(dAtA, start, wireType, Proctype);
        case 2 => Count, iNdEx, err := Int32Field(dAtA, start, wireType, Count);
        case 3 => Status, iNdEx, err := TextField(dAtA, start, wireType, Status);
        case 4 => Cpu, iNdEx, err := TextField(dAtA, start, wireType, Cpu);
        case 5 => Memory, iNdEx, err := TextField(dAtA, start, wireType, Memory);
        case 6 => Command, iNdEx, err := TextsField(dAtA, start, wireType, Command);
        case 7 => CronExpr, iNdEx, err := TextField(dAtA, start, wireType, CronExpr);
        case _ => iNdEx, err := SkipField(dAtA, preIndex);
      }
    }

    method Unmarshal(dAtA: Bytes) returns (err: Option<Error>)
      modifies this
      ensures Decode(old(View()), dAtA) == Outcome(View(), err)
    {
      hide FieldNumber, ReadVarint, ReadField, Skip, Decode, Switched;
      var l := |dAtA|;
      var iNdEx := 0;
      err := None;
      assert dAtA[0..] == dAtA;
      while iNdEx < l
        invariant 0 <= iNdEx <= l && err == None
        invariant Decode(old(View()), dAtA) == Decode(View(), dAtA[iNdEx..])
        decreases l - iNdEx
      {
        ghost var before := View();
        var preIndex := iNdEx;
        var fieldNum, wireType, start;
        fieldNum, wireType, start, err := ReadTag(dAtA, iNdEx);
        if err.Some? {
          TagRound(before, dAtA, preIndex, err);
          return;
        }
        iNdEx, err := UnmarshalField(dAtA, preIndex, start, fieldNum, wireType);
        SwitchRound(before, View(), dAtA, preIndex, start, iNdEx, err);
        if err.Some? {
          return;
        }
      }
      NothingLeft(View(), dAtA);
    }
  }

  class Formation {
    var App: Bytes
    var Structure: map<Bytes, int32>

    constructor ()
      ensures View() == Empty(View())
    {
      App := [];
      Structure := map[];
    }

    ghost function View(): (m: Message)
      reads this
      ensures ValidMessage(m)
    {
      [Text(App), CountMap(Structure)]
    }

    method Size() returns (n: nat)
      requires FitsMemory(View())
      ensures n == MessageSize(View())
    {
      ghost var m := View();
      FieldsFit(m);
      n := 0;
      var s1 := SizeText(App);
      n := n + s1;
      assert n + MessageSize(m, 1) == MessageSize(m);
      var s2 := SizeCountMap(Structure);
      n := n + s2;
      assert n + MessageSize(m, 2) == MessageSize(m);
    }

    method MarshalTo(dAtA: array<byte>) returns (i: nat, ghost orders: seq<seq<Bytes>>)
      requires FitsMemory(View()) && MessageSize(View()) <= dAtA.Length
      modifies dAtA
      ensures IsOrders(orders, View()) && i == MessageSize(View())
      ensures dAtA[..i] == Encode(View(), orders)
      ensures forall x :: i <= x < dAtA.Length ==> dAtA[x] == old(dAtA[x])
    {
      hide Written, MessageSize;
      ghost var m := View();
      i, orders := 0, [];
      FieldsFit(m);
      WrittenNone(dAtA, m);
      i, orders := MarshalText(dAtA, i, 0x0a, App, m, orders);
      i, orders := MarshalCountMap(dAtA, i, 0x12, Structure, m, orders);
      WrittenAll(dAtA, i, m, orders);
    }

    method Marshal() returns (data: Bytes, ghost orders: seq<seq<Bytes>>)
      requires FitsMemory(View())
      ensures IsOrders(orders, View()) && data == Encode(View(), orders)
      ensures |data| == MessageSize(View())
      ensures Decode(Empty(View()), data) == Outcome(View(), None)
      ensures var m := Decode(Empty(View()), data).msg;
              && |m| == 2 && m[0] == Text(App) && m[1] == CountMap(Structure)
    {
      hide Decode, Encode, IsOrders;
      var size := Size();
      var dAtA := new byte[size];
      var n;
      n, orders := MarshalTo(dAtA);
      data := dAtA[..n];
      DecodeInvertsEncode(View(), orders);
    }

    /** The switch over the field number. */
    method UnmarshalField(dAtA: Bytes, preIndex: nat, start: nat, fieldNum: int, wireType: nat)
      returns (iNdEx: nat, err: Option<Error>)
      requires preIndex < start <= |dAtA| && fieldNum >= 1
      modifies this
      ensures Switched(old(View()), View(), dAtA, preIndex, start, fieldNum, wireType, iNdEx, err)
    {
      hide ReadField, Skip;
      match fieldNum {
        case 1 => App, iNdEx, err := TextField(dAtA, start, wireType, App);
        case 2 => Structure, iNdEx, err := CountMapField(dAtA, start, wireType, Structure);
        case _ => iNdEx, err := SkipField(dAtA, preIndex);
      }
    }

    method Unmarshal(dAtA: Bytes) returns (err: Option<Error>)
      modifies this
      ensures Decode(old(View()), dAtA) == Outcome(View(), err)
    {
      hide FieldNumber, ReadVarint, ReadField, Skip, Decode, Switched;
      var l := |dAtA|;
      var iNdEx := 0;
      err := None;
      assert dAtA[0..] == dAtA;
      while iNdEx < l
        invariant 0 <= iNdEx <= l && err == None
        invariant Decode(old(View()), dAtA) == Decode(View(), dAtA[iNdEx..])
        decreases l - iNdEx
      {
        ghost var before := View();
        var preIndex := iNdEx;
        var fieldNum, wireType, start;
        fieldNum, wireType, start, err := ReadTag(dAtA, iNdEx);
        if err.Some? {
          TagRound(before, dAtA, preIndex, err);
          return;
        }
        iNdEx, err := UnmarshalField(dAtA, preIndex, start, fieldNum, wireType);
        SwitchRound(before, View(), dAtA, preIndex, start, iNdEx, err);
        if err.Some? {
          return;
        }
      }
      NothingLeft(View(), dAtA);
    }
  }

  class EnvConfig {
    var Data: map<Bytes, Bytes>

    constructor ()
      ensures View() == Empty(View())
    {
      Data := map[];
    }

    ghost function View(): (m: Message)
      reads this
      ensures ValidMessage(m)
    {
      [TextMap(Data)]
    }

    method Size() returns (n: nat)
      requires FitsMemory(View())
      ensures n == MessageSize(View())
    {
      ghost var m := View();
      FieldsFit(m);
      n := 0;
      var s1 := SizeTextMap(Data);
      n := n + s1;
      assert n + MessageSize(m, 1) == MessageSize(m);
    }

    method MarshalTo(dAtA: array<byte>) returns (i: nat, ghost orders: seq<seq<Bytes>>)
      requires FitsMemory(View()) && MessageSize(View()) <= dAtA.Length
      modifies dAtA
      ensures IsOrders(orders, View()) && i == MessageSize(View())
      ensures dAtA[..i] == Encode(View(), orders)
      ensures forall x :: i <= x < dAtA.Length ==> dAtA[x] == old(dAtA[x])
    {
      hide Written, MessageSize;
      ghost var m := View();
      i, orders := 0, [];
      FieldsFit(m);
      WrittenNone(dAtA, m);
      i, orders := MarshalTextMap(dAtA, i, 0x0a, Data, m, orders);
      WrittenAll(dAtA, i, m, orders);
    }

    method Marshal() returns (data: Bytes, ghost orders: seq<seq<Bytes>>)
      requires FitsMemory(View())
      ensures IsOrders(orders, View()) && data == Encode(View(), orders)
      ensures |data| == MessageSize(View())
      ensures Decode(Empty(View()), data) == Outcome(View(), None)
      ensures var m := Decode(Empty(View()), data).msg;
              && |m| == 1 && m[0] == TextMap(Data)
    {
      hide Decode, Encode, IsOrders;
      var size := Size();
      var dAtA := new byte[size];
      var n;
      n, orders := MarshalTo(dAtA);
      data := dAtA[..n];
      DecodeInvertsEncode(View(), orders);
    }

    /** The switch over the field number. */
    method UnmarshalField(dAtA: Bytes, preIndex: nat, start: nat, fieldNum: int, wireType: nat)
      returns (iNdEx: nat, err: Option<Error>)
      requires preIndex < start <= |dAtA| && fieldNum >= 1
      modifies this
      ensures Switched(old(View()), View(), dAtA, preIndex, start, fieldNum, wireType, iNdEx, err)
    {
      hide ReadField, Skip;
      match fieldNum {
        case 1 => Data, iNdEx, err := TextMapField(dAtA, start, wireType, Data);
        case _ => iNdEx, err := SkipField(dAtA, preIndex);
      }
    }

    method Unmarshal(dAtA: Bytes) returns (err: Option<Error>)
      modifies this
      ensures Decode(old(View()), dAtA) == Outcome(View(), err)
    {
      hide FieldNumber, ReadVarint, ReadField, Skip, Decode, Switched;
      var l := |dAtA|;
      var iNdEx := 0;
      err := None;
      assert dAtA[0..] == dAtA;
      while iNdEx < l
        invariant 0 <= iNdEx <= l && err == None
        invariant Decode(old(View()), dAtA) == Decode(View(), dAtA[iNdEx..])
        decreases l - iNdEx
      {
        ghost var before := View();
        var preIndex := iNdEx;
        var fieldNum, wireType, start;
        fieldNum, wireType, start, err := ReadTag(dAtA, iNdEx);
        if err.Some? {
          TagRound(before, dAtA, preIndex, err);
          return;
        }
        iNdEx, err := UnmarshalField(dAtA, preIndex, start, fieldNum, wireType);
        SwitchRound(before, View(), dAtA, preIndex, start, iNdEx, err);
        if err.Some? {
          return;
        }
      }
      NothingLeft(View(), dAtA);
    }
  }
}
