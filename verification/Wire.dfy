/**
 The TFLC wire format: Python's struct codes as the protocol uses them, the message
 bodies of both directions, the frame header, and what a received frame is dispatched as.
 */
module Wire {
  import opened Base

  // ---------------------------------------------------------------------------
  // struct.pack and struct.unpack_from
  // ---------------------------------------------------------------------------

  /** The codes in use. `Native` is an integer without the "!" prefix, that is, in the byte
      order of the machine (little-endian here); `Text` is the "s" code. */
  datatype Code = UInt | Native | Bool | Text

  /** One code of a format string, its width in bytes and the "x" pad bytes after it. */
  datatype Field = Field(code: Code, w: nat, pad: nat)

  datatype Value = Num(n: int) | Flag(b: bool) | Str(s: seq<byte>)

  type Format = seq<Field>

  function Pow256(k: nat): (p: nat)
    ensures p > 0
  {
    if k == 0 then 1 else 256 * Pow256(k - 1)
  }

  function BigEndian(n: nat, k: nat): (s: seq<byte>)
    ensures |s| == k
  {
    if k == 0 then [] else BigEndian(n / 256, k - 1) + [n % 256]
  }

  function FromBigEndian(s: seq<byte>): nat
  {
    if s == [] then 0 else FromBigEndian(s[..|s| - 1]) * 256 + s[|s| - 1]
  }

  function LittleEndian(n: nat, k: nat): (s: seq<byte>)
    ensures |s| == k
  {
    if k == 0 then [] else [n % 256] + LittleEndian(n / 256, k - 1)
  }

  function FromLittleEndian(s: seq<byte>): nat
  {
    if s == [] then 0 else FromLittleEndian(s[1..]) * 256 + s[0]
  }

  lemma {:induction false} BigEndianRoundTrip(n: nat, k: nat)
    requires n < Pow256(k)
    ensures FromBigEndian(BigEndian(n, k)) == n
  {
    if k > 0 {
      BigEndianRoundTrip(n / 256, k - 1);
      var s := BigEndian(n, k);
      assert s[..|s| - 1] == BigEndian(n / 256, k - 1);
    }
  }

  lemma {:induction false} LittleEndianRoundTrip(n: nat, k: nat)
    requires n < Pow256(k)
    ensures FromLittleEndian(LittleEndian(n, k)) == n
  {
    if k > 0 {
      LittleEndianRoundTrip(n / 256, k - 1);
      var s := LittleEndian(n, k);
      assert s[1..] == LittleEndian(n / 256, k - 1);
    }
  }

  function Zeros(k: nat): (s: seq<byte>)
    ensures |s| == k
  {
    seq(k, _ => 0)
  }

  function FieldSize(i: Field): nat {
    (if i.code.Bool? then 1 else i.w) + i.pad
  }

  /** struct.calcsize */
  function Size(f: Format): nat
  {
    if f == [] then 0 else FieldSize(f[0]) + Size(f[1..])
  }

  /** struct.pack accepts the value for this code: numbers must fit, texts are cut or padded. */
  predicate Fits(i: Field, v: Value)
  {
    match i.code
    case UInt => v.Num? && 0 <= v.n < Pow256(i.w)
    case Native => v.Num? && 0 <= v.n < Pow256(i.w)
    case Bool => v.Flag?
    case Text => v.Str?
  }

  /** The "s" code: cut to the width, or filled with zero bytes. */
  function Fill(s: seq<byte>, w: nat): (r: seq<byte>)
    ensures |r| == w
    ensures r == s <==> |s| == w
  {
    if |s| >= w then s[..w] else s + Zeros(w - |s|)
  }

  function PackField(i: Field, v: Value): (s: seq<byte>)
    requires Fits(i, v)
    ensures |s| == FieldSize(i)
  {
    (match i.code
     case UInt => BigEndian(v.n, i.w)
     case Native => LittleEndian(v.n, i.w)
     case Bool => [if v.b then 1 else 0]
     case Text => Fill(v.s, i.w)) + Zeros(i.pad)
  }

  function UnpackField(i: Field, s: seq<byte>): Value
    requires |s| == FieldSize(i)
  {
    match i.code
    case UInt => Num(FromBigEndian(s[..i.w]))
    case Native => Num(FromLittleEndian(s[..i.w]))
    case Bool => Flag(s[0] != 0)
    case Text => Str(s[..i.w])
  }

  /** struct.pack; None is struct.error. */
  function Pack(f: Format, v: seq<Value>): (r: Option<seq<byte>>)
    ensures r.Some? <==> |v| == |f| && forall i | 0 <= i < |f| :: Fits(f[i], v[i])
    ensures r.Some? ==> |r.value| == Size(f)
  {
    if f == [] || v == [] then
      if f == [] && v == [] then Some([]) else None
    else if !Fits(f[0], v[0]) then None
    else
      match Pack(f[1..], v[1..])
      case None =>
        assert |v| == |f| ==> exists i | 0 <= i < |f[1..]| :: !Fits(f[1..][i], v[1..][i]);
        None
      case Some(rest) =>
        assert forall i | 0 < i < |f| :: f[i] == f[1..][i - 1] && v[i] == v[1..][i - 1];
        Some(PackField(f[0], v[0]) + rest)
  }

  function Unpack(f: Format, s: seq<byte>): (v: seq<Value>)
    requires |s| == Size(f)
    ensures |v| == |f|
  {
    if f == [] then []
    else [UnpackField(f[0], s[..FieldSize(f[0])])] + Unpack(f[1..], s[FieldSize(f[0])..])
  }

  /** struct.unpack_from; None is struct.error. */
  function UnpackFrom(f: Format, data: seq<byte>, offset: nat): Option<seq<Value>>
  {
    if |data| < offset + Size(f) then None else Some(Unpack(f, data[offset..offset + Size(f)]))
  }

  /** A value as unpacking gives it back: a text at exactly its width. */
  function Stored(i: Field, v: Value): Value
  {
    if i.code.Text? && v.Str? then Str(Fill(v.s, i.w)) else v
  }

  /** struct.unpack undoes struct.pack, up to the cutting and filling of texts. */
  lemma {:induction false} UnpackPack(f: Format, v: seq<Value>)
    requires Pack(f, v).Some?
    ensures var u := Unpack(f, Pack(f, v).value);
            |u| == |f| == |v| && forall i | 0 <= i < |f| :: u[i] == Stored(f[i], v[i])
  {
    if f != [] {
      var s, n := Pack(f, v).value, FieldSize(f[0]);
      UnpackPack(f[1..], v[1..]);
      assert s[n..] == Pack(f[1..], v[1..]).value;
      assert s[..n] == PackField(f[0], v[0]);
      UnpackPackField(f[0], v[0]);
      var u := Unpack(f, s);
      forall i | 0 < i < |f| ensures u[i] == Stored(f[i], v[i]) {
        assert u[i] == Unpack(f[1..], s[n..])[i - 1];
      }
    }
  }

  lemma UnpackPackField(i: Field, v: Value)
    requires Fits(i, v)
    ensures UnpackField(i, PackField(i, v)) == Stored(i, v)
  {
    var s := PackField(i, v);
    match i.code
    case UInt =>
      BigEndianRoundTrip(v.n, i.w);
      assert s[..i.w] == BigEndian(v.n, i.w);
    case Native =>
      LittleEndianRoundTrip(v.n, i.w);
      assert s[..i.w] == LittleEndian(v.n, i.w);
    case Bool =>
    case Text =>
      assert s[..i.w] == Fill(v.s, i.w);
  }

  // ---------------------------------------------------------------------------
  // Messages
  // ---------------------------------------------------------------------------

  /** The messages of both directions, with the fields that travel. */
  datatype Msg =
    | HelloUp
    | HelloDown(lcid: int)
    | DpConnected(dpid: int, isWindow: bool)
    | RoleAssign(dpid: int, lcid: int, role: int, gid: int)
    | GidRequest(dpid: int)
    | GidReply(dpid: int, gid: int)
    | PacketIn(inDpid: int, srcIp: int, dstIp: int, srcPort: int, dstPort: int, srcMac: Mac, dstMac: Mac)
    | FlowMod(inDpid: int, outDpid: int, outPort: int, dstMac: Mac, wildcards: int)
    | LoadReport(dpid: int, count: int)
    | RoleNotify(dpid: int, lcid: int, role: int)
    | EchoRequest(timestamp: int)
    | EchoReply(timestamp: int)
    | BarrierRequest
    | BarrierReply
    | HostConnected(dpid: int, mac: Mac)
    | DatapathLeave(dpid: int)
    | HostLeave(dpid: int, mac: Mac)
    | GraphInfo(json: seq<byte>)
    | SwitchMapUpdate

  const HEADER_SIZE: nat := 8
  const VERSION: nat := 1
  const MAX_LEN: nat := 0xffff

  /** msg_proto.py: the message type codes. */
  function TypeOf(m: Msg): byte
  {
    match m
    case HelloUp => 0
    case HelloDown(_) => 1
    case DpConnected(_, _) => 2
    case RoleAssign(_, _, _, _) => 3
    case GidRequest(_) => 4
    case GidReply(_, _) => 5
    case PacketIn(_, _, _, _, _, _, _) => 6
    case FlowMod(_, _, _, _, _) => 7
    case LoadReport(_, _) => 8
    case RoleNotify(_, _, _) => 11
    case EchoRequest(_) => 12
    case EchoReply(_) => 13
    case BarrierRequest => 15
    case BarrierReply => 16
    case HostConnected(_, _) => 17
    case DatapathLeave(_) => 18
    case HostLeave(_, _) => 19
    case GraphInfo(_) => 20
    case SwitchMapUpdate => 21
  }

  const U8 := Field(UInt, 1, 0)
  const U16 := Field(UInt, 2, 0)
  const U32 := Field(UInt, 4, 0)
  const U64 := Field(UInt, 8, 0)
  const HEADER: Format := [U8, U8, U16, U32]

  /** msg_proto.py: the pack strings. GRAPH_INFO's depends on the length of its text, `n`. */
  function BodyFormat(t: byte, n: nat): Format
  {
    match t
    case 1 => [Field(UInt, 4, 4)]
    case 2 => [U64, Field(Bool, 1, 7)]
    case 3 => [U64, U32, U32, U64]
    case 4 => [U64]
    case 5 => [U64, U64]
    case 6 => [U64, U64, U64, U64, U64, Field(Text, 17, 7), Field(Text, 17, 7)]
    case 7 => [U64, U64, U64, Field(Text, 17, 5), U16]
    case 8 => [U64, U64]
    case 11 => [U64, U32, U32]
    case 12 => [U64]
    case 13 => [U64]
    case 17 => [U64, Field(Text, 17, 7)]
    case 18 => [U64]
    case 19 => [U64, Field(Text, 17, 7)]
    case 20 => [Field(Native, 4, 0), Field(Text, n, 0)]
    case _ => []
  }

  /** The arguments `_serialize_body` passes to `msg_pack_into`. */
  function BodyValues(m: Msg): seq<Value>
  {
    match m
    case HelloDown(lcid) => [Num(lcid)]
    case DpConnected(dpid, w) => [Num(dpid), Flag(w)]
    case RoleAssign(dpid, lcid, role, gid) => [Num(dpid), Num(lcid), Num(role), Num(gid)]
    case GidRequest(dpid) => [Num(dpid)]
    case GidReply(dpid, gid) => [Num(dpid), Num(gid)]
    case PacketIn(d, si, di, sp, dp, sm, dm) => [Num(d), Num(si), Num(di), Num(sp), Num(dp), Str(sm), Str(dm)]
    case FlowMod(i, o, p, mac, w) => [Num(i), Num(o), Num(p), Str(mac), Num(w)]
    case LoadReport(dpid, n) => [Num(dpid), Num(n)]
    case RoleNotify(dpid, lcid, role) => [Num(dpid), Num(lcid), Num(role)]
    case EchoRequest(ts) => [Num(ts)]
    case EchoReply(ts) => [Num(ts)]
    case HostConnected(dpid, mac) => [Num(dpid), Str(mac)]
    case DatapathLeave(dpid) => [Num(dpid)]
    case HostLeave(dpid, mac) => [Num(dpid), Str(mac)]
    case GraphInfo(json) => [Num(|json|), Str(json)]
    case _ => []
  }

  function FormatOf(m: Msg): Format {
    BodyFormat(TypeOf(m), if m.GraphInfo? then |m.json| else 0)
  }

  /** serialize: the body after eight header bytes, then the header over them. None is
      struct.error: a field out of range, or a frame longer than the 16-bit length. */
  function Frame(m: Msg, xid: int): Option<seq<byte>>
  {
    match Pack(FormatOf(m), BodyValues(m))
    case None => None
    case Some(body) =>
      match Pack(HEADER, [Num(VERSION), Num(TypeOf(m)), Num(HEADER_SIZE + |body|), Num(xid)])
      case None => None
      case Some(head) => Some(head + body)
  }

  // ---------------------------------------------------------------------------
  // Dispatch of a received frame
  // ---------------------------------------------------------------------------

  /** Which end runs the receive loop: the central controller decodes uplink messages,
      the agent of a local controller decodes downlink ones. */
  datatype Side = Central | Agent

  /** A handler dispatches an event, does nothing, or raises. */
  datatype Dispatched = Event(m: Msg, xid: nat) | Silent | Raises

  function NumAt(v: seq<Value>, i: nat): int {
    if i < |v| && v[i].Num? then v[i].n else 0
  }

  function StrAt(v: seq<Value>, i: nat): seq<byte> {
    if i < |v| && v[i].Str? then v[i].s else []
  }

  function FlagAt(v: seq<Value>, i: nat): bool {
    i < |v| && v[i].Flag? && v[i].b
  }

  /** The field assignments of the handlers in the two msg_handler.py. */
  function Build(t: byte, v: seq<Value>): Msg
  {
    match t
    case 0 => HelloUp
    case 1 => HelloDown(NumAt(v, 0))
    case 2 => DpConnected(NumAt(v, 0), FlagAt(v, 1))
    case 3 => RoleAssign(NumAt(v, 0), NumAt(v, 1), NumAt(v, 2), NumAt(v, 3))
    case 4 => GidRequest(NumAt(v, 0))
    case 5 => GidReply(NumAt(v, 0), NumAt(v, 1))
    case 6 => PacketIn(NumAt(v, 0), NumAt(v, 1), NumAt(v, 2), NumAt(v, 3), NumAt(v, 4), StrAt(v, 5), StrAt(v, 6))
    case 7 => FlowMod(NumAt(v, 0), NumAt(v, 1), NumAt(v, 2), StrAt(v, 3), NumAt(v, 4))
    case 8 => LoadReport(NumAt(v, 0), NumAt(v, 1))
    case 11 => RoleNotify(NumAt(v, 0), NumAt(v, 1), NumAt(v, 2))
    case 12 => EchoRequest(NumAt(v, 0))
    case 13 => EchoReply(NumAt(v, 0))
    case 15 => BarrierRequest
    case 16 => BarrierReply
    case 17 => HostConnected(NumAt(v, 0), StrAt(v, 1))
    case 18 => DatapathLeave(NumAt(v, 0))
    case 19 => HostLeave(NumAt(v, 0), StrAt(v, 1))
    case 20 => GraphInfo(StrAt(v, 1))
    case _ => SwitchMapUpdate
  }

  const LENGTH: Field := Field(Native, 4, 0)

  const UPLINK: set<byte> := {0, 2, 4, 6, 8, 11, 13, 16, 17, 18, 19, 20}
  const DOWNLINK: set<byte> := {1, 3, 5, 7, 12, 15, 21}

  predicate Travels(side: Side, m: Msg) {
    TypeOf(m) in if side.Central? then UPLINK else DOWNLINK
  }

  /** unpack_from on the whole receive buffer; GRAPH_INFO reads its text length first. */
  function DecodeBody(t: byte, buf: seq<byte>): Option<seq<Value>>
  {
    if t == 20 then
      match UnpackFrom([LENGTH], buf, HEADER_SIZE)
      case None => None
      case Some(v) =>
        if NumAt(v, 0) < 0 then None else UnpackFrom(BodyFormat(t, NumAt(v, 0)), buf, HEADER_SIZE)
    else UnpackFrom(BodyFormat(t, 0), buf, HEADER_SIZE)
  }

  /** msg_handler[msg_type](...): a missing key and a stub without parameters raise at the
      central side, the agent's uplink stubs do nothing, decoders raise on a short buffer.
      The agent's events for types 9 and 10 are not part of this model and count as silent. */
  function Dispatch(side: Side, t: byte, xid: nat, buf: seq<byte>): Dispatched
  {
    if t in (if side.Central? then UPLINK else DOWNLINK) then
      match DecodeBody(t, buf)
      case None => Raises
      case Some(v) => Event(Build(t, v), xid)
    else if side.Agent? && (t in UPLINK || t == 14) then Silent
    else if side.Agent? && t == 9 then
      if UnpackFrom([U32, U32, U64], buf, HEADER_SIZE).Some? then Silent else Raises
    else if side.Agent? && t == 10 then
      match UnpackFrom([U64, Field(UInt, 4, 4)], buf, HEADER_SIZE)
      case None => Raises
      case Some(v) => if |buf| < 24 + 8 * NumAt(v, 1) then Raises else Silent
    else Raises
  }

  /** The texts have exactly the width the format gives them. */
  predicate Exact(m: Msg)
  {
    match m
    case PacketIn(_, _, _, _, _, sm, dm) => |sm| == 17 && |dm| == 17
    case FlowMod(_, _, _, mac, _) => |mac| == 17
    case HostConnected(_, mac) => |mac| == 17
    case HostLeave(_, mac) => |mac| == 17
    case _ => true
  }

  /** What arrives of a message: every text cut or filled to 17 bytes. */
  function Carried(m: Msg): (r: Msg)
    ensures r == m <==> Exact(m)
    ensures Exact(r)
  {
    match m
    case PacketIn(d, si, di, sp, dp, sm, dm) => PacketIn(d, si, di, sp, dp, Fill(sm, 17), Fill(dm, 17))
    case FlowMod(i, o, p, mac, w) => FlowMod(i, o, p, Fill(mac, 17), w)
    case HostConnected(dpid, mac) => HostConnected(dpid, Fill(mac, 17))
    case HostLeave(dpid, mac) => HostLeave(dpid, Fill(mac, 17))
    case _ => m
  }

  function HeaderType(buf: seq<byte>): byte
    requires |buf| >= HEADER_SIZE
  { buf[1] }

  function HeaderLen(buf: seq<byte>): nat
    requires |buf| >= HEADER_SIZE
  { FromBigEndian(buf[2..4]) }

  function HeaderXid(buf: seq<byte>): nat
    requires |buf| >= HEADER_SIZE
  { FromBigEndian(buf[4..8]) }

  lemma HeaderUnpacks(buf: seq<byte>)
    requires |buf| >= HEADER_SIZE
    ensures UnpackFrom(HEADER, buf, 0) ==
            Some([Num(buf[0]), Num(HeaderType(buf)), Num(HeaderLen(buf)), Num(HeaderXid(buf))])
  {
    HeaderSize();
    var b := buf[0..8];
    OneByte(buf[0]);
    OneByte(buf[1]);
    assert HEADER == [U8, U8] + [U16, U32];
    assert [U16, U32] + [] == [U16, U32];
    assert b[..1] == [buf[0]] && b[1..2] == [buf[1]];
    assert [buf[0]][..1] == [buf[0]] && [buf[1]][..1] == [buf[1]];
    var c := b[2..];
    assert c[..2] == buf[2..4] && c[2..6] == buf[4..8];
    assert c[..2][..2] == c[..2] && c[2..6][..4] == c[2..6];
    assert Unpack([U16, U32], c) == [Num(HeaderLen(buf)), Num(HeaderXid(buf))] + [];
    assert Unpack(HEADER, b) ==
           [Num(buf[0]), Num(HeaderType(buf)), Num(HeaderLen(buf)), Num(HeaderXid(buf))];
  }

  lemma OneByte(b: byte)
    ensures FromBigEndian([b]) == b
  {
    assert [b][..0] == [];
  }

  /** A frame's header says its type, its own length and its xid. */
  lemma FrameHeader(m: Msg, xid: int, rest: seq<byte>)
    requires Frame(m, xid).Some?
    ensures var f := Frame(m, xid).value;
            && HEADER_SIZE <= |f| <= MAX_LEN && |f| == HEADER_SIZE + Size(FormatOf(m))
            && HeaderType(f + rest) == TypeOf(m) && HeaderLen(f + rest) == |f| && HeaderXid(f + rest) == xid
  {
    var body := Pack(FormatOf(m), BodyValues(m)).value;
    var v := [Num(VERSION), Num(TypeOf(m)), Num(HEADER_SIZE + |body|), Num(xid)];
    var head := Pack(HEADER, v).value;
    var f := Frame(m, xid).value;
    HeaderSize();
    assert Fits(HEADER[2], v[2]);
    assert Pow256(1) == 256;
    UnpackPack(HEADER, v);
    HeaderUnpacks(f + rest);
    FirstEight(head, body, rest);
    assert Unpack(HEADER, head)[1] == v[1] && Unpack(HEADER, head)[2] == v[2] && Unpack(HEADER, head)[3] == v[3];
  }

  lemma FirstEight(head: seq<byte>, body: seq<byte>, rest: seq<byte>)
    requires |head| == 8
    ensures (head + body + rest)[0..8] == head
  {
  }

  lemma HeaderSize()
    ensures Size(HEADER) == HEADER_SIZE
  {
    var last: Format := [U32];
    assert last[1..] == [] && Size(last) == 4 + Size(last[1..]);
    assert HEADER[1..] == [U8, U16, U32] && [U8, U16, U32][1..] == [U16, U32] && [U16, U32][1..] == last;
    assert Size([U16, U32]) == 2 + Size(last) && Size([U8, U16, U32]) == 1 + Size([U16, U32]);
  }

  /** Serialising and dispatching: the receiving side sees the message that was sent, whatever
      bytes follow the frame in its buffer, and sees it unchanged exactly when its texts fit. */
  lemma DispatchOfFrame(side: Side, m: Msg, xid: int, rest: seq<byte>)
    requires Frame(m, xid).Some? && Travels(side, m)
    ensures xid >= 0
    ensures Dispatch(side, TypeOf(m), xid, Frame(m, xid).value + rest) == Event(Carried(m), xid)
  {
    FrameHeader(m, xid, rest);
    var fmt, v := FormatOf(m), BodyValues(m);
    UnpackPack(fmt, v);
    var u := Unpack(fmt, Pack(fmt, v).value);
    BuildOfStored(m, u);
    DecodeOfFrame(m, xid, rest);
  }

  lemma PacketOfStored(m: Msg, u: seq<Value>)
    requires m.PacketIn? && |u| == |FormatOf(m)| == |BodyValues(m)|
    requires forall i | 0 <= i < |u| :: u[i] == Stored(FormatOf(m)[i], BodyValues(m)[i])
    ensures Build(TypeOf(m), u) == Carried(m)
  {
    var f, v := FormatOf(m), BodyValues(m);
    assert u[5] == Stored(f[5], v[5]) && u[6] == Stored(f[6], v[6]);
  }

  lemma BuildOfStored(m: Msg, u: seq<Value>)
    requires |u| == |FormatOf(m)| == |BodyValues(m)|
    requires forall i | 0 <= i < |u| :: u[i] == Stored(FormatOf(m)[i], BodyValues(m)[i])
    ensures Build(TypeOf(m), u) == Carried(m)
  {
    var f, v := FormatOf(m), BodyValues(m);
    match m
    case PacketIn(_, _, _, _, _, _, _) => PacketOfStored(m, u);
    case FlowMod(_, _, _, _, _) => assert u[3] == Stored(f[3], v[3]);
    case HostConnected(_, _) => assert u[1] == Stored(f[1], v[1]);
    case HostLeave(_, _) => assert u[1] == Stored(f[1], v[1]);
    case GraphInfo(json) => assert u[1] == Stored(f[1], v[1]);
    case _ =>
  }

  lemma DecodeOfFrame(m: Msg, xid: int, rest: seq<byte>)
    requires Frame(m, xid).Some?
    ensures DecodeBody(TypeOf(m), Frame(m, xid).value + rest) ==
            Some(Unpack(FormatOf(m), Pack(FormatOf(m), BodyValues(m)).value))
  {
    FrameHeader(m, xid, rest);
    var fmt, v := FormatOf(m), BodyValues(m);
    var body := Pack(fmt, v).value;
    var buf := Frame(m, xid).value + rest;
    assert buf[HEADER_SIZE..HEADER_SIZE + Size(fmt)] == body;
    assert UnpackFrom(fmt, buf, HEADER_SIZE) == Some(Unpack(fmt, body));
    if m.GraphInfo? {
      GraphLength(m, buf);
    }
  }

  lemma GraphLength(m: Msg, buf: seq<byte>)
    requires m.GraphInfo? && Pack(FormatOf(m), BodyValues(m)).Some? && |buf| >= HEADER_SIZE + Size(FormatOf(m))
    requires buf[HEADER_SIZE..HEADER_SIZE + Size(FormatOf(m))] == Pack(FormatOf(m), BodyValues(m)).value
    ensures UnpackFrom([LENGTH], buf, HEADER_SIZE) == Some([BodyValues(m)[0]])
  {
    var fmt, v := FormatOf(m), BodyValues(m);
    var body := Pack(fmt, v).value;
    assert body == PackField(fmt[0], v[0]) + Pack(fmt[1..], v[1..]).value;
    assert buf[8..12] == body[..4];
    LengthField(v[0], buf);
  }

  /** GRAPH_INFO's length, read on its own first */
  lemma LengthField(n: Value, buf: seq<byte>)
    requires Fits(LENGTH, n) && |buf| >= 12 && buf[8..12] == PackField(LENGTH, n)
    ensures Unpack([LENGTH], buf[8..12]) == [n] && Size([LENGTH]) == 4
  {
    UnpackPackField(LENGTH, n);
    OneField(LENGTH, buf[8..12]);
  }

  lemma OneField(x: Field, b: seq<byte>)
    requires |b| == FieldSize(x)
    ensures Size([x]) == |b| && Unpack([x], b) == [UnpackField(x, b)]
  {
    var f: Format := [x];
    assert f[1..] == [] && Size(f) == FieldSize(x) + Size(f[1..]);
    assert b[..FieldSize(x)] == b;
    assert Unpack(f, b) == [UnpackField(x, b[..FieldSize(x)])] + Unpack(f[1..], b[FieldSize(x)..]);
  }
}
