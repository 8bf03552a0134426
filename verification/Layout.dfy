/**
 Where the fields of every message lie in its frame, and what makes it fit: byte by byte, without
 the formats and the values that the serialiser goes by.
 */
module Layout {
  import opened Base
  import opened Wire

  /** The `w` bytes from `i` on are the number `n`, the first byte the most significant. */
  predicate Number(f: seq<byte>, i: nat, w: nat, n: int) {
    i + w <= |f| && n == FromBigEndian(f[i..i + w])
  }

  /** They are the text `s`, cut to their number or followed by zeros. */
  predicate Letters(f: seq<byte>, i: nat, w: nat, s: seq<byte>) {
    i + w <= |f| && forall k | 0 <= k < w :: f[i + k] == if k < |s| then s[k] else 0
  }

  predicate Zero(f: seq<byte>, i: nat, w: nat) {
    i + w <= |f| && forall k | i <= k < i + w :: f[k] == 0
  }

  /** Version 1, the type, the frame's length and the xid. */
  predicate Head(f: seq<byte>, t: byte, len: nat, xid: int) {
    |f| == len && len >= 8 && f[0] == 1 && f[1] == t && Number(f, 2, 2, len) && Number(f, 4, 4, xid)
  }

  function Little(a: nat, b: nat, c: nat, d: nat): nat {
    a + 0x100 * b + 0x1_0000 * c + 0x100_0000 * d
  }

  /** The frame of a message. */
  predicate Lies(m: Msg, xid: int, f: seq<byte>) {
    match m
    case HelloUp => Head(f, 0, 8, xid)
    case HelloDown(lcid) => Head(f, 1, 16, xid) && Number(f, 8, 4, lcid) && Zero(f, 12, 4)
    case DpConnected(dpid, w) =>
      Head(f, 2, 24, xid) && Number(f, 8, 8, dpid) && f[16] == (if w then 1 else 0) && Zero(f, 17, 7)
    case RoleAssign(dpid, lcid, role, gid) =>
      Head(f, 3, 32, xid) && Number(f, 8, 8, dpid) && Number(f, 16, 4, lcid) && Number(f, 20, 4, role)
      && Number(f, 24, 8, gid)
    case GidRequest(dpid) => Head(f, 4, 16, xid) && Number(f, 8, 8, dpid)
    case GidReply(dpid, gid) => Head(f, 5, 24, xid) && Number(f, 8, 8, dpid) && Number(f, 16, 8, gid)
    case PacketIn(dpid, srcIp, dstIp, srcPort, dstPort, srcMac, dstMac) =>
      Head(f, 6, 96, xid) && Number(f, 8, 8, dpid) && Number(f, 16, 8, srcIp) && Number(f, 24, 8, dstIp)
      && Number(f, 32, 8, srcPort) && Number(f, 40, 8, dstPort) && Letters(f, 48, 17, srcMac) && Zero(f, 65, 7)
      && Letters(f, 72, 17, dstMac) && Zero(f, 89, 7)
    case FlowMod(inDpid, outDpid, outPort, dstMac, wildcards) =>
      Head(f, 7, 56, xid) && Number(f, 8, 8, inDpid) && Number(f, 16, 8, outDpid) && Number(f, 24, 8, outPort)
      && Letters(f, 32, 17, dstMac) && Zero(f, 49, 5) && Number(f, 54, 2, wildcards)
    case LoadReport(dpid, count) => Head(f, 8, 24, xid) && Number(f, 8, 8, dpid) && Number(f, 16, 8, count)
    case RoleNotify(dpid, lcid, role) =>
      Head(f, 11, 24, xid) && Number(f, 8, 8, dpid) && Number(f, 16, 4, lcid) && Number(f, 20, 4, role)
    case EchoRequest(timestamp) => Head(f, 12, 16, xid) && Number(f, 8, 8, timestamp)
    case EchoReply(timestamp) => Head(f, 13, 16, xid) && Number(f, 8, 8, timestamp)
    case BarrierRequest => Head(f, 15, 8, xid)
    case BarrierReply => Head(f, 16, 8, xid)
    case HostConnected(dpid, mac) =>
      Head(f, 17, 40, xid) && Number(f, 8, 8, dpid) && Letters(f, 16, 17, mac) && Zero(f, 33, 7)
    case DatapathLeave(dpid) => Head(f, 18, 16, xid) && Number(f, 8, 8, dpid)
    case HostLeave(dpid, mac) =>
      Head(f, 19, 40, xid) && Number(f, 8, 8, dpid) && Letters(f, 16, 17, mac) && Zero(f, 33, 7)
    case GraphInfo(json) =>
      Head(f, 20, 12 + |json|, xid) && |json| == Little(f[8], f[9], f[10], f[11])
      && f[12..] == json
    case SwitchMapUpdate => Head(f, 21, 8, xid)
  }

  // ---------------------------------------------------------------------------
  // One field at a time
  // ---------------------------------------------------------------------------

  /** A big-endian number's first byte is its most significant. */
  lemma {:induction false} FirstIsMost(s: seq<byte>)
    requires s != []
    ensures FromBigEndian(s) == s[0] * Pow256(|s| - 1) + FromBigEndian(s[1..])
    decreases |s|
  {
    var n := |s| - 1;
    if n > 0 {
      var less := s[..n];
      FirstIsMost(less);
      assert less[1..] == s[1..][..n - 1] && s[1..][n - 1] == s[n];
    }
  }

  /** A body and its fields: `rest` are the formats and values still to come, at offset `i`. */
  ghost predicate From(f: seq<byte>, i: nat, fmt: Format, v: seq<Value>) {
    i <= |f| && Pack(fmt, v) == Some(f[i..])
  }

  lemma FrameFrom(m: Msg, xid: int)
    requires Frame(m, xid).Some?
    ensures var f := Frame(m, xid).value;
            f[0] == 1 && Head(f, TypeOf(m), |f|, xid) && From(f, 8, FormatOf(m), BodyValues(m))
  {
    var f := Frame(m, xid).value;
    FrameHeader(m, xid, []);
    assert f + [] == f;
    var body := Pack(FormatOf(m), BodyValues(m)).value;
    HeaderSize();
    assert f[8..] == body;
    FirstByte(m, xid);
  }

  lemma FirstByte(m: Msg, xid: int)
    requires Frame(m, xid).Some?
    ensures Frame(m, xid).value[0] == 1
  {
    var body := Pack(FormatOf(m), BodyValues(m)).value;
    var v := [Num(VERSION), Num(TypeOf(m)), Num(HEADER_SIZE + |body|), Num(xid)];
    assert Pack(HEADER, v).value[..1] == PackField(U8, Num(VERSION));
    assert BigEndian(1, 1) == BigEndian(0, 0) + [1];
  }

  /** The field `x` with its value `y` at `i` */
  ghost predicate Placed(f: seq<byte>, i: nat, x: Field, y: Value) {
    && i + FieldSize(x) <= |f|
    && (x.code.UInt? ==> y.Num? && Number(f, i, x.w, y.n) && 0 <= y.n < Pow256(x.w) && Zero(f, i + x.w, x.pad))
    && (x.code.Text? ==> y.Str? && Letters(f, i, x.w, y.s) && Zero(f, i + x.w, x.pad))
    && (x.code.Bool? ==> y.Flag? && f[i] == (if y.b then 1 else 0) && Zero(f, i + 1, x.pad))
  }

  lemma PadZero(f: seq<byte>, i: nat, core: seq<byte>, pad: nat)
    requires i + |core| + pad <= |f| && f[i..i + |core| + pad] == core + Zeros(pad)
    ensures f[i..i + |core|] == core && Zero(f, i + |core|, pad)
  {
    var n := |core| + pad;
    var s := f[i..i + n];
    assert f[i..i + |core|] == s[..|core|];
    forall k | i + |core| <= k < i + n ensures f[k] == 0 {
      assert f[k] == s[k - i];
    }
  }

  lemma TextPlaced(f: seq<byte>, i: nat, w: nat, s: seq<byte>)
    requires i + w <= |f| && f[i..i + w] == Fill(s, w)
    ensures Letters(f, i, w, s)
  {
    forall k | 0 <= k < w ensures f[i + k] == if k < |s| then s[k] else 0 {
      assert f[i + k] == f[i..i + w][k];
    }
  }

  lemma FieldPlaced(f: seq<byte>, i: nat, x: Field, y: Value)
    requires Fits(x, y) && i + FieldSize(x) <= |f| && f[i..i + FieldSize(x)] == PackField(x, y)
    ensures Placed(f, i, x, y)
  {
    match x.code
    case UInt =>
      PadZero(f, i, BigEndian(y.n, x.w), x.pad);
      BigEndianRoundTrip(y.n, x.w);
    case Text =>
      PadZero(f, i, Fill(y.s, x.w), x.pad);
      TextPlaced(f, i, x.w, y.s);
    case Bool =>
      PadZero(f, i, [if y.b then 1 else 0], x.pad);
      assert f[i] == f[i..i + 1][0];
    case Native =>
  }

  /** The bytes before the k-th field */
  function Offset(fmt: Format, k: nat): nat
    requires k <= |fmt|
  {
    if k == 0 then 0 else Offset(fmt, k - 1) + FieldSize(fmt[k - 1])
  }

  lemma {:induction false} OffsetTail(fmt: Format, k: nat)
    requires 0 < k <= |fmt|
    ensures Offset(fmt, k) == FieldSize(fmt[0]) + Offset(fmt[1..], k - 1)
  {
    if k > 1 { OffsetTail(fmt, k - 1); }
  }

  lemma {:induction false} SizeIsOffset(fmt: Format)
    ensures Size(fmt) == Offset(fmt, |fmt|)
  {
    if fmt != [] {
      SizeIsOffset(fmt[1..]);
      OffsetTail(fmt, |fmt|);
    }
  }

  lemma Next(f: seq<byte>, i: nat, fmt: Format, v: seq<Value>)
    requires From(f, i, fmt, v) && fmt != []
    ensures |v| == |fmt| && Placed(f, i, fmt[0], v[0]) && From(f, i + FieldSize(fmt[0]), fmt[1..], v[1..])
  {
    var n := FieldSize(fmt[0]);
    assert f[i..] == PackField(fmt[0], v[0]) + Pack(fmt[1..], v[1..]).value;
    assert f[i..i + n] == f[i..][..n] && f[i + n..] == f[i..][n..];
    FieldPlaced(f, i, fmt[0], v[0]);
  }

  /** From the k-th field on the others follow. */
  lemma {:induction false} FromAt(f: seq<byte>, i: nat, fmt: Format, v: seq<Value>, k: nat)
    requires From(f, i, fmt, v) && |v| == |fmt| && k <= |fmt|
    ensures From(f, i + Offset(fmt, k), fmt[k..], v[k..])
    decreases k
  {
    if k == 0 {
      assert fmt[0..] == fmt && v[0..] == v;
    } else {
      FromAt(f, i, fmt, v, k - 1);
      Next(f, i + Offset(fmt, k - 1), fmt[k - 1..], v[k - 1..]);
      assert fmt[k - 1..][1..] == fmt[k..] && v[k - 1..][1..] == v[k..];
    }
  }

  lemma EachPlaced(f: seq<byte>, i: nat, fmt: Format, v: seq<Value>, k: nat)
    requires From(f, i, fmt, v) && |v| == |fmt| && k < |fmt|
    ensures Placed(f, i + Offset(fmt, k), fmt[k], v[k])
  {
    FromAt(f, i, fmt, v, k);
    Next(f, i + Offset(fmt, k), fmt[k..], v[k..]);
  }

  /** The whole body */
  ghost predicate AllPlaced(f: seq<byte>, fmt: Format, v: seq<Value>) {
    && |v| == |fmt| && |f| == 8 + Offset(fmt, |fmt|)
    && forall k | 0 <= k < |fmt| :: Placed(f, 8 + Offset(fmt, k), fmt[k], v[k])
  }

  lemma BodyPlaced(f: seq<byte>, fmt: Format, v: seq<Value>)
    requires From(f, 8, fmt, v)
    ensures AllPlaced(f, fmt, v)
  {
    SizeIsOffset(fmt);
    forall k | 0 <= k < |fmt| ensures Placed(f, 8 + Offset(fmt, k), fmt[k], v[k]) {
      EachPlaced(f, 8, fmt, v, k);
    }
  }

  // ---------------------------------------------------------------------------
  // Every message
  // ---------------------------------------------------------------------------

  lemma OffsetMore(fmt: Format, k: nat, n: nat)
    requires k < |fmt| && Offset(fmt, k) == n
    ensures Offset(fmt, k + 1) == n + FieldSize(fmt[k])
  {
  }

  /** Two numbers, a number and a text, and another field */
  lemma FiveOffsets(fmt: Format)
    requires |fmt| == 5 && FieldSize(fmt[0]) == FieldSize(fmt[1]) == FieldSize(fmt[2]) == 8 && FieldSize(fmt[3]) == 22
    requires FieldSize(fmt[4]) == 2
    ensures Offset(fmt, 0) == 0 && Offset(fmt, 1) == 8 && Offset(fmt, 2) == 16 && Offset(fmt, 3) == 24
    ensures Offset(fmt, 4) == 46 && Offset(fmt, 5) == 48
  {
    OffsetMore(fmt, 0, 0);
    OffsetMore(fmt, 1, 8);
    OffsetMore(fmt, 2, 16);
    OffsetMore(fmt, 3, 24);
    OffsetMore(fmt, 4, 46);
  }

  lemma FlowModPlaced(f: seq<byte>, fmt: Format, v: seq<Value>)
    requires AllPlaced(f, fmt, v) && |fmt| == 5
    requires fmt[0] == fmt[1] == fmt[2] == U64 && fmt[3] == Field(Text, 17, 5) && fmt[4] == U16
    ensures |f| == 56 && Placed(f, 8, U64, v[0]) && Placed(f, 16, U64, v[1]) && Placed(f, 24, U64, v[2])
    ensures Placed(f, 32, Field(Text, 17, 5), v[3]) && Placed(f, 54, U16, v[4])
  {
    FiveOffsets(fmt);
    assert Placed(f, 8 + Offset(fmt, 0), fmt[0], v[0]) && Placed(f, 8 + Offset(fmt, 1), fmt[1], v[1]);
    assert Placed(f, 8 + Offset(fmt, 2), fmt[2], v[2]) && Placed(f, 8 + Offset(fmt, 3), fmt[3], v[3]);
    assert Placed(f, 8 + Offset(fmt, 4), fmt[4], v[4]);
  }

  lemma FlowModLies(m: Msg, xid: int, f: seq<byte>)
    requires m.FlowMod? && Head(f, 7, |f|, xid) && AllPlaced(f, FormatOf(m), BodyValues(m))
    ensures Lies(m, xid, f)
  {
    FlowModPlaced(f, FormatOf(m), BodyValues(m));
  }

  /** Five numbers and two texts */
  lemma SevenOffsets(fmt: Format)
    requires |fmt| == 7 && forall k | 0 <= k < 5 :: FieldSize(fmt[k]) == 8
    requires FieldSize(fmt[5]) == FieldSize(fmt[6]) == 24
    ensures forall k: nat | k <= 5 :: Offset(fmt, k) == 8 * k
    ensures Offset(fmt, 6) == 64 && Offset(fmt, 7) == 88
  {
    OffsetMore(fmt, 0, 0);
    OffsetMore(fmt, 1, 8);
    OffsetMore(fmt, 2, 16);
    OffsetMore(fmt, 3, 24);
    OffsetMore(fmt, 4, 32);
    OffsetMore(fmt, 5, 40);
    OffsetMore(fmt, 6, 64);
  }

  lemma PacketInPlaced(f: seq<byte>, fmt: Format, v: seq<Value>)
    requires AllPlaced(f, fmt, v) && |fmt| == 7
    requires (forall k | 0 <= k < 5 :: fmt[k] == U64) && fmt[5] == fmt[6] == Field(Text, 17, 7)
    ensures |f| == 96 && Placed(f, 8, U64, v[0]) && Placed(f, 16, U64, v[1]) && Placed(f, 24, U64, v[2])
    ensures Placed(f, 32, U64, v[3]) && Placed(f, 40, U64, v[4])
    ensures Placed(f, 48, Field(Text, 17, 7), v[5]) && Placed(f, 72, Field(Text, 17, 7), v[6])
  {
    SevenOffsets(fmt);
    assert Placed(f, 8 + Offset(fmt, 0), fmt[0], v[0]) && Placed(f, 8 + Offset(fmt, 1), fmt[1], v[1]);
    assert Placed(f, 8 + Offset(fmt, 2), fmt[2], v[2]) && Placed(f, 8 + Offset(fmt, 3), fmt[3], v[3]);
    assert Placed(f, 8 + Offset(fmt, 4), fmt[4], v[4]) && Placed(f, 8 + Offset(fmt, 5), fmt[5], v[5]);
    assert Placed(f, 8 + Offset(fmt, 6), fmt[6], v[6]);
  }

  lemma PacketInLies(m: Msg, xid: int, f: seq<byte>)
    requires m.PacketIn? && Head(f, 6, |f|, xid) && AllPlaced(f, FormatOf(m), BodyValues(m))
    ensures Lies(m, xid, f)
  {
    PacketInPlaced(f, FormatOf(m), BodyValues(m));
  }

  lemma RoleAssignLies(m: Msg, xid: int, f: seq<byte>)
    requires m.RoleAssign? && Head(f, 3, |f|, xid) && AllPlaced(f, FormatOf(m), BodyValues(m))
    ensures Lies(m, xid, f)
  {
    var fmt, v := FormatOf(m), BodyValues(m);
    assert Placed(f, 8, fmt[0], v[0]) && Placed(f, 16, fmt[1], v[1]);
    assert Placed(f, 20, fmt[2], v[2]) && Placed(f, 24, fmt[3], v[3]);
  }

  lemma RoleNotifyLies(m: Msg, xid: int, f: seq<byte>)
    requires m.RoleNotify? && Head(f, 11, |f|, xid) && AllPlaced(f, FormatOf(m), BodyValues(m))
    ensures Lies(m, xid, f)
  {
    var fmt, v := FormatOf(m), BodyValues(m);
    assert Placed(f, 8, fmt[0], v[0]) && Placed(f, 16, fmt[1], v[1]) && Placed(f, 20, fmt[2], v[2]);
  }

  lemma GraphInfoLies(m: Msg, xid: int, f: seq<byte>)
    requires m.GraphInfo? && Head(f, 20, |f|, xid) && AllPlaced(f, FormatOf(m), BodyValues(m))
    requires From(f, 8, FormatOf(m), BodyValues(m))
    ensures Lies(m, xid, f)
  {
    var fmt, v := FormatOf(m), BodyValues(m);
    assert Placed(f, 12, fmt[1], v[1]);
    assert f[12..] == m.json by {
      forall k | 0 <= k < |m.json| ensures f[12..][k] == m.json[k] {
        assert f[12 + k] == m.json[k];
      }
    }
    LengthLies(m, f);
  }

  lemma LengthLies(m: Msg, f: seq<byte>)
    requires m.GraphInfo? && |f| >= 12 && From(f, 8, FormatOf(m), BodyValues(m))
    ensures |m.json| == Little(f[8], f[9], f[10], f[11])
  {
    var n := |m.json|;
    assert f[8..12] == f[8..][..4];
    assert f[8..12] == PackField(LENGTH, Num(n)) && PackField(LENGTH, Num(n)) == LittleEndian(n, 4) + Zeros(0);
    LittleBytes(n);
    assert f[8] == f[8..12][0] && f[9] == f[8..12][1] && f[10] == f[8..12][2] && f[11] == f[8..12][3];
  }

  lemma LittleBytes(n: nat)
    requires n < Pow256(4)
    ensures var s := LittleEndian(n, 4); n == Little(s[0], s[1], s[2], s[3])
  {
    var a := n / 256;
    var b := a / 256;
    var c := b / 256;
    var s := LittleEndian(n, 4);
    assert Pow256(4) == 0x1_0000_0000 by { assert Pow256(2) == 0x1_0000; }
    assert s == [n % 256] + LittleEndian(a, 3) && LittleEndian(a, 3) == [a % 256] + LittleEndian(b, 2);
    assert LittleEndian(b, 2) == [b % 256] + LittleEndian(c, 1) && LittleEndian(c, 1) == [c % 256] + [];
    assert n == 256 * a + s[0] && a == 256 * b + s[1] && b == 256 * c + s[2] && c < 256;
  }

  lemma OneNumber(m: Msg, xid: int, f: seq<byte>)
    requires AllPlaced(f, FormatOf(m), BodyValues(m)) && Head(f, TypeOf(m), |f|, xid)
    requires m.HelloDown? || m.GidRequest? || m.EchoRequest? || m.EchoReply? || m.DatapathLeave?
    ensures Lies(m, xid, f)
  {
    assert Placed(f, 8, FormatOf(m)[0], BodyValues(m)[0]);
  }

  /** A number and another field */
  lemma TwoPlaced(f: seq<byte>, fmt: Format, v: seq<Value>)
    requires AllPlaced(f, fmt, v) && |fmt| == 2 && fmt[0] == U64
    ensures |v| == 2 && |f| == 16 + FieldSize(fmt[1]) && Placed(f, 8, U64, v[0]) && Placed(f, 16, fmt[1], v[1])
  {
    OffsetMore(fmt, 0, 0);
    OffsetMore(fmt, 1, 8);
    assert Placed(f, 8 + Offset(fmt, 0), fmt[0], v[0]) && Placed(f, 8 + Offset(fmt, 1), fmt[1], v[1]);
  }

  lemma TwoNumbers(m: Msg, xid: int, f: seq<byte>)
    requires AllPlaced(f, FormatOf(m), BodyValues(m)) && Head(f, TypeOf(m), |f|, xid)
    requires m.DpConnected? || m.GidReply? || m.LoadReport?
    ensures Lies(m, xid, f)
  {
    TwoPlaced(f, FormatOf(m), BodyValues(m));
  }

  lemma MacLies(m: Msg, xid: int, f: seq<byte>)
    requires AllPlaced(f, FormatOf(m), BodyValues(m)) && Head(f, TypeOf(m), |f|, xid)
    requires m.HostConnected? || m.HostLeave?
    ensures Lies(m, xid, f)
  {
    TwoPlaced(f, FormatOf(m), BodyValues(m));
  }

  /** The frame of every message: each field in its place, in its byte order, and no byte more. */
  lemma FrameLies(m: Msg, xid: int)
    requires Frame(m, xid).Some?
    ensures Lies(m, xid, Frame(m, xid).value)
  {
    FrameFrom(m, xid);
    var f := Frame(m, xid).value;
    BodyPlaced(f, FormatOf(m), BodyValues(m));
    match m
    case FlowMod(_, _, _, _, _) => FlowModLies(m, xid, f);
    case PacketIn(_, _, _, _, _, _, _) => PacketInLies(m, xid, f);
    case RoleAssign(_, _, _, _) => RoleAssignLies(m, xid, f);
    case RoleNotify(_, _, _) => RoleNotifyLies(m, xid, f);
    case GraphInfo(_) => GraphInfoLies(m, xid, f);
    case HelloUp =>
    case BarrierRequest =>
    case BarrierReply =>
    case SwitchMapUpdate =>
    case DpConnected(_, _) => TwoNumbers(m, xid, f);
    case GidReply(_, _) => TwoNumbers(m, xid, f);
    case LoadReport(_, _) => TwoNumbers(m, xid, f);
    case HostConnected(_, _) => MacLies(m, xid, f);
    case HostLeave(_, _) => MacLies(m, xid, f);
    case _ => OneNumber(m, xid, f);
  }

  // ---------------------------------------------------------------------------
  // What fits
  // ---------------------------------------------------------------------------

  const BITS16: nat := 0x1_0000
  const BITS32: nat := 0x1_0000_0000
  const BITS64: nat := 0x1_0000_0000_0000_0000

  /** The numbers of a message are in the range of their fields. */
  predicate InRange(m: Msg) {
    match m
    case HelloDown(lcid) => 0 <= lcid < BITS32
    case DpConnected(dpid, _) => 0 <= dpid < BITS64
    case RoleAssign(dpid, lcid, role, gid) =>
      0 <= dpid < BITS64 && 0 <= lcid < BITS32 && 0 <= role < BITS32 && 0 <= gid < BITS64
    case GidRequest(dpid) => 0 <= dpid < BITS64
    case GidReply(dpid, gid) => 0 <= dpid < BITS64 && 0 <= gid < BITS64
    case PacketIn(dpid, srcIp, dstIp, srcPort, dstPort, _, _) =>
      0 <= dpid < BITS64 && 0 <= srcIp < BITS64 && 0 <= dstIp < BITS64 && 0 <= srcPort < BITS64 && 0 <= dstPort < BITS64
    case FlowMod(inDpid, outDpid, outPort, _, wildcards) =>
      0 <= inDpid < BITS64 && 0 <= outDpid < BITS64 && 0 <= outPort < BITS64 && 0 <= wildcards < BITS16
    case LoadReport(dpid, count) => 0 <= dpid < BITS64 && 0 <= count < BITS64
    case RoleNotify(dpid, lcid, role) => 0 <= dpid < BITS64 && 0 <= lcid < BITS32 && 0 <= role < BITS32
    case EchoRequest(timestamp) => 0 <= timestamp < BITS64
    case EchoReply(timestamp) => 0 <= timestamp < BITS64
    case HostConnected(dpid, _) => 0 <= dpid < BITS64
    case DatapathLeave(dpid) => 0 <= dpid < BITS64
    case HostLeave(dpid, _) => 0 <= dpid < BITS64
    case GraphInfo(json) => |json| + 12 < BITS16
    case _ => true
  }

  lemma Powers()
    ensures Pow256(1) == 0x100 && Pow256(2) == BITS16 && Pow256(4) == BITS32 && Pow256(8) == BITS64
  {
    assert Pow256(3) == 0x100_0000;
    assert Pow256(6) == 0x1_0000_0000_0000;
  }

  lemma Cons3<A>(a: A, b: A, c: A)
    ensures [a, b, c] == [a] + [b, c]
  {
  }

  lemma Cons5<A>(a: A, b: A, c: A, d: A, e: A)
    ensures [a, b, c, d, e] == [a] + ([b] + [c, d, e])
  {
  }

  lemma Cons7<A>(a: A, b: A, c: A, d: A, e: A, g: A, h: A)
    ensures [a, b, c, d, e, g, h] == [a] + ([b] + [c, d, e, g, h])
  {
  }

  ghost predicate FitAll(f: Format, v: seq<Value>) {
    |f| == |v| && forall i | 0 <= i < |f| :: Fits(f[i], v[i])
  }

  lemma FitOne(x: Field, y: Value)
    ensures FitAll([x], [y]) <==> Fits(x, y)
  {
    assert [x][0] == x;
  }

  lemma FitMore(x: Field, fmt: Format, y: Value, v: seq<Value>)
    ensures FitAll([x] + fmt, [y] + v) <==> Fits(x, y) && FitAll(fmt, v)
  {
    var f, u := [x] + fmt, [y] + v;
    if FitAll(f, u) {
      assert f[0] == x && u[0] == y;
      forall i | 0 <= i < |fmt| ensures Fits(fmt[i], v[i]) {
        assert f[i + 1] == fmt[i] && u[i + 1] == v[i];
      }
    }
  }

  lemma FitTwo(a: Field, b: Field, x: Value, y: Value)
    ensures FitAll([a, b], [x, y]) <==> Fits(a, x) && Fits(b, y)
  {
    assert [a, b] == [a] + [b] && [x, y] == [x] + [y];
    FitMore(a, [b], x, [y]);
    FitOne(b, y);
  }

  lemma FitThree(a: Field, b: Field, c: Field, x: Value, y: Value, z: Value)
    ensures FitAll([a, b, c], [x, y, z]) <==> Fits(a, x) && Fits(b, y) && Fits(c, z)
  {
    Cons3(a, b, c);
    Cons3(x, y, z);
    FitMore(a, [b, c], x, [y, z]);
    FitTwo(b, c, y, z);
  }

  lemma FitFive(a: Field, b: Field, c: Field, d: Field, e: Field, v: Value, w: Value, x: Value, y: Value, z: Value)
    ensures FitAll([a, b, c, d, e], [v, w, x, y, z]) <==>
            Fits(a, v) && Fits(b, w) && Fits(c, x) && Fits(d, y) && Fits(e, z)
  {
    Cons5(a, b, c, d, e);
    Cons5(v, w, x, y, z);
    FitMore(a, [b] + [c, d, e], v, [w] + [x, y, z]);
    FitMore(b, [c, d, e], w, [x, y, z]);
    FitThree(c, d, e, x, y, z);
  }

  lemma FitPacketIn(m: Msg)
    requires m.PacketIn?
    ensures FitAll(FormatOf(m), BodyValues(m)) <==> InRange(m)
  {
    var text := Field(Text, 17, 7);
    var rest := [Num(m.dstIp), Num(m.srcPort), Num(m.dstPort), Str(m.srcMac), Str(m.dstMac)];
    Powers();
    Cons7(U64, U64, U64, U64, U64, text, text);
    Cons7(Num(m.inDpid), Num(m.srcIp), Num(m.dstIp), Num(m.srcPort), Num(m.dstPort), Str(m.srcMac), Str(m.dstMac));
    FitMore(U64, [U64] + [U64, U64, U64, text, text], Num(m.inDpid), [Num(m.srcIp)] + rest);
    FitMore(U64, [U64, U64, U64, text, text], Num(m.srcIp), rest);
    FitFive(U64, U64, U64, text, text, Num(m.dstIp), Num(m.srcPort), Num(m.dstPort), Str(m.srcMac), Str(m.dstMac));
  }

  lemma FitFlowMod(m: Msg)
    requires m.FlowMod?
    ensures FitAll(FormatOf(m), BodyValues(m)) <==> InRange(m)
  {
    Powers();
    FitFive(U64, U64, U64, Field(Text, 17, 5), U16, Num(m.inDpid), Num(m.outDpid), Num(m.outPort), Str(m.dstMac),
            Num(m.wildcards));
  }

  lemma FitRoleAssign(m: Msg)
    requires m.RoleAssign?
    ensures FitAll(FormatOf(m), BodyValues(m)) <==> InRange(m)
  {
    Powers();
    assert FormatOf(m) == [U64] + [U32, U32, U64];
    assert BodyValues(m) == [Num(m.dpid)] + [Num(m.lcid), Num(m.role), Num(m.gid)];
    FitMore(U64, [U32, U32, U64], Num(m.dpid), [Num(m.lcid), Num(m.role), Num(m.gid)]);
    FitThree(U32, U32, U64, Num(m.lcid), Num(m.role), Num(m.gid));
  }

  lemma FitOneNumber(m: Msg)
    requires |FormatOf(m)| < 2 && !m.GraphInfo?
    ensures FitAll(FormatOf(m), BodyValues(m)) <==> InRange(m)
  {
    Powers();
    if FormatOf(m) != [] { FitOne(FormatOf(m)[0], BodyValues(m)[0]); }
  }

  lemma FitShort(m: Msg)
    requires |FormatOf(m)| <= 2 && !m.GraphInfo?
    ensures FitAll(FormatOf(m), BodyValues(m)) <==> InRange(m)
  {
    if |FormatOf(m)| < 2 {
      FitOneNumber(m);
    } else {
      Powers();
      FitTwo(FormatOf(m)[0], FormatOf(m)[1], BodyValues(m)[0], BodyValues(m)[1]);
    }
  }

  lemma FitGraphInfo(m: Msg)
    requires m.GraphInfo? && |m.json| < BITS32
    ensures FitAll(FormatOf(m), BodyValues(m)) && Size(FormatOf(m)) == 4 + |m.json|
  {
    Powers();
    var text := Field(Text, |m.json|, 0);
    FitTwo(LENGTH, text, Num(|m.json|), Str(m.json));
    assert [LENGTH, text][1..] == [text] && [text][1..] == [];
    assert Size([text]) == |m.json| + Size([]);
  }

  lemma FitRoleNotify(m: Msg)
    requires m.RoleNotify?
    ensures FitAll(FormatOf(m), BodyValues(m)) <==> InRange(m)
  {
    Powers();
    FitThree(U64, U32, U32, Num(m.dpid), Num(m.lcid), Num(m.role));
  }

  lemma FitBody(m: Msg)
    ensures !m.GraphInfo? ==> (FitAll(FormatOf(m), BodyValues(m)) <==> InRange(m))
  {
    match m
    case PacketIn(_, _, _, _, _, _, _) => FitPacketIn(m);
    case FlowMod(_, _, _, _, _) => FitFlowMod(m);
    case RoleAssign(_, _, _, _) => FitRoleAssign(m);
    case RoleNotify(_, _, _) => FitRoleNotify(m);
    case GraphInfo(_) =>
    case _ => FitShort(m);
  }

  lemma FitHead(t: byte, len: nat, xid: int)
    ensures FitAll(HEADER, [Num(VERSION), Num(t), Num(len), Num(xid)]) <==> len < BITS16 && 0 <= xid < BITS32
  {
    Powers();
    assert HEADER == [U8] + [U8, U16, U32];
    assert [Num(VERSION), Num(t), Num(len), Num(xid)] == [Num(VERSION)] + [Num(t), Num(len), Num(xid)];
    FitMore(U8, [U8, U16, U32], Num(VERSION), [Num(t), Num(len), Num(xid)]);
    FitThree(U8, U16, U32, Num(t), Num(len), Num(xid));
  }

  lemma {:induction false} SizeBound(f: Format, n: nat)
    requires forall i | 0 <= i < |f| :: FieldSize(f[i]) <= 24
    requires |f| <= n
    ensures Size(f) <= 24 * n
    decreases |f|
  {
    if f != [] { SizeBound(f[1..], n - 1); }
  }

  lemma ShortBody(m: Msg)
    requires !m.GraphInfo?
    ensures Size(FormatOf(m)) <= 168
  {
    SizeBound(FormatOf(m), 7);
  }

  lemma FrameFits(m: Msg, xid: int)
    ensures Frame(m, xid).Some? <==>
            FitAll(FormatOf(m), BodyValues(m)) && 8 + Size(FormatOf(m)) < BITS16 && 0 <= xid < BITS32
  {
    FitHead(TypeOf(m), 8 + Size(FormatOf(m)), xid);
  }

  lemma {:induction false} GraphInfoFits(m: Msg)
    requires m.GraphInfo?
    ensures FitAll(FormatOf(m), BodyValues(m)) && 8 + Size(FormatOf(m)) < BITS16 <==> InRange(m)
  {
    if |m.json| < BITS32 {
      FitGraphInfo(m);
    } else {
      Powers();
      FitTwo(LENGTH, Field(Text, |m.json|, 0), Num(|m.json|), Str(m.json));
    }
  }

  /** A message can be serialised exactly if its numbers are in range, and the text of a GRAPH_INFO leaves
      room for it in a length of 16 bits. */
  lemma FrameIff(m: Msg, xid: int)
    ensures Frame(m, xid).Some? <==> InRange(m) && 0 <= xid < BITS32
  {
    FrameFits(m, xid);
    if m.GraphInfo? {
      GraphInfoFits(m);
    } else {
      FitBody(m);
      ShortBody(m);
    }
  }
}
