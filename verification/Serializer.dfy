/** The outgoing side of msg_proto_parser.py: a message object whose buffer is built in place. */
module Serializer {
  import opened Base
  import opened Wire
  import L = Layout

  /** `buf` with zeros up to `n` bytes. */
  function Grown(buf: seq<byte>, n: nat): seq<byte> {
    if |buf| < n then buf + Zeros(n - |buf|) else buf
  }

  /** What writing `bytes` at `offset` must mean: exactly those positions hold the new bytes, the
      others keep theirs, and a gap before `offset` is zero. */
  ghost predicate Written(before: seq<byte>, offset: nat, bytes: seq<byte>, after: seq<byte>)
  {
    && |after| == (if |before| < offset + |bytes| then offset + |bytes| else |before|)
    && forall k | 0 <= k < |after| :: after[k] ==
         if offset <= k < offset + |bytes| then bytes[k - offset]
         else if k < |before| then before[k] else 0
  }

  lemma WrittenAppended(before: seq<byte>, offset: nat, bytes: seq<byte>)
    ensures |before| <= offset ==> Written(before, offset, bytes, Grown(before, offset) + bytes)
  {
  }

  lemma WrittenOver(before: seq<byte>, offset: nat, bytes: seq<byte>)
    ensures |before| > offset ==>
              var g := Grown(before, offset + |bytes|);
              Written(before, offset, bytes, g[..offset] + bytes + g[offset + |bytes|..])
  {
  }

  lemma WrittenHead(before: seq<byte>, body: seq<byte>, head: seq<byte>, after: seq<byte>)
    requires before == Zeros(HEADER_SIZE) + body && |head| == HEADER_SIZE
    requires Written(before, 0, head, after)
    ensures after == head + body
  {
  }

  function XidOrZero(xid: Option<int>): int {
    if xid.Some? then xid.value else 0
  }

  class OutMsg {
    const msg: Msg
    var xid: Option<int>
    var buf: seq<byte>

    constructor (msg: Msg)
      ensures this.msg == msg && xid == None && buf == []
    {
      this.msg, xid, buf := msg, None, [];
    }

    /** msg_pack_into: three branches, one meaning. */
    method MsgPackInto(fmt: Format, offset: nat, args: seq<Value>) returns (ok: bool)
      modifies this`buf
      ensures ok == Pack(fmt, args).Some?
      ensures ok ==> Written(old(buf), offset, Pack(fmt, args).value, buf)
    {
      var packed := Pack(fmt, args);
      ok := packed.Some?;
      if ok {
        WrittenAppended(buf, offset, packed.value);
        WrittenOver(buf, offset, packed.value);
      }
      if |buf| < offset {
        buf := buf + Zeros(offset - |buf|);
      }
      if |buf| == offset {
        if ok {
          buf := buf + packed.value;
        }
      } else {
        buf := Grown(buf, offset + Size(fmt));
        if ok {
          buf := buf[..offset] + packed.value + buf[offset + |packed.value|..];
        }
      }
    }

    method SerializeBody() returns (ok: bool)
      requires |buf| == HEADER_SIZE
      modifies this`buf
      ensures ok == Pack(FormatOf(msg), BodyValues(msg)).Some?
      ensures ok ==> buf == old(buf) + Pack(FormatOf(msg), BodyValues(msg)).value
    {
      if BodyValues(msg) == [] && FormatOf(msg) == [] {
        return true;
      }
      ok := MsgPackInto(FormatOf(msg), HEADER_SIZE, BodyValues(msg));
    }

    /** serialize: eight zero bytes, the body, then the header written over the zeros. */
    method Serialize() returns (ok: bool)
      modifies this
      ensures ok == Frame(msg, XidOrZero(old(xid))).Some?
      ensures ok ==> buf == Frame(msg, XidOrZero(old(xid))).value && xid == Some(XidOrZero(old(xid)))
      ensures ok == (L.InRange(msg) && 0 <= XidOrZero(old(xid)) < L.BITS32)
      ensures ok ==> L.Lies(msg, XidOrZero(old(xid)), buf)
    {
      L.FrameIff(msg, XidOrZero(xid));
      buf := Zeros(HEADER_SIZE);
      ok := SerializeBody();
      if !ok {
        return;
      }
      ghost var body := Pack(FormatOf(msg), BodyValues(msg)).value;
      ghost var before := buf;
      var len := |buf|;
      if xid == None {
        xid := Some(0);
      }
      HeaderSize();
      ok := MsgPackInto(HEADER, 0, [Num(VERSION), Num(TypeOf(msg)), Num(len), Num(xid.value)]);
      if ok {
        WrittenHead(before, body, Pack(HEADER, [Num(VERSION), Num(TypeOf(msg)), Num(len), Num(xid.value)]).value, buf);
        L.FrameLies(msg, xid.value);
      }
    }
  }
}
