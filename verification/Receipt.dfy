/** Which end of a connection takes which messages, and what the handlers make of other ones. */
module Receipt {
  import opened Base
  import opened Wire

  /** The messages of the central controller */
  predicate Down(m: Msg) {
    || m.HelloDown? || m.RoleAssign? || m.GidReply? || m.FlowMod? || m.EchoRequest? || m.BarrierRequest?
    || m.SwitchMapUpdate?
  }

  /** The agent of a local controller takes those, the central controller all others. */
  lemma EachItsOwn(m: Msg)
    ensures Travels(Agent, m) <==> Down(m)
    ensures Travels(Central, m) <==> !Down(m)
  {
  }

  /** A message that comes the wrong way raises at the central controller and is passed over by the agent,
      whatever bytes it has. */
  lemma WrongWay(side: Side, m: Msg, xid: nat, buf: seq<byte>)
    ensures Down(m) != side.Agent? ==> Dispatch(side, TypeOf(m), xid, buf) == if side.Central? then Raises else Silent
  {
    EachItsOwn(m);
  }

  /** One of the right way raises exactly if the receive buffer, not the frame, has fewer bytes than a
      frame of its type; what the frame says of its own length does not count. */
  lemma ShortRaises(side: Side, m: Msg, xid: int, x: nat, buf: seq<byte>)
    requires Frame(m, xid).Some? && Travels(side, m) && !m.GraphInfo? && |buf| >= HEADER_SIZE
    ensures Dispatch(side, TypeOf(m), x, buf).Raises? <==> |buf| < |Frame(m, xid).value|
    ensures !Dispatch(side, TypeOf(m), x, buf).Silent?
  {
    FrameHeader(m, xid, []);
    assert |Frame(m, xid).value| == HEADER_SIZE + Size(FormatOf(m));
  }
}
