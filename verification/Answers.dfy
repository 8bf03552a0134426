/**
 A packet that waits for the central controller's answer: how it comes to wait, and whether the answer
 sends it on.
 */
module Answers {
  import opened Base
  import opened Graphs
  import opened Fabric
  import opened FlowTables
  import opened Transit
  import L = LocalSteps
  import W = Wire

  /** The packet waits under `x`: its buffer at the switch, or else its data. */
  ghost predicate Waits(l: L.Local, x: nat, p: L.Packet) {
    && x in l.pending.packets && x in l.pending.buffers && l.pending.buffers[x] == p.buffer
    && l.pending.packets[x] == if p.buffer.None? then Some(p.data) else None
  }

  ghost predicate SameWaiting(l: L.Local, r: L.Local, y: nat) {
    && (y in r.pending.packets <==> y in l.pending.packets) && (y in r.pending.buffers <==> y in l.pending.buffers)
    && (y in l.pending.packets ==> r.pending.packets[y] == l.pending.packets[y])
    && (y in l.pending.buffers ==> r.pending.buffers[y] == l.pending.buffers[y])
  }

  /** The message names the packet's switch, and its hosts with their addresses and ports. */
  predicate Names(m: W.Msg, p: L.Packet) {
    && m.PacketIn? && m.inDpid == p.dpid
    && m.srcMac == p.src && m.srcIp == p.srcIp && m.srcPort == p.srcPort
    && m.dstMac == p.dst && m.dstIp == p.dstIp && m.dstPort == p.dstPort
  }

  /** From `h` to `r` a request for the packet was sent, and it waits under its xid from now on. No other
      packet's waiting changes, unless the xid is one that still waits. */
  ghost predicate Asked(h: L.Local, r: L.Local, p: L.Packet, now: int) {
    && |r.sent| == |h.sent| + 1 && h.sent <= r.sent && r.out == h.out
    && var last := r.sent[|h.sent|];
       && Names(last.0, p) && Waits(r, last.1, p) && last.1 in r.pending.stamps && r.pending.stamps[last.1] == now
       && forall y | y != last.1 :: SameWaiting(h, r, y)
  }

  lemma AskAsks(h: L.Local, p: L.Packet, now: int)
    ensures Asked(h, L.Ask(h, p, now), p, now)
  {
  }

  /** A packet for an unknown host, no broadcast and no protocol frame, makes a request. */
  lemma UnknownAsks(l: L.Local, p: L.Packet, now: int, path: seq<Node>)
    requires L.LocalInv(l) && p.dpid in l.load && p.dst != L.LLDP_MAC
    requires Host(p.dst) !in L.Heard(l, p).fabric.nodes && p.dst != L.BROADCAST_MAC && L.NotProtocol(p.dst)
    ensures L.PacketIn(l, p, now, path).1 && Asked(L.Heard(l, p), L.PacketIn(l, p, now, path).0, p, now)
    ensures L.Heard(l, p).pending == l.pending && L.Heard(l, p).out == l.out
  {
    L.HeardLearns(l, p);
    AskAsks(L.Heard(l, p), p, now);
  }

  /** The frames that are kept from the central controller are those whose destination begins with 33. */
  lemma ProtocolFrames(dst: Mac)
    ensures L.NotProtocol(dst) <==> !(L.Ascii("33") <= dst)
  {
    assert L.Ascii("33") == ['3' as int, '3' as int];
  }

  /** A broadcast to an unknown host is flooded, with its data if it has no buffer; a protocol frame is not
      sent anywhere. Neither waits. */
  lemma OthersDoNotWait(l: L.Local, p: L.Packet, now: int, path: seq<Node>)
    requires L.LocalInv(l) && p.dpid in l.load && p.dst != L.LLDP_MAC && Host(p.dst) !in L.Heard(l, p).fabric.nodes
    requires p.dst == L.BROADCAST_MAC || !L.NotProtocol(p.dst)
    ensures var r := L.PacketIn(l, p, now, path);
            && r.1 && r.0.pending == l.pending
            && (p.dst == L.BROADCAST_MAC ==>
                  exists m :: r.0.out == l.out + [m] && m.PacketOut? && m.dpid == p.dpid && m.inPort == p.inPort
                              && m.out.Flood? && m.buffer == p.buffer
                              && (m.data == if p.buffer.None? then Some(p.data) else None))
            && (p.dst != L.BROADCAST_MAC ==> r.0.out == l.out)
  {
    L.HeardLearns(l, p);
    if p.dst == L.BROADCAST_MAC {
      var r := L.PacketIn(l, p, now, path).0;
      assert r.out == l.out + [r.out[|l.out|]];
    }
  }

  /** The packet goes on: its buffer is released, or its data is sent out of the region's port, under the
      number of the switch it came in at for a port. */
  ghost predicate SentOn(msgs: seq<ToSwitch>, p: L.Packet, outDpid: Dpid, out: Port) {
    if p.buffer.Some? then exists m :: m in msgs && m.FlowAdd? && m.dpid == p.dpid && m.buffer == p.buffer
    else exists m :: m in msgs && m.PacketOut? && m.dpid == outDpid && m.inPort == p.dpid && m.out == To(out)
                     && m.buffer == None && m.data == Some(p.data)
  }

  lemma {:induction false} LoopUnbuffered(f: Fabric, dps: set<Dpid>, path: seq<Node>, i: nat, n: nat, k: Match)
    requires n < |path|
    ensures forall m | m in LoopRules(f, dps, path, i, n, k).0 :: m.FlowAdd? && m.buffer.None?
    decreases n - i
  {
    if i < n && HopPort(f, path[i], path[i + 1]).Some? { LoopUnbuffered(f, dps, path, i + 1, n, k); }
  }

  lemma BufferedSendOn(head: ToSwitch, mid: seq<ToSwitch>, last: ToSwitch, p: L.Packet, outDpid: Dpid, out: Port)
    requires p.buffer.Some? && head.FlowAdd? && head.dpid == p.dpid && head.buffer == Released(p.buffer)
    requires last.FlowAdd? && last.buffer.None? && forall m | m in mid :: m.FlowAdd? && m.buffer.None?
    ensures SentOn([head] + mid + [last], p, outDpid, out) <==> p.buffer != Some(0)
  {
    var msgs := [head] + mid + [last];
    assert msgs[0] == head && head in msgs;
    assert forall m | m in msgs :: m == head || m in mid || m == last;
  }

  lemma HereSendOn(p: L.Packet, k: Match, outDpid: Dpid, out: Port)
    ensures SentOn([FlowAdd(p.dpid, k, out, Released(p.buffer))], p, outDpid, out) <==>
            p.buffer.Some? && p.buffer != Some(0)
  {
    var m := FlowAdd(p.dpid, k, out, Released(p.buffer));
    assert m in [m];
  }

  lemma UnbufferedSendOn(all: seq<ToSwitch>, add: ToSwitch, p: L.Packet, outDpid: Dpid, out: Port)
    requires p.buffer.None?
    ensures SentOn(all + [add, PacketOut(outDpid, p.dpid, To(out), None, Some(p.data))], p, outDpid, out)
  {
    var last := PacketOut(outDpid, p.dpid, To(out), None, Some(p.data));
    assert last in all + [add, last];
  }

  lemma ConnectedRules(f: Fabric, dps: set<Dpid>, path: seq<Node>, s: Dpid, t: Dpid, k: Match)
    requires GoodPath(f, dps, path, s, t) && s != t
    ensures |path| > 1 && HopPort(f, path[0], path[1]).Some? && s in dps && t in dps
    ensures LoopRules(f, dps, path, 0, |path| - 1, k).1 && LoopRules(f, dps, path, 1, |path| - 1, k).1
  {
    PathHops(f, path, s, t);
    GoodPathHops(f, dps, path, s, t);
    AllConnected(dps, path, 0);
    AllConnected(dps, path, 1);
    LoopRulesInWay(f, dps, path, 0, k, WayOf(f, path, 0));
    LoopRulesInWay(f, dps, path, 1, k, WayOf(f, path, 0));
  }

  /** Whether the messages of an answer send the packet on, along a path of connected switches */
  lemma MsgsSendOn(f: Fabric, dps: set<Dpid>, path: seq<Node>, p: L.Packet, outDpid: Dpid, k: Match, out: Port,
                   data: Option<seq<byte>>)
    requires GoodPath(f, dps, path, p.dpid, outDpid) && data == if p.buffer.None? then Some(p.data) else None
    ensures path != [] && SentOn(FlowModMsgs(f, dps, path, p.dpid, outDpid, k, out, p.buffer, data).0, p, outDpid, out)
            <==> if p.buffer.Some? then p.buffer != Some(0) else p.dpid != outDpid
  {
    GoodPathConnected(f, dps, path, p.dpid, outDpid);
    if p.dpid == outDpid {
      HereSendOn(p, k, outDpid, out);
    } else {
      ConnectedRules(f, dps, path, p.dpid, outDpid, k);
      var n := |path| - 1;
      if p.buffer.Some? {
        LoopUnbuffered(f, dps, path, 1, n, k);
        BufferedSendOn(FlowAdd(p.dpid, k, HopPort(f, path[0], path[1]).value, Released(p.buffer)),
                       LoopRules(f, dps, path, 1, n, k).0, FlowAdd(outDpid, k, out, None), p, outDpid, out);
      } else {
        UnbufferedSendOn(LoopRules(f, dps, path, 0, n, k).0, FlowAdd(outDpid, k, out, None), p, outDpid, out);
      }
    }
  }

  /** The answer to a request, along a path of connected switches. The packet does not wait any more, and it
      is sent on exactly if it is in a buffer other than number 0, or without a buffer leaves the domain by
      another switch than it came in at: a buffer with number 0 is not released, and the data of a packet
      that would leave by its own switch is thrown away. */
  lemma AnswerSendsOn(l: L.Local, x: nat, p: L.Packet, outDpid: Dpid, out: Port, dst: Mac, path: seq<Node>)
    returns (msgs: seq<ToSwitch>)
    requires L.LocalInv(l) && Waits(l, x, p) && outDpid in l.isWin && Sw(p.dpid) in l.fabric.nodes
    requires Sw(outDpid) in l.fabric.nodes && GoodPath(l.fabric, l.datapaths, path, p.dpid, outDpid)
    ensures var r := L.FlowMod(l, x, p.dpid, outDpid, out, dst, path);
            && r.1 && r.0.out == l.out + msgs
            && x !in r.0.pending.packets && forall y | y != x :: SameWaiting(l, r.0, y)
    ensures SentOn(msgs, p, outDpid, out) <==> if p.buffer.Some? then p.buffer != Some(0) else p.dpid != outDpid
  {
    var data := l.pending.packets[x];
    MsgsSendOn(l.fabric, l.datapaths, path, p, outDpid, EthDst(dst), out, data);
    BranchesAgree(l.fabric, l.datapaths, path, p.dpid, outDpid, EthDst(dst), out, p.buffer, data);
    msgs := FlowModMsgs(l.fabric, l.datapaths, path, p.dpid, outDpid, EthDst(dst), out, p.buffer, data).0;
    GoodPathConnected(l.fabric, l.datapaths, path, p.dpid, outDpid);
    AnswerDone(l, x, p.dpid, outDpid, out, dst, path);
  }

  lemma GoodPathConnected(f: Fabric, dps: set<Dpid>, path: seq<Node>, s: Dpid, t: Dpid)
    requires GoodPath(f, dps, path, s, t)
    ensures s in dps && path != []
  {
    assert path[0] in path;
  }

  lemma AnswerDone(l: L.Local, x: nat, s: Dpid, t: Dpid, out: Port, dst: Mac, path: seq<Node>)
    requires L.LocalInv(l) && x in l.pending.packets && t in l.isWin && s in l.datapaths && path != []
    requires Sw(s) in l.fabric.nodes && Sw(t) in l.fabric.nodes
    ensures x in l.pending.buffers
    ensures var r := L.FlowMod(l, x, s, t, out, dst, path);
            var m := FlowModMsgs(l.fabric, l.datapaths, path, s, t, EthDst(dst), out, l.pending.buffers[x],
                                 l.pending.packets[x]);
            && r.0.out == l.out + m.0 && r.1 == m.1
            && x !in r.0.pending.packets && forall y | y != x :: SameWaiting(l, r.0, y)
  {
  }
}
