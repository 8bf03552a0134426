/**
 Packets that wait for an answer of the central controller, keyed by the xid of the request, and
 the xid counter of the agent.
 */
module Pending {
  import opened Base

  const MAX_XID: nat := 0xffff_ffff
  const XIDS: nat := 0x1_0000_0000

  /** PACKET_OUT_TIMEOUT, in tenths of a millisecond like the timestamps. */
  const TIMEOUT: int := 65536

  /** xid_to_packet, xid_to_packet_timestamp and xid_to_buffer_id; no buffer is OFP_NO_BUFFER. */
  datatype Pending = Pending(
    packets: map<nat, Option<seq<byte>>>,
    stamps: map<nat, int>,
    buffers: map<nat, Option<nat>>)

  const NONE := Pending(map[], map[], map[])

  /** The three maps have the same keys. */
  predicate Aligned(p: Pending) {
    p.packets.Keys == p.stamps.Keys == p.buffers.Keys
  }

  /** set_xid counts up within 32 bits. */
  function NextXid(xid: nat): (r: nat)
    ensures r <= MAX_XID
  {
    (xid + 1) % XIDS
  }

  function Register(p: Pending, xid: nat, now: int, buffer: Option<nat>, data: seq<byte>): Pending {
    Pending(p.packets[xid := if buffer.None? then Some(data) else None], p.stamps[xid := now], p.buffers[xid := buffer])
  }

  function Without(p: Pending, xids: set<nat>): Pending {
    Pending(p.packets - xids, p.stamps - xids, p.buffers - xids)
  }

  function Take(p: Pending, xid: nat): Pending {
    Without(p, {xid})
  }

  function Overdue(p: Pending, now: int): set<nat> {
    set x | x in p.stamps && now - p.stamps[x] > TIMEOUT
  }

  function Expire(p: Pending, now: int): Pending {
    Without(p, Overdue(p, now))
  }

  /** The timeout takes exactly the packets that waited longer than 65536 tenths of a millisecond; the
      others keep data, buffer and time. */
  lemma ExpireExact(p: Pending, now: int, x: nat)
    requires Aligned(p)
    ensures var q := Expire(p, now);
            && Aligned(q) && (x in q.packets <==> x in p.packets && now <= p.stamps[x] + 65536)
            && (x in q.packets ==>
                  q.packets[x] == p.packets[x] && q.stamps[x] == p.stamps[x] && q.buffers[x] == p.buffers[x])
  {
  }

  // ---------------------------------------------------------------------------
  // Runs
  // ---------------------------------------------------------------------------

  /** The agent: its counter started at `start`, `draws` xids were drawn since, and `born` says with
      which draw each waiting request got its xid. */
  datatype Agent = Agent(start: nat, draws: nat, pending: Pending, born: map<nat, nat>)

  /** Another message is sent; a request is registered; an answer comes; the timeout runs. */
  datatype Event =
    | Draw
    | Request(now: int, buffer: Option<nat>, data: seq<byte>)
    | Answer(xid: nat)
    | Tick(now: int)

  function XidAfter(start: nat, draws: nat): nat {
    (start + draws) % XIDS
  }

  function Step(a: Agent, e: Event): Agent
  {
    match e
    case Draw => a.(draws := a.draws + 1)
    case Request(now, buffer, data) =>
      var n := a.draws + 1;
      var xid := XidAfter(a.start, n);
      a.(draws := n, pending := Register(a.pending, xid, now, buffer, data), born := a.born[xid := n])
    case Answer(xid) =>
      if xid in a.pending.packets then a.(pending := Take(a.pending, xid), born := a.born - {xid}) else a
    case Tick(now) => a.(pending := Expire(a.pending, now), born := a.born - Overdue(a.pending, now))
  }

  ghost predicate AgentInv(a: Agent) {
    && Aligned(a.pending) && a.born.Keys == a.pending.packets.Keys
    && forall x | x in a.born :: a.born[x] <= a.draws && x == XidAfter(a.start, a.born[x])
  }

  ghost predicate Run(s: seq<Agent>, es: seq<Event>) {
    && |s| == |es| + 1 && s[0].pending == NONE && s[0].born == map[]
    && forall i | 0 <= i < |es| :: s[i + 1] == Step(s[i], es[i])
  }

  /** In every run the three maps agree on their keys: an answer and the timeout clear all three. */
  lemma {:induction false} RunAligned(s: seq<Agent>, es: seq<Event>, n: nat)
    requires Run(s, es) && n < |s|
    ensures AgentInv(s[n])
  {
    if n > 0 {
      RunAligned(s, es, n - 1);
    }
  }

  /** A multiple of 2^32 */
  predicate Whole(n: int) {
    n % XIDS == 0
  }

  lemma NotWhole(n: int)
    requires 0 < n < XIDS
    ensures !Whole(n)
  {
  }

  /** By the next draw a multiple of 2^32 xids will have been drawn since some waiting request's. */
  ghost predicate Clashes(a: Agent) {
    exists x :: x in a.born && Whole(a.draws + 1 - a.born[x])
  }

  /** Two live requests come to share an xid exactly when the older one has seen a positive multiple
      of 2^32 draws; so never, while fewer than 2^32 xids are drawn between registration and removal. */
  lemma XidClash(s: seq<Agent>, es: seq<Event>, n: nat)
    requires Run(s, es) && n < |s|
    ensures NextXid(XidAfter(s[n].start, s[n].draws)) in s[n].pending.packets <==> Clashes(s[n])
    ensures (forall x | x in s[n].born :: s[n].draws + 1 - s[n].born[x] < XIDS) ==> !Clashes(s[n])
  {
    RunAligned(s, es, n);
    AllMarked(s[n]);
    MarkedClash(s[n]);
    if forall x | x in s[n].born :: s[n].draws + 1 - s[n].born[x] < XIDS {
      forall x | x in s[n].born ensures !Whole(s[n].draws + 1 - s[n].born[x]) {
        assert s[n].born[x] <= s[n].draws;
        NotWhole(s[n].draws + 1 - s[n].born[x]);
      }
    }
  }

  /** The waiting request that has the next xid is the one that a whole round was drawn since. */
  ghost predicate Marked(a: Agent) {
    && a.born.Keys == a.pending.packets.Keys
    && forall x | x in a.born ::
         x == NextXid(XidAfter(a.start, a.draws)) <==> Whole(a.draws + 1 - a.born[x])
  }

  lemma AllMarked(a: Agent)
    requires AgentInv(a)
    ensures Marked(a)
  {
    NextIsAfter(a.start, a.draws);
    forall x | x in a.born
      ensures x == NextXid(XidAfter(a.start, a.draws)) <==> Whole(a.draws + 1 - a.born[x]) {
      SameResidue(a.start + a.draws + 1, a.start + a.born[x]);
    }
  }

  lemma MarkedClash(a: Agent)
    requires Marked(a)
    ensures NextXid(XidAfter(a.start, a.draws)) in a.pending.packets <==> Clashes(a)
  {
    var x := NextXid(XidAfter(a.start, a.draws));
    if x in a.born { assert Whole(a.draws + 1 - a.born[x]); }
  }

  lemma NextIsAfter(start: nat, draws: nat)
    ensures NextXid(XidAfter(start, draws)) == XidAfter(start, draws + 1)
  {
  }

  lemma SameResidue(a: nat, b: nat)
    ensures a % XIDS == b % XIDS <==> Whole(a - b)
  {
    var q, r := a / XIDS, b / XIDS;
    assert a == XIDS * q + a % XIDS && b == XIDS * r + b % XIDS;
    assert a - b == XIDS * (q - r) + (a % XIDS - b % XIDS);
  }
}
