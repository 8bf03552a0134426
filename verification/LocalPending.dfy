/**
 The runs of the local controller's handlers as runs of its agent: what each handler does to the xid
 counter and to the packets that wait, so that what `Pending` says of xids holds of the handlers.
 */
module LocalPending {
  import opened Base
  import opened Fabric
  import opened LocalSteps
  import P = Pending
  import W = Wire

  /** One call of a handler, or another message that the agent sends under a new xid */
  datatype Move =
    | Arrives(p: Packet, now: int, path: seq<Node>)
    | Ordered(xid: nat, inDpid: Dpid, outDpid: Dpid, out: Port, dst: Mac, path: seq<Node>)
    | Features(dpid: Dpid)
    | Topology(switches: set<Dpid>, windows: set<Dpid>, links: seq<Link>, json: seq<byte>, texts: bool)
    | Leaves(dpid: Dpid)
    | TimesOut(now: int)
    | Sends(m: W.Msg)

  ghost function Moved(l: Local, m: Move): Local
    requires LocalInv(l)
  {
    match m
    case Arrives(p, now, path) => PacketIn(l, p, now, path).0
    case Ordered(xid, inDpid, outDpid, out, dst, path) => FlowMod(l, xid, inDpid, outDpid, out, dst, path).0
    case Features(d) => SwitchFeatures(l, d)
    case Topology(switches, windows, links, json, texts) => TopologyData(l, switches, windows, links, json, texts).0
    case Leaves(d) => SwitchLeave(l, d).0
    case TimesOut(now) => l.(pending := P.Expire(l.pending, now))
    case Sends(msg) => Send(l, msg)
  }

  lemma MovedKeeps(l: Local, m: Move)
    requires LocalInv(l)
    ensures LocalInv(Moved(l, m))
  {
    match m
    case Arrives(p, now, path) => PacketInKeeps(l, p, now, path);
    case Ordered(_, _, _, _, _, _) =>
    case Features(d) => FeaturesKeep(l, d);
    case Topology(switches, windows, links, json, texts) => TopologyKeeps(l, switches, windows, links, json, texts);
    case Leaves(d) => SwitchLeaveKeeps(l, d);
    case TimesOut(_) =>
    case Sends(_) =>
  }

  /** The last request the agent sent under `x` is `sent[j]`. */
  ghost predicate AskedAt(sent: seq<(W.Msg, nat)>, x: nat, j: nat) {
    && j < |sent| && sent[j].0.PacketIn? && sent[j].1 == x
    && forall i | j < i < |sent| && sent[i].0.PacketIn? :: sent[i].1 != x
  }

  /** Each packet waits since its request was sent. */
  ghost predicate Since(b: nat, born: map<nat, nat>, sent: seq<(W.Msg, nat)>) {
    forall x | x in born :: 1 <= born[x] && AskedAt(sent, x, b + born[x] - 1)
  }

  /** The agent drew one xid for each message sent after the first `b`. */
  ghost predicate Waits(b: nat, a: P.Agent, l: Local) {
    |l.sent| == b + a.draws && a.born.Keys == l.pending.packets.Keys && Since(b, a.born, l.sent)
  }

  /** And it has the handlers' counter and waiting packets. */
  ghost predicate Tracks(b: nat, a: P.Agent, l: Local) {
    a.pending == l.pending && P.XidAfter(a.start, a.draws) == l.xid && Waits(b, a, l)
  }

  function AfterAll(a: P.Agent, es: seq<P.Event>): P.Agent {
    if es == [] then a else P.Step(AfterAll(a, es[..|es| - 1]), es[|es| - 1])
  }

  lemma {:induction false} AfterConcat(a: P.Agent, es: seq<P.Event>, fs: seq<P.Event>)
    ensures AfterAll(a, es + fs) == AfterAll(AfterAll(a, es), fs)
  {
    if fs == [] {
      assert es + fs == es;
    } else {
      assert (es + fs)[..|es + fs| - 1] == es + fs[..|fs| - 1];
      AfterConcat(a, es, fs[..|fs| - 1]);
    }
  }

  lemma AfterOne(a: P.Agent, e: P.Event)
    ensures AfterAll(a, [e]) == P.Step(a, e)
  {
    assert [e][..0] == [];
  }

  /** The same packets wait, and `n` messages other than requests were sent. */
  ghost predicate Drew(l: Local, l': Local, n: nat) {
    && l'.pending == l.pending && l.sent <= l'.sent && |l'.sent| == |l.sent| + n
    && l'.xid == (if n == 0 then l.xid else P.XidAfter(l.xid, n))
    && forall i | |l.sent| <= i < |l'.sent| :: !l'.sent[i].0.PacketIn?
  }

  function Draws(n: nat): seq<P.Event> {
    seq(n, _ => P.Draw)
  }

  lemma {:induction false} AfterDraws(a: P.Agent, n: nat)
    ensures AfterAll(a, Draws(n)) == a.(draws := a.draws + n)
  {
    if n > 0 {
      assert Draws(n)[..n - 1] == Draws(n - 1);
      AfterDraws(a, n - 1);
    }
  }

  /** Messages that are no requests change nothing. */
  lemma SinceStill(b: nat, born: map<nat, nat>, sent: seq<(W.Msg, nat)>, more: seq<(W.Msg, nat)>)
    requires Since(b, born, sent) && sent <= more && forall i | |sent| <= i < |more| :: !more[i].0.PacketIn?
    ensures Since(b, born, more)
  {
    forall x | x in born ensures 1 <= born[x] && AskedAt(more, x, b + born[x] - 1) {
      assert AskedAt(sent, x, b + born[x] - 1);
    }
  }

  lemma DrewXid(a: P.Agent, l: Local, l': Local, n: nat)
    requires P.XidAfter(a.start, a.draws) == l.xid && Drew(l, l', n)
    ensures P.XidAfter(a.start, a.draws + n) == l'.xid
  {
  }

  lemma DrewTracks(b: nat, a: P.Agent, l: Local, l': Local, n: nat)
    requires Tracks(b, a, l) && Drew(l, l', n)
    ensures Tracks(b, AfterAll(a, Draws(n)), l')
  {
    AfterDraws(a, n);
    DrewXid(a, l, l', n);
    SinceStill(b, a.born, l.sent, l'.sent);
  }

  /** Learning a host sends no message if it is known, else one, and one more if it takes the
      place of another. */
  ghost function HeardDraws(l: Local, p: Packet): nat
    requires LocalInv(l) && p.dpid in l.load
  {
    if Host(p.src) in l.fabric.nodes || p.inPort in l.inter[p.dpid] then 0
    else if HostsOn(l.fabric, p.dpid, p.inPort) == {} then 1
    else 2
  }

  lemma ClearDrew(l: Local, d: Dpid, p: Port)
    requires d in l.fabric.macs
    ensures Drew(l, Clear(l, d, p), if HostsOn(l.fabric, d, p) == {} then 0 else 1)
  {
  }

  lemma EnterDrew(l: Local, d: Dpid, p: Port, src: Mac)
    requires d in l.fabric.macs
    ensures Drew(l, Enter(l, d, p, src), if HostsOn(l.fabric, d, p) == {} then 1 else 2)
  {
    ClearDrew(l, d, p);
    var c := Clear(l, d, p);
    SendDrew(c, c.(fabric := Attach(c.fabric, d, p, src)), W.HostConnected(d, src));
    DrewMore(l, c, Enter(l, d, p, src), if HostsOn(l.fabric, d, p) == {} then 0 else 1);
  }

  lemma SendDrew(l: Local, m: Local, msg: W.Msg)
    requires m.pending == l.pending && m.xid == l.xid && m.sent == l.sent && !msg.PacketIn?
    ensures Drew(l, Send(m, msg), 1)
  {
  }

  lemma DrewMore(l: Local, m: Local, l': Local, n: nat)
    requires Drew(l, m, n) && Drew(m, l', 1)
    ensures Drew(l, l', n + 1)
  {
  }

  lemma HeardDrew(l: Local, p: Packet)
    requires LocalInv(l) && p.dpid in l.load
    ensures Drew(l, Heard(l, p), HeardDraws(l, p))
  {
    if HeardDraws(l, p) > 0 {
      var c := l.(load := l.load[p.dpid := l.load[p.dpid] + 1]);
      EnterDrew(c, p.dpid, p.inPort, p.src);
    }
  }

  /** The destination is unknown and worth a request. */
  predicate Asks(h: Local, p: Packet) {
    Host(p.dst) !in h.fabric.nodes && p.dst != BROADCAST_MAC && NotProtocol(p.dst)
  }

  lemma AskKeepsAsked(sent: seq<(W.Msg, nat)>, m: W.Msg, x: nat, y: nat, j: nat)
    requires AskedAt(sent, y, j) && x != y
    ensures AskedAt(sent + [(m, x)], y, j)
  {
  }

  lemma SinceMore(b: nat, born: map<nat, nat>, sent: seq<(W.Msg, nat)>, m: W.Msg, x: nat)
    requires Since(b, born, sent) && m.PacketIn? && b <= |sent|
    ensures Since(b, born[x := |sent| - b + 1], sent + [(m, x)])
  {
    var more := sent + [(m, x)];
    assert AskedAt(more, x, |sent|);
    forall y | y in born && y != x ensures 1 <= born[y] && AskedAt(more, y, b + born[y] - 1) {
      AskKeepsAsked(sent, m, x, y, b + born[y] - 1);
    }
  }

  lemma AskTracks(b: nat, a: P.Agent, h: Local, p: Packet, now: int)
    requires Tracks(b, a, h)
    ensures Tracks(b, P.Step(a, P.Request(now, p.buffer, p.data)), Ask(h, p, now))
  {
    P.NextIsAfter(a.start, a.draws);
    SinceMore(b, a.born, h.sent, Request(p), P.NextXid(h.xid));
  }

  ghost function RouteEvents(h: Local, p: Packet, now: int): seq<P.Event> {
    if Asks(h, p) then [P.Request(now, p.buffer, p.data)] else []
  }

  lemma RouteTracks(b: nat, a: P.Agent, h: Local, p: Packet, now: int, path: seq<Node>)
    requires Tracks(b, a, h)
    ensures Tracks(b, AfterAll(a, RouteEvents(h, p, now)), Route(h, p, now, path).0)
  {
    if Asks(h, p) {
      AskTracks(b, a, h, p, now);
      AfterOne(a, P.Request(now, p.buffer, p.data));
    } else {
      RouteKeepsAgent(h, p, now, path);
    }
  }

  lemma RouteKeepsAgent(h: Local, p: Packet, now: int, path: seq<Node>)
    requires !Asks(h, p)
    ensures var r := Route(h, p, now, path).0; r.pending == h.pending && r.xid == h.xid && r.sent == h.sent
  {
  }

  lemma TakeNothing(p: P.Pending, xid: nat)
    requires P.Aligned(p) && xid !in p.packets
    ensures P.Take(p, xid) == p
  {
    assert P.Take(p, xid).packets == p.packets && P.Take(p, xid).stamps == p.stamps
           && P.Take(p, xid).buffers == p.buffers;
  }

  /** What a handler is to the agent: draws, a request, an answer or the timeout. */
  ghost function EventsOf(l: Local, m: Move): seq<P.Event>
    requires LocalInv(l)
  {
    match m
    case Arrives(p, now, path) =>
      if p.dpid !in l.load || p.dst == LLDP_MAC then []
      else Draws(HeardDraws(l, p)) + RouteEvents(Heard(l, p), p, now)
    case Ordered(xid, inDpid, outDpid, _, _, _) =>
      if outDpid in l.isWin && inDpid in l.datapaths then [P.Answer(xid)] else []
    case Features(_) => Draws(1)
    case Topology(_, windows, _, _, texts) => Draws(if windows != {} && !texts then 0 else 1)
    case Leaves(d) => Draws(if Sw(d) in l.fabric.nodes && d in l.datapaths then 1 else 0)
    case TimesOut(now) => [P.Tick(now)]
    case Sends(_) => Draws(1)
  }

  lemma ArrivalTracks(b: nat, a: P.Agent, l: Local, m: Move)
    requires Tracks(b, a, l) && LocalInv(l) && m.Arrives?
    ensures Tracks(b, AfterAll(a, EventsOf(l, m)), Moved(l, m))
  {
    var p := m.p;
    if p.dpid in l.load && p.dst != LLDP_MAC {
      var h, first := Heard(l, p), Draws(HeardDraws(l, p));
      HeardDrew(l, p);
      DrewTracks(b, a, l, h, HeardDraws(l, p));
      RouteTracks(b, AfterAll(a, first), h, p, m.now, m.path);
      AfterConcat(a, first, RouteEvents(h, p, m.now));
    }
  }

  lemma FewerWait(b: nat, born: map<nat, nat>, sent: seq<(W.Msg, nat)>, xids: set<nat>)
    requires Since(b, born, sent)
    ensures Since(b, born - xids, sent)
  {
  }

  lemma AnswerTracks(b: nat, a: P.Agent, l: Local, l': Local, xid: nat)
    requires Tracks(b, a, l) && P.Aligned(l.pending) && l'.pending == P.Take(l.pending, xid)
    requires l'.xid == l.xid && l'.sent == l.sent
    ensures Tracks(b, P.Step(a, P.Answer(xid)), l')
  {
    if xid in l.pending.packets {
      FewerWait(b, a.born, l.sent, {xid});
    } else {
      TakeNothing(l.pending, xid);
    }
  }

  lemma OrderTracks(b: nat, a: P.Agent, l: Local, m: Move)
    requires Tracks(b, a, l) && LocalInv(l) && m.Ordered?
    ensures Tracks(b, AfterAll(a, EventsOf(l, m)), Moved(l, m))
  {
    if m.outDpid in l.isWin && m.inDpid in l.datapaths {
      AfterOne(a, P.Answer(m.xid));
      AnswerTracks(b, a, l, Moved(l, m), m.xid);
    }
  }

  /** No other part of the agent sends requests. */
  ghost predicate Plain(m: Move) {
    m.Sends? ==> !m.m.PacketIn?
  }

  lemma MoveTracks(b: nat, a: P.Agent, l: Local, m: Move)
    requires Tracks(b, a, l) && LocalInv(l) && Plain(m)
    ensures Tracks(b, AfterAll(a, EventsOf(l, m)), Moved(l, m))
  {
    match m
    case Arrives(_, _, _) => ArrivalTracks(b, a, l, m);
    case Ordered(_, _, _, _, _, _) => OrderTracks(b, a, l, m);
    case TimesOut(now) => TimeoutTracks(b, a, l, now);
    case _ => MessageTracks(b, a, l, m);
  }

  lemma TimeoutTracks(b: nat, a: P.Agent, l: Local, now: int)
    requires Tracks(b, a, l)
    ensures Tracks(b, AfterAll(a, [P.Tick(now)]), l.(pending := P.Expire(l.pending, now)))
  {
    AfterOne(a, P.Tick(now));
    FewerWait(b, a.born, l.sent, P.Overdue(l.pending, now));
  }

  lemma MessageTracks(b: nat, a: P.Agent, l: Local, m: Move)
    requires Tracks(b, a, l) && LocalInv(l) && Plain(m) && (m.Features? || m.Topology? || m.Leaves? || m.Sends?)
    ensures Tracks(b, AfterAll(a, EventsOf(l, m)), Moved(l, m))
  {
    DrewTracks(b, a, l, Moved(l, m), |EventsOf(l, m)|);
  }

  ghost predicate Runs(ls: seq<Local>, ms: seq<Move>) {
    && |ls| == |ms| + 1 && LocalInv(ls[0]) && ls[0].pending == P.NONE && ls[0].xid < P.XIDS
    && (forall i | 0 <= i < |ms| :: LocalInv(ls[i]) ==> ls[i + 1] == Moved(ls[i], ms[i]))
    && (forall i | 0 <= i < |ms| :: Plain(ms[i]))
  }

  lemma {:induction false} RunKeeps(ls: seq<Local>, ms: seq<Move>, n: nat)
    requires Runs(ls, ms) && n < |ls|
    ensures LocalInv(ls[n])
  {
    if n > 0 {
      RunKeeps(ls, ms, n - 1);
      MovedKeeps(ls[n - 1], ms[n - 1]);
    }
  }

  /** The agent at the start of a run */
  function Fresh(l: Local): P.Agent {
    P.Agent(l.xid, 0, P.NONE, map[])
  }

  /** The events of the first `n` moves of a run */
  ghost function RunEvents(ls: seq<Local>, ms: seq<Move>, n: nat): seq<P.Event>
    requires Runs(ls, ms) && n < |ls|
  {
    if n == 0 then []
    else
      RunKeeps(ls, ms, n - 1);
      RunEvents(ls, ms, n - 1) + EventsOf(ls[n - 1], ms[n - 1])
  }

  /** The agent after them */
  ghost function AgentAt(ls: seq<Local>, ms: seq<Move>, n: nat): P.Agent
    requires Runs(ls, ms) && n < |ls|
  {
    AfterAll(Fresh(ls[0]), RunEvents(ls, ms, n))
  }

  /** The agent that does what the handlers do has their counter and their waiting packets all along. */
  lemma {:induction false} RunTracks(ls: seq<Local>, ms: seq<Move>, n: nat)
    requires Runs(ls, ms) && n < |ls|
    ensures LocalInv(ls[n]) && Tracks(|ls[0].sent|, AgentAt(ls, ms, n), ls[n])
  {
    RunKeeps(ls, ms, n);
    if n > 0 {
      RunTracks(ls, ms, n - 1);
      MoveTracks(|ls[0].sent|, AgentAt(ls, ms, n - 1), ls[n - 1], ms[n - 1]);
      AfterConcat(Fresh(ls[0]), RunEvents(ls, ms, n - 1), EventsOf(ls[n - 1], ms[n - 1]));
    }
  }

  /** The states of the agent after each event */
  function States(a: P.Agent, es: seq<P.Event>): (s: seq<P.Agent>)
    ensures |s| == |es| + 1 && forall i | 0 <= i <= |es| :: s[i] == AfterAll(a, es[..i])
  {
    seq(|es| + 1, i requires 0 <= i <= |es| => AfterAll(a, es[..i]))
  }

  lemma StatesRun(l: Local, es: seq<P.Event>)
    ensures P.Run(States(Fresh(l), es), es)
    ensures States(Fresh(l), es)[|es|] == AfterAll(Fresh(l), es)
  {
    var s := States(Fresh(l), es);
    forall i | 0 <= i < |es| ensures s[i + 1] == P.Step(s[i], es[i]) {
      assert es[..i + 1][..i] == es[..i];
    }
    assert es[..|es|] == es;
  }

  /** A run of the handlers is the run of an agent through the events of their moves. */
  lemma RunIsAgentRun(ls: seq<Local>, ms: seq<Move>, n: nat)
    requires Runs(ls, ms) && n < |ls|
    ensures var es := RunEvents(ls, ms, n);
            && P.Run(States(Fresh(ls[0]), es), es) && States(Fresh(ls[0]), es)[|es|] == AgentAt(ls, ms, n)
            && LocalInv(ls[n]) && Tracks(|ls[0].sent|, AgentAt(ls, ms, n), ls[n])
  {
    RunTracks(ls, ms, n);
    StatesRun(ls[0], RunEvents(ls, ms, n));
  }

  lemma AskedOnce(sent: seq<(W.Msg, nat)>, x: nat, i: nat, j: nat)
    requires AskedAt(sent, x, i) && AskedAt(sent, x, j)
    ensures i == j
  {
  }

  /** The last request sent under the xid of a packet that waits is a multiple of 2^32 messages back. */
  ghost predicate Wrapped(l: Local, b: nat) {
    exists x, j: nat :: x in l.pending.packets && b <= j && AskedAt(l.sent, x, j) && P.Whole(|l.sent| - j)
  }

  /** All of them are fewer than 2^32 messages back. */
  ghost predicate Recent(l: Local, b: nat) {
    forall x, j: nat | x in l.pending.packets && b <= j && AskedAt(l.sent, x, j) :: |l.sent| - j < P.XIDS
  }

  lemma RecentNoWrap(l: Local, b: nat)
    requires Recent(l, b)
    ensures !Wrapped(l, b)
  {
    forall x, j: nat | x in l.pending.packets && b <= j && AskedAt(l.sent, x, j) ensures !P.Whole(|l.sent| - j) {
      P.NotWhole(|l.sent| - j);
    }
  }

  lemma ClashWraps(b: nat, a: P.Agent, l: Local)
    requires Waits(b, a, l) && P.Clashes(a)
    ensures Wrapped(l, b)
  {
    var x :| x in a.born && P.Whole(a.draws + 1 - a.born[x]);
    WrapsAt(l, b, x, b + a.born[x] - 1);
  }

  lemma WrapsAt(l: Local, b: nat, x: nat, j: nat)
    requires x in l.pending.packets && b <= j && AskedAt(l.sent, x, j) && P.Whole(|l.sent| - j)
    ensures Wrapped(l, b)
  {
  }

  lemma WrapClashes(b: nat, a: P.Agent, l: Local)
    requires Waits(b, a, l) && Wrapped(l, b)
    ensures P.Clashes(a)
  {
    var x, j: nat :| x in l.pending.packets && b <= j && AskedAt(l.sent, x, j) && P.Whole(|l.sent| - j);
    AskedOnce(l.sent, x, j, b + a.born[x] - 1);
    assert |l.sent| - j == a.draws + 1 - a.born[x];
  }

  /** Every packet that waits does so since a request the run sent. */
  ghost predicate AllAsked(l: Local, b: nat) {
    forall x | x in l.pending.packets :: exists j: nat :: b <= j && AskedAt(l.sent, x, j)
  }

  lemma WaitsAsked(b: nat, a: P.Agent, l: Local)
    requires Waits(b, a, l)
    ensures AllAsked(l, b)
  {
    forall x | x in l.pending.packets ensures exists j: nat :: b <= j && AskedAt(l.sent, x, j) {
      assert AskedAt(l.sent, x, b + a.born[x] - 1);
    }
  }

  /** In every run of the handlers the three xid maps agree on their keys, and each packet that waits
      does so under the xid of a request of this run. A new request gets the xid of one that waits
      exactly if the request of some packet that waits is a multiple of 2^32 messages back. */
  lemma HandlersXids(ls: seq<Local>, ms: seq<Move>, n: nat)
    requires Runs(ls, ms) && n < |ls|
    ensures P.Aligned(ls[n].pending) && AllAsked(ls[n], |ls[0].sent|)
    ensures P.NextXid(ls[n].xid) in ls[n].pending.packets <==> Wrapped(ls[n], |ls[0].sent|)
    ensures Recent(ls[n], |ls[0].sent|) ==> P.NextXid(ls[n].xid) !in ls[n].pending.packets
  {
    var b, es := |ls[0].sent|, RunEvents(ls, ms, n);
    var s := States(Fresh(ls[0]), es);
    RunIsAgentRun(ls, ms, n);
    P.RunAligned(s, es, |es|);
    WaitsAsked(b, s[|es|], ls[n]);
    if P.Clashes(s[|es|]) { ClashWraps(b, s[|es|], ls[n]); }
    if Wrapped(ls[n], b) { WrapClashes(b, s[|es|], ls[n]); }
    P.XidClash(s, es, |es|);
    if Recent(ls[n], b) { RecentNoWrap(ls[n], b); }
  }
}
