/**
 Runs of the local controller's handlers, seen as runs of a domain: the messages `out` that its
 switches apply make the domain's tables, so forwarding in the domain never loops.
 */
module LocalRuns {
  import opened Base
  import opened Graphs
  import opened Fabric
  import opened FlowTables
  import opened Transit
  import opened LocalSteps

  /** What reaches the controller while switches and links stay. `path` is networkx's answer. */
  datatype Arrival =
    | Incoming(p: Packet, now: int, path: seq<Node>)
    | Order(xid: nat, inDpid: Dpid, outDpid: Dpid, out: Port, dst: Mac, path: seq<Node>)

  ghost function After(l: Local, a: Arrival): Local
    requires LocalInv(l)
  {
    match a
    case Incoming(p, now, path) => PacketIn(l, p, now, path).0
    case Order(xid, inDpid, outDpid, out, dst, path) => FlowMod(l, xid, inDpid, outDpid, out, dst, path).0
  }

  /** The domain as controller and switches see it, with tables `t` before the first message. */
  function View(l: Local, t: Tables): Domain {
    Domain(l.fabric, l.datapaths, Apply(t, l.out))
  }

  predicate Learns(l: Local, p: Packet) {
    p.dpid in l.load && p.dpid in l.inter && p.dst != LLDP_MAC && Host(p.src) !in l.fabric.nodes
      && p.inPort !in l.inter[p.dpid]
  }

  /** The step of the domain that a packet-in is. */
  function EventOf(l: Local, p: Packet, path: seq<Node>): DomainEvent {
    if p.dpid !in l.load || p.dst == LLDP_MAC then DomainEvent.Transit([])
    else
      DomainEvent.Packet(p.dpid, p.inPort, p.src, Learns(l, p), p.dst, KeyOf(p), p.buffer, p.data,
                         if Sw(p.dpid) in l.fabric.nodes || Learns(l, p) then path else [])
  }

  lemma Extend(l: Local, t: Tables, msgs: seq<ToSwitch>)
    ensures Apply(t, l.out + msgs) == Apply(Apply(t, l.out), msgs)
  {
    ApplyConcat(t, l.out, msgs);
  }

  lemma HeardView(l: Local, p: Packet, path: seq<Node>, t: Tables)
    requires LocalInv(l) && p.dpid in l.load && p.dst != LLDP_MAC
    ensures LocalSteps.Heard(l, p).fabric == FlowTables.Heard(View(l, t), EventOf(l, p, path))
    ensures LocalSteps.Heard(l, p).out == l.out && LocalSteps.Heard(l, p).datapaths == l.datapaths
    ensures Sw(p.dpid) in LocalSteps.Heard(l, p).fabric.nodes <==> Sw(p.dpid) in l.fabric.nodes || Learns(l, p)
  {
    LocalSteps.HeardKeeps(l, p);
  }

  lemma RouteView(h: Local, p: Packet, now: int, path: seq<Node>, t: Tables)
    ensures var r := LocalSteps.Route(h, p, now, path).0;
            r.fabric == h.fabric && r.datapaths == h.datapaths
            && Apply(t, r.out) == Apply(Apply(t, h.out),
                                        if Host(p.dst) in h.fabric.nodes && Sw(p.dpid) in h.fabric.nodes
                                        then Installs(h.fabric, h.datapaths, path, 0, KeyOf(p), p.inPort, p.buffer,
                                          p.data).0
                                        else [])
  {
    Extend(h, t, Installs(h.fabric, h.datapaths, path, 0, KeyOf(p), p.inPort, p.buffer, p.data).0);
    Extend(h, t, FloodOut(h, p).out[|h.out|..]);
  }

  /** The packet-in handler, exceptions included, is a packet step of the domain. */
  lemma PacketInRefines(l: Local, p: Packet, now: int, path: seq<Node>, t: Tables)
    requires LocalInv(l)
    ensures View(PacketIn(l, p, now, path).0, t) == DomainStep(View(l, t), EventOf(l, p, path))
  {
    if p.dpid in l.load && p.dst != LLDP_MAC {
      var h := LocalSteps.Heard(l, p);
      HeardView(l, p, path, t);
      RouteView(h, p, now, path, t);
    }
  }

  /** The switches' part of a FLOW_MOD. */
  ghost function OrderMsgs(l: Local, a: Arrival): seq<ToSwitch>
    requires LocalInv(l) && a.Order?
  {
    After(l, a).out[|l.out|..]
  }

  lemma FlowModOut(l: Local, xid: nat, s: Dpid, d: Dpid, out: Port, dst: Mac, path: seq<Node>)
    requires LocalInv(l)
    ensures var r, msgs := FlowMod(l, xid, s, d, out, dst, path).0, OrderMsgs(l, Order(xid, s, d, out, dst, path));
            r.out == l.out + msgs && r.fabric == l.fabric && r.datapaths == l.datapaths
            && forall m | m in msgs :: m.FlowAdd? ==> m.match_ == EthDst(dst)
  {
    var r := FlowMod(l, xid, s, d, out, dst, path).0;
    if r.out != l.out {
      var (buffer, data) := Awaited(l.pending, xid);
      var msgs := FlowModMsgs(l.fabric, l.datapaths, path, s, d, EthDst(dst), out, buffer, data).0;
      FlowModMatch(l.fabric, l.datapaths, path, s, d, EthDst(dst), out, buffer, data);
      assert (l.out + msgs)[|l.out|..] == msgs;
    }
  }

  ghost function EventAfter(l: Local, a: Arrival): DomainEvent
    requires LocalInv(l)
  {
    match a
    case Incoming(p, _, path) => EventOf(l, p, path)
    case Order(_, _, _, _, _, _) => DomainEvent.Transit(OrderMsgs(l, a))
  }

  lemma AfterRefines(l: Local, a: Arrival, t: Tables)
    requires LocalInv(l)
    ensures LocalInv(After(l, a)) && View(After(l, a), t) == DomainStep(View(l, t), EventAfter(l, a))
  {
    match a
    case Incoming(p, now, path) =>
      PacketInKeeps(l, p, now, path);
      PacketInRefines(l, p, now, path, t);
    case Order(xid, s, d, out, dst, path) =>
      FlowModOut(l, xid, s, d, out, dst, path);
      Extend(l, t, OrderMsgs(l, a));
  }

  /** Packets come from where their sources are at home, 5-tuple rules are for the destination of
      their flow, networkx answers with shortest paths, and FLOW_MODs are for foreign hosts. */
  ghost predicate Lawful(l: Local, a: Arrival, homes: Homes, dest: Dest)
    requires LocalInv(l)
  {
    match a
    case Incoming(p, _, path) =>
      && dest(KeyOf(p)) == p.dst
      && (Learns(l, p) ==> p.src in homes && homes[p.src] == (p.dpid, p.inPort))
      && (p.dpid in l.load && p.dst != LLDP_MAC
        ==> Answer(LocalSteps.Heard(l, p).fabric, Sw(p.dpid), Host(p.dst), path))
    case Order(_, _, _, _, dst, _) => dest(EthDst(dst)) !in homes
  }

  lemma LawfulIsLegal(l: Local, a: Arrival, homes: Homes, dest: Dest, t: Tables)
    requires LocalInv(l) && Lawful(l, a, homes, dest)
    ensures Legal(View(l, t), EventAfter(l, a), homes, dest)
  {
    match a
    case Incoming(p, now, path) =>
      if p.dpid in l.load && p.dst != LLDP_MAC {
        HeardView(l, p, path, t);
      }
    case Order(xid, s, d, out, dst, path) =>
      FlowModOut(l, xid, s, d, out, dst, path);
  }

  ghost predicate Runs(ls: seq<Local>, arrivals: seq<Arrival>, homes: Homes, dest: Dest) {
    && |ls| == |arrivals| + 1
    && forall i | 0 <= i < |arrivals| ::
         LocalInv(ls[i]) ==> Lawful(ls[i], arrivals[i], homes, dest) && ls[i + 1] == After(ls[i], arrivals[i])
  }

  ghost predicate Good(l: Local, t: Tables, homes: Homes, dest: Dest) {
    LocalInv(l) && DomainInv(View(l, t), homes, dest)
  }

  lemma StepOfRun(ls: seq<Local>, arrivals: seq<Arrival>, homes: Homes, dest: Dest, t: Tables, i: nat)
    requires Runs(ls, arrivals, homes, dest) && i < |arrivals|
    requires Good(ls[i], t, homes, dest)
    ensures Good(ls[i + 1], t, homes, dest)
  {
    AfterRefines(ls[i], arrivals[i], t);
    LawfulIsLegal(ls[i], arrivals[i], homes, dest, t);
    DomainStepKeeps(View(ls[i], t), EventAfter(ls[i], arrivals[i]), homes, dest);
  }

  /** Loop freedom of the handlers: after any run of packet-ins and FLOW_MODs, also of ones that
      raised half way, a frame for a host of the domain visits no switch twice. */
  lemma {:induction false} RunLoopFree(ls: seq<Local>, arrivals: seq<Arrival>, homes: Homes, dest: Dest, t: Tables,
                                       n: nat, ks: set<Match>, dst: Mac, way: seq<Dpid>)
    requires Runs(ls, arrivals, homes, dest) && n < |ls| && Good(ls[0], t, homes, dest)
    requires dst in homes && (forall k | k in ks :: dest(k) == dst)
    requires FlowTables.Route(View(ls[n], t), ks, way) && |way| > 1
    ensures Simple(way) && Approaches(ls[n].fabric, homes[dst].0, way)
  {
    RunKeeps(ls, arrivals, homes, dest, t, n);
    LoopFree(View(ls[n], t), homes, dest, ks, dst, way);
  }

  lemma {:induction false} RunKeeps(ls: seq<Local>, arrivals: seq<Arrival>, homes: Homes, dest: Dest, t: Tables, n: nat)
    requires Runs(ls, arrivals, homes, dest) && n < |ls| && Good(ls[0], t, homes, dest)
    ensures Good(ls[n], t, homes, dest)
  {
    if n > 0 {
      RunKeeps(ls, arrivals, homes, dest, t, n - 1);
      StepOfRun(ls, arrivals, homes, dest, t, n - 1);
    }
  }

  /** The states as the domain goes through them */
  function Views(ls: seq<Local>, t: Tables): (ds: seq<Domain>)
    ensures |ds| == |ls|
  {
    seq(|ls|, i requires 0 <= i < |ls| => View(ls[i], t))
  }

  lemma RunIsDomainRun(ls: seq<Local>, arrivals: seq<Arrival>, homes: Homes, dest: Dest, t: Tables)
    returns (es: seq<DomainEvent>)
    requires Runs(ls, arrivals, homes, dest) && Good(ls[0], t, homes, dest)
    ensures DomainRun(Views(ls, t), es, homes, dest)
  {
    forall i | 0 <= i < |ls| ensures LocalInv(ls[i]) {
      RunKeeps(ls, arrivals, homes, dest, t, i);
    }
    es := seq(|arrivals|, i requires 0 <= i < |arrivals| => EventAfter(ls[i], arrivals[i]));
    var ds := Views(ls, t);
    forall i | 0 <= i < |es| ensures Legal(ds[i], es[i], homes, dest) && ds[i + 1] == DomainStep(ds[i], es[i]) {
      LawfulIsLegal(ls[i], arrivals[i], homes, dest, t);
      AfterRefines(ls[i], arrivals[i], t);
    }
  }

  /** Loop freedom in flight: while the handlers run, a frame makes its hops by whatever tables there
      are at the time, and visits no switch twice. */
  lemma RunFlightLoopFree(ls: seq<Local>, arrivals: seq<Arrival>, homes: Homes, dest: Dest, t: Tables,
                          ks: set<Match>, dst: Mac, way: seq<Dpid>, times: seq<nat>)
    requires Runs(ls, arrivals, homes, dest) && Good(ls[0], t, homes, dest)
    requires dst in homes && (forall k | k in ks :: dest(k) == dst)
    requires Flight(Views(ls, t), ks, way, times)
    ensures Simple(way)
  {
    var es := RunIsDomainRun(ls, arrivals, homes, dest, t);
    FlightLoopFree(Views(ls, t), es, homes, dest, ks, dst, way, times);
  }
}
