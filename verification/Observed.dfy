/**
 What a local controller remembers of its switches, told from what happened in its run: the ports that
 lead to other switches, the switches that discovery listed, the packets of each switch, and the rule
 that makes a switch send them.
 */
module Observed {
  import opened Base
  import opened Fabric
  import opened FlowTables
  import W = Wire
  import L = LocalSteps
  import P = LocalPending

  /** A run of a controller that knows nothing at first */
  ghost predicate FromStart(ls: seq<L.Local>, ms: seq<P.Move>) {
    && P.Runs(ls, ms) && ls[0].fabric == EMPTY
    && ls[0].inter == map[] && ls[0].isWin == map[] && ls[0].load == map[] && ls[0].datapaths == {}
  }

  lemma Moves(ls: seq<L.Local>, ms: seq<P.Move>, n: nat)
    requires P.Runs(ls, ms) && n < |ms|
    ensures L.LocalInv(ls[n]) && ls[n + 1] == P.Moved(ls[n], ms[n])
  {
    P.RunKeeps(ls, ms, n);
  }

  /** The packet is handled, not noted as a discovery frame. */
  predicate Counts(l: L.Local, p: L.Packet) {
    p.dpid in l.load && p.dst != L.LLDP_MAC
  }

  /** What a packet-in does to what is remembered of the switches */
  ghost predicate Rest(l: L.Local, p: L.Packet, r: L.Local) {
    && r.isWin == l.isWin && r.datapaths == l.datapaths && l.out <= r.out
    && r.load == (if Counts(l, p) then l.load[p.dpid := l.load[p.dpid] + 1] else l.load)
    && (p.dst != L.LLDP_MAC ==> r.inter == l.inter)
  }

  lemma RouteRest(h: L.Local, p: L.Packet, now: int, path: seq<Node>)
    ensures var r := L.Route(h, p, now, path).0;
            r.isWin == h.isWin && r.datapaths == h.datapaths && h.out <= r.out && r.load == h.load && r.inter == h.inter
            && r.fabric == h.fabric
  {
  }

  lemma ArrivalRest(l: L.Local, p: L.Packet, now: int, path: seq<Node>)
    requires L.LocalInv(l)
    ensures Rest(l, p, L.PacketIn(l, p, now, path).0)
  {
    if Counts(l, p) {
      L.HeardLearns(l, p);
      RouteRest(L.Heard(l, p), p, now, path);
    }
  }

  // ---------------------------------------------------------------------------
  // Ports between switches
  // ---------------------------------------------------------------------------

  /** A discovery frame of another switch came in. */
  predicate Lldp(m: P.Move, d: Dpid, port: Port) {
    m.Arrives? && m.p.dpid == d && m.p.inPort == port && m.p.dst == L.LLDP_MAC
  }

  /** A departure that got through */
  predicate Departs(l: L.Local, m: P.Move, d: Dpid) {
    m == P.Leaves(d) && Sw(d) in l.fabric.nodes && d in l.datapaths
  }

  /** One came in at the port while the switch was connected, and it has not departed since. */
  ghost predicate Noticed(ls: seq<L.Local>, ms: seq<P.Move>, n: nat, d: Dpid, port: Port)
    requires n < |ls| == |ms| + 1
  {
    exists i :: NoticedAt(ls, ms, n, d, port, i)
  }

  ghost predicate NoticedAt(ls: seq<L.Local>, ms: seq<P.Move>, n: nat, d: Dpid, port: Port, i: nat)
    requires n < |ls| == |ms| + 1
  {
    i < n && Lldp(ms[i], d, port) && d in ls[i].datapaths && forall j | i < j < n :: !Departs(ls[j], ms[j], d)
  }

  lemma NoticedMore(ls: seq<L.Local>, ms: seq<P.Move>, n: nat, d: Dpid, port: Port)
    requires n + 1 < |ls| == |ms| + 1
    ensures Noticed(ls, ms, n + 1, d, port) <==>
            (Lldp(ms[n], d, port) && d in ls[n].datapaths)
            || (Noticed(ls, ms, n, d, port) && !Departs(ls[n], ms[n], d))
  {
    if Lldp(ms[n], d, port) && d in ls[n].datapaths {
      assert NoticedAt(ls, ms, n + 1, d, port, n);
    }
    if i :| NoticedAt(ls, ms, n, d, port, i) && !Departs(ls[n], ms[n], d) {
      assert NoticedAt(ls, ms, n + 1, d, port, i);
    }
    var next := n + 1;
    if i: nat :| NoticedAt(ls, ms, next, d, port, i) {
      assert i < n ==> NoticedAt(ls, ms, n, d, port, i);
    }
  }

  /** The port counts as one between switches. */
  predicate Inner(l: L.Local, d: Dpid, port: Port) {
    d in l.inter && port in l.inter[d]
  }

  lemma InnerMore(l: L.Local, m: P.Move, d: Dpid, port: Port)
    requires L.LocalInv(l)
    ensures Inner(P.Moved(l, m), d, port) <==>
            (Lldp(m, d, port) && d in l.datapaths) || (Inner(l, d, port) && !Departs(l, m, d))
  {
    match m
    case Arrives(p, now, path) => ArrivalRest(l, p, now, path);
    case _ =>
  }

  /** In every run the ports that the controller takes for ports between switches are exactly those at
      which a discovery frame came in since the switch connected. */
  lemma {:induction false} InnerIffNoticed(ls: seq<L.Local>, ms: seq<P.Move>, n: nat, d: Dpid, port: Port)
    requires FromStart(ls, ms) && n < |ls|
    ensures Inner(ls[n], d, port) <==> Noticed(ls, ms, n, d, port)
  {
    if n > 0 {
      InnerIffNoticed(ls, ms, n - 1, d, port);
      Moves(ls, ms, n - 1);
      InnerMore(ls[n - 1], ms[n - 1], d, port);
      NoticedMore(ls, ms, n - 1, d, port);
    }
  }

  /** The move enters the host at the port of the packet that brought it. */
  predicate Enters(l: L.Local, l': L.Local, m: P.Move, d: Dpid, h: Mac) {
    && m.Arrives? && m.p.dpid == d && m.p.src == h && On(l'.fabric, d, h) && l'.fabric.macs[d][h] == m.p.inPort
    && Host(h) !in l.fabric.nodes && !Inner(l, d, m.p.inPort)
  }

  lemma ArrivalFabric(l: L.Local, p: L.Packet, now: int, path: seq<Node>)
    requires L.LocalInv(l)
    ensures L.PacketIn(l, p, now, path).0.fabric ==
            if Counts(l, p) && L.Teaches(l, p) then Learn(l.fabric, p.dpid, p.inPort, p.src) else l.fabric
  {
    if Counts(l, p) { L.HeardLearns(l, p); }
  }

  lemma LearnedHost(f: Fabric, x: Dpid, p: Port, g: Mac, d: Dpid, h: Mac)
    requires Inv(f) && x in f.macs && Host(g) !in f.nodes && On(Learn(f, x, p, g), d, h) && !On(f, d, h)
    ensures x == d && g == h && Learn(f, x, p, g).macs[d][h] == p
  {
    LearnExact(f, x, p, g);
  }

  lemma ArrivalEnters(l: L.Local, p: L.Packet, now: int, path: seq<Node>, d: Dpid, h: Mac)
    requires L.LocalInv(l) && On(L.PacketIn(l, p, now, path).0.fabric, d, h) && !On(l.fabric, d, h)
    ensures Enters(l, L.PacketIn(l, p, now, path).0, P.Arrives(p, now, path), d, h)
  {
    ArrivalFabric(l, p, now, path);
    LearnedHost(l.fabric, p.dpid, p.inPort, p.src, d, h);
  }

  lemma NoNewHost(l: L.Local, m: P.Move, d: Dpid, h: Mac)
    requires L.LocalInv(l) && !m.Arrives? && On(P.Moved(l, m).fabric, d, h)
    ensures On(l.fabric, d, h)
  {
    if m.Topology? { L.DiscoverTables(l.fabric, m.switches, m.links); }
  }

  lemma NewHostEnters(l: L.Local, m: P.Move, d: Dpid, h: Mac)
    requires L.LocalInv(l) && On(P.Moved(l, m).fabric, d, h) && !On(l.fabric, d, h)
    ensures Enters(l, P.Moved(l, m), m, d, h)
  {
    if m.Arrives? {
      ArrivalEnters(l, m.p, m.now, m.path, d, h);
    } else {
      NoNewHost(l, m, d, h);
    }
  }

  /** So a host gets into a table only by a packet of its own at a port where no discovery frame had come
      in: no port between switches ever gets a host. */
  lemma HostsAtEdges(ls: seq<L.Local>, ms: seq<P.Move>, n: nat, d: Dpid, h: Mac)
    requires FromStart(ls, ms) && n < |ms| && On(ls[n + 1].fabric, d, h) && !On(ls[n].fabric, d, h)
    ensures Enters(ls[n], ls[n + 1], ms[n], d, h) && !Noticed(ls, ms, n, d, ls[n + 1].fabric.macs[d][h])
  {
    Moves(ls, ms, n);
    NewHostEnters(ls[n], ms[n], d, h);
    InnerIffNoticed(ls, ms, n, d, ls[n + 1].fabric.macs[d][h]);
  }

  // ---------------------------------------------------------------------------
  // Windows
  // ---------------------------------------------------------------------------

  /** What a discovery says of a switch: a window, listed but none, or nothing. It does not get to the
      windows if its log line raises. */
  function Marks(m: P.Move, d: Dpid): Option<bool> {
    if !m.Topology? then None
    else if d in m.windows && m.texts then Some(true)
    else if d in m.switches then Some(false)
    else None
  }

  /** The last discovery before move `n` that says something of the switch */
  function LastMark(ms: seq<P.Move>, n: nat, d: Dpid): Option<bool>
    requires n <= |ms|
  {
    if n == 0 then None
    else if Marks(ms[n - 1], d).Some? then Marks(ms[n - 1], d)
    else LastMark(ms, n - 1, d)
  }

  predicate ShowsMark(l: L.Local, d: Dpid, mark: Option<bool>) {
    mark == if d in l.isWin then Some(l.isWin[d]) else None
  }

  lemma MarkMore(l: L.Local, m: P.Move, d: Dpid, mark: Option<bool>)
    requires L.LocalInv(l) && ShowsMark(l, d, mark)
    ensures ShowsMark(P.Moved(l, m), d, if Marks(m, d).Some? then Marks(m, d) else mark)
  {
    match m
    case Arrives(p, now, path) => ArrivalRest(l, p, now, path);
    case _ =>
  }

  /** In every run the controller has a switch for a window exactly if the last discovery that says
      something of it says so. */
  lemma {:induction false} WindowsKnown(ls: seq<L.Local>, ms: seq<P.Move>, n: nat, d: Dpid)
    requires FromStart(ls, ms) && n < |ls|
    ensures ShowsMark(ls[n], d, LastMark(ms, n, d))
  {
    if n > 0 {
      WindowsKnown(ls, ms, n - 1, d);
      Moves(ls, ms, n - 1);
      MarkMore(ls[n - 1], ms[n - 1], d, LastMark(ms, n - 1, d));
    }
  }

  /** A discovery that gets through tells the central controller of its windows; else nothing is told. */
  lemma DiscoveryTold(l: L.Local, switches: set<Dpid>, windows: set<Dpid>, links: seq<Link>, json: seq<byte>,
                      texts: bool)
    ensures var r := L.TopologyData(l, switches, windows, links, json, texts);
            && (r.1 <==> windows == {} || texts)
            && r.0.sent == l.sent + (if r.1 then [(W.GraphInfo(json), r.0.xid)] else [])
            && (!r.1 ==> r.0.xid == l.xid)
  {
  }

  lemma {:induction false} SomeMark(ms: seq<P.Move>, n: nat, d: Dpid)
    requires n <= |ms|
    ensures LastMark(ms, n, d).Some? <==> exists i :: 0 <= i < n && Marks(ms[i], d).Some?
  {
    if n > 0 { SomeMark(ms, n - 1, d); }
  }

  /** And an order to leave by a switch is dropped exactly if no discovery before ever listed it. */
  lemma DroppedIffUnlisted(ls: seq<L.Local>, ms: seq<P.Move>, n: nat, out: Dpid)
    requires FromStart(ls, ms) && n < |ls|
    ensures out !in ls[n].isWin <==> forall i | 0 <= i < n :: Marks(ms[i], out) == None
  {
    WindowsKnown(ls, ms, n, out);
    SomeMark(ms, n, out);
  }

  // ---------------------------------------------------------------------------
  // Packets, and what makes the switches send them
  // ---------------------------------------------------------------------------

  /** The packets of a switch since it last connected, discovery frames not counted */
  function Packets(ms: seq<P.Move>, n: nat, d: Dpid): nat
    requires n <= |ms|
  {
    if n == 0 || ms[n - 1] == P.Features(d) then 0
    else Packets(ms, n - 1, d)
         + if ms[n - 1].Arrives? && ms[n - 1].p.dpid == d && ms[n - 1].p.dst != L.LLDP_MAC then 1 else 0
  }

  lemma LoadMore(l: L.Local, m: P.Move, d: Dpid)
    requires L.LocalInv(l)
    ensures d in P.Moved(l, m).load ==>
              m == P.Features(d) || d in l.load
    ensures d in P.Moved(l, m).load ==>
              P.Moved(l, m).load[d] ==
              if m == P.Features(d) then 0
              else l.load[d] + if m.Arrives? && m.p.dpid == d && m.p.dst != L.LLDP_MAC then 1 else 0
  {
    match m
    case Arrives(p, now, path) => ArrivalRest(l, p, now, path);
    case _ =>
  }

  /** In every run the load of a connected switch is the number of its packets since it connected. */
  lemma {:induction false} LoadCounts(ls: seq<L.Local>, ms: seq<P.Move>, n: nat, d: Dpid)
    requires FromStart(ls, ms) && n < |ls|
    ensures d in ls[n].load ==> ls[n].load[d] == Packets(ms, n, d)
  {
    if n > 0 {
      LoadCounts(ls, ms, n - 1, d);
      Moves(ls, ms, n - 1);
      LoadMore(ls[n - 1], ms[n - 1], d);
    }
  }

  lemma SwitchesMore(l: L.Local, m: P.Move)
    requires L.LocalInv(l)
    ensures l.out <= P.Moved(l, m).out
    ensures forall d | d in P.Moved(l, m).datapaths && d !in l.datapaths :: TableMiss(d) in P.Moved(l, m).out
  {
    match m
    case Arrives(p, now, path) => ArrivalRest(l, p, now, path);
    case Features(d) => assert P.Moved(l, m).out[|l.out|] == TableMiss(d);
    case _ =>
  }

  /** If the switch is connected, it was sent the rule that brings its unmatched packets here. */
  predicate WillAsk(l: L.Local, d: Dpid) {
    d in l.datapaths ==> TableMiss(d) in l.out
  }

  lemma MissMore(l: L.Local, m: P.Move, d: Dpid)
    requires L.LocalInv(l) && WillAsk(l, d)
    ensures WillAsk(P.Moved(l, m), d)
  {
    SwitchesMore(l, m);
    StillSent(l.out, P.Moved(l, m).out, TableMiss(d));
  }

  lemma StillSent(out: seq<ToSwitch>, more: seq<ToSwitch>, m: ToSwitch)
    requires out <= more
    ensures m in out ==> m in more
  {
    if m in out {
      var i :| 0 <= i < |out| && out[i] == m;
      assert more[i] == m;
    }
  }

  /** In every run each connected switch was sent that rule. */
  lemma {:induction false} MissesReported(ls: seq<L.Local>, ms: seq<P.Move>, n: nat, d: Dpid)
    requires FromStart(ls, ms) && n < |ls|
    ensures WillAsk(ls[n], d)
  {
    if n > 0 {
      MissesReported(ls, ms, n - 1, d);
      Moves(ls, ms, n - 1);
      MissMore(ls[n - 1], ms[n - 1], d);
    }
  }

  /** A switch that connects is reported to the central controller as a window exactly if the last
      discovery that says something of it says so. */
  lemma ConnectionTold(ls: seq<L.Local>, ms: seq<P.Move>, n: nat, d: Dpid)
    requires FromStart(ls, ms) && n < |ms| && ms[n] == P.Features(d)
    ensures |ls[n + 1].sent| == |ls[n].sent| + 1
    ensures var m := ls[n + 1].sent[|ls[n].sent|].0;
            m.DpConnected? && m.dpid == d && (m.isWindow <==> LastMark(ms, n, d) == Some(true))
  {
    Moves(ls, ms, n);
    WindowsKnown(ls, ms, n, d);
  }

  // ---------------------------------------------------------------------------
  // Departures
  // ---------------------------------------------------------------------------

  lemma UnservedLeave(f: Fabric, d: Dpid)
    requires d !in f.macs
    ensures RemoveNode(f, Sw(d)) == Leave(f, d)
  {
    assert f.macs - {d} == f.macs;
    assert Leave(f, d).edges == RemoveNode(f, Sw(d)).edges;
  }

  /** A departure gets through exactly if the switch is a node and connected. In any case it is no node
      afterwards, and the graph and the tables are what they were without it and its hosts. Only if it is
      connected but no node does it stay connected. */
  lemma DepartureExact(l: L.Local, d: Dpid)
    requires L.LocalInv(l)
    ensures var r := L.SwitchLeave(l, d);
            && (r.1 <==> Sw(d) in l.fabric.nodes && d in l.datapaths)
            && Sw(d) !in r.0.fabric.nodes
            && r.0.fabric == (if Sw(d) in l.fabric.nodes then Leave(l.fabric, d) else l.fabric)
            && forall x :: x in r.0.datapaths <==> x in l.datapaths && (x == d ==> !r.1)
  {
    if d !in l.datapaths { UnservedLeave(l.fabric, d); }
  }
}
