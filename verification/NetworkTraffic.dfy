/**
 Runs of the whole network: packet-ins at all local controllers and FLOW_MODs of the central one, in
 any interleaving. After any of them a frame between domains visits no switch twice.
 */
module NetworkTraffic {
  import opened Base
  import opened Graphs
  import opened Fabric
  import opened FlowTables
  import opened Delivery
  import opened NetworkRuns
  import opened NetworkLoops
  import T = Transit
  import D = DomainGraph
  import S = Stitching
  import L = LocalSteps
  import R = LocalRuns

  // ---------------------------------------------------------------------------
  // What a packet-in does
  // ---------------------------------------------------------------------------

  /** The rules among the messages are for the packet's match, at switches of the controller's graph;
      there are none if the destination is not one of its hosts. */
  ghost predicate LocalRules(f: Fabric, p: L.Packet, msgs: seq<ToSwitch>) {
    forall m | m in msgs && m.FlowAdd? :: m.match_ == L.KeyOf(p) && Sw(m.dpid) in f.nodes && Host(p.dst) in f.nodes
  }

  lemma ForwardRules(h: L.Local, p: L.Packet, path: seq<Node>)
    requires Inv(h.fabric) && Host(p.dst) in h.fabric.nodes
    ensures LocalRules(h.fabric, p, Installs(h.fabric, h.datapaths, path, 0, L.KeyOf(p), p.inPort, p.buffer, p.data).0)
  {
    var f := h.fabric;
    var msgs := Installs(f, h.datapaths, path, 0, L.KeyOf(p), p.inPort, p.buffer, p.data).0;
    InstallsOnPath(f, h.datapaths, path, 0, L.KeyOf(p), p.inPort, p.buffer, p.data);
    forall m | m in msgs && m.FlowAdd? ensures m.match_ == L.KeyOf(p) && Sw(m.dpid) in f.nodes {
      assert OnPath(f, path, L.KeyOf(p), m);
      var i: nat :| PathRule(f, path, i, m.dpid, m.port);
      assert (path[i], path[i + 1]) in f.edges;
    }
  }

  /** The messages of a packet's route through the domain, or of its flood */
  function RouteMsgs(h: L.Local, p: L.Packet, path: seq<Node>): seq<ToSwitch> {
    if Host(p.dst) in h.fabric.nodes then
      if Sw(p.dpid) !in h.fabric.nodes then []
      else Installs(h.fabric, h.datapaths, path, 0, L.KeyOf(p), p.inPort, p.buffer, p.data).0
    else if p.dst == L.BROADCAST_MAC then L.FloodOut(h, p).out[|h.out|..]
    else []
  }

  lemma RouteOut(h: L.Local, p: L.Packet, now: int, path: seq<Node>)
    ensures var r := L.Route(h, p, now, path).0;
            r.out == h.out + RouteMsgs(h, p, path) && r.fabric == h.fabric && r.datapaths == h.datapaths
  {
  }

  lemma RouteRules(h: L.Local, p: L.Packet, path: seq<Node>)
    requires Inv(h.fabric)
    ensures LocalRules(h.fabric, p, RouteMsgs(h, p, path))
  {
    if Host(p.dst) in h.fabric.nodes && Sw(p.dpid) in h.fabric.nodes {
      ForwardRules(h, p, path);
    }
  }

  /** The packet gets as far as being counted. */
  predicate Counts(l: L.Local, p: L.Packet) {
    p.dpid in l.load && p.dst != L.LLDP_MAC
  }

  /** The messages of the packet-in handler to the switches */
  ghost function PacketMsgs(l: L.Local, p: L.Packet, path: seq<Node>): seq<ToSwitch>
    requires L.LocalInv(l)
  {
    if Counts(l, p) then RouteMsgs(L.Heard(l, p), p, path) else []
  }

  /** What the controller knows after the packet */
  ghost function Learned(l: L.Local, p: L.Packet): Fabric
    requires L.LocalInv(l)
  {
    if Counts(l, p) && L.Teaches(l, p) then Learn(l.fabric, p.dpid, p.inPort, p.src) else l.fabric
  }

  lemma PacketDoes(l: L.Local, p: L.Packet, now: int, path: seq<Node>)
    requires L.LocalInv(l)
    ensures var l' := L.PacketIn(l, p, now, path).0;
            && L.LocalInv(l') && l'.out == l.out + PacketMsgs(l, p, path) && l'.fabric == Learned(l, p)
            && l'.datapaths == l.datapaths && l'.isWin == l.isWin
    ensures LocalRules(Learned(l, p), p, PacketMsgs(l, p, path))
  {
    L.PacketInKeeps(l, p, now, path);
    if Counts(l, p) {
      var h := L.Heard(l, p);
      L.HeardKeeps(l, p);
      L.HeardLearns(l, p);
      RouteOut(h, p, now, path);
      RouteRules(h, p, path);
    }
  }

  lemma LearnedNodes(l: L.Local, p: L.Packet)
    requires L.LocalInv(l)
    ensures forall x :: Sw(x) in Learned(l, p).nodes ==> Sw(x) in l.fabric.nodes || x in l.datapaths
    ensures forall h :: Host(h) in Learned(l, p).nodes ==> Host(h) in l.fabric.nodes || (R.Learns(l, p) && h == p.src)
  {
  }

  lemma LearnedCables(l: L.Local, p: L.Packet, wire: T.Wire)
    requires L.LocalInv(l) && T.Agrees(l.fabric, wire)
    ensures T.Agrees(Learned(l, p), wire)
  {
    if Counts(l, p) && L.Teaches(l, p) {
      LearnKeepsSwitches(l.fabric, p.dpid, p.inPort, p.src);
    }
  }

  /** For the domain of the controller the handler is a packet step. */
  lemma HomeStep(l: L.Local, p: L.Packet, path: seq<Node>, t: Tables)
    requires L.LocalInv(l)
    ensures DomainStep(Domain(l.fabric, l.datapaths, t), R.EventOf(l, p, path))
            == Domain(Learned(l, p), l.datapaths, Apply(t, PacketMsgs(l, p, path)))
  {
    if Counts(l, p) {
      L.HeardKeeps(l, p);
      R.HeardView(l, p, path, t);
      var flood := L.FloodOut(L.Heard(l, p), p).out[|l.out|..];
      assert Apply(t, []) == t;
      assert |flood| == 1 && flood[..0] == [] && !flood[0].FlowAdd?;
    }
  }

  lemma HomePacket(l: L.Local, p: L.Packet, now: int, path: seq<Node>, t: Tables, homes: Homes, dest: Dest)
    requires L.LocalInv(l) && R.Lawful(l, R.Incoming(p, now, path), homes, dest)
    requires DomainInv(Domain(l.fabric, l.datapaths, t), homes, dest)
    ensures DomainInv(Domain(Learned(l, p), l.datapaths, Apply(t, PacketMsgs(l, p, path))), homes, dest)
  {
    var d, e := Domain(l.fabric, l.datapaths, t), R.EventOf(l, p, path);
    R.LawfulIsLegal(l, R.Incoming(p, now, path), homes, dest, t);
    assert e.Packet? ==> Heard(R.View(l, t), e) == Heard(d, e);
    HomeStep(l, p, path, t);
    DomainStepKeeps(d, e, homes, dest);
  }

  // ---------------------------------------------------------------------------
  // Tables
  // ---------------------------------------------------------------------------

  lemma {:induction false} ApplyElsewhere(t: Tables, msgs: seq<ToSwitch>, k: Match, s: Dpid)
    requires forall m | m in msgs && m.FlowAdd? :: (m.dpid, m.match_) != (s, k)
    ensures Kept(t, Apply(t, msgs), k, s)
    decreases |msgs|
  {
    if msgs != [] {
      var n := |msgs| - 1;
      assert msgs[n] in msgs && forall m | m in msgs[..n] :: m in msgs;
      ApplyElsewhere(t, msgs[..n], k, s);
    }
  }

  lemma {:induction false} ApplyBoth(t: Tables, v: Tables, msgs: seq<ToSwitch>, k: Match, s: Dpid)
    requires (s, k) in t ==> SameRule(t, v, k, s)
    ensures (s, k) in Apply(t, msgs) ==> SameRule(Apply(t, msgs), Apply(v, msgs), k, s)
    decreases |msgs|
  {
    if msgs != [] { ApplyBoth(t, v, msgs[..|msgs| - 1], k, s); }
  }

  ghost predicate OwnRules(n: Network, u: Lcid, msgs: seq<ToSwitch>) {
    forall m | m in msgs && m.FlowAdd? :: Owns(n, u, m.dpid)
  }

  lemma LaidPacket(n: Network, goal: Lcid, t: Tables, dst: Mac, dest: Dest, ws: seq<T.Way>, u: Lcid, f: Fabric,
                   p: L.Packet, msgs: seq<ToSwitch>)
    requires Laid(n, goal, t, dst, dest, ws) && LocalRules(f, p, msgs) && OwnRules(n, u, msgs)
    requires dest(L.KeyOf(p)) == p.dst && (u != goal ==> Host(dst) !in f.nodes)
    ensures Laid(n, goal, Apply(t, msgs), dst, dest, ws)
  {
    forall s: Dpid, k | !Owns(n, goal, s) && (s, k) in Apply(t, msgs) && dest(k) == dst
      ensures k == EthDst(dst) && SameRule(Apply(t, msgs), T.LayAll(map[], k, ws), k, s)
    {
      ApplyElsewhere(t, msgs, k, s);
      assert Kept(t, Apply(t, msgs), k, s);
      assert SameRule(t, T.LayAll(map[], k, ws), k, s);
    }
  }

  /** At another domain's controller: the home rules stay. */
  lemma AwayPacket(n: Network, goal: Lcid, t: Tables, dst: Mac, d: Domain, homes: Homes, dest: Dest, u: Lcid,
                   msgs: seq<ToSwitch>)
    requires HomeRules(n, goal, t, dst, d, homes, dest) && OwnRules(n, u, msgs) && u != goal
    ensures HomeRules(n, goal, Apply(t, msgs), dst, d, homes, dest)
  {
    forall s: Dpid, k | Owns(n, goal, s) && (s, k) in Apply(t, msgs) && dest(k) == dst
      ensures SameRule(Apply(t, msgs), d.tables, k, s)
    {
      ApplyElsewhere(t, msgs, k, s);
      assert SameRule(t, d.tables, k, s);
    }
  }

  /** At the home domain's: they get new ones as the domain's do. */
  lemma HomeGets(n: Network, goal: Lcid, t: Tables, dst: Mac, v: Tables, dest: Dest, msgs: seq<ToSwitch>)
    requires forall s: Dpid, k | Owns(n, goal, s) && (s, k) in t && dest(k) == dst :: SameRule(t, v, k, s)
    ensures forall s: Dpid, k | Owns(n, goal, s) && (s, k) in Apply(t, msgs) && dest(k) == dst ::
              SameRule(Apply(t, msgs), Apply(v, msgs), k, s)
  {
    forall s: Dpid, k | Owns(n, goal, s) && (s, k) in Apply(t, msgs) && dest(k) == dst
      ensures SameRule(Apply(t, msgs), Apply(v, msgs), k, s)
    {
      ApplyBoth(t, v, msgs, k, s);
    }
  }

  // ---------------------------------------------------------------------------
  // Steps of the network
  // ---------------------------------------------------------------------------

  /** A FLOW_MOD reaches its local controller, or a packet-in the controller `u`. `path` is networkx's
      answer. */
  datatype Event = Ordered(j: Job) | Arrived(u: Lcid, p: L.Packet, now: int, path: seq<Node>)

  ghost function Handle(w: World, e: Event): World {
    match e
    case Ordered(j) => Do(w, j).0
    case Arrived(u, p, now, path) =>
      if u !in w.ls || !L.LocalInv(w.ls[u]) then w
      else
        World(w.ls[u := L.PacketIn(w.ls[u], p, now, path).0], Apply(w.tables, PacketMsgs(w.ls[u], p, path)))
  }

  /** The network as the local controllers know it at the moment */
  function Now(n: Network, w: World): Network {
    n.(sites := map u | u in n.sites && u in w.ls :: Site(w.ls[u].fabric, w.ls[u].datapaths))
  }

  /** A controller's switches are its domain's, and it does not take `dst` for a host of its own, unless it
      is the one of the domain `goal`. */
  ghost predicate Proper(n: Network, goal: Lcid, u: Lcid, l: L.Local, dst: Mac) {
    && L.LocalInv(l) && (forall x | x in l.datapaths :: Owns(n, u, x))
    && (u != goal ==> Host(dst) !in l.fabric.nodes)
  }

  ghost predicate AllProper(n: Network, goal: Lcid, w: World, dst: Mac) {
    && n.sites.Keys <= w.ls.Keys && goal in n.sites
    && forall u | u in n.sites :: Proper(n, goal, u, w.ls[u], dst)
  }

  ghost predicate Steady(n: Network, goal: Lcid, w: World, dst: Mac, ws: seq<T.Way>, d: Domain, homes: Homes,
                         dest: Dest) {
    && AllProper(n, goal, w, dst) && d.dps == w.ls[goal].datapaths
    && Sound(Now(n, w), goal, w.tables, dst, ws, d, homes, dest)
  }

  /** An order that is ready, and lies on a shortest path to the domain `goal` if it is for `dst`; or a packet
      whose rules are for its destination, from a new host only if that is at home at the port it came in by.
      Elsewhere than in that domain it is enough that the host is not `dst`. */
  ghost predicate Fair(n: Network, goal: Lcid, w: World, e: Event, dst: Mac, homes: Homes, dest: Dest) {
    match e
    case Ordered(j) => Ready(Now(n, w), w, j) && (j.o.dst == dst ==> Heads(n, goal, j.o))
    case Arrived(u, p, now, path) =>
      && u in n.sites && u in w.ls && L.LocalInv(w.ls[u])
      && if u == goal then R.Lawful(w.ls[u], R.Incoming(p, now, path), homes, dest)
         else dest(L.KeyOf(p)) == p.dst && (R.Learns(w.ls[u], p) ==> p.src != dst)
  }

  /** Only what the controllers know of their domains may differ. */
  ghost predicate SameMap(n: Network, m: Network) {
    m == n.(sites := m.sites)
  }

  lemma HeadingSame(n: Network, m: Network, goal: Lcid, w: T.Way)
    requires SameMap(n, m) && HeadingWay(n, goal, w)
    ensures HeadingWay(m, goal, w)
  {
    var u :| u != goal && OwnedBy(n, w, u);
    forall i | 0 <= i < |w| ensures Owns(m, u, w[i].0) {
      assert Owns(n, u, w[i].0);
    }
    assert OwnedBy(m, w, u);
  }

  lemma LaidSame(n: Network, m: Network, goal: Lcid, t: Tables, dst: Mac, dest: Dest, ws: seq<T.Way>)
    requires SameMap(n, m) && Laid(n, goal, t, dst, dest, ws)
    ensures Laid(m, goal, t, dst, dest, ws)
  {
    forall i | 0 <= i < |ws| && ws[i] != [] ensures HeadingWay(m, goal, ws[i]) {
      HeadingSame(n, m, goal, ws[i]);
    }
    forall s: Dpid, k | !Owns(m, goal, s) && (s, k) in t && dest(k) == dst
      ensures k == EthDst(dst) && SameRule(t, T.LayAll(map[], k, ws), k, s)
    {
      assert !Owns(n, goal, s);
    }
  }

  /** One controller knows more; its switches are still its own. */
  lemma ConsistentMore(n: Network, m: Network, u: Lcid, f: Fabric)
    requires Consistent(n) && SameMap(n, m) && u in n.sites && m.sites == n.sites[u := Site(f, n.sites[u].dps)]
    requires Inv(f) && T.Agrees(f, n.wire) && forall x | Sw(x) in f.nodes :: Owns(n, u, x)
    ensures Consistent(m)
  {
    forall v: Lcid, x: Lcid, e | D.Linked(m.topo, v, x, e) ensures Cable(m, x, e) {
      assert Cable(n, x, e);
    }
  }

  // ---------------------------------------------------------------------------
  // A packet keeps the network steady
  // ---------------------------------------------------------------------------

  lemma ProperAfter(n: Network, goal: Lcid, u: Lcid, l: L.Local, p: L.Packet, now: int, path: seq<Node>, dst: Mac)
    requires Proper(n, goal, u, l, dst) && (u != goal && R.Learns(l, p) ==> p.src != dst)
    ensures Proper(n, goal, u, L.PacketIn(l, p, now, path).0, dst)
    ensures u != goal ==> Host(dst) !in Learned(l, p).nodes
  {
    PacketDoes(l, p, now, path);
    LearnedNodes(l, p);
  }

  lemma PacketOwned(n: Network, goal: Lcid, u: Lcid, l: L.Local, p: L.Packet, now: int, path: seq<Node>, dst: Mac)
    requires Proper(n, goal, u, l, dst) && forall x | Sw(x) in l.fabric.nodes :: Owns(n, u, x)
    ensures forall x | Sw(x) in Learned(l, p).nodes :: Owns(n, u, x)
    ensures OwnRules(n, u, PacketMsgs(l, p, path))
  {
    PacketDoes(l, p, now, path);
    LearnedNodes(l, p);
  }

  lemma NowAfter(n: Network, w: World, u: Lcid, p: L.Packet, now: int, path: seq<Node>)
    requires u in n.sites && u in w.ls && L.LocalInv(w.ls[u])
    ensures var m, m' := Now(n, w), Now(n, Handle(w, Arrived(u, p, now, path)));
            SameMap(m, m') && m'.sites == m.sites[u := Site(Learned(w.ls[u], p), w.ls[u].datapaths)]
  {
    PacketDoes(w.ls[u], p, now, path);
  }

  /** The switches a controller knows, and those its packets get rules for, are its own. */
  lemma NowOwned(n: Network, w: World, u: Lcid)
    requires Consistent(Now(n, w)) && u in n.sites && u in w.ls
    ensures forall x | Sw(x) in w.ls[u].fabric.nodes :: Owns(n, u, x)
    ensures T.Agrees(w.ls[u].fabric, n.wire)
  {
    var m := Now(n, w);
    assert m.sites[u].fabric == w.ls[u].fabric;
    forall x | Sw(x) in w.ls[u].fabric.nodes ensures Owns(n, u, x) {
      assert Owns(m, u, x);
    }
  }

  lemma NowConsistent(n: Network, w: World, goal: Lcid, u: Lcid, p: L.Packet, now: int, path: seq<Node>, dst: Mac)
    requires AllProper(n, goal, w, dst) && Consistent(Now(n, w)) && u in n.sites
    ensures Consistent(Now(n, Handle(w, Arrived(u, p, now, path))))
    ensures OwnRules(Now(n, w), u, PacketMsgs(w.ls[u], p, path))
  {
    var l, m := w.ls[u], Now(n, w);
    assert Proper(n, goal, u, l, dst);
    NowAfter(n, w, u, p, now, path);
    NowOwned(n, w, u);
    PacketOwned(n, goal, u, l, p, now, path, dst);
    LearnedCables(l, p, n.wire);
    LearnedInv(l, p, now, path);
    ConsistentMore(m, Now(n, Handle(w, Arrived(u, p, now, path))), u, Learned(l, p));
  }

  lemma LearnedInv(l: L.Local, p: L.Packet, now: int, path: seq<Node>)
    requires L.LocalInv(l)
    ensures Inv(Learned(l, p))
  {
    PacketDoes(l, p, now, path);
  }

  lemma AllProperAfter(n: Network, w: World, goal: Lcid, u: Lcid, p: L.Packet, now: int, path: seq<Node>, dst: Mac)
    requires AllProper(n, goal, w, dst) && u in n.sites && (u != goal && R.Learns(w.ls[u], p) ==> p.src != dst)
    ensures AllProper(n, goal, Handle(w, Arrived(u, p, now, path)), dst)
  {
    assert Proper(n, goal, u, w.ls[u], dst);
    ProperAfter(n, goal, u, w.ls[u], p, now, path, dst);
  }

  lemma LaidAfter(n: Network, goal: Lcid, w: World, u: Lcid, p: L.Packet, now: int, path: seq<Node>, dst: Mac,
                  dest: Dest, ws: seq<T.Way>)
    requires AllProper(n, goal, w, dst) && Consistent(Now(n, w)) && u in n.sites
    requires Laid(Now(n, w), goal, w.tables, dst, dest, ws)
    requires dest(L.KeyOf(p)) == p.dst && (u != goal && R.Learns(w.ls[u], p) ==> p.src != dst)
    ensures var w' := Handle(w, Arrived(u, p, now, path)); Laid(Now(n, w'), goal, w'.tables, dst, dest, ws)
  {
    var l, msgs, w' := w.ls[u], PacketMsgs(w.ls[u], p, path), Handle(w, Arrived(u, p, now, path));
    assert Proper(n, goal, u, l, dst);
    NowAfter(n, w, u, p, now, path);
    NowConsistent(n, w, goal, u, p, now, path, dst);
    ProperAfter(n, goal, u, l, p, now, path, dst);
    PacketDoes(l, p, now, path);
    LaidPacket(Now(n, w), goal, w.tables, dst, dest, ws, u, Learned(l, p), p, msgs);
    LaidSame(Now(n, w), Now(n, w'), goal, w'.tables, dst, dest, ws);
  }

  /** The home domain as it is after the event */
  ghost function HomeAfter(n: Network, goal: Lcid, w: World, e: Event, d: Domain): Domain {
    if e.Arrived? && e.u == goal && goal in w.ls && L.LocalInv(w.ls[goal]) then
      Domain(Learned(w.ls[goal], e.p), d.dps, Apply(d.tables, PacketMsgs(w.ls[goal], e.p, e.path)))
    else d
  }

  lemma HomeSame(n: Network, m: Network, goal: Lcid, t: Tables, dst: Mac, d: Domain, homes: Homes, dest: Dest)
    requires SameMap(n, m) && HomeRules(n, goal, t, dst, d, homes, dest)
    requires goal in m.sites && m.sites[goal].fabric == n.sites[goal].fabric
    ensures HomeRules(m, goal, t, dst, d, homes, dest)
  {
    forall s: Dpid, k | Owns(m, goal, s) && (s, k) in t && dest(k) == dst ensures SameRule(t, d.tables, k, s) {
      assert Owns(n, goal, s);
    }
  }

  lemma HomeElsewhere(n: Network, goal: Lcid, w: World, u: Lcid, p: L.Packet, now: int, path: seq<Node>, dst: Mac,
                      d: Domain, homes: Homes, dest: Dest)
    requires AllProper(n, goal, w, dst) && Consistent(Now(n, w)) && u in n.sites && u != goal
    requires HomeRules(Now(n, w), goal, w.tables, dst, d, homes, dest)
    ensures var w' := Handle(w, Arrived(u, p, now, path)); HomeRules(Now(n, w'), goal, w'.tables, dst, d, homes, dest)
  {
    var w' := Handle(w, Arrived(u, p, now, path));
    assert Proper(n, goal, u, w.ls[u], dst);
    NowAfter(n, w, u, p, now, path);
    NowConsistent(n, w, goal, u, p, now, path, dst);
    AwayPacket(Now(n, w), goal, w.tables, dst, d, homes, dest, u, PacketMsgs(w.ls[u], p, path));
    HomeSame(Now(n, w), Now(n, w'), goal, w'.tables, dst, d, homes, dest);
  }

  lemma HomeHere(n: Network, goal: Lcid, w: World, p: L.Packet, now: int, path: seq<Node>, dst: Mac, d: Domain,
                 homes: Homes, dest: Dest)
    requires goal in n.sites && goal in w.ls && L.LocalInv(w.ls[goal]) && d.dps == w.ls[goal].datapaths
    requires HomeRules(Now(n, w), goal, w.tables, dst, d, homes, dest)
    requires R.Lawful(w.ls[goal], R.Incoming(p, now, path), homes, dest)
    ensures var e := Arrived(goal, p, now, path);
            HomeRules(Now(n, Handle(w, e)), goal, Handle(w, e).tables, dst, HomeAfter(n, goal, w, e, d), homes, dest)
  {
    var l, msgs, e := w.ls[goal], PacketMsgs(w.ls[goal], p, path), Arrived(goal, p, now, path);
    NowAfter(n, w, goal, p, now, path);
    assert d == Domain(l.fabric, l.datapaths, d.tables);
    HomePacket(l, p, now, path, d.tables, homes, dest);
    HomeMore(Now(n, w), Now(n, Handle(w, e)), goal, w.tables, dst, d, homes, dest, Learned(l, p), msgs);
  }

  lemma HomeMore(n: Network, m: Network, goal: Lcid, t: Tables, dst: Mac, d: Domain, homes: Homes, dest: Dest,
                 f: Fabric, msgs: seq<ToSwitch>)
    requires HomeRules(n, goal, t, dst, d, homes, dest) && SameMap(n, m)
    requires goal in m.sites && m.sites[goal].fabric == f
    requires DomainInv(Domain(f, d.dps, Apply(d.tables, msgs)), homes, dest)
    ensures HomeRules(m, goal, Apply(t, msgs), dst, Domain(f, d.dps, Apply(d.tables, msgs)), homes, dest)
  {
    HomeGets(n, goal, t, dst, d.tables, dest, msgs);
    forall s: Dpid, k | Owns(m, goal, s) && (s, k) in Apply(t, msgs) && dest(k) == dst
      ensures SameRule(Apply(t, msgs), Apply(d.tables, msgs), k, s)
    {
      assert Owns(n, goal, s);
    }
  }

  lemma PacketSteady(n: Network, goal: Lcid, w: World, e: Event, dst: Mac, ws: seq<T.Way>, d: Domain, homes: Homes,
                     dest: Dest)
    requires Steady(n, goal, w, dst, ws, d, homes, dest) && Fair(n, goal, w, e, dst, homes, dest) && e.Arrived?
    ensures Steady(n, goal, Handle(w, e), dst, ws, HomeAfter(n, goal, w, e, d), homes, dest)
  {
    var w' := Handle(w, e);
    assert Proper(n, goal, e.u, w.ls[e.u], dst) && Proper(n, goal, goal, w.ls[goal], dst);
    NowConsistent(n, w, goal, e.u, e.p, e.now, e.path, dst);
    AllProperAfter(n, w, goal, e.u, e.p, e.now, e.path, dst);
    LaidAfter(n, goal, w, e.u, e.p, e.now, e.path, dst, dest, ws);
    PacketDoes(w.ls[e.u], e.p, e.now, e.path);
    if e.u == goal {
      HomeHere(n, goal, w, e.p, e.now, e.path, dst, d, homes, dest);
    } else {
      HomeElsewhere(n, goal, w, e.u, e.p, e.now, e.path, dst, d, homes, dest);
    }
  }

  // ---------------------------------------------------------------------------
  // So does an order
  // ---------------------------------------------------------------------------

  lemma SeesNow(n: Network, goal: Lcid, w: World, dst: Mac)
    requires AllProper(n, goal, w, dst)
    ensures Sees(Now(n, w), w)
  {
    forall u | u in n.sites ensures SeesSite(Now(n, w).sites[u], w.ls[u]) {
      assert Proper(n, goal, u, w.ls[u], dst);
    }
  }

  lemma HeadsNow(n: Network, w: World, goal: Lcid, o: S.Order)
    requires Heads(n, goal, o)
    ensures Heads(Now(n, w), goal, o)
  {
    var path, i :| HeadsAt(n, goal, o, path, i);
    assert HeadsAt(Now(n, w), goal, o, path, i);
  }

  lemma OrderKeepsProper(n: Network, goal: Lcid, w: World, v: World, dst: Mac, u: Lcid)
    requires AllProper(n, goal, w, dst) && Sees(Now(n, w), v) && u in n.sites
    ensures u in v.ls && v.ls[u].fabric == w.ls[u].fabric && v.ls[u].datapaths == w.ls[u].datapaths
    ensures Proper(n, goal, u, v.ls[u], dst)
  {
    assert u in Now(n, w).sites && SeesSite(Now(n, w).sites[u], v.ls[u]) && Proper(n, goal, u, w.ls[u], dst);
  }

  lemma SameViews(n: Network, goal: Lcid, w: World, v: World, dst: Mac)
    requires AllProper(n, goal, w, dst) && Sees(Now(n, w), v)
    ensures AllProper(n, goal, v, dst) && Now(n, v) == Now(n, w)
  {
    forall u | u in n.sites
      ensures u in v.ls && v.ls[u].fabric == w.ls[u].fabric && v.ls[u].datapaths == w.ls[u].datapaths
      ensures Proper(n, goal, u, v.ls[u], dst)
    {
      OrderKeepsProper(n, goal, w, v, dst, u);
    }
    assert Now(n, v).sites == Now(n, w).sites;
  }

  lemma OrderKeepsViews(n: Network, goal: Lcid, w: World, j: Job, dst: Mac)
    requires AllProper(n, goal, w, dst) && Ready(Now(n, w), w, j)
    ensures AllProper(n, goal, Do(w, j).0, dst) && Now(n, Do(w, j).0) == Now(n, w)
  {
    SeesNow(n, goal, w, dst);
    var a := DoIsBatch(Now(n, w), w, j);
    SameViews(n, goal, w, Do(w, j).0, dst);
  }

  lemma OrderSteady(n: Network, goal: Lcid, w: World, j: Job, dst: Mac, ws: seq<T.Way>, d: Domain, homes: Homes,
                    dest: Dest)
    requires Steady(n, goal, w, dst, ws, d, homes, dest) && Fair(n, goal, w, Ordered(j), dst, homes, dest)
    requires forall m :: dest(EthDst(m)) == m
    ensures Steady(n, goal, Do(w, j).0, dst, ws + [WayFor(Now(n, w), j, EthDst(dst))], d, homes, dest)
  {
    SeesNow(n, goal, w, dst);
    if j.o.dst == dst { HeadsNow(n, w, goal, j.o); }
    JobSound(Now(n, w), goal, w, j, dst, ws, d, homes, dest);
    OrderKeepsViews(n, goal, w, j, dst);
    assert Now(n, Do(w, j).0).sites[goal] == Now(n, w).sites[goal];
  }

  // ---------------------------------------------------------------------------
  // Runs
  // ---------------------------------------------------------------------------

  ghost predicate Runs(n: Network, goal: Lcid, vs: seq<World>, es: seq<Event>, dst: Mac, homes: Homes, dest: Dest) {
    && |vs| == |es| + 1
    && forall i | 0 <= i < |es| :: Fair(n, goal, vs[i], es[i], dst, homes, dest) && vs[i + 1] == Handle(vs[i], es[i])
  }

  /** Each domain is as its controller knows it, rules for `dst` are only in its own domain `d`, and
      those are as the domain's runs keep them. A match by destination is for that destination. */
  ghost predicate Begins(n: Network, goal: Lcid, w: World, dst: Mac, d: Domain, homes: Homes, dest: Dest) {
    && AllProper(n, goal, w, dst) && Consistent(Now(n, w)) && d.dps == w.ls[goal].datapaths
    && HomeRules(Now(n, w), goal, w.tables, dst, d, homes, dest)
    && (forall s: Dpid, k | !Owns(n, goal, s) && dest(k) == dst :: (s, k) !in w.tables)
    && (forall m :: dest(EthDst(m)) == m)
  }

  lemma BeginsSteady(n: Network, goal: Lcid, w: World, dst: Mac, d: Domain, homes: Homes, dest: Dest)
    requires Begins(n, goal, w, dst, d, homes, dest)
    ensures Steady(n, goal, w, dst, [], d, homes, dest)
  {
    forall s: Dpid, k | !Owns(Now(n, w), goal, s) && dest(k) == dst ensures (s, k) !in w.tables {
      assert !Owns(n, goal, s);
    }
  }

  lemma StepSteady(n: Network, goal: Lcid, w: World, e: Event, dst: Mac, ws: seq<T.Way>, d: Domain, homes: Homes,
                   dest: Dest)
    returns (ws': seq<T.Way>, d': Domain)
    requires Steady(n, goal, w, dst, ws, d, homes, dest) && Fair(n, goal, w, e, dst, homes, dest)
    requires forall m :: dest(EthDst(m)) == m
    ensures Steady(n, goal, Handle(w, e), dst, ws', d', homes, dest)
  {
    if e.Ordered? {
      OrderSteady(n, goal, w, e.j, dst, ws, d, homes, dest);
      ws', d' := ws + [WayFor(Now(n, w), e.j, EthDst(dst))], d;
    } else {
      PacketSteady(n, goal, w, e, dst, ws, d, homes, dest);
      ws', d' := ws, HomeAfter(n, goal, w, e, d);
    }
  }

  lemma {:induction false} RunSteady(n: Network, goal: Lcid, vs: seq<World>, es: seq<Event>, i: nat, dst: Mac,
                                     d: Domain, homes: Homes, dest: Dest)
    returns (ws: seq<T.Way>, now: Domain)
    requires Runs(n, goal, vs, es, dst, homes, dest) && i < |vs| && Begins(n, goal, vs[0], dst, d, homes, dest)
    ensures Steady(n, goal, vs[i], dst, ws, now, homes, dest)
  {
    if i == 0 {
      ws, now := [], d;
      BeginsSteady(n, goal, vs[0], dst, d, homes, dest);
    } else {
      ws, now := RunSteady(n, goal, vs, es, i - 1, dst, d, homes, dest);
      assert vs[i - 1 + 1] == Handle(vs[i - 1], es[i - 1]);
      ws, now := StepSteady(n, goal, vs[i - 1], es[i - 1], dst, ws, now, homes, dest);
    }
  }

  /** Loop freedom of the whole network. After any run of packet-ins at all local controllers and of
      FLOW_MODs for any destinations, in any interleaving, where those for `dst` belong to shortest
      paths of the domain graph to its domain, a frame for `dst` visits no switch of the network
      twice, whichever of the rules that match it each switch uses. */
  lemma NetworkLoopFree(n: Network, goal: Lcid, vs: seq<World>, es: seq<Event>, i: nat, dst: Mac, d: Domain,
                        homes: Homes, dest: Dest, r: seq<Dpid>)
    requires Runs(n, goal, vs, es, dst, homes, dest) && i < |vs| && Begins(n, goal, vs[0], dst, d, homes, dest)
    requires MatchRoute(n, vs[i].tables, dst, dest, r)
    ensures Simple(r)
  {
    var ws, now := RunSteady(n, goal, vs, es, i, dst, d, homes, dest);
    var m := Now(n, vs[i]);
    forall j | 0 <= j < |r| - 1 ensures MatchHop(m, vs[i].tables, dst, dest, r[j], r[j + 1]) {
      assert MatchHop(n, vs[i].tables, dst, dest, r[j], r[j + 1]);
    }
    SoundLoopFree(m, goal, vs[i].tables, dst, ws, now, homes, dest, r);
  }
}
