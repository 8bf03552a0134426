/**
 What a local controller knows of its domain: the networkx graph `net` of switches and hosts, and
 the table `mac_to_port`. Host learning, topology updates and switch departures change both.
 */
module Fabric {
  import opened Base
  import opened Graphs

  /** Switches are integers in `net`, hosts are MAC strings, so the two never collide. */
  datatype Node = Sw(dpid: Dpid) | Host(mac: Mac)

  datatype Fabric = Fabric(nodes: set<Node>, edges: map<(Node, Node), Option<Port>>, macs: map<Dpid, map<Mac, Port>>)

  const EMPTY := Fabric({}, map[], map[])

  /** A link found by the topology service: port `srcPort` of `src` to port `dstPort` of `dst`. */
  datatype Link = Link(src: Dpid, srcPort: Port, dst: Dpid, dstPort: Port)

  function AddNode(f: Fabric, n: Node): Fabric {
    f.(nodes := f.nodes + {n})
  }

  /** add_edge: the end points become nodes, and attributes that are not given stay. */
  function AddEdge(f: Fabric, u: Node, v: Node, port: Option<Port>): Fabric {
    var attr := if port.None? && (u, v) in f.edges then f.edges[(u, v)] else port;
    f.(nodes := f.nodes + {u, v}, edges := f.edges[(u, v) := attr])
  }

  function RemoveNode(f: Fabric, n: Node): Fabric {
    f.(nodes := f.nodes - {n}, edges := map e | e in f.edges && e.0 != n && e.1 != n :: f.edges[e])
  }

  predicate On(f: Fabric, d: Dpid, h: Mac) {
    d in f.macs && h in f.macs[d]
  }

  // ---------------------------------------------------------------------------
  // The invariant
  // ---------------------------------------------------------------------------

  /** A MAC in a table is a node joined to that switch, both ways, by the table's port. */
  ghost predicate TableInNet(f: Fabric) {
    forall d, h | On(f, d, h) ::
      Host(h) in f.nodes && Joined(f, d, h)
  }

  ghost predicate Joined(f: Fabric, d: Dpid, h: Mac)
    requires On(f, d, h)
  {
    && (Sw(d), Host(h)) in f.edges && f.edges[(Sw(d), Host(h))] == Some(f.macs[d][h])
    && (Host(h), Sw(d)) in f.edges
  }

  /** A MAC that is a node is in a table. */
  ghost predicate NetInTable(f: Fabric) {
    forall h | Host(h) in f.nodes :: exists d :: On(f, d, h)
  }

  /** A MAC is in at most one table. */
  ghost predicate OneTable(f: Fabric) {
    forall d1, d2, h | On(f, d1, h) && On(f, d2, h) :: d1 == d2
  }

  /** A port of a switch holds at most one MAC. */
  ghost predicate OnePerPort(f: Fabric) {
    forall d, h1, h2 | On(f, d, h1) && On(f, d, h2) && f.macs[d][h1] == f.macs[d][h2] :: h1 == h2
  }

  /** Edges join nodes; those between switches have a port; a host's only neighbour is the switch
      whose table holds it. */
  ghost predicate EdgesFit(f: Fabric) {
    forall e | e in f.edges ::
      && e.0 in f.nodes && e.1 in f.nodes
      && (e.0.Sw? && e.1.Sw? ==> f.edges[e].Some?)
      && (e.1.Host? ==> e.0.Sw? && On(f, e.0.dpid, e.1.mac))
      && (e.0.Host? ==> e.1.Sw? && On(f, e.1.dpid, e.0.mac))
  }

  ghost predicate Inv(f: Fabric) {
    TableInNet(f) && NetInTable(f) && OneTable(f) && OnePerPort(f) && EdgesFit(f)
  }

  // ---------------------------------------------------------------------------
  // Steps
  // ---------------------------------------------------------------------------

  /** The hosts on a port of a switch. */
  function HostsOn(f: Fabric, d: Dpid, p: Port): set<Mac>
    requires d in f.macs
  {
    set h | h in f.macs[d] && f.macs[d][h] == p
  }

  /** Every host that was on port `p` of switch `d` leaves table and graph. */
  function Purge(f: Fabric, d: Dpid, p: Port): (r: Fabric)
    requires d in f.macs
  {
    var gone := HostsOn(f, d, p);
    Fabric(f.nodes - (set h | h in gone :: Host(h)),
           map e | e in f.edges && !(e.0.Host? && e.0.mac in gone) && !(e.1.Host? && e.1.mac in gone) :: f.edges[e],
           f.macs[d := f.macs[d] - gone])
  }

  function Attach(f: Fabric, d: Dpid, p: Port, h: Mac): Fabric
    requires d in f.macs
  {
    var table: map<Mac, Port> := f.macs[d][h := p];
    var g := AddNode(f.(macs := f.macs[d := table]), Host(h));
    AddEdge(AddEdge(g, Sw(d), Host(h), Some(p)), Host(h), Sw(d), None)
  }

  /** A packet from the unknown host `h` came in at port `p` of switch `d`. */
  function Learn(f: Fabric, d: Dpid, p: Port, h: Mac): Fabric
    requires d in f.macs
  {
    Attach(Purge(f, d, p), d, p, h)
  }

  function AddLinks(f: Fabric, links: seq<Link>): Fabric {
    if links == [] then f
    else
      var l := links[|links| - 1];
      AddEdge(AddLinks(f, links[..|links| - 1]), Sw(l.src), Sw(l.dst), Some(l.srcPort))
  }

  function Reversed(links: seq<Link>): (r: seq<Link>)
    ensures |r| == |links|
            && forall i | 0 <= i < |r| :: r[i] == Link(links[i].dst, links[i].dstPort, links[i].src, links[i].srcPort)
  {
    seq(|links|, i requires 0 <= i < |links| => Link(links[i].dst, links[i].dstPort, links[i].src, links[i].srcPort))
  }

  /** get_topology_data: switches, then links one way, then links the other way. */
  function Discover(f: Fabric, switches: set<Dpid>, links: seq<Link>): Fabric {
    var g := f.(nodes := f.nodes + (set d | d in switches :: Sw(d)));
    AddLinks(AddLinks(g, links), Reversed(links))
  }

  /** ofp_switch_features_handler gives a switch without a table an empty one. */
  function Join(f: Fabric, d: Dpid): Fabric {
    if d in f.macs then f else f.(macs := f.macs[d := map[]])
  }

  /** switch_leave_handler of a switch with a table: the switch, its hosts and its table go. */
  function Leave(f: Fabric, d: Dpid): Fabric {
    var gone := if d in f.macs then f.macs[d].Keys else {};
    Fabric(f.nodes - {Sw(d)} - (set h | h in gone :: Host(h)),
           map e | e in f.edges && Stays(e.0, d, gone) && Stays(e.1, d, gone) :: f.edges[e],
           f.macs - {d})
  }

  predicate Stays(n: Node, d: Dpid, gone: set<Mac>) {
    n != Sw(d) && !(n.Host? && n.mac in gone)
  }

  datatype Event =
    | EvJoin(dpid: Dpid)
    | EvLearn(dpid: Dpid, port: Port, mac: Mac)
    | EvDiscover(switches: set<Dpid>, links: seq<Link>)
    | EvLeave(dpid: Dpid)

  /** Hosts are learned only while they are not nodes, at a switch that has a table. */
  predicate Enabled(f: Fabric, e: Event) {
    match e
    case EvLearn(d, _, h) => d in f.macs && Host(h) !in f.nodes
    case _ => true
  }

  function Step(f: Fabric, e: Event): Fabric
    requires Enabled(f, e)
  {
    match e
    case EvJoin(d) => Join(f, d)
    case EvLearn(d, p, h) => Learn(f, d, p, h)
    case EvDiscover(s, l) => Discover(f, s, l)
    case EvLeave(d) => if Sw(d) in f.nodes then Leave(f, d) else f
  }

  // ---------------------------------------------------------------------------
  // The invariant is kept by every step
  // ---------------------------------------------------------------------------

  lemma PurgeKeeps(f: Fabric, d: Dpid, p: Port)
    requires Inv(f) && d in f.macs
    ensures Inv(Purge(f, d, p))
    ensures HostsOn(Purge(f, d, p), d, p) == {}
  {
    var g := Purge(f, d, p);
    assert forall x, h | On(g, x, h) :: On(f, x, h) && (x == d ==> f.macs[d][h] != p);
    forall x, h | On(g, x, h) ensures Host(h) in g.nodes && Joined(g, x, h) {
      assert On(f, x, h) && Joined(f, x, h);
      if h in HostsOn(f, d, p) { assert On(f, d, h); }
    }
    forall h | Host(h) in g.nodes ensures exists x :: On(g, x, h) {
      var x :| On(f, x, h);
      assert On(g, x, h);
    }
  }

  lemma AttachTables(f: Fabric, d: Dpid, p: Port, h: Mac)
    requires Inv(f) && d in f.macs && Host(h) !in f.nodes && HostsOn(f, d, p) == {}
    ensures var g := Attach(f, d, p, h);
            && (forall x, m :: On(g, x, m) <==> (On(f, x, m) || (x == d && m == h)))
            && OneTable(g) && OnePerPort(g)
  {
    assert forall m | On(f, d, m) :: f.macs[d][m] == p ==> m in HostsOn(f, d, p);
  }

  lemma AttachKeeps(f: Fabric, d: Dpid, p: Port, h: Mac)
    requires Inv(f) && d in f.macs && Host(h) !in f.nodes && HostsOn(f, d, p) == {}
    ensures Inv(Attach(f, d, p, h))
  {
    var g := Attach(f, d, p, h);
    AttachTables(f, d, p, h);
    forall x, m | On(g, x, m) ensures Host(m) in g.nodes && Joined(g, x, m) {
      if m != h { assert On(f, x, m) && Joined(f, x, m); }
    }
    forall m | Host(m) in g.nodes ensures exists x :: On(g, x, m) {
      if m != h {
        var x :| On(f, x, m);
        assert On(g, x, m);
      } else {
        assert On(g, d, h);
      }
    }
  }

  lemma LearnKeeps(f: Fabric, d: Dpid, p: Port, h: Mac)
    requires Inv(f) && d in f.macs && Host(h) !in f.nodes
    ensures Inv(Learn(f, d, p, h))
  {
    PurgeKeeps(f, d, p);
    AttachKeeps(Purge(f, d, p), d, p, h);
  }

  lemma JoinKeeps(f: Fabric, d: Dpid)
    requires Inv(f)
    ensures Inv(Join(f, d))
  {
    var g := Join(f, d);
    assert forall x, h :: On(g, x, h) <==> On(f, x, h);
    forall x, h | On(g, x, h) ensures Host(h) in g.nodes && Joined(g, x, h) {
      assert Joined(f, x, h);
    }
    forall h | Host(h) in g.nodes ensures exists x :: On(g, x, h) {
      var x :| On(f, x, h);
      assert On(g, x, h);
    }
  }

  lemma LinkKeeps(f: Fabric, s: Dpid, t: Dpid, p: Port)
    requires Inv(f)
    ensures Inv(AddEdge(f, Sw(s), Sw(t), Some(p)))
  {
    var g := AddEdge(f, Sw(s), Sw(t), Some(p));
    assert forall x, h :: On(g, x, h) <==> On(f, x, h);
    forall x, h | On(g, x, h) ensures Host(h) in g.nodes && Joined(g, x, h) {
      assert On(f, x, h) && Joined(f, x, h);
    }
    forall h | Host(h) in g.nodes ensures exists x :: On(g, x, h) {
      var x :| On(f, x, h);
      assert On(g, x, h);
    }
  }

  lemma {:induction false} LinksKeep(f: Fabric, links: seq<Link>)
    requires Inv(f)
    ensures Inv(AddLinks(f, links))
  {
    if links != [] {
      var l := links[|links| - 1];
      LinksKeep(f, links[..|links| - 1]);
      LinkKeeps(AddLinks(f, links[..|links| - 1]), l.src, l.dst, l.srcPort);
    }
  }

  lemma DiscoverKeeps(f: Fabric, switches: set<Dpid>, links: seq<Link>)
    requires Inv(f)
    ensures Inv(Discover(f, switches, links))
  {
    var g := f.(nodes := f.nodes + (set d | d in switches :: Sw(d)));
    assert forall x, h :: On(g, x, h) <==> On(f, x, h);
    forall x, h | On(g, x, h) ensures Host(h) in g.nodes && Joined(g, x, h) {
      assert On(f, x, h) && Joined(f, x, h);
    }
    forall h | Host(h) in g.nodes ensures exists x :: On(g, x, h) {
      assert Host(h) in f.nodes;
      var x :| On(f, x, h);
      assert On(g, x, h);
    }
    LinksKeep(g, links);
    LinksKeep(AddLinks(g, links), Reversed(links));
  }

  lemma LeaveKeeps(f: Fabric, d: Dpid)
    requires Inv(f)
    ensures Inv(Leave(f, d))
  {
    var g := Leave(f, d);
    assert forall x, h :: On(g, x, h) <==> On(f, x, h) && x != d;
    forall x, h | On(g, x, h) ensures Host(h) in g.nodes && Joined(g, x, h) {
      assert On(f, x, h) && Joined(f, x, h) && !On(f, d, h);
    }
    forall h | Host(h) in g.nodes ensures exists x :: On(g, x, h) {
      var x :| On(f, x, h);
      assert On(g, x, h);
    }
  }

  /** States after each event of a run that starts with nothing known. */
  ghost predicate Run(fs: seq<Fabric>, es: seq<Event>) {
    && |fs| == |es| + 1 && fs[0] == EMPTY
    && forall i | 0 <= i < |es| :: Enabled(fs[i], es[i]) && fs[i + 1] == Step(fs[i], es[i])
  }

  lemma StepKeeps(f: Fabric, e: Event)
    requires Inv(f) && Enabled(f, e)
    ensures Inv(Step(f, e))
  {
    match e
    case EvJoin(d) => JoinKeeps(f, d);
    case EvLearn(d, p, h) => LearnKeeps(f, d, p, h);
    case EvDiscover(s, l) => DiscoverKeeps(f, s, l);
    case EvLeave(d) => if Sw(d) in f.nodes { LeaveKeeps(f, d); }
  }

  /** Learning, discovery and departures in any order keep table and graph in agreement. */
  lemma {:induction false} RunInv(fs: seq<Fabric>, es: seq<Event>, n: nat)
    requires Run(fs, es) && n < |fs|
    ensures Inv(fs[n])
  {
    if n > 0 {
      RunInv(fs, es, n - 1);
      StepKeeps(fs[n - 1], es[n - 1]);
    }
  }

  /** Learning puts the host on its port, and of all others exactly those leave that were on it. */
  lemma LearnExact(f: Fabric, d: Dpid, p: Port, h: Mac)
    requires Inv(f) && d in f.macs && Host(h) !in f.nodes
    ensures var g := Learn(f, d, p, h);
            && On(g, d, h) && g.macs[d][h] == p && g.macs.Keys == f.macs.Keys
            && forall x, m | (x, m) != (d, h) ::
                 (On(g, x, m) <==> On(f, x, m) && !(x == d && f.macs[x][m] == p))
                 && (On(g, x, m) ==> g.macs[x][m] == f.macs[x][m])
  {
    var g := Learn(f, d, p, h);
    assert forall m | m in f.macs[d] :: f.macs[d][m] == p <==> m in HostsOn(f, d, p);
  }

  /** A departure takes the switch and the hosts of its table, and nothing else. */
  lemma LeaveExact(f: Fabric, d: Dpid)
    requires Inv(f)
    ensures var g := Leave(f, d);
            && (forall x :: Sw(x) in g.nodes <==> Sw(x) in f.nodes && x != d)
            && (forall m :: Host(m) in g.nodes <==> Host(m) in f.nodes && !On(f, d, m))
            && (forall x | x != d :: (x in g.macs <==> x in f.macs) && (x in f.macs ==> g.macs[x] == f.macs[x]))
            && d !in g.macs
            && (forall e :: e in g.edges <==> e in f.edges && e.0 in g.nodes && e.1 in g.nodes)
            && (forall e | e in g.edges :: g.edges[e] == f.edges[e])
  {
    forall e | e in f.edges ensures e in Leave(f, d).edges <==> e.0 in Leave(f, d).nodes && e.1 in Leave(f, d).nodes {
      assert e.0 in f.nodes && e.1 in f.nodes;
    }
  }

  /** The second purge of the packet-in handler: a source that is not a node is in no table, so
      there is nothing for it to find. */
  lemma SecondPurgeIdle(f: Fabric, h: Mac)
    requires Inv(f)
    ensures Host(h) !in f.nodes <==> forall d :: !On(f, d, h)
  {
  }

  // ---------------------------------------------------------------------------
  // Paths
  // ---------------------------------------------------------------------------

  function SwitchEdges(f: Fabric): set<(Node, Node)> {
    set e | e in f.edges && e.0.Sw? && e.1.Sw?
  }

  /** A shortest path from a switch passes switches only, and every hop of it has a port. */
  lemma InteriorSwitches(f: Fabric, s: Dpid, t: Node, p: seq<Node>)
    requires Inv(f) && Shortest(f.edges.Keys, Sw(s), t, p)
    ensures forall i | 0 <= i < |p| - 1 :: p[i].Sw? && f.edges[(p[i], p[i + 1])].Some?
  {
    ShortestSimple(f.edges.Keys, Sw(s), t, p);
    forall i | 0 <= i < |p| - 1 ensures p[i].Sw? {
      if i > 0 {
        assert (p[i - 1], p[i]) in f.edges && (p[i], p[i + 1]) in f.edges;
        assert p[i - 1] != p[i + 1];
      }
    }
    forall i | 0 <= i < |p| - 1 ensures f.edges[(p[i], p[i + 1])].Some? {
      assert (p[i], p[i + 1]) in f.edges;
      if p[i + 1].Host? { assert Joined(f, p[i].dpid, p[i + 1].mac); }
    }
  }

  /** Hosts are leaves: between switches, the distances in the whole graph are those among the
      switches alone. */
  lemma SwitchDistance(f: Fabric, s: Dpid, t: Dpid, p: seq<Node>)
    requires Inv(f)
    ensures Shortest(f.edges.Keys, Sw(s), Sw(t), p) <==> Shortest(SwitchEdges(f), Sw(s), Sw(t), p)
  {
    if Shortest(f.edges.Keys, Sw(s), Sw(t), p) {
      InteriorSwitches(f, s, Sw(t), p);
      forall q | Connects(SwitchEdges(f), Sw(s), Sw(t), q) ensures |p| <= |q| {
        assert Connects(f.edges.Keys, Sw(s), Sw(t), q);
      }
    }
    if Shortest(SwitchEdges(f), Sw(s), Sw(t), p) {
      var q := HasShortest(f.edges.Keys, Sw(s), Sw(t), p);
      InteriorSwitches(f, s, Sw(t), q);
      assert Connects(SwitchEdges(f), Sw(s), Sw(t), q);
    }
  }

  /** A shortest path to a host is a shortest path among the switches to the one that has it in
      its table, and one hop more. */
  lemma HostPath(f: Fabric, s: Dpid, h: Mac, a: Dpid, p: seq<Node>)
    requires Inv(f) && On(f, a, h) && Shortest(f.edges.Keys, Sw(s), Host(h), p)
    ensures |p| >= 2 && p[|p| - 2] == Sw(a) && f.edges[(Sw(a), Host(h))] == Some(f.macs[a][h])
    ensures Shortest(SwitchEdges(f), Sw(s), Sw(a), p[..|p| - 1])
  {
    var n := |p|;
    InteriorSwitches(f, s, Host(h), p);
    assert (p[n - 2], p[n - 1]) in f.edges && On(f, p[n - 2].dpid, h);
    assert Joined(f, a, h);
    var r := p[..n - 1];
    PrefixConnects(f.edges.Keys, Sw(s), Host(h), p, n - 2);
    forall q | Connects(f.edges.Keys, Sw(s), Sw(a), q) ensures |r| <= |q| {
      HopConnects(f.edges.Keys, Sw(s), Sw(a), q, Host(h));
    }
    SwitchDistance(f, s, a, r);
  }

  lemma HopConnects(E: set<(Node, Node)>, s: Node, a: Node, q: seq<Node>, h: Node)
    requires Connects(E, s, a, q) && (a, h) in E
    ensures Connects(E, s, h, q + [h])
  {
  }

  /** Learning a host that is not on the graph leaves every distance between switches as it was. */
  lemma LearnKeepsSwitches(f: Fabric, d: Dpid, p: Port, h: Mac)
    requires d in f.macs
    ensures SwitchEdges(Learn(f, d, p, h)) == SwitchEdges(f)
    ensures forall e | e in SwitchEdges(f) :: Learn(f, d, p, h).edges[e] == f.edges[e]
  {
  }
}
