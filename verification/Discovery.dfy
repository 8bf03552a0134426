/**
 What a local controller's graph says is true: after discovery it has the switches and links that
 were reported, each edge with the port of its own end, and in every run its edges are cables.
 */
module Discovery {
  import opened Base
  import opened Fabric
  import opened FlowTables
  import opened Transit
  import L = LocalSteps
  import P = LocalPending

  /** The link is a cable: from its first port to its second switch, and back. */
  predicate IsCable(wire: Wire, l: Link) {
    && (l.src, l.srcPort) in wire && wire[(l.src, l.srcPort)] == l.dst
    && (l.dst, l.dstPort) in wire && wire[(l.dst, l.dstPort)] == l.src
  }

  predicate AreCables(wire: Wire, links: seq<Link>) {
    forall i | 0 <= i < |links| :: IsCable(wire, links[i])
  }

  // ---------------------------------------------------------------------------
  // What discovery finds
  // ---------------------------------------------------------------------------

  /** A link leads from `a` to `b`. */
  predicate Leads(l: Link, a: Dpid, b: Dpid) {
    l.src == a && l.dst == b
  }

  /** It is the last of the list that does. */
  ghost predicate LastLink(links: seq<Link>, a: Dpid, b: Dpid, i: nat) {
    i < |links| && Leads(links[i], a, b) && forall j | i < j < |links| :: !Leads(links[j], a, b)
  }

  ghost predicate NoLink(links: seq<Link>, a: Dpid, b: Dpid) {
    forall j | 0 <= j < |links| :: !Leads(links[j], a, b)
  }

  ghost predicate SameEdge(f: Fabric, g: Fabric, e: (Node, Node)) {
    (e in g.edges <==> e in f.edges) && (e in f.edges ==> g.edges[e] == f.edges[e])
  }

  /** Between two switches `g` has the port of the last link that leads from one to the other, and
      without a link the edge of `f`, if any. */
  ghost predicate Between(f: Fabric, links: seq<Link>, g: Fabric, a: Dpid, b: Dpid) {
    && (NoLink(links, a, b) ==> SameEdge(f, g, (Sw(a), Sw(b))))
    && (forall i: nat | LastLink(links, a, b, i) :: HopPort(g, Sw(a), Sw(b)) == Some(links[i].srcPort))
  }

  /** So it is between all switches; the other edges and the tables are those of `f`. */
  ghost predicate Found(f: Fabric, links: seq<Link>, g: Fabric) {
    && g.macs == f.macs && g.nodes == f.nodes + Ends(links)
    && (forall e: (Node, Node) | e.0.Host? || e.1.Host? :: SameEdge(f, g, e))
    && (forall a, b :: Between(f, links, g, a, b))
  }

  function Ends(links: seq<Link>): set<Node> {
    (set l | l in links :: Sw(l.src)) + (set l | l in links :: Sw(l.dst))
  }

  lemma EndsMore(links: seq<Link>, l: Link)
    ensures Ends(links + [l]) == Ends(links) + {Sw(l.src), Sw(l.dst)}
  {
    assert forall x :: x in links + [l] <==> x in links || x == l;
  }

  lemma LastMore(links: seq<Link>, l: Link, a: Dpid, b: Dpid, i: nat)
    requires LastLink(links + [l], a, b, i)
    ensures if i == |links| then Leads(l, a, b) else LastLink(links, a, b, i) && !Leads(l, a, b)
  {
    var more := links + [l];
    assert more[|links|] == l && forall j | 0 <= j < |links| :: more[j] == links[j];
  }

  lemma NoneMore(links: seq<Link>, l: Link, a: Dpid, b: Dpid)
    requires NoLink(links + [l], a, b)
    ensures NoLink(links, a, b) && !Leads(l, a, b)
  {
    var more := links + [l];
    assert more[|links|] == l && forall j | 0 <= j < |links| :: more[j] == links[j];
  }

  lemma BetweenMore(f: Fabric, links: seq<Link>, g: Fabric, l: Link, a: Dpid, b: Dpid)
    requires Between(f, links, g, a, b)
    ensures Between(f, links + [l], AddEdge(g, Sw(l.src), Sw(l.dst), Some(l.srcPort)), a, b)
  {
    var h, more := AddEdge(g, Sw(l.src), Sw(l.dst), Some(l.srcPort)), links + [l];
    if NoLink(more, a, b) { NoneMore(links, l, a, b); }
    forall i: nat | LastLink(more, a, b, i) ensures HopPort(h, Sw(a), Sw(b)) == Some(more[i].srcPort) {
      LastMore(links, l, a, b, i);
    }
  }

  lemma FoundMore(f: Fabric, links: seq<Link>, g: Fabric, l: Link)
    requires Found(f, links, g)
    ensures Found(f, links + [l], AddEdge(g, Sw(l.src), Sw(l.dst), Some(l.srcPort)))
  {
    EndsMore(links, l);
    forall a, b ensures Between(f, links + [l], AddEdge(g, Sw(l.src), Sw(l.dst), Some(l.srcPort)), a, b) {
      BetweenMore(f, links, g, l, a, b);
    }
  }

  lemma {:induction false} LinksFound(f: Fabric, links: seq<Link>)
    ensures Found(f, links, AddLinks(f, links))
    decreases |links|
  {
    if links == [] {
      assert Ends(links) == {};
    } else {
      var less, l := links[..|links| - 1], links[|links| - 1];
      LinksFound(f, less);
      FoundMore(f, less, AddLinks(f, less), l);
      assert less + [l] == links;
    }
  }

  lemma {:induction false} LinksConcat(f: Fabric, a: seq<Link>, b: seq<Link>)
    ensures AddLinks(f, a + b) == AddLinks(AddLinks(f, a), b)
    decreases |b|
  {
    if b == [] {
      assert a + b == a;
    } else {
      assert (a + b)[..|a + b| - 1] == a + b[..|b| - 1];
      LinksConcat(f, a, b[..|b| - 1]);
    }
  }

  /** The graph before the links are added: the switches are nodes. */
  function WithSwitches(f: Fabric, switches: set<Dpid>): Fabric {
    f.(nodes := f.nodes + (set d | d in switches :: Sw(d)))
  }

  /** Discovery adds exactly the switches and, both ways, the links that were reported. Of several
      links from a switch to another the last in the list, reversed ones after all others, gives the
      port. */
  lemma DiscoverFinds(f: Fabric, switches: set<Dpid>, links: seq<Link>)
    ensures Found(WithSwitches(f, switches), links + Reversed(links), Discover(f, switches, links))
  {
    LinksConcat(WithSwitches(f, switches), links, Reversed(links));
    LinksFound(WithSwitches(f, switches), links + Reversed(links));
  }

  lemma {:induction false} SomeLast(links: seq<Link>, a: Dpid, b: Dpid, j: nat) returns (i: nat)
    requires j < |links| && Leads(links[j], a, b)
    ensures LastLink(links, a, b, i) && i >= j
    decreases |links| - j
  {
    if k :| j < k < |links| && Leads(links[k], a, b) {
      i := SomeLast(links, a, b, k);
    } else {
      i := j;
    }
  }

  /** Every reported switch is a node, and every reported link an edge both ways. */
  lemma ReportedKnown(f: Fabric, switches: set<Dpid>, links: seq<Link>)
    ensures forall d | d in switches :: Sw(d) in Discover(f, switches, links).nodes
    ensures forall i | 0 <= i < |links| ::
              var g := Discover(f, switches, links);
              HopPort(g, Sw(links[i].src), Sw(links[i].dst)).Some?
              && HopPort(g, Sw(links[i].dst), Sw(links[i].src)).Some?
  {
    DiscoverFinds(f, switches, links);
    var all, g := links + Reversed(links), Discover(f, switches, links);
    forall d | d in switches ensures Sw(d) in g.nodes {
      assert Sw(d) in WithSwitches(f, switches).nodes;
    }
    forall i | 0 <= i < |links|
      ensures HopPort(g, Sw(links[i].src), Sw(links[i].dst)).Some?
      ensures HopPort(g, Sw(links[i].dst), Sw(links[i].src)).Some?
    {
      assert all[i] == links[i] && all[|links| + i] == Reversed(links)[i];
      var there := SomeLast(all, links[i].src, links[i].dst, i);
      var back := SomeLast(all, links[i].dst, links[i].src, |links| + i);
      assert Between(WithSwitches(f, switches), all, g, links[i].src, links[i].dst);
      assert Between(WithSwitches(f, switches), all, g, links[i].dst, links[i].src);
    }
  }

  /** The i-th link is the only one between its two switches. */
  ghost predicate OnlyLink(links: seq<Link>, i: nat) {
    && i < |links| && links[i].src != links[i].dst
    && forall j | 0 <= j < |links| && j != i ::
         !Leads(links[j], links[i].src, links[i].dst) && !Leads(links[j], links[i].dst, links[i].src)
  }

  /** Each end of a link is left by its own port. */
  lemma OwnPorts(f: Fabric, switches: set<Dpid>, links: seq<Link>, i: nat)
    requires OnlyLink(links, i)
    ensures var g, l := Discover(f, switches, links), links[i];
            HopPort(g, Sw(l.src), Sw(l.dst)) == Some(l.srcPort) && HopPort(g, Sw(l.dst), Sw(l.src)) == Some(l.dstPort)
  {
    DiscoverFinds(f, switches, links);
    var all, l := links + Reversed(links), links[i];
    var there := SomeLast(all, l.src, l.dst, i);
    assert all[|links| + i] == Reversed(links)[i];
    var back := SomeLast(all, l.dst, l.src, |links| + i);
    forall j | 0 <= j < |all| ensures all[j] == if j < |links| then links[j] else Reversed(links)[j - |links|] {}
    assert there == i && back == |links| + i;
    assert Between(WithSwitches(f, switches), all, Discover(f, switches, links), l.src, l.dst);
    assert Between(WithSwitches(f, switches), all, Discover(f, switches, links), l.dst, l.src);
  }

  // ---------------------------------------------------------------------------
  // The graph's edges are cables
  // ---------------------------------------------------------------------------

  lemma CablesBack(wire: Wire, links: seq<Link>)
    requires AreCables(wire, links)
    ensures AreCables(wire, links + Reversed(links))
  {
    var all := links + Reversed(links);
    forall i | 0 <= i < |all| ensures IsCable(wire, all[i]) {
      assert IsCable(wire, links[if i < |links| then i else i - |links|]);
    }
  }

  lemma FoundAgrees(f: Fabric, links: seq<Link>, g: Fabric, wire: Wire)
    requires Found(f, links, g) && Agrees(f, wire) && AreCables(wire, links)
    ensures Agrees(g, wire)
  {
    forall e | e in SwitchEdges(g) && g.edges[e].Some?
      ensures (e.0.dpid, g.edges[e].value) in wire && wire[(e.0.dpid, g.edges[e].value)] == e.1.dpid
    {
      var a, b := e.0.dpid, e.1.dpid;
      assert Between(f, links, g, a, b);
      if NoLink(links, a, b) {
        assert e in SwitchEdges(f);
      } else {
        var j :| 0 <= j < |links| && Leads(links[j], a, b);
        var i := SomeLast(links, a, b, j);
        assert IsCable(wire, links[i]);
      }
    }
  }

  /** Discovery of links that are cables keeps it so. */
  lemma DiscoverAgrees(f: Fabric, switches: set<Dpid>, links: seq<Link>, wire: Wire)
    requires Agrees(f, wire) && AreCables(wire, links)
    ensures Agrees(Discover(f, switches, links), wire)
  {
    DiscoverFinds(f, switches, links);
    CablesBack(wire, links);
    assert SwitchEdges(WithSwitches(f, switches)) == SwitchEdges(f);
    FoundAgrees(WithSwitches(f, switches), links + Reversed(links), Discover(f, switches, links), wire);
  }

  lemma LearnAgrees(f: Fabric, d: Dpid, p: Port, h: Mac, wire: Wire)
    requires Agrees(f, wire) && d in f.macs
    ensures Agrees(Learn(f, d, p, h), wire)
  {
    LearnKeepsSwitches(f, d, p, h);
  }

  /** Fewer edges are cables too. */
  lemma FewerAgree(f: Fabric, g: Fabric, wire: Wire)
    requires Agrees(f, wire) && forall e | e in g.edges :: e in f.edges && g.edges[e] == f.edges[e]
    ensures Agrees(g, wire)
  {
    assert forall e | e in SwitchEdges(g) :: e in SwitchEdges(f);
  }

  /** In every run of learning, discovery and departures each edge between switches leads where the
      cable at its port does, if the links that were reported are cables. */
  lemma {:induction false} RunAgrees(fs: seq<Fabric>, es: seq<Event>, wire: Wire, n: nat)
    requires Run(fs, es) && n < |fs|
    requires forall i | 0 <= i < |es| && es[i].EvDiscover? :: AreCables(wire, es[i].links)
    ensures Agrees(fs[n], wire)
  {
    if n > 0 {
      RunAgrees(fs, es, wire, n - 1);
      match es[n - 1]
      case EvJoin(d) =>
      case EvLearn(d, p, h) => LearnAgrees(fs[n - 1], d, p, h, wire);
      case EvDiscover(s, l) => DiscoverAgrees(fs[n - 1], s, l, wire);
      case EvLeave(d) => FewerAgree(fs[n - 1], fs[n], wire);
    }
  }

  // ---------------------------------------------------------------------------
  // The handlers
  // ---------------------------------------------------------------------------

  /** The links that a move reports, if any, are cables. */
  predicate Truthful(wire: Wire, m: P.Move) {
    m.Topology? ==> AreCables(wire, m.links)
  }

  lemma ArrivalAgrees(l: L.Local, p: L.Packet, now: int, path: seq<Node>, wire: Wire)
    requires L.LocalInv(l) && Agrees(l.fabric, wire)
    ensures Agrees(L.PacketIn(l, p, now, path).0.fabric, wire)
  {
    if p.dpid in l.load && p.dst != L.LLDP_MAC {
      L.HeardLearns(l, p);
      if L.Teaches(l, p) { LearnAgrees(l.fabric, p.dpid, p.inPort, p.src, wire); }
    }
  }

  lemma MoveAgrees(l: L.Local, m: P.Move, wire: Wire)
    requires L.LocalInv(l) && Agrees(l.fabric, wire) && Truthful(wire, m)
    ensures Agrees(P.Moved(l, m).fabric, wire)
  {
    match m
    case Arrives(p, now, path) => ArrivalAgrees(l, p, now, path, wire);
    case Ordered(_, _, _, _, _, _) =>
    case Features(d) =>
    case Topology(switches, windows, links, _, _) => DiscoverAgrees(l.fabric, switches, links, wire);
    case Leaves(d) => FewerAgree(l.fabric, P.Moved(l, m).fabric, wire);
    case TimesOut(_) =>
    case Sends(_) =>
  }

  /** So it is in every run of the handlers. */
  lemma {:induction false} HandlersAgree(ls: seq<L.Local>, ms: seq<P.Move>, wire: Wire, n: nat)
    requires P.Runs(ls, ms) && n < |ls| && Agrees(ls[0].fabric, wire)
    requires forall i | 0 <= i < |ms| :: Truthful(wire, ms[i])
    ensures L.LocalInv(ls[n]) && Agrees(ls[n].fabric, wire)
  {
    P.RunKeeps(ls, ms, n);
    if n > 0 {
      HandlersAgree(ls, ms, wire, n - 1);
      MoveAgrees(ls[n - 1], ms[n - 1], wire);
    }
  }
}
