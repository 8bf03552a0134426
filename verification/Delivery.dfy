/**
 End to end between domains: the orders of the central controller, each carried out by its local
 controller, take a frame from the switch it came in at into the domain of its destination.
 */
module Delivery {
  import opened Base
  import opened Graphs
  import opened Fabric
  import opened FlowTables
  import T = Transit
  import D = DomainGraph
  import S = Stitching

  /** One local controller's view of its domain. */
  datatype Site = Site(fabric: Fabric, dps: set<Dpid>)

  /** The domain graph, the domains, whose switch is whose, and the cables of the whole network. */
  datatype Network = Network(topo: D.Topo, pick: S.Pick, ctrls: set<Lcid>, sites: map<Lcid, Site>,
                             owner: map<Dpid, Lcid>, wire: T.Wire)

  /** The views agree with the cables, no switch is in two domains, and every inter-domain edge is a
      cable into the domain it leads to. */
  ghost predicate Consistent(n: Network) {
    && (forall u | u in n.sites :: Inv(n.sites[u].fabric) && T.Agrees(n.sites[u].fabric, n.wire))
    && (forall u, d | u in n.sites && Sw(d) in n.sites[u].fabric.nodes :: Owns(n, u, d))
    && AllCables(n, n.topo)
  }

  /** Every edge of the graph of domains is a cable into the domain it leads to. */
  ghost predicate AllCables(n: Network, t: D.Topo) {
    forall u: Lcid, v: Lcid, e | D.Linked(t, u, v, e) :: Cable(n, v, e)
  }

  ghost predicate Owns(n: Network, u: Lcid, d: Dpid) {
    d in n.owner && n.owner[d] == u
  }

  ghost predicate Cable(n: Network, v: Lcid, e: D.Edge) {
    (e.leftDpid, e.outPort) in n.wire && n.wire[(e.leftDpid, e.outPort)] == e.rightDpid && Owns(n, v, e.rightDpid)
  }

  /** In every domain with an order there is a path, over connected switches, from where the frame
      enters to where it leaves. `inner` are the paths networkx picked there. */
  ghost predicate Inside(n: Network, os: seq<S.Order>, inner: seq<seq<Node>>) {
    && |inner| == |os|
    && forall j | 0 <= j < |os| :: InsideAt(n, os[j], inner[j])
  }

  ghost predicate InsideAt(n: Network, o: S.Order, p: seq<Node>) {
    && o.lcid in n.sites && Sw(o.inDpid) in n.sites[o.lcid].fabric.nodes
    && T.GoodPath(n.sites[o.lcid].fabric, n.sites[o.lcid].dps, p, o.inDpid, o.outDpid)
  }

  /** The packet an order releases, if its controller still has it: buffer and data */
  type Awaited = (Option<nat>, Option<seq<byte>>)

  /** For every time an order is carried out */
  type Waiting = seq<Awaited>

  /** The messages to the switches for one order. */
  function Batch(n: Network, o: S.Order, p: seq<Node>, w: Awaited): seq<ToSwitch>
  {
    if o.lcid !in n.sites || p == [] then []
    else T.FlowModMsgs(n.sites[o.lcid].fabric, n.sites[o.lcid].dps, p, o.inDpid, o.outDpid, EthDst(o.dst), o.outPort,
         w.0, w.1).0
  }

  /** The tables after the orders `order[0]`, `order[1]`, ... were carried out. */
  function CarriedOut(n: Network, t: Tables, os: seq<S.Order>, inner: seq<seq<Node>>, order: seq<nat>,
                      ws: Waiting): Tables
    requires |inner| == |os| && |ws| == |order| && forall i | 0 <= i < |order| :: order[i] < |os|
  {
    if order == [] then t
    else
      var l := |order| - 1;
      Apply(CarriedOut(n, t, os, inner, order[..l], ws[..l]), Batch(n, os[order[l]], inner[order[l]], ws[l]))
  }

  // ---------------------------------------------------------------------------
  // Joining the ways of the domains
  // ---------------------------------------------------------------------------

  function Flatten(ways: seq<T.Way>): T.Way {
    if ways == [] then [] else ways[0] + Flatten(ways[1..])
  }

  ghost predicate OwnedBy(n: Network, w: T.Way, u: Lcid) {
    forall i | 0 <= i < |w| :: Owns(n, u, w[i].0)
  }

  lemma ThreadedConcat(wire: T.Wire, a: T.Way, b: T.Way)
    requires T.Threaded(wire, a) && T.Threaded(wire, b)
    requires a[|a| - 1] in wire && wire[a[|a| - 1]] == b[0].0
    requires Apart(a, b)
    ensures T.Threaded(wire, a + b)
  {
  }

  /** The ways of the domains, one after the other: each ends at a cable to the start of the next. */
  ghost predicate Relay(n: Network, path: seq<Lcid>, ways: seq<T.Way>) {
    && |ways| < |path|
    && forall i | 0 <= i < |ways| :: RelayAt(n, path, ways, i)
  }

  ghost predicate RelayAt(n: Network, path: seq<Lcid>, ways: seq<T.Way>, i: nat)
    requires i < |ways| < |path|
  {
    var w := ways[i];
    && T.Threaded(n.wire, w) && OwnedBy(n, w, path[i])
    && (i + 1 < |ways| ==> ways[i + 1] != [] && w[|w| - 1] in n.wire && n.wire[w[|w| - 1]] == ways[i + 1][0].0)
  }

  lemma RelayTail(n: Network, path: seq<Lcid>, ways: seq<T.Way>)
    requires Relay(n, path, ways) && ways != []
    ensures Relay(n, path[1..], ways[1..])
  {
    forall i | 0 <= i < |ways| - 1 ensures RelayAt(n, path[1..], ways[1..], i) {
      assert RelayAt(n, path, ways, i + 1);
    }
  }

  lemma {:induction false} FlattenOwned(n: Network, path: seq<Lcid>, ways: seq<T.Way>)
    requires Relay(n, path, ways)
    ensures forall j | 0 <= j < |Flatten(ways)| ::
              Flatten(ways)[j].0 in n.owner && n.owner[Flatten(ways)[j].0] in path[..|ways|]
    decreases |ways|
  {
    if ways != [] {
      RelayTail(n, path, ways);
      FlattenOwned(n, path[1..], ways[1..]);
      assert RelayAt(n, path, ways, 0);
      var f := Flatten(ways[1..]);
      forall j | 0 <= j < |Flatten(ways)|
        ensures Flatten(ways)[j].0 in n.owner && n.owner[Flatten(ways)[j].0] in path[..|ways|] {
        if j < |ways[0]| {
          assert Owns(n, path[0], ways[0][j].0);
          assert path[0] == path[..|ways|][0];
        } else {
          var u := n.owner[f[j - |ways[0]|].0];
          assert u in path[1..][..|ways| - 1];
          var i :| 0 <= i < |ways| - 1 && path[1..][..|ways| - 1][i] == u;
          assert path[..|ways|][i + 1] == u;
        }
      }
    }
  }

  /** The whole of it is one thread through the network. */
  lemma {:induction false} FlattenThreads(n: Network, path: seq<Lcid>, ways: seq<T.Way>)
    requires Relay(n, path, ways) && ways != [] && Simple(path)
    ensures OneThread(n, ways)
    decreases |ways|
  {
    assert RelayAt(n, path, ways, 0);
    if |ways| == 1 {
      assert ways[1..] == [] && ways[0] + [] == ways[0];
    } else {
      RelayTail(n, path, ways);
      SimpleTail(path);
      FlattenThreads(n, path[1..], ways[1..]);
      HeadApart(n, path, ways);
      ThreadMore(n, ways);
    }
  }

  ghost predicate OneThread(n: Network, ways: seq<T.Way>)
    requires ways != []
  {
    var f, last := Flatten(ways), ways[|ways| - 1];
    && T.Threaded(n.wire, f) && last != [] && ways[0] != []
    && f[0] == ways[0][0] && f[|f| - 1] == last[|last| - 1]
  }

  lemma ThreadMore(n: Network, ways: seq<T.Way>)
    requires |ways| > 1 && OneThread(n, ways[1..]) && T.Threaded(n.wire, ways[0]) && Apart(ways[0], Flatten(ways[1..]))
    requires var w := ways[0]; w[|w| - 1] in n.wire && n.wire[w[|w| - 1]] == ways[1][0].0
    ensures OneThread(n, ways)
  {
    var a, b := ways[0], Flatten(ways[1..]);
    ThreadedConcat(n.wire, a, b);
    assert Flatten(ways) == a + b;
    assert (a + b)[|a + b| - 1] == b[|b| - 1];
  }

  lemma HeadApart(n: Network, path: seq<Lcid>, ways: seq<T.Way>)
    requires Relay(n, path, ways) && ways != [] && Simple(path)
    ensures Apart(ways[0], Flatten(ways[1..]))
  {
    assert RelayAt(n, path, ways, 0);
    RelayTail(n, path, ways);
    SimpleTail(path);
    FlattenOwned(n, path[1..], ways[1..]);
    var a, b := ways[0], Flatten(ways[1..]);
    forall i, j | 0 <= i < |a| && 0 <= j < |b| ensures a[i].0 != b[j].0 {
      assert Owns(n, path[0], a[i].0);
      assert n.owner[b[j].0] in path[1..][..|ways| - 1];
    }
  }

  lemma SimpleTail(path: seq<Lcid>)
    requires Simple(path) && path != []
    ensures Simple(path[1..]) && path[0] !in path[1..]
  {
    assert forall i | 0 < i < |path| :: path[1..][i - 1] == path[i];
  }

  lemma {:induction false} InFlatten(ways: seq<T.Way>, j: nat) returns (i: nat, h: nat)
    requires j < |Flatten(ways)|
    ensures i < |ways| && h < |ways[i]| && Flatten(ways)[j] == ways[i][h]
    decreases |ways|
  {
    if j < |ways[0]| {
      i, h := 0, j;
    } else {
      i, h := InFlatten(ways[1..], j - |ways[0]|);
      i := i + 1;
    }
  }

  // ---------------------------------------------------------------------------
  // The tables, whatever the order
  // ---------------------------------------------------------------------------

  /** The rules of a way are in the tables. */
  ghost predicate InTables(t: Tables, k: Match, w: T.Way) {
    forall h | 0 <= h < |w| :: (w[h].0, k) in t && t[(w[h].0, k)] == w[h].1
  }

  ghost predicate Apart(a: T.Way, b: T.Way) {
    forall i, j | 0 <= i < |a| && 0 <= j < |b| :: a[i].0 != b[j].0
  }

  lemma LayStays(t: Tables, k: Match, w: T.Way, v: T.Way)
    requires T.Once(w) && InTables(t, k, v) && Apart(v, w)
    ensures InTables(T.Lay(t, k, w), k, v)
  {
    forall h | 0 <= h < |v| ensures (v[h].0, k) in T.Lay(t, k, w) && T.Lay(t, k, w)[(v[h].0, k)] == v[h].1 {
      T.LayLookup(t, k, w, v[h].0);
    }
  }

  lemma LayPuts(t: Tables, k: Match, w: T.Way)
    requires T.Once(w)
    ensures InTables(T.Lay(t, k, w), k, w)
  {
    forall h | 0 <= h < |w| ensures (w[h].0, k) in T.Lay(t, k, w) && T.Lay(t, k, w)[(w[h].0, k)] == w[h].1 {
      T.LayLookup(t, k, w, w[h].0);
    }
  }

  /** What the batches do to any tables, whatever packets wait. */
  ghost predicate Lays(n: Network, os: seq<S.Order>, inner: seq<seq<Node>>, k: Match, ways: seq<T.Way>)
    requires |inner| == |os| == |ways|
  {
    forall j | 0 <= j < |os| :: LaysAt(n, os[j], inner[j], k, ways[j])
  }

  ghost predicate LaysAt(n: Network, o: S.Order, p: seq<Node>, k: Match, way: T.Way) {
    T.Once(way) && forall t, w :: Apply(t, Batch(n, o, p, w)) == T.Lay(t, k, way)
  }

  /** Every order that was carried out at least once has all its rules in the tables, because the
      domains share no switch: neither the order nor repetitions matter. */
  lemma {:induction false} AnyOrder(n: Network, t: Tables, os: seq<S.Order>, inner: seq<seq<Node>>, order: seq<nat>,
                                    ws: Waiting, k: Match, ways: seq<T.Way>, j: nat)
    requires |inner| == |os| == |ways| && |ws| == |order| && Lays(n, os, inner, k, ways)
    requires forall i | 0 <= i < |order| :: order[i] < |os|
    requires forall a, b | 0 <= a < |ways| && 0 <= b < |ways| && a != b :: Apart(ways[a], ways[b])
    requires j in order
    ensures InTables(CarriedOut(n, t, os, inner, order, ws), k, ways[j])
    decreases |order|
  {
    var l := |order| - 1;
    var before, last := CarriedOut(n, t, os, inner, order[..l], ws[..l]), order[l];
    assert LaysAt(n, os[last], inner[last], k, ways[last]);
    if last == j {
      LayPuts(before, k, ways[j]);
    } else {
      var i :| 0 <= i < |order| && order[i] == j;
      assert order[..l][i] == j;
      AnyOrder(n, t, os, inner, order[..l], ws[..l], k, ways, j);
      LayStays(before, k, ways[last], ways[j]);
    }
  }

  // ---------------------------------------------------------------------------
  // The theorem
  // ---------------------------------------------------------------------------

  /** The way each domain lays for its order. */
  ghost function WaysOf(n: Network, os: seq<S.Order>, inner: seq<seq<Node>>): (ways: seq<T.Way>)
    requires Inside(n, os, inner)
    ensures |ways| == |os|
  {
    seq(|os|, j requires 0 <= j < |os| => WayAt(n, os[j], inner[j]))
  }

  ghost function WayAt(n: Network, o: S.Order, p: seq<Node>): T.Way
    requires InsideAt(n, o, p)
  {
    T.GoodPathHops(n.sites[o.lcid].fabric, n.sites[o.lcid].dps, p, o.inDpid, o.outDpid);
    T.WayOf(n.sites[o.lcid].fabric, p, o.outPort)
  }

  lemma WayThreads(n: Network, o: S.Order, p: seq<Node>)
    requires Consistent(n) && InsideAt(n, o, p)
    ensures var way := WayAt(n, o, p);
            T.Threaded(n.wire, way) && way[0].0 == o.inDpid && way[|way| - 1] == (o.outDpid, o.outPort)
  {
    var site := n.sites[o.lcid];
    T.FlowModThreads(site.fabric, p, o.inDpid, o.outDpid, o.outPort, n.wire);
  }

  lemma WayLays(n: Network, o: S.Order, p: seq<Node>)
    requires Consistent(n) && InsideAt(n, o, p)
    ensures LaysAt(n, o, p, EthDst(o.dst), WayAt(n, o, p))
  {
    var site := n.sites[o.lcid];
    WayThreads(n, o, p);
    forall t, w ensures Apply(t, Batch(n, o, p, w)) == T.Lay(t, EthDst(o.dst), WayAt(n, o, p)) {
      T.FlowModInstalls(site.fabric, site.dps, p, o.inDpid, o.outDpid, EthDst(o.dst), o.outPort, w.0, w.1, t);
    }
  }

  lemma WayOwned(n: Network, o: S.Order, p: seq<Node>)
    requires Consistent(n) && InsideAt(n, o, p)
    ensures OwnedBy(n, WayAt(n, o, p), o.lcid)
  {
    var f, w := n.sites[o.lcid].fabric, WayAt(n, o, p);
    T.GoodPathHops(f, n.sites[o.lcid].dps, p, o.inDpid, o.outDpid);
    forall i | 0 <= i < |w| ensures Owns(n, o.lcid, w[i].0) {
      if i > 0 { assert (p[i - 1], p[i]) in f.edges; }
      assert Sw(w[i].0) in f.nodes;
    }
  }

  /** The ways with the switches the links between them lead to. */
  ghost predicate Legs(n: Network, path: seq<Lcid>, inDpid: Dpid, ways: seq<T.Way>, far: seq<Dpid>) {
    && |path| == |ways| + 1 == |far| + 1
    && forall i | 0 <= i < |ways| :: LegAt(n, path, inDpid, ways, far, i)
  }

  ghost predicate LegAt(n: Network, path: seq<Lcid>, inDpid: Dpid, ways: seq<T.Way>, far: seq<Dpid>, i: nat)
    requires i < |ways| && |path| == |ways| + 1 == |far| + 1
  {
    var w := ways[i];
    && T.Threaded(n.wire, w) && OwnedBy(n, w, path[i])
    && w[0].0 == (if i == 0 then inDpid else far[i - 1])
    && w[|w| - 1] in n.wire && n.wire[w[|w| - 1]] == far[i] && Owns(n, path[i + 1], far[i])
  }

  lemma LegsRelay(n: Network, path: seq<Lcid>, inDpid: Dpid, ways: seq<T.Way>, far: seq<Dpid>)
    requires Legs(n, path, inDpid, ways, far)
    ensures Relay(n, path, ways)
  {
    forall i | 0 <= i < |ways| ensures RelayAt(n, path, ways, i) {
      assert LegAt(n, path, inDpid, ways, far, i);
      if i + 1 < |ways| { assert LegAt(n, path, inDpid, ways, far, i + 1); }
    }
  }

  ghost function Far(n: Network, path: seq<Lcid>): (far: seq<Dpid>)
    requires path != [] && S.Agrees(n.topo, n.pick, path)
    ensures |far| == |path| - 1
  {
    seq(|path| - 1, i requires 0 <= i < |path| - 1 =>
      assert S.AgreesAt(n.topo, n.pick, path, i);
      S.Via(n.topo, n.pick, path, i).rightDpid)
  }

  lemma OrderWay(n: Network, os: seq<S.Order>, inner: seq<seq<Node>>, i: nat)
    requires Consistent(n) && Inside(n, os, inner) && i < |os|
    ensures var way, o := WaysOf(n, os, inner)[i], os[i];
            && T.Threaded(n.wire, way) && OwnedBy(n, way, o.lcid)
            && way[0].0 == o.inDpid && way[|way| - 1] == (o.outDpid, o.outPort)
  {
    WayThreads(n, os[i], inner[i]);
    WayOwned(n, os[i], inner[i]);
  }

  lemma OrderLinks(n: Network, path: seq<Lcid>, inDpid: Dpid, os: seq<S.Order>, i: nat)
    requires Consistent(n) && path != [] && S.Agrees(n.topo, n.pick, path)
    requires S.Chained(n.topo, n.pick, path, 0, inDpid, os) && i < |os|
    ensures var o, far := os[i], Far(n, path);
            && o.lcid == path[i] && o.inDpid == (if i == 0 then inDpid else far[i - 1])
            && (o.outDpid, o.outPort) in n.wire && n.wire[(o.outDpid, o.outPort)] == far[i]
              && Owns(n, path[i + 1], far[i])
  {
    assert S.ChainedAt(n.topo, n.pick, path, 0, inDpid, os, i) && S.AgreesAt(n.topo, n.pick, path, i);
    LinkCable(n, path, i);
  }

  lemma OrderLeg(n: Network, path: seq<Lcid>, inDpid: Dpid, os: seq<S.Order>, inner: seq<seq<Node>>, i: nat)
    requires Consistent(n) && path != [] && S.Agrees(n.topo, n.pick, path)
    requires S.Chained(n.topo, n.pick, path, 0, inDpid, os) && Inside(n, os, inner) && i < |os|
    ensures LegAt(n, path, inDpid, WaysOf(n, os, inner), Far(n, path), i)
  {
    OrderWay(n, os, inner, i);
    OrderLinks(n, path, inDpid, os, i);
  }

  lemma OrdersLegs(n: Network, path: seq<Lcid>, inDpid: Dpid, os: seq<S.Order>, inner: seq<seq<Node>>)
    requires Consistent(n) && path != [] && S.Agrees(n.topo, n.pick, path)
    requires S.Chained(n.topo, n.pick, path, 0, inDpid, os) && Inside(n, os, inner)
    ensures Legs(n, path, inDpid, WaysOf(n, os, inner), Far(n, path))
  {
    forall i | 0 <= i < |os| ensures LegAt(n, path, inDpid, WaysOf(n, os, inner), Far(n, path), i) {
      OrderLeg(n, path, inDpid, os, inner, i);
    }
  }

  lemma LinkCable(n: Network, path: seq<Lcid>, i: nat)
    requires Consistent(n) && i + 1 < |path|
             && n.pick((path[i], path[i + 1])) in D.KeysOf(n.topo, (path[i], path[i + 1]))
    ensures Cable(n, path[i + 1], S.Via(n.topo, n.pick, path, i))
  {
    assert D.Linked(n.topo, path[i], path[i + 1], S.Via(n.topo, n.pick, path, i));
  }

  /** The switches a frame visits: those of the ways, and the one it enters the last domain by. */
  ghost function Visited(f: T.Way, exit: Dpid): seq<Dpid> {
    seq(|f|, i requires 0 <= i < |f| => f[i].0) + [exit]
  }

  lemma FlattenInTables(ways: seq<T.Way>, t: Tables, k: Match)
    requires forall i | 0 <= i < |ways| :: InTables(t, k, ways[i])
    ensures InTables(t, k, Flatten(ways))
  {
    var f := Flatten(ways);
    forall j | 0 <= j < |f| ensures (f[j].0, k) in t && t[(f[j].0, k)] == f[j].1 {
      var i, h := InFlatten(ways, j);
      assert InTables(t, k, ways[i]);
    }
  }

  lemma RelayApart(n: Network, path: seq<Lcid>, ways: seq<T.Way>)
    requires Relay(n, path, ways) && Simple(path)
    ensures forall a, b | 0 <= a < |ways| && 0 <= b < |ways| && a != b :: Apart(ways[a], ways[b])
  {
    forall a, b | 0 <= a < |ways| && 0 <= b < |ways| && a != b ensures Apart(ways[a], ways[b]) {
      assert RelayAt(n, path, ways, a) && RelayAt(n, path, ways, b) && path[a] != path[b];
      forall i, j | 0 <= i < |ways[a]| && 0 <= j < |ways[b]| ensures ways[a][i].0 != ways[b][j].0 {
        assert Owns(n, path[a], ways[a][i].0) && Owns(n, path[b], ways[b][j].0);
      }
    }
  }

  /** Every order is carried out at least once. */
  ghost predicate AllDone(os: seq<S.Order>, order: seq<nat>, ws: Waiting) {
    |ws| == |order| && (forall i | 0 <= i < |order| :: order[i] < |os|) && forall j | 0 <= j < |os| :: j in order
  }

  /** Inter-domain delivery. For a request of the domain that has the source host, the orders of the
      central controller, carried out in any order and any number of times on any tables, take a frame
      for the destination from the switch it came in at through every domain of the path, over each
      link between them once and past no switch twice, into the destination's domain at the far end of
      the last link. */
  lemma InterdomainDelivery(n: Network, path: seq<Lcid>, inDpid: Dpid, dst: Mac, inner: seq<seq<Node>>,
                            order: seq<nat>, ws: Waiting, tables: Tables)
    requires Consistent(n) && S.Agrees(n.topo, n.pick, path) && Simple(path) && |path| > 1
    requires forall c | c in path :: c in n.ctrls
    requires var os := S.Stitch(n.topo, n.pick, n.ctrls, path, 0, path[0], inDpid, dst).0;
             Inside(n, os, inner) && AllDone(os, order, ws)
    ensures var os := S.Stitch(n.topo, n.pick, n.ctrls, path, 0, path[0], inDpid, dst).0;
            var ways, far := WaysOf(n, os, inner), Far(n, path);
            var visited := Visited(Flatten(ways), far[|far| - 1]);
            && Legs(n, path, inDpid, ways, far)
            && T.WireRoute(n.wire, CarriedOut(n, tables, os, inner, order, ws), EthDst(dst), visited)
            && Simple(visited) && visited[0] == inDpid && Owns(n, path[|path| - 1], visited[|visited| - 1])
  {
    S.StitchChain(n.topo, n.pick, n.ctrls, path, inDpid, dst);
    S.StitchDst(n.topo, n.pick, n.ctrls, path, 0, path[0], inDpid, dst);
    var os := S.Stitch(n.topo, n.pick, n.ctrls, path, 0, path[0], inDpid, dst).0;
    OrdersLegs(n, path, inDpid, os, inner);
    OrdersLay(n, os, inner, dst);
    LegsDeliver(n, path, inDpid, dst, os, inner, order, ws, tables, WaysOf(n, os, inner), Far(n, path));
  }

  lemma LegsDeliver(n: Network, path: seq<Lcid>, inDpid: Dpid, dst: Mac, os: seq<S.Order>, inner: seq<seq<Node>>,
                    order: seq<nat>, ws: Waiting, tables: Tables, ways: seq<T.Way>, far: seq<Dpid>)
    requires |inner| == |os| == |ways| > 0 && Legs(n, path, inDpid, ways, far) && Simple(path)
    requires Lays(n, os, inner, EthDst(dst), ways) && AllDone(os, order, ws)
    ensures var visited := Visited(Flatten(ways), far[|far| - 1]);
            && T.WireRoute(n.wire, CarriedOut(n, tables, os, inner, order, ws), EthDst(dst), visited)
            && Simple(visited) && visited[0] == inDpid && Owns(n, path[|path| - 1], visited[|visited| - 1])
  {
    var t := CarriedOut(n, tables, os, inner, order, ws);
    LegsRelay(n, path, inDpid, ways, far);
    RelayApart(n, path, ways);
    forall j | 0 <= j < |ways| ensures InTables(t, EthDst(dst), ways[j]) {
      AnyOrder(n, tables, os, inner, order, ws, EthDst(dst), ways, j);
    }
    FlattenInTables(ways, t, EthDst(dst));
    Ends(n, path, inDpid, ways, far);
  }

  lemma OrdersLay(n: Network, os: seq<S.Order>, inner: seq<seq<Node>>, dst: Mac)
    requires Consistent(n) && Inside(n, os, inner) && forall o | o in os :: o.dst == dst
    ensures Lays(n, os, inner, EthDst(dst), WaysOf(n, os, inner))
  {
    forall j | 0 <= j < |os| ensures LaysAt(n, os[j], inner[j], EthDst(dst), WaysOf(n, os, inner)[j]) {
      assert InsideAt(n, os[j], inner[j]) && os[j] in os;
      WayLays(n, os[j], inner[j]);
    }
  }

  /** Where the thread starts and where it leads. */
  lemma Ends(n: Network, path: seq<Lcid>, inDpid: Dpid, ways: seq<T.Way>, far: seq<Dpid>)
    requires Legs(n, path, inDpid, ways, far) && Simple(path) && ways != []
    ensures var f, exit := Flatten(ways), far[|far| - 1];
            && T.Threaded(n.wire, f) && f[0].0 == inDpid && f[|f| - 1] in n.wire && n.wire[f[|f| - 1]] == exit
            && Owns(n, path[|path| - 1], exit) && forall i | 0 <= i < |f| :: f[i].0 != exit
  {
    LegsRelay(n, path, inDpid, ways, far);
    FlattenThreads(n, path, ways);
    FlattenOwned(n, path, ways);
    assert LegAt(n, path, inDpid, ways, far, 0) && LegAt(n, path, inDpid, ways, far, |ways| - 1);
    var f := Flatten(ways);
    forall i | 0 <= i < |f| ensures n.owner[f[i].0] != path[|path| - 1] {
      assert n.owner[f[i].0] in path[..|ways|];
    }
  }
}
