/**
 The whole network: local controllers with their states, the tables of all switches, and what runs
 of FLOW_MODs that the central controller sent make of them.
 */
module NetworkRuns {
  import opened Base
  import opened Graphs
  import opened Fabric
  import opened FlowTables
  import opened Delivery
  import T = Transit
  import D = DomainGraph
  import S = Stitching
  import L = LocalSteps

  /** The states of the local controllers, and the tables of all switches */
  datatype World = World(ls: map<Lcid, L.Local>, tables: Tables)

  /** The controllers know their domains as the network has them. */
  ghost predicate Sees(n: Network, w: World) {
    forall u | u in n.sites :: u in w.ls && SeesSite(n.sites[u], w.ls[u])
  }

  ghost predicate SeesSite(site: Site, l: L.Local) {
    L.LocalInv(l) && l.fabric == site.fabric && l.datapaths == site.dps
  }

  /** An order reaches its local controller, with an xid; `path` is networkx's answer there. */
  datatype Job = Job(o: S.Order, xid: nat, path: seq<Node>)

  /** The local controller's handler, and the switches that get its messages */
  ghost function Do(w: World, j: Job): (World, bool)
  {
    if j.o.lcid !in w.ls || !L.LocalInv(w.ls[j.o.lcid]) then (w, false)
    else
      var l := w.ls[j.o.lcid];
      var r := L.FlowMod(l, j.xid, j.o.inDpid, j.o.outDpid, j.o.outPort, j.o.dst, j.path);
      (World(w.ls[j.o.lcid := r.0], Apply(w.tables, r.0.out[|l.out|..])), r.1)
  }

  ghost function After(w: World, jobs: seq<Job>): World {
    if jobs == [] then w else Do(After(w, jobs[..|jobs| - 1]), jobs[|jobs| - 1]).0
  }

  /** The order can be carried out: there is a path of connected switches in its domain, and the
      controller there has seen the switch it leaves by, window or not, which the handler asks first. */
  ghost predicate Ready(n: Network, w: World, j: Job) {
    InsideAt(n, j.o, j.path) && j.o.lcid in w.ls && j.o.outDpid in w.ls[j.o.lcid].isWin
  }

  // ---------------------------------------------------------------------------
  // What the handler does is what the order says
  // ---------------------------------------------------------------------------

  /** An order that leaves by a switch the controller has not seen in its topology is dropped. */
  lemma UnseenNoRules(l: L.Local, xid: nat, o: S.Order, p: seq<Node>)
    requires L.LocalInv(l) && o.outDpid !in l.isWin
    ensures L.FlowMod(l, xid, o.inDpid, o.outDpid, o.outPort, o.dst, p) == (l, true)
  {
  }

  lemma FlowModIsBatch(n: Network, l: L.Local, o: S.Order, p: seq<Node>, xid: nat)
    requires InsideAt(n, o, p) && SeesSite(n.sites[o.lcid], l) && o.outDpid in l.isWin
    ensures var r := L.FlowMod(l, xid, o.inDpid, o.outDpid, o.outPort, o.dst, p);
            && r.1 && r.0.out == l.out + Batch(n, o, p, L.Awaited(l.pending, xid))
            && SeesSite(n.sites[o.lcid], r.0) && r.0.isWin == l.isWin
  {
    T.FlowModInstalls(l.fabric, l.datapaths, p, o.inDpid, o.outDpid, EthDst(o.dst), o.outPort,
                      L.Awaited(l.pending, xid).0, L.Awaited(l.pending, xid).1, map[]);
    PathEnds(l.fabric, l.datapaths, p, o.inDpid, o.outDpid);
  }

  lemma PathEnds(f: Fabric, dps: set<Dpid>, p: seq<Node>, s: Dpid, t: Dpid)
    requires T.GoodPath(f, dps, p, s, t) && Sw(s) in f.nodes
    ensures p != [] && s in dps && t in dps && Sw(t) in f.nodes
  {
    assert p[0] in p && p[|p| - 1] in p;
    if |p| > 1 { assert (p[|p| - 2], p[|p| - 2 + 1]) in f.edges; }
  }

  /** The switches that count as seen stay what they are. */
  ghost predicate SameWindows(w: World, v: World) {
    w.ls.Keys == v.ls.Keys && forall u | u in w.ls :: w.ls[u].isWin == v.ls[u].isWin
  }

  lemma DoIsBatch(n: Network, w: World, j: Job) returns (a: Awaited)
    requires Sees(n, w) && Ready(n, w, j)
    ensures var r := Do(w, j);
            && r.1 && Sees(n, r.0) && SameWindows(w, r.0)
            && r.0.tables == Apply(w.tables, Batch(n, j.o, j.path, a))
  {
    var l := w.ls[j.o.lcid];
    assert SeesSite(n.sites[j.o.lcid], l);
    a := L.Awaited(l.pending, j.xid);
    FlowModIsBatch(n, l, j.o, j.path, j.xid);
    var batch := Batch(n, j.o, j.path, a);
    assert (l.out + batch)[|l.out|..] == batch;
  }

  /** All jobs are ready, whatever was done before: windows and views do not change. */
  ghost predicate AllReady(n: Network, w: World, jobs: seq<Job>) {
    forall i | 0 <= i < |jobs| :: Ready(n, w, jobs[i])
  }

  lemma {:induction false} AfterSees(n: Network, w: World, jobs: seq<Job>)
    requires Sees(n, w) && AllReady(n, w, jobs)
    ensures Sees(n, After(w, jobs)) && SameWindows(w, After(w, jobs))
  {
    if jobs != [] {
      var l := |jobs| - 1;
      AfterSees(n, w, jobs[..l]);
      assert Ready(n, w, jobs[l]);
      var a := DoIsBatch(n, After(w, jobs[..l]), jobs[l]);
    }
  }

  /** No job raises. */
  lemma JobGoesThrough(n: Network, w: World, jobs: seq<Job>, i: nat)
    requires Sees(n, w) && AllReady(n, w, jobs) && i < |jobs|
    ensures Do(After(w, jobs[..i]), jobs[i]).1
  {
    AfterSees(n, w, jobs[..i]);
    assert Ready(n, w, jobs[i]);
    var a := DoIsBatch(n, After(w, jobs[..i]), jobs[i]);
  }

  // ---------------------------------------------------------------------------
  // Delivery by the handlers
  // ---------------------------------------------------------------------------

  /** The orders as jobs, in the order in which they arrive */
  function JobsOf(os: seq<S.Order>, inner: seq<seq<Node>>, order: seq<nat>, xids: seq<nat>): (r: seq<Job>)
    requires |inner| == |os| && |xids| == |order| && forall i | 0 <= i < |order| :: order[i] < |os|
    ensures |r| == |order| && forall i | 0 <= i < |r| :: r[i] == Job(os[order[i]], xids[i], inner[order[i]])
  {
    seq(|order|, i requires 0 <= i < |order| => Job(os[order[i]], xids[i], inner[order[i]]))
  }

  ghost predicate OrdersReady(n: Network, w: World, os: seq<S.Order>, inner: seq<seq<Node>>) {
    |inner| == |os| && forall j | 0 <= j < |os| :: Ready(n, w, Job(os[j], 0, inner[j]))
  }

  lemma {:induction false} HandlersCarryOut(n: Network, w: World, os: seq<S.Order>, inner: seq<seq<Node>>,
                                            order: seq<nat>, xids: seq<nat>)
    returns (ws: Waiting)
    requires Sees(n, w) && OrdersReady(n, w, os, inner)
    requires |xids| == |order| && forall i | 0 <= i < |order| :: order[i] < |os|
    ensures |ws| == |order|
    ensures After(w, JobsOf(os, inner, order, xids)).tables == CarriedOut(n, w.tables, os, inner, order, ws)
    decreases |order|
  {
    ws := [];
    if order != [] {
      var l := |order| - 1;
      var jobs := JobsOf(os, inner, order, xids);
      assert jobs[..l] == JobsOf(os, inner, order[..l], xids[..l]);
      var before := HandlersCarryOut(n, w, os, inner, order[..l], xids[..l]);
      JobsReady(n, w, os, inner, order, xids);
      AfterSees(n, w, jobs[..l]);
      var a := DoIsBatch(n, After(w, jobs[..l]), jobs[l]);
      ws := before + [a];
      assert ws[..l] == before;
    }
  }

  lemma JobsReady(n: Network, w: World, os: seq<S.Order>, inner: seq<seq<Node>>, order: seq<nat>, xids: seq<nat>)
    requires OrdersReady(n, w, os, inner) && |xids| == |order| && forall i | 0 <= i < |order| :: order[i] < |os|
    ensures AllReady(n, w, JobsOf(os, inner, order, xids))
  {
    var jobs := JobsOf(os, inner, order, xids);
    forall i | 0 <= i < |jobs| ensures Ready(n, w, jobs[i]) {
      assert Ready(n, w, Job(os[order[i]], 0, inner[order[i]]));
    }
  }

  /** A request between different domains that the source's controller makes, with a shortest path */
  ghost predicate Asks(n: Network, hosts: map<Mac, Lcid>, start: Lcid, srcMac: Mac, dstMac: Mac, path: seq<Lcid>) {
    && srcMac in hosts && hosts[srcMac] == start && dstMac in hosts && hosts[dstMac] != start
    && start in n.topo.nodes && hosts[dstMac] in n.topo.nodes
    && Shortest(n.topo.edges.Keys, start, hosts[dstMac], path) && forall c | c in path :: c in n.ctrls
  }

  /** Inter-domain delivery by the handlers. The central controller answers the request without an
      exception; the local controllers' handlers, given its orders in any order and any number of
      times, none raises; and then the switches' tables, whatever they held before, take a frame for
      the destination from the switch it came in at to the destination's domain, past no switch twice
      and through the domains of the path in order. */
  lemma HandlersDeliver(n: Network, w: World, hosts: map<Mac, Lcid>, start: Lcid, inDpid: Dpid, srcMac: Mac,
                        dstMac: Mac, path: seq<Lcid>, inner: seq<seq<Node>>, order: seq<nat>, xids: seq<nat>)
    requires Consistent(n) && Sees(n, w) && Asks(n, hosts, start, srcMac, dstMac, path)
             && S.Agrees(n.topo, n.pick, path)
    requires var os := S.PacketIn(n.topo, n.pick, n.ctrls, hosts, start, inDpid, srcMac, dstMac, path).0;
             && OrdersReady(n, w, os, inner) && |xids| == |order|
             && (forall i | 0 <= i < |order| :: order[i] < |os|) && forall j | 0 <= j < |os| :: j in order
    ensures |path| > 1 && S.PacketIn(n.topo, n.pick, n.ctrls, hosts, start, inDpid, srcMac, dstMac, path).1
    ensures var os := S.PacketIn(n.topo, n.pick, n.ctrls, hosts, start, inDpid, srcMac, dstMac, path).0;
            var jobs := JobsOf(os, inner, order, xids);
            && Inside(n, os, inner)
            && (forall i | 0 <= i < |jobs| :: Do(After(w, jobs[..i]), jobs[i]).1)
            && Delivered(n, After(w, jobs).tables, path, inDpid, dstMac, WaysOf(n, os, inner), Far(n, path))
  {
    ShortestSimple(n.topo.edges.Keys, start, hosts[dstMac], path);
    var os := S.Stitch(n.topo, n.pick, n.ctrls, path, 0, path[0], inDpid, dstMac).0;
    assert S.PacketIn(n.topo, n.pick, n.ctrls, hosts, start, inDpid, srcMac, dstMac, path).0 == os;
    S.StitchChain(n.topo, n.pick, n.ctrls, path, inDpid, dstMac);
    InsideOfReady(n, w, os, inner);
    var ws := HandlersCarryOut(n, w, os, inner, order, xids);
    InterdomainDelivery(n, path, inDpid, dstMac, inner, order, ws, w.tables);
    var jobs := JobsOf(os, inner, order, xids);
    JobsReady(n, w, os, inner, order, xids);
    forall i | 0 <= i < |jobs| ensures Do(After(w, jobs[..i]), jobs[i]).1 {
      JobGoesThrough(n, w, jobs, i);
    }
  }

  ghost predicate Delivered(n: Network, t: Tables, path: seq<Lcid>, inDpid: Dpid, dst: Mac, ways: seq<T.Way>,
                            far: seq<Dpid>)
    requires |far| > 0 && path != []
  {
    var visited := Visited(Flatten(ways), far[|far| - 1]);
    && Legs(n, path, inDpid, ways, far) && T.WireRoute(n.wire, t, EthDst(dst), visited)
    && Simple(visited) && visited[0] == inDpid && Owns(n, path[|path| - 1], visited[|visited| - 1])
  }

  lemma InsideOfReady(n: Network, w: World, os: seq<S.Order>, inner: seq<seq<Node>>)
    requires OrdersReady(n, w, os, inner)
    ensures Inside(n, os, inner)
  {
    forall j | 0 <= j < |os| ensures InsideAt(n, os[j], inner[j]) {
      assert Ready(n, w, Job(os[j], 0, inner[j]));
    }
  }
}
