/**
 A request between domains from end to end: the message of the local controller that asks, the
 messages the central controller queues for it, and what the local controllers that take them out
 of their queues make of the switches' tables.
 */
module NetworkMail {
  import opened Base
  import opened Graphs
  import opened Fabric
  import opened FlowTables
  import opened Delivery
  import opened NetworkRuns
  import opened Mailing
  import T = Transit
  import S = Stitching
  import L = LocalSteps
  import W = Wire
  import Y = Layout
  import Q = Reassembly

  /** A message that was taken out of the queue of a controller, with its xid */
  type Taken = (Lcid, (W.Msg, nat))

  /** The job is what cc_flow_mod_handler reads off the message. */
  predicate Reads(a: Taken, j: Job) {
    Tells(a.0, a.1.0, j.o) && j.xid == a.1.1
  }

  ghost predicate AllRead(took: seq<Taken>, jobs: seq<Job>) {
    |jobs| == |took| && forall i | 0 <= i < |took| :: Reads(took[i], jobs[i])
  }

  /** All of the mail was taken, each message once or more, and nothing else. */
  ghost predicate MailTaken(os: seq<S.Order>, xid: nat, took: seq<Taken>) {
    && (forall i | 0 <= i < |took| :: took[i].1 in Mail(os, took[i].0, xid))
    && (forall c: Lcid, e: (W.Msg, nat) | e in Mail(os, c, xid) :: (c, e) in took)
  }

  /** networkx gives the same path for the same order each time. */
  ghost predicate SamePaths(jobs: seq<Job>) {
    forall i, j | 0 <= i < |jobs| && 0 <= j < |jobs| && jobs[i].o == jobs[j].o :: jobs[i].path == jobs[j].path
  }

  // ---------------------------------------------------------------------------
  // The jobs are the orders
  // ---------------------------------------------------------------------------

  /** The order a job carries out */
  ghost predicate IsOrder(os: seq<S.Order>, j: Job, k: nat) {
    k < |os| && os[k] == j.o
  }

  lemma ReadIsOrder(os: seq<S.Order>, xid: nat, a: Taken, j: Job) returns (k: nat)
    requires Reads(a, j) && a.1 in Mail(os, a.0, xid)
    ensures IsOrder(os, j, k) && j.xid == xid
  {
    MailTells(os, a.0, xid);
    k :| 0 <= k < |os| && Tells(a.0, a.1.0, os[k]);
  }

  /** Each job's place among the orders */
  ghost predicate Places(os: seq<S.Order>, jobs: seq<Job>, order: seq<nat>) {
    |order| == |jobs| && forall i | 0 <= i < |jobs| :: IsOrder(os, jobs[i], order[i])
  }

  lemma {:induction false} FindPlaces(os: seq<S.Order>, xid: nat, took: seq<Taken>, jobs: seq<Job>)
    returns (order: seq<nat>)
    requires AllRead(took, jobs) && forall i | 0 <= i < |took| :: took[i].1 in Mail(os, took[i].0, xid)
    ensures Places(os, jobs, order) && forall i | 0 <= i < |jobs| :: jobs[i].xid == xid
    decreases |jobs|
  {
    if jobs == [] {
      order := [];
    } else {
      var n := |jobs| - 1;
      assert forall i | 0 <= i < n :: took[..n][i] == took[i] && jobs[..n][i] == jobs[i];
      var before := FindPlaces(os, xid, took[..n], jobs[..n]);
      assert Reads(took[n], jobs[n]);
      var k := ReadIsOrder(os, xid, took[n], jobs[n]);
      order := before + [k];
      forall i | 0 <= i < |jobs| ensures IsOrder(os, jobs[i], order[i]) {
        if i < n { assert IsOrder(os, jobs[..n][i], before[i]); }
      }
      forall i | 0 <= i < |jobs| ensures jobs[i].xid == xid {
        if i < n { assert jobs[..n][i].xid == xid; }
      }
    }
  }

  /** Orders of different controllers: each is read by some job. */
  lemma EachIsRead(os: seq<S.Order>, xid: nat, took: seq<Taken>, jobs: seq<Job>, order: seq<nat>, k: nat)
    returns (i: nat)
    requires MailTaken(os, xid, took) && AllRead(took, jobs) && Places(os, jobs, order) && k < |os|
    requires forall a, b | 0 <= a < b < |os| :: os[a].lcid != os[b].lcid
    ensures i < |order| && order[i] == k
  {
    MailTells(os, os[k].lcid, xid);
    var e :| e in Mail(os, os[k].lcid, xid) && Tells(os[k].lcid, e.0, os[k]);
    assert (os[k].lcid, e) in took;
    i :| 0 <= i < |took| && took[i] == (os[k].lcid, e);
    assert Reads(took[i], jobs[i]) && IsOrder(os, jobs[i], order[i]);
  }

  /** The path of the first job for an order */
  ghost function PathFor(jobs: seq<Job>, order: seq<nat>, k: nat): seq<Node>
    requires |order| == |jobs|
  {
    if exists i :: 0 <= i < |order| && order[i] == k then
      var i :| 0 <= i < |order| && order[i] == k;
      jobs[i].path
    else []
  }

  ghost function PathsFor(jobs: seq<Job>, order: seq<nat>, n: nat): (r: seq<seq<Node>>)
    requires |order| == |jobs|
    ensures |r| == n && forall k | 0 <= k < n :: r[k] == PathFor(jobs, order, k)
  {
    seq(n, k requires 0 <= k < n => PathFor(jobs, order, k))
  }

  lemma PathOfJob(os: seq<S.Order>, jobs: seq<Job>, order: seq<nat>, i: nat)
    requires Places(os, jobs, order) && SamePaths(jobs) && i < |jobs|
    ensures PathFor(jobs, order, order[i]) == jobs[i].path
  {
    var h :| 0 <= h < |order| && order[h] == order[i] && PathFor(jobs, order, order[i]) == jobs[h].path;
    assert IsOrder(os, jobs[h], order[h]) && IsOrder(os, jobs[i], order[i]);
  }

  lemma JobsAreOrders(os: seq<S.Order>, xid: nat, jobs: seq<Job>, order: seq<nat>)
    requires Places(os, jobs, order) && SamePaths(jobs) && forall i | 0 <= i < |jobs| :: jobs[i].xid == xid
    ensures forall i | 0 <= i < |order| :: order[i] < |os|
    ensures jobs == JobsOf(os, PathsFor(jobs, order, |os|), order, seq(|order|, _ => xid))
  {
    var inner, xids := PathsFor(jobs, order, |os|), seq(|order|, _ => xid);
    forall i | 0 <= i < |order| ensures order[i] < |os| && jobs[i] == Job(os[order[i]], xids[i], inner[order[i]]) {
      assert IsOrder(os, jobs[i], order[i]);
      PathOfJob(os, jobs, order, i);
    }
  }

  // ---------------------------------------------------------------------------
  // Through the domains in order
  // ---------------------------------------------------------------------------

  /** From a switch of a domain of the path to one of that domain or of the next. */
  ghost predicate InOrder(n: Network, path: seq<Lcid>, s: Dpid, u: Dpid) {
    exists i :: 0 <= i < |path| && Owns(n, path[i], s) && (Owns(n, path[i], u) || OwnsNext(n, path, i, u))
  }

  ghost predicate OwnsNext(n: Network, path: seq<Lcid>, i: nat, u: Dpid) {
    i + 1 < |path| && Owns(n, path[i + 1], u)
  }

  lemma InOrderLater(n: Network, path: seq<Lcid>, s: Dpid, u: Dpid)
    requires path != [] && InOrder(n, path[1..], s, u)
    ensures InOrder(n, path, s, u)
  {
    var q := path[1..];
    var i: nat :| 0 <= i < |q| && Owns(n, q[i], s) && (Owns(n, q[i], u) || OwnsNext(n, q, i, u));
    assert q[i] == path[i + 1];
    assert OwnsNext(n, q, i, u) ==> OwnsNext(n, path, i + 1, u);
    assert Owns(n, path[i + 1], s);
  }

  lemma {:induction false} FlattenInOrder(n: Network, path: seq<Lcid>, ways: seq<T.Way>, j: nat)
    requires Relay(n, path, ways) && j + 1 < |Flatten(ways)|
    ensures InOrder(n, path, Flatten(ways)[j].0, Flatten(ways)[j + 1].0)
    decreases |ways|
  {
    var w, f := ways[0], Flatten(ways[1..]);
    assert RelayAt(n, path, ways, 0);
    if j + 1 < |w| {
      assert Owns(n, path[0], w[j].0) && Owns(n, path[0], w[j + 1].0);
    } else if j < |w| {
      assert Owns(n, path[0], w[j].0);
      assert |ways| > 1 && RelayAt(n, path, ways, 1);
      assert f[0] == ways[1][0] && OwnsNext(n, path, 0, f[0].0);
    } else {
      RelayTail(n, path, ways);
      FlattenInOrder(n, path[1..], ways[1..], j - |w|);
      InOrderLater(n, path, f[j - |w|].0, f[j - |w| + 1].0);
    }
  }

  /** The last rule is one of the last way. */
  lemma {:induction false} FlattenLast(n: Network, path: seq<Lcid>, ways: seq<T.Way>)
    requires Relay(n, path, ways) && ways != []
    ensures Flatten(ways) != [] && Owns(n, path[|ways| - 1], Flatten(ways)[|Flatten(ways)| - 1].0)
    decreases |ways|
  {
    assert RelayAt(n, path, ways, 0);
    if |ways| > 1 {
      RelayTail(n, path, ways);
      FlattenLast(n, path[1..], ways[1..]);
    } else {
      assert Flatten(ways[1..]) == [];
      var w := ways[0];
      assert Owns(n, path[0], w[|w| - 1].0);
    }
  }

  lemma VisitedInOrder(n: Network, path: seq<Lcid>, inDpid: Dpid, ways: seq<T.Way>, far: seq<Dpid>, j: nat)
    requires Legs(n, path, inDpid, ways, far) && ways != []
    ensures var v := Visited(Flatten(ways), far[|far| - 1]);
            j + 1 < |v| ==> InOrder(n, path, v[j], v[j + 1])
  {
    LegsRelay(n, path, inDpid, ways, far);
    var f := Flatten(ways);
    if j + 1 < |f| {
      FlattenInOrder(n, path, ways, j);
    } else if j + 1 == |f| {
      FlattenLast(n, path, ways);
      assert LegAt(n, path, inDpid, ways, far, |ways| - 1);
      assert OwnsNext(n, path, |ways| - 1, far[|ways| - 1]);
    }
  }

  // ---------------------------------------------------------------------------
  // Delivery by the messages
  // ---------------------------------------------------------------------------

  /** The rules for `dst` take a frame from `inDpid` past the switches `v`, none twice, through the domains
      of the path in their order and into the last. */
  ghost predicate Delivers(n: Network, t: Tables, path: seq<Lcid>, inDpid: Dpid, dst: Mac, v: seq<Dpid>) {
    && T.WireRoute(n.wire, t, EthDst(dst), v) && Simple(v) && v[0] == inDpid
    && path != [] && Owns(n, path[|path| - 1], v[|v| - 1])
    && forall j | 0 <= j < |v| - 1 :: InOrder(n, path, v[j], v[j + 1])
  }

  /** The orders for a request */
  function OrdersFor(n: Network, hosts: map<Mac, Lcid>, start: Lcid, inDpid: Dpid, srcMac: Mac, dstMac: Mac,
                     path: seq<Lcid>): seq<S.Order> {
    S.PacketIn(n.topo, n.pick, n.ctrls, hosts, start, inDpid, srcMac, dstMac, path).0
  }

  /** A request that the central controller can answer, along a path of domains */
  ghost predicate Answerable(n: Network, hosts: map<Mac, Lcid>, start: Lcid, srcMac: Mac, dstMac: Mac,
                             path: seq<Lcid>) {
    Consistent(n) && Asks(n, hosts, start, srcMac, dstMac, path) && S.Agrees(n.topo, n.pick, path)
  }

  lemma OrdersApart(n: Network, hosts: map<Mac, Lcid>, start: Lcid, inDpid: Dpid, srcMac: Mac, dstMac: Mac,
                    path: seq<Lcid>)
    requires Answerable(n, hosts, start, srcMac, dstMac, path)
    ensures var os := OrdersFor(n, hosts, start, inDpid, srcMac, dstMac, path);
            |path| > 1 && forall a, b | 0 <= a < b < |os| :: os[a].lcid != os[b].lcid
  {
    ShortestSimple(n.topo.edges.Keys, start, hosts[dstMac], path);
    S.StitchChain(n.topo, n.pick, n.ctrls, path, inDpid, dstMac);
    var os := S.Stitch(n.topo, n.pick, n.ctrls, path, 0, path[0], inDpid, dstMac).0;
    forall a, b | 0 <= a < b < |os| ensures os[a].lcid != os[b].lcid {
      assert S.ChainedAt(n.topo, n.pick, path, 0, inDpid, os, a) && S.ChainedAt(n.topo, n.pick, path, 0, inDpid, os, b);
    }
  }

  lemma OrdersAreReady(n: Network, w: World, os: seq<S.Order>, jobs: seq<Job>, order: seq<nat>)
    requires Places(os, jobs, order) && AllReady(n, w, jobs) && forall k | 0 <= k < |os| :: k in order
    ensures OrdersReady(n, w, os, PathsFor(jobs, order, |os|))
  {
    var inner := PathsFor(jobs, order, |os|);
    forall k | 0 <= k < |os| ensures Ready(n, w, Job(os[k], 0, inner[k])) {
      assert k in order;
      var i :| 0 <= i < |order| && order[i] == k && inner[k] == jobs[i].path;
      assert IsOrder(os, jobs[i], order[i]) && Ready(n, w, jobs[i]);
    }
  }

  /** The orders can be carried out, each at least once, in the order of `order`. */
  ghost predicate Arranged(n: Network, w: World, os: seq<S.Order>, inner: seq<seq<Node>>, order: seq<nat>,
                           xids: seq<nat>) {
    && OrdersReady(n, w, os, inner) && |xids| == |order|
    && (forall i | 0 <= i < |order| :: order[i] < |os|) && forall j | 0 <= j < |os| :: j in order
  }

  lemma Arrange(n: Network, w: World, os: seq<S.Order>, xid: nat, took: seq<Taken>, jobs: seq<Job>)
    returns (inner: seq<seq<Node>>, order: seq<nat>, xids: seq<nat>)
    requires MailTaken(os, xid, took) && AllRead(took, jobs) && AllReady(n, w, jobs) && SamePaths(jobs)
    requires forall a, b | 0 <= a < b < |os| :: os[a].lcid != os[b].lcid
    ensures Arranged(n, w, os, inner, order, xids) && jobs == JobsOf(os, inner, order, xids)
  {
    order := FindPlaces(os, xid, took, jobs);
    inner, xids := PathsFor(jobs, order, |os|), seq(|order|, _ => xid);
    forall k | 0 <= k < |os| ensures k in order {
      var i := EachIsRead(os, xid, took, jobs, order, k);
    }
    OrdersAreReady(n, w, os, jobs, order);
    JobsAreOrders(os, xid, jobs, order);
  }

  /** What the queues hold delivers. The messages that the central controller queued for a request are
      taken out of the queues in any order, and any of them more than once; each is handled by its local
      controller, which reads the switches, the port and the destination off it. No handler raises, and
      on any tables the rules then take a frame for the destination from the switch it came in at,
      through the domains of the path in their order, into the destination's domain. */
  lemma QueuesDeliver(n: Network, w: World, hosts: map<Mac, Lcid>, start: Lcid, inDpid: Dpid, srcMac: Mac,
                      dstMac: Mac, path: seq<Lcid>, xid: nat, took: seq<Taken>, jobs: seq<Job>)
    returns (visited: seq<Dpid>)
    requires Sees(n, w) && Answerable(n, hosts, start, srcMac, dstMac, path)
    requires MailTaken(OrdersFor(n, hosts, start, inDpid, srcMac, dstMac, path), xid, took)
    requires AllRead(took, jobs) && AllReady(n, w, jobs) && SamePaths(jobs)
    ensures forall i | 0 <= i < |jobs| :: Do(After(w, jobs[..i]), jobs[i]).1
    ensures Delivers(n, After(w, jobs).tables, path, inDpid, dstMac, visited)
  {
    OrdersApart(n, hosts, start, inDpid, srcMac, dstMac, path);
    var inner, order, xids := Arrange(n, w, OrdersFor(n, hosts, start, inDpid, srcMac, dstMac, path), xid, took, jobs);
    visited := OrdersDeliver(n, w, hosts, start, inDpid, srcMac, dstMac, path, inner, order, xids);
  }

  lemma OrdersDeliver(n: Network, w: World, hosts: map<Mac, Lcid>, start: Lcid, inDpid: Dpid, srcMac: Mac, dstMac: Mac,
                      path: seq<Lcid>, inner: seq<seq<Node>>, order: seq<nat>, xids: seq<nat>)
    returns (visited: seq<Dpid>)
    requires Sees(n, w) && Answerable(n, hosts, start, srcMac, dstMac, path)
    requires Arranged(n, w, OrdersFor(n, hosts, start, inDpid, srcMac, dstMac, path), inner, order, xids)
    ensures var jobs := JobsOf(OrdersFor(n, hosts, start, inDpid, srcMac, dstMac, path), inner, order, xids);
            && (forall i | 0 <= i < |jobs| :: Do(After(w, jobs[..i]), jobs[i]).1)
            && Delivers(n, After(w, jobs).tables, path, inDpid, dstMac, visited)
  {
    var os := OrdersFor(n, hosts, start, inDpid, srcMac, dstMac, path);
    HandlersDeliver(n, w, hosts, start, inDpid, srcMac, dstMac, path, inner, order, xids);
    var ways, far := WaysOf(n, os, inner), Far(n, path);
    visited := Visited(Flatten(ways), far[|far| - 1]);
    forall j | 0 <= j < |visited| - 1 ensures InOrder(n, path, visited[j], visited[j + 1]) {
      VisitedInOrder(n, path, inDpid, ways, far, j);
    }
  }

  /** The message by which a local controller asks has the switch and the hosts of its packet: the
      answer to it delivers the packet's destination from that switch. */
  lemma RequestDelivers(n: Network, w: World, hosts: map<Mac, Lcid>, start: Lcid, p: L.Packet, path: seq<Lcid>,
                        xid: nat, took: seq<Taken>, jobs: seq<Job>)
    returns (visited: seq<Dpid>)
    requires Sees(n, w) && Answerable(n, hosts, start, p.src, p.dst, path)
    requires var m := L.Request(p);
             MailTaken(OrdersFor(n, hosts, start, m.inDpid, m.srcMac, m.dstMac, path), xid, took)
    requires AllRead(took, jobs) && AllReady(n, w, jobs) && SamePaths(jobs)
    ensures forall i | 0 <= i < |jobs| :: Do(After(w, jobs[..i]), jobs[i]).1
    ensures Delivers(n, After(w, jobs).tables, path, p.dpid, p.dst, visited)
  {
    visited := QueuesDeliver(n, w, hosts, start, p.dpid, p.src, p.dst, path, xid, took, jobs);
  }

  // ---------------------------------------------------------------------------
  // Over the wire
  // ---------------------------------------------------------------------------

  /** The numbers of the orders fit their fields, and the destination is a MAC as the formats have it. */
  predicate OrderFits(o: S.Order) {
    o.inDpid < Y.BITS64 && o.outDpid < Y.BITS64 && o.outPort < Y.BITS64 && |o.dst| == 17 && 0 <= o.wildcards < 2
  }

  lemma MailSendable(os: seq<S.Order>, c: Lcid, xid: nat)
    requires (forall o | o in os :: OrderFits(o)) && xid < Y.BITS32
    ensures Q.Sendable(W.Agent, Mail(os, c, xid))
    ensures forall i | 0 <= i < |Mail(os, c, xid)| :: W.Exact(Mail(os, c, xid)[i].0)
  {
    MailTells(os, c, xid);
    var ms := Mail(os, c, xid);
    forall i | 0 <= i < |ms|
      ensures W.Travels(W.Agent, ms[i].0) && W.Frame(ms[i].0, ms[i].1).Some? && W.Exact(ms[i].0)
    {
      assert ms[i] in ms;
      var k :| 0 <= k < |os| && Tells(c, ms[i].0, os[k]);
      assert os[k] in os;
      Y.FrameIff(ms[i].0, ms[i].1);
    }
  }

  /** Each agent receives the frames of its mail, in whatever pieces. */
  ghost predicate Received(os: seq<S.Order>, xid: nat, chunks: Lcid -> seq<seq<byte>>)
    requires forall c :: Q.Sendable(W.Agent, Mail(os, c, xid))
  {
    forall c :: Pieces(os, c, xid, chunks(c))
  }

  ghost predicate Pieces(os: seq<S.Order>, c: Lcid, xid: nat, chunks: seq<seq<byte>>)
    requires Q.Sendable(W.Agent, Mail(os, c, xid))
  {
    && (forall i | 0 <= i < |chunks| :: chunks[i] != [])
    && Q.Join(chunks) == Q.Join(Q.Frames(W.Agent, Mail(os, c, xid)))
  }

  /** What its receive loop dispatches */
  function Dispatched(chunks: seq<seq<byte>>): seq<(W.Msg, nat)> {
    Q.Feed(Q.HandlerOf(W.Agent), Q.IDLE, chunks).events
  }

  /** All that the loops dispatched was handled, and nothing else. */
  ghost predicate DispatchedTaken(chunks: Lcid -> seq<seq<byte>>, took: seq<Taken>) {
    && (forall i | 0 <= i < |took| :: took[i].1 in Dispatched(chunks(took[i].0)))
    && (forall c: Lcid, e: (W.Msg, nat) | e in Dispatched(chunks(c)) :: (c, e) in took)
  }

  lemma PiecesDispatched(os: seq<S.Order>, c: Lcid, xid: nat, chunks: seq<seq<byte>>)
    requires (forall o | o in os :: OrderFits(o)) && xid < Y.BITS32
    requires Q.Sendable(W.Agent, Mail(os, c, xid)) && Pieces(os, c, xid, chunks)
    ensures Dispatched(chunks) == Mail(os, c, xid)
  {
    MailSendable(os, c, xid);
    Q.WholeStream(W.Agent, Mail(os, c, xid), chunks);
  }

  /** The same over the wire: the queues are serialised, their bytes arrive at the agents in any pieces,
      and what the receive loops dispatch is handled. */
  lemma BytesDeliver(n: Network, w: World, hosts: map<Mac, Lcid>, start: Lcid, inDpid: Dpid, srcMac: Mac,
                     dstMac: Mac, path: seq<Lcid>, xid: nat, chunks: Lcid -> seq<seq<byte>>, took: seq<Taken>,
                     jobs: seq<Job>)
    returns (visited: seq<Dpid>)
    requires Sees(n, w) && Answerable(n, hosts, start, srcMac, dstMac, path)
    requires var os := OrdersFor(n, hosts, start, inDpid, srcMac, dstMac, path);
             && (forall o | o in os :: OrderFits(o)) && xid < Y.BITS32
             && (forall c :: Q.Sendable(W.Agent, Mail(os, c, xid))) && Received(os, xid, chunks)
    requires DispatchedTaken(chunks, took) && AllRead(took, jobs) && AllReady(n, w, jobs) && SamePaths(jobs)
    ensures forall i | 0 <= i < |jobs| :: Do(After(w, jobs[..i]), jobs[i]).1
    ensures Delivers(n, After(w, jobs).tables, path, inDpid, dstMac, visited)
  {
    var os := OrdersFor(n, hosts, start, inDpid, srcMac, dstMac, path);
    forall c ensures Dispatched(chunks(c)) == Mail(os, c, xid) {
      assert Pieces(os, c, xid, chunks(c));
      PiecesDispatched(os, c, xid, chunks(c));
    }
    assert MailTaken(os, xid, took) by {
      forall i | 0 <= i < |took| ensures took[i].1 in Mail(os, took[i].0, xid) {
        assert took[i].1 in Dispatched(chunks(took[i].0));
      }
      forall c: Lcid, e: (W.Msg, nat) | e in Mail(os, c, xid) ensures (c, e) in took {
        assert e in Dispatched(chunks(c));
      }
    }
    visited := QueuesDeliver(n, w, hosts, start, inDpid, srcMac, dstMac, path, xid, took, jobs);
  }
}
