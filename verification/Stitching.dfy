/**
 How the central controller answers a PACKET_IN between domains: one FLOW_MOD for every domain on
 a path through the domain graph, except the last.
 */
module Stitching {
  import opened Base
  import opened Graphs
  import opened DomainGraph

  /** A FLOW_MOD for one local controller: enter at `inDpid`, leave `outDpid` by `outPort`. */
  datatype Order = Order(lcid: Lcid, inDpid: Dpid, outDpid: Dpid, outPort: Port, dst: Mac, wildcards: int)

  /** Which of several parallel edges keys()[0] gives. */
  type Pick = Pair -> nat

  /** The order for the domain at position `i`; None is a KeyError. `inDpid` is the variable the loop
      carries along; in a domain that is not the source's it is read off the edge before, at key 0,
      and before the first domain stands, by Python's negative index, the last. */
  function OrderAt(t: Topo, pick: Pick, ctrls: set<Lcid>, path: seq<Lcid>, i: nat, src: Lcid, inDpid: Dpid,
                   dst: Mac): Option<Order>
    requires i + 1 < |path|
  {
    var edges := KeysOf(t, (path[i], path[i + 1]));
    var before := KeysOf(t, (if i == 0 then path[|path| - 1] else path[i - 1], path[i]));
    var key := pick((path[i], path[i + 1]));
    if key !in edges || path[i] !in ctrls || (src != path[i] && 0 !in before) then None
    else
      var enter := if src == path[i] then inDpid else before[0].rightDpid;
      Some(Order(path[i], enter, edges[key].leftDpid, edges[key].outPort, dst, if src == path[i] then 1 else 0))
  }

  /** The loop over the path from position `i` on. */
  function Stitch(t: Topo, pick: Pick, ctrls: set<Lcid>, path: seq<Lcid>, i: nat, src: Lcid, inDpid: Dpid, dst: Mac)
    : (r: (seq<Order>, bool))
    decreases |path| - i
  {
    if i + 1 >= |path| then ([], true)
    else
      match OrderAt(t, pick, ctrls, path, i, src, inDpid, dst)
      case None => ([], false)
      case Some(o) =>
        var rest := Stitch(t, pick, ctrls, path, i + 1, src, o.inDpid, dst);
        ([o] + rest.0, rest.1)
  }

  /** The loop as a loop: `os` are the orders so far, and from position `i` on it goes as `Stitch`. */
  ghost predicate Going(t: Topo, pick: Pick, ctrls: set<Lcid>, path: seq<Lcid>, i: nat, src: Lcid, inDpid: Dpid,
                        dst: Mac, os: seq<Order>, goal: (seq<Order>, bool)) {
    var rest := Stitch(t, pick, ctrls, path, i, src, inDpid, dst);
    goal == (os + rest.0, rest.1)
  }

  lemma GoesFrom(t: Topo, pick: Pick, ctrls: set<Lcid>, path: seq<Lcid>, src: Lcid, inDpid: Dpid, dst: Mac)
    ensures Going(t, pick, ctrls, path, 0, src, inDpid, dst, [], Stitch(t, pick, ctrls, path, 0, src, inDpid, dst))
  {
    var goal := Stitch(t, pick, ctrls, path, 0, src, inDpid, dst);
    assert [] + goal.0 == goal.0;
  }

  lemma GoesOn(t: Topo, pick: Pick, ctrls: set<Lcid>, path: seq<Lcid>, i: nat, src: Lcid, inDpid: Dpid, dst: Mac,
               os: seq<Order>, goal: (seq<Order>, bool))
    requires Going(t, pick, ctrls, path, i, src, inDpid, dst, os, goal)
    ensures i + 1 >= |path| ==> goal == (os, true)
    ensures i + 1 < |path| ==>
              match OrderAt(t, pick, ctrls, path, i, src, inDpid, dst)
              case None => goal == (os, false)
              case Some(o) => Going(t, pick, ctrls, path, i + 1, src, o.inDpid, dst, os + [o], goal)
  {
    assert os + [] == os;
    if i + 1 < |path| {
      var o := OrderAt(t, pick, ctrls, path, i, src, inDpid, dst);
      if o.Some? {
        var tail := Stitch(t, pick, ctrls, path, i + 1, src, o.value.inDpid, dst).0;
        assert os + ([o.value] + tail) == os + [o.value] + tail;
      }
    }
  }

  /** The answer to a PACKET_IN of controller `start`, once networkx gave `path` ([] for no path). */
  function PacketIn(t: Topo, pick: Pick, ctrls: set<Lcid>, hosts: map<Mac, Lcid>, start: Lcid, inDpid: Dpid,
                    srcMac: Mac, dstMac: Mac, path: seq<Lcid>): (seq<Order>, bool)
  {
    if srcMac !in hosts || dstMac !in hosts || hosts[dstMac] == start then ([], true)
    else if start !in t.nodes || hosts[dstMac] !in t.nodes then ([], false)
    else Stitch(t, pick, ctrls, path, 0, hosts[srcMac], inDpid, dstMac)
  }

  /** keys()[0] is a key. */
  ghost predicate Picks(t: Topo, pick: Pick) {
    forall p | p in t.edges && t.edges[p] != map[] :: pick(p) in t.edges[p]
  }

  function Via(t: Topo, pick: Pick, path: seq<Lcid>, i: nat): Edge
    requires i + 1 < |path| && pick((path[i], path[i + 1])) in KeysOf(t, (path[i], path[i + 1]))
  {
    KeysOf(t, (path[i], path[i + 1]))[pick((path[i], path[i + 1]))]
  }

  /** Every domain but the last is left by an edge there is; and the edge it is left by is the edge, as
      far as its far switch goes, that the next domain is said to be entered by, if that gets an order. */
  ghost predicate Agrees(t: Topo, pick: Pick, path: seq<Lcid>) {
    forall i | 0 <= i < |path| - 1 :: AgreesAt(t, pick, path, i)
  }

  ghost predicate AgreesAt(t: Topo, pick: Pick, path: seq<Lcid>, i: nat)
    requires i + 1 < |path|
  {
    var edges := KeysOf(t, (path[i], path[i + 1]));
    && pick((path[i], path[i + 1])) in edges
    && (i + 2 < |path| ==> 0 in edges && edges[0].rightDpid == edges[pick((path[i], path[i + 1]))].rightDpid)
  }

  lemma SingleAgrees(t: Topo, pick: Pick, path: seq<Lcid>)
    requires ZeroKeys(t) && Picks(t, pick) && forall i | 0 <= i < |path| - 1 :: (path[i], path[i + 1]) in t.edges
    ensures Agrees(t, pick, path)
  {
    forall i | 0 <= i < |path| - 1 ensures AgreesAt(t, pick, path, i) {
      assert (path[i], path[i + 1]) in t.edges;
    }
  }

  /** The orders as they are meant: enter where the edge before leads, leave by the next edge. */
  ghost predicate Chained(t: Topo, pick: Pick, path: seq<Lcid>, first: nat, enter: Dpid, os: seq<Order>)
  {
    && first + |os| + 1 == |path|
    && (forall j | 0 <= j < |os| :: ChainedAt(t, pick, path, first, enter, os, j))
  }

  ghost predicate ChainedAt(t: Topo, pick: Pick, path: seq<Lcid>, first: nat, enter: Dpid, os: seq<Order>, j: nat)
    requires j < |os| && first + |os| + 1 == |path|
  {
    && os[j].lcid == path[first + j]
    && pick((path[first + j], path[first + j + 1])) in KeysOf(t, (path[first + j], path[first + j + 1]))
    && os[j].outDpid == Via(t, pick, path, first + j).leftDpid && os[j].outPort == Via(t, pick, path, first + j).outPort
    && (if j == 0 then os[j].inDpid == enter
        else pick((path[first + j - 1], path[first + j])) in KeysOf(t, (path[first + j - 1], path[first + j]))
             && os[j].inDpid == Via(t, pick, path, first + j - 1).rightDpid)
  }

  lemma {:induction false} StitchTail(t: Topo, pick: Pick, ctrls: set<Lcid>, path: seq<Lcid>, i: nat, inDpid: Dpid,
                                      dst: Mac)
    requires Agrees(t, pick, path) && Simple(path) && 0 < i < |path| && forall c | c in path :: c in ctrls
    ensures AgreesAt(t, pick, path, i - 1)
    ensures var r := Stitch(t, pick, ctrls, path, i, path[0], inDpid, dst);
            r.1 && Chained(t, pick, path, i, Via(t, pick, path, i - 1).rightDpid, r.0)
    decreases |path| - i
  {
    if i + 1 < |path| {
      var r := Stitch(t, pick, ctrls, path, i, path[0], inDpid, dst);
      assert path[i] in path && path[0] != path[i];
      assert AgreesAt(t, pick, path, i - 1) && AgreesAt(t, pick, path, i);
      var enter := Via(t, pick, path, i - 1).rightDpid;
      StitchTail(t, pick, ctrls, path, i + 1, enter, dst);
      var rest := Stitch(t, pick, ctrls, path, i + 1, path[0], enter, dst);
      ChainMore(t, pick, path, i, enter, r.0, rest.0);
    }
  }

  lemma {:induction false} StitchDst(t: Topo, pick: Pick, ctrls: set<Lcid>, path: seq<Lcid>, i: nat, src: Lcid,
                                     inDpid: Dpid, dst: Mac)
    ensures forall o | o in Stitch(t, pick, ctrls, path, i, src, inDpid, dst).0 :: o.dst == dst
    decreases |path| - i
  {
    var r := Stitch(t, pick, ctrls, path, i, src, inDpid, dst).0;
    if r != [] {
      StitchDst(t, pick, ctrls, path, i + 1, src, r[0].inDpid, dst);
      assert r[1..] == Stitch(t, pick, ctrls, path, i + 1, src, r[0].inDpid, dst).0;
      assert forall o | o in r :: o == r[0] || o in r[1..];
    }
  }

  /** The flag tells the source's domain, with 1. */
  lemma {:induction false} StitchFlags(t: Topo, pick: Pick, ctrls: set<Lcid>, path: seq<Lcid>, i: nat, src: Lcid,
                                       inDpid: Dpid, dst: Mac)
    ensures forall o | o in Stitch(t, pick, ctrls, path, i, src, inDpid, dst).0 ::
              (o.lcid == src ==> o.wildcards == 1) && (o.lcid != src ==> o.wildcards == 0)
    decreases |path| - i
  {
    var r := Stitch(t, pick, ctrls, path, i, src, inDpid, dst).0;
    if r != [] {
      StitchFlags(t, pick, ctrls, path, i + 1, src, r[0].inDpid, dst);
      assert r[1..] == Stitch(t, pick, ctrls, path, i + 1, src, r[0].inDpid, dst).0;
      assert forall o | o in r :: o == r[0] || o in r[1..];
    }
  }

  lemma ChainMore(t: Topo, pick: Pick, path: seq<Lcid>, i: nat, enter: Dpid, os: seq<Order>, rest: seq<Order>)
    requires i + 1 < |path| && pick((path[i], path[i + 1])) in KeysOf(t, (path[i], path[i + 1]))
    requires os != [] && os[1..] == rest && os[0].lcid == path[i] && os[0].inDpid == enter
    requires os[0].outDpid == Via(t, pick, path, i).leftDpid && os[0].outPort == Via(t, pick, path, i).outPort
    requires Chained(t, pick, path, i + 1, Via(t, pick, path, i).rightDpid, rest)
    ensures Chained(t, pick, path, i, enter, os)
  {
    forall j | 0 <= j < |os| ensures ChainedAt(t, pick, path, i, enter, os, j) {
      if j > 0 {
        assert ChainedAt(t, pick, path, i + 1, Via(t, pick, path, i).rightDpid, rest, j - 1);
        assert os[j] == rest[j - 1];
      }
    }
  }

  lemma ChainLess(t: Topo, pick: Pick, path: seq<Lcid>, i: nat, enter: Dpid, os: seq<Order>, rest: seq<Order>)
    requires os != [] && os[1..] == rest && Chained(t, pick, path, i, enter, os)
    ensures pick((path[i], path[i + 1])) in KeysOf(t, (path[i], path[i + 1]))
    ensures Chained(t, pick, path, i + 1, Via(t, pick, path, i).rightDpid, rest)
  {
    assert ChainedAt(t, pick, path, i, enter, os, 0);
    var next, far := i + 1, Via(t, pick, path, i).rightDpid;
    forall j | 0 <= j < |rest| ensures ChainedAt(t, pick, path, next, far, rest, j) {
      assert ChainedAt(t, pick, path, i, enter, os, j + 1) && os[j + 1] == rest[j];
    }
  }

  /** If the loop gets through from position `i` on and its orders are chained, then the edges agree. */
  lemma {:induction false} ChainAgrees(t: Topo, pick: Pick, ctrls: set<Lcid>, path: seq<Lcid>, i: nat, inDpid: Dpid,
                                       dst: Mac, h: nat)
    requires Simple(path) && 0 < i < |path| && i - 1 <= h && h + 1 < |path|
    requires pick((path[i - 1], path[i])) in KeysOf(t, (path[i - 1], path[i]))
    requires var r := Stitch(t, pick, ctrls, path, i, path[0], inDpid, dst);
             r.1 && Chained(t, pick, path, i, Via(t, pick, path, i - 1).rightDpid, r.0)
    ensures AgreesAt(t, pick, path, h)
    decreases |path| - i
  {
    if i + 1 < |path| {
      var r := Stitch(t, pick, ctrls, path, i, path[0], inDpid, dst);
      var enter := Via(t, pick, path, i - 1).rightDpid;
      assert path[0] != path[i] && ChainedAt(t, pick, path, i, enter, r.0, 0);
      if h >= i {
        var rest := Stitch(t, pick, ctrls, path, i + 1, path[0], r.0[0].inDpid, dst);
        ChainLess(t, pick, path, i, enter, r.0, rest.0);
        ChainAgrees(t, pick, ctrls, path, i + 1, r.0[0].inDpid, dst, h);
      }
    }
  }

  /** A request from the domain that has the source host: every domain of the path but the last gets
      one order, entering where the link before leads to and leaving by the link to the next. */
  lemma StitchChain(t: Topo, pick: Pick, ctrls: set<Lcid>, path: seq<Lcid>, inDpid: Dpid, dst: Mac)
    requires Agrees(t, pick, path) && Simple(path) && |path| > 1 && forall c | c in path :: c in ctrls
    ensures var r := Stitch(t, pick, ctrls, path, 0, path[0], inDpid, dst);
            r.1 && Chained(t, pick, path, 0, inDpid, r.0)
  {
    var r := Stitch(t, pick, ctrls, path, 0, path[0], inDpid, dst);
    assert path[0] in path && AgreesAt(t, pick, path, 0);
    StitchTail(t, pick, ctrls, path, 1, inDpid, dst);
    ChainMore(t, pick, path, 0, inDpid, r.0, Stitch(t, pick, ctrls, path, 1, path[0], inDpid, dst).0);
  }

  /** And so it comes out exactly if the edges agree. */
  lemma ChainIffAgrees(t: Topo, pick: Pick, ctrls: set<Lcid>, path: seq<Lcid>, inDpid: Dpid, dst: Mac)
    requires Simple(path) && |path| > 1 && forall c | c in path :: c in ctrls
    ensures var r := Stitch(t, pick, ctrls, path, 0, path[0], inDpid, dst);
            r.1 && Chained(t, pick, path, 0, inDpid, r.0) <==> Agrees(t, pick, path)
  {
    var r := Stitch(t, pick, ctrls, path, 0, path[0], inDpid, dst);
    if Agrees(t, pick, path) { StitchChain(t, pick, ctrls, path, inDpid, dst); }
    if r.1 && Chained(t, pick, path, 0, inDpid, r.0) {
      var rest := Stitch(t, pick, ctrls, path, 1, path[0], r.0[0].inDpid, dst);
      ChainLess(t, pick, path, 0, inDpid, r.0, rest.0);
      forall h | 0 <= h < |path| - 1 ensures AgreesAt(t, pick, path, h) {
        ChainAgrees(t, pick, ctrls, path, 1, r.0[0].inDpid, dst, h);
      }
    }
  }

  /** A request from a domain that does not have the source host (say, on the way): Python's
      path[-1] asks for an edge from the destination. On a shortest path of more than two domains
      there is none and the handler raises without having sent anything; between neighbours it sends
      one order that enters where it leaves, and so installs a single rule. */
  lemma ForeignSource(t: Topo, pick: Pick, ctrls: set<Lcid>, path: seq<Lcid>, src: Lcid, inDpid: Dpid, dst: Mac)
    requires Inv(t) && ZeroKeys(t) && Picks(t, pick) && forall c | c in path :: c in ctrls
    requires |path| > 1 && Shortest(t.edges.Keys, path[0], path[|path| - 1], path) && src != path[0]
    ensures var r := Stitch(t, pick, ctrls, path, 0, src, inDpid, dst);
            if |path| == 2 then
              r.1 && |r.0| == 1 && r.0[0].lcid == path[0] && r.0[0].inDpid == r.0[0].outDpid
            else r == ([], false)
  {
    assert (path[0], path[0 + 1]) in t.edges;
    if |path| == 2 {
      ForeignNeighbour(t, pick, ctrls, path, src, inDpid, dst);
    } else {
      NoShortcut(t, path);
    }
  }

  lemma ForeignNeighbour(t: Topo, pick: Pick, ctrls: set<Lcid>, path: seq<Lcid>, src: Lcid, inDpid: Dpid, dst: Mac)
    requires Inv(t) && ZeroKeys(t) && Picks(t, pick) && forall c | c in path :: c in ctrls
    requires |path| == 2 && src != path[0] && (path[0], path[1]) in t.edges
    ensures var r := Stitch(t, pick, ctrls, path, 0, src, inDpid, dst);
            r.1 && |r.0| == 1 && r.0[0].lcid == path[0] && r.0[0].inDpid == r.0[0].outDpid
  {
    var u, v := path[0], path[1];
    assert u in path;
    MirrorAtZero(t, v, u);
    MirrorAtZero(t, u, v);
    var enter := t.edges[(v, u)][0].rightDpid;
    assert Stitch(t, pick, ctrls, path, 1, src, enter, dst) == ([], true);
  }

  /** No edge leads from the end of a shortest path of three domains or more to its start. */
  lemma NoShortcut(t: Topo, path: seq<Lcid>)
    requires Inv(t) && ZeroKeys(t) && |path| > 2 && Shortest(t.edges.Keys, path[0], path[|path| - 1], path)
    ensures (path[|path| - 1], path[0]) !in t.edges
  {
    var u, v := path[0], path[|path| - 1];
    MirrorAtZero(t, u, v);
    assert (u, v) in t.edges ==> Connects(t.edges.Keys, u, v, [u, v]);
  }

  lemma MirrorAtZero(t: Topo, u: Lcid, v: Lcid)
    requires Inv(t) && ZeroKeys(t)
    ensures (v, u) in t.edges ==> (u, v) in t.edges && t.edges[(u, v)][0] == Swap(t.edges[(v, u)][0])
  {
    if (v, u) in t.edges {
      var e := t.edges[(v, u)][0];
      assert Linked(t, v, u, e);
      assert Linked(t, u, v, Swap(e));
    }
  }
}
