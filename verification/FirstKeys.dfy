/**
 What becomes of a pair of domains whose first link is gone while another stays: the key 0, by which
 the packet-in handler looks up where a frame comes in, does not come back before all links are gone.
 */
module FirstKeys {
  import opened Base
  import opened DomainGraph
  import S = Stitching

  /** The pair has links, but none with key 0. */
  ghost predicate LostFirst(t: Topo, p: Pair) {
    KeysOf(t, p) != map[] && 0 !in KeysOf(t, p)
  }

  /** If it has a link at all, it has none with key 0. */
  ghost predicate StaysLost(t: Topo, p: Pair) {
    0 !in KeysOf(t, p)
  }

  lemma AddStaysLost(t: Topo, q: Pair, e: Edge, p: Pair)
    requires LostFirst(t, p)
    ensures LostFirst(AddEdge(t, q, e), p)
  {
    var d := KeysOf(t, q);
    if p == q {
      assert |d| > 0 && FreshKey(d, |d|) > 0;
      assert FreshKey(d, |d|) in KeysOf(AddEdge(t, q, e), p);
    }
  }

  lemma {:induction false} WindowsStayLost(t: Topo, homes: map<Dpid, Lcid>, ws: seq<Window>, p: Pair)
    requires LostFirst(t, p)
    ensures LostFirst(AddWindows(t, homes, ws).0, p)
    decreases |ws|
  {
    if ws != [] {
      var w := ws[0];
      var r := AddWindow(t, homes, w);
      if r.0 != t {
        var u, v := homes[w.srcDpid], homes[w.dstDpid];
        AddStaysLost(t, (u, v), EdgeOf(w), p);
        AddStaysLost(AddEdge(t, (u, v), EdgeOf(w)), (v, u), Swap(EdgeOf(w)), p);
      }
      if r.1 { WindowsStayLost(r.0, homes, ws[1..], p); }
    }
  }

  lemma NextStaysLost(ts: seq<Topo>, es: seq<Event>, i: nat, p: Pair)
    requires Run(ts, es) && i < |es| && LostFirst(ts[i], p)
    ensures StaysLost(ts[i + 1], p)
  {
    assert Next(ts[i], es[i], ts[i + 1]);
    match es[i]
    case Hello(_) =>
    case GraphInfo(homes, ws) => WindowsStayLost(ts[i], homes, ws, p);
    case DpLeave(d) => assert Thinned(ts[i].edges[p], d, KeysOf(ts[i + 1], p));
  }

  /** As long as the pair has links, the first one does not come back, whatever is reported and whoever
      leaves. */
  lemma {:induction false} FirstStaysLost(ts: seq<Topo>, es: seq<Event>, i: nat, j: nat, p: Pair)
    requires Run(ts, es) && i <= j < |ts| && LostFirst(ts[i], p)
    requires forall k | i <= k <= j :: KeysOf(ts[k], p) != map[]
    ensures LostFirst(ts[j], p)
    decreases j - i
  {
    if i < j {
      FirstStaysLost(ts, es, i, j - 1, p);
      NextStaysLost(ts, es, j - 1, p);
    }
  }

  /** An order that cannot be made ends the handler, wherever on the path it is. */
  lemma {:induction false} StopsAt(t: Topo, pick: S.Pick, ctrls: set<Lcid>, path: seq<Lcid>, i: nat, src: Lcid,
                                   inDpid: Dpid, dst: Mac, j: nat)
    requires i <= j && j + 1 < |path| && src != path[j]
    requires 0 !in KeysOf(t, (if j == 0 then path[|path| - 1] else path[j - 1], path[j]))
    ensures !S.Stitch(t, pick, ctrls, path, i, src, inDpid, dst).1
    decreases j - i
  {
    if i < j {
      match S.OrderAt(t, pick, ctrls, path, i, src, inDpid, dst)
      case None =>
      case Some(o) => StopsAt(t, pick, ctrls, path, i + 1, src, o.inDpid, dst, j);
    }
  }

  /** Meanwhile every request whose path crosses the pair into a domain that it has to leave again raises. */
  lemma CrossingRaises(ts: seq<Topo>, es: seq<Event>, i: nat, j: nat, pick: S.Pick, ctrls: set<Lcid>,
                       hosts: map<Mac, Lcid>, start: Lcid, inDpid: Dpid, srcMac: Mac, dstMac: Mac, path: seq<Lcid>,
                       m: nat)
    requires Run(ts, es) && i <= j < |ts| && m + 2 < |path| && LostFirst(ts[i], (path[m], path[m + 1]))
    requires forall k | i <= k <= j :: KeysOf(ts[k], (path[m], path[m + 1])) != map[]
    requires srcMac in hosts && dstMac in hosts && hosts[dstMac] != start && hosts[srcMac] != path[m + 1]
    ensures !S.PacketIn(ts[j], pick, ctrls, hosts, start, inDpid, srcMac, dstMac, path).1
  {
    FirstStaysLost(ts, es, i, j, (path[m], path[m + 1]));
    StopsAt(ts[j], pick, ctrls, path, 0, hosts[srcMac], inDpid, dstMac, m + 1);
  }
}
