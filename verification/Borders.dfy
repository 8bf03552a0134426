/**
 The graph of domains says what is true: GRAPH_INFO enters the links that were reported, with their
 own switches and ports, and in every run its edges are cables between the domains.
 */
module Borders {
  import opened Base
  import opened DomainGraph
  import opened Delivery
  import T = Transit

  /** The home controller of a datapath is the one of its domain. */
  predicate Homed(n: Network, homes: map<Dpid, Lcid>) {
    forall d | d in homes :: d in n.owner && n.owner[d] == homes[d]
  }

  /** Between the two ports of a window is a cable. */
  predicate IsCable(wire: T.Wire, w: Window) {
    && (w.srcDpid, w.srcPort) in wire && wire[(w.srcDpid, w.srcPort)] == w.dstDpid
    && (w.dstDpid, w.dstPort) in wire && wire[(w.dstDpid, w.dstPort)] == w.srcDpid
  }

  predicate AreCables(wire: T.Wire, ws: seq<Window>) {
    forall i | 0 <= i < |ws| :: IsCable(wire, ws[i])
  }

  /** The window is between two domains, of known home controllers. */
  predicate Borders(homes: map<Dpid, Lcid>, w: Window) {
    w.srcDpid in homes && w.dstDpid in homes && homes[w.srcDpid] != homes[w.dstDpid]
  }

  /** The edge is the window, seen from `u`: it leaves by the port of the end at `u`. */
  predicate Shows(homes: map<Dpid, Lcid>, w: Window, u: Lcid, v: Lcid, e: Edge) {
    && Borders(homes, w)
    && (|| ((u, v) == (homes[w.srcDpid], homes[w.dstDpid])
            && e.leftDpid == w.srcDpid && e.outPort == w.srcPort && e.rightDpid == w.dstDpid && e.inPort == w.dstPort)
        || ((u, v) == (homes[w.dstDpid], homes[w.srcDpid])
            && e.leftDpid == w.dstDpid && e.outPort == w.dstPort && e.rightDpid == w.srcDpid && e.inPort == w.srcPort))
  }

  /** One window: the links there were, and its own in both directions. */
  lemma WindowLinks(t: Topo, homes: map<Dpid, Lcid>, w: Window)
    requires Inv(t) && AddWindow(t, homes, w).1
    ensures forall u: Lcid, v: Lcid, e ::
              Linked(AddWindow(t, homes, w).0, u, v, e) <==> Linked(t, u, v, e) || Shows(homes, w, u, v, e)
  {
    if Borders(homes, w) {
      var u, v, e := homes[w.srcDpid], homes[w.dstDpid], EdgeOf(w);
      if Linked(t, u, v, e) {
        assert Linked(t, v, u, Swap(e));
      } else {
        AddEdgeLinks(t, (u, v), e);
        AddEdgeLinks(AddEdge(t, (u, v), e), (v, u), Swap(e));
      }
    }
  }

  /** GRAPH_INFO that gets through: the links afterwards are those there were and, in both directions
      and with their own numbers, the windows between different domains that were reported. */
  lemma {:induction false} ReportLinks(t: Topo, homes: map<Dpid, Lcid>, ws: seq<Window>, u: Lcid, v: Lcid, e: Edge)
    requires Inv(t) && AddWindows(t, homes, ws).1
    ensures Linked(AddWindows(t, homes, ws).0, u, v, e) <==>
            Linked(t, u, v, e) || exists i :: 0 <= i < |ws| && Shows(homes, ws[i], u, v, e)
    decreases |ws|
  {
    if ws != [] {
      var r := AddWindow(t, homes, ws[0]).0;
      WindowLinks(t, homes, ws[0]);
      AddWindowKeeps(t, homes, ws[0]);
      ReportLinks(r, homes, ws[1..], u, v, e);
      assert forall i | 0 < i < |ws| :: ws[i] == ws[1..][i - 1];
      if i :| 0 <= i < |ws| && Shows(homes, ws[i], u, v, e) && i > 0 {
        assert Shows(homes, ws[1..][i - 1], u, v, e);
      }
      if j :| 0 <= j < |ws[1..]| && Shows(homes, ws[1..][j], u, v, e) {
        assert Shows(homes, ws[j + 1], u, v, e);
      }
    }
  }

  // ---------------------------------------------------------------------------
  // Every edge is a cable
  // ---------------------------------------------------------------------------

  lemma ShownIsCable(n: Network, homes: map<Dpid, Lcid>, w: Window, u: Lcid, v: Lcid, e: Edge)
    requires Homed(n, homes) && IsCable(n.wire, w) && Shows(homes, w, u, v, e)
    ensures Cable(n, v, e)
  {
  }

  lemma WindowCables(n: Network, t: Topo, homes: map<Dpid, Lcid>, w: Window)
    requires AllCables(n, t) && Homed(n, homes) && IsCable(n.wire, w)
    ensures AllCables(n, AddWindow(t, homes, w).0)
  {
    var r := AddWindow(t, homes, w).0;
    if r != t {
      var u, v, e := homes[w.srcDpid], homes[w.dstDpid], EdgeOf(w);
      AddEdgeLinks(t, (u, v), e);
      AddEdgeLinks(AddEdge(t, (u, v), e), (v, u), Swap(e));
      ShownIsCable(n, homes, w, u, v, e);
      ShownIsCable(n, homes, w, v, u, Swap(e));
    }
  }

  lemma {:induction false} WindowsCables(n: Network, t: Topo, homes: map<Dpid, Lcid>, ws: seq<Window>)
    requires AllCables(n, t) && Homed(n, homes) && AreCables(n.wire, ws)
    ensures AllCables(n, AddWindows(t, homes, ws).0)
    decreases |ws|
  {
    if ws != [] {
      assert IsCable(n.wire, ws[0]);
      WindowCables(n, t, homes, ws[0]);
      forall i | 0 <= i < |ws[1..]| ensures IsCable(n.wire, ws[1..][i]) {
        assert IsCable(n.wire, ws[i + 1]);
      }
      WindowsCables(n, AddWindow(t, homes, ws[0]).0, homes, ws[1..]);
    }
  }

  lemma LeaveCables(n: Network, t: Topo, d: Dpid, t': Topo)
    requires AllCables(n, t) && LeaveResult(t, d, t')
    ensures AllCables(n, t')
  {
    forall u: Lcid, v: Lcid, e | Linked(t', u, v, e) ensures Cable(n, v, e) {
      assert Thinned(t.edges[(u, v)], d, KeysOf(t', (u, v)));
      assert Linked(t, u, v, e);
    }
  }

  /** The event's home controllers are those of the datapaths' domains, and its windows are cables. */
  predicate Truthful(n: Network, e: Event) {
    e.GraphInfo? ==> Homed(n, e.homes) && AreCables(n.wire, e.windows)
  }

  /** In every run of reports, also of ones that raised half way, and of departures, whatever they
      leave, the edges of the graph are cables into the domains they lead to. */
  lemma {:induction false} RunCables(n: Network, ts: seq<Topo>, es: seq<Event>, i: nat)
    requires Run(ts, es) && i < |ts| && forall j | 0 <= j < |es| :: Truthful(n, es[j])
    ensures AllCables(n, ts[i])
  {
    if i > 0 {
      RunCables(n, ts, es, i - 1);
      assert Next(ts[i - 1], es[i - 1], ts[i - 1 + 1]) && Truthful(n, es[i - 1]);
      match es[i - 1]
      case Hello(_) => HelloCables(n, ts[i - 1], ts[i]);
      case GraphInfo(homes, ws) => WindowsCables(n, ts[i - 1], homes, ws);
      case DpLeave(d) => LeaveCables(n, ts[i - 1], d, ts[i]);
    }
  }

  lemma HelloCables(n: Network, t: Topo, t': Topo)
    requires AllCables(n, t) && t'.edges == t.edges
    ensures AllCables(n, t')
  {
    forall u: Lcid, v: Lcid, e | Linked(t', u, v, e) ensures Cable(n, v, e) {
      assert Linked(t, u, v, e);
    }
  }
}
