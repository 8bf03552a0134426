/**
 The central controller's multigraph of domains: one edge for each direction of a link between
 two domains, added by GRAPH_INFO and removed when a datapath leaves.
 */
module DomainGraph {
  import opened Base

  /** A link seen from one side: it leaves `leftDpid` by `outPort` and enters `rightDpid` by `inPort`. */
  datatype Edge = Edge(leftDpid: Dpid, outPort: Port, rightDpid: Dpid, inPort: Port)

  /** Parallel edges have integer keys. */
  type Keyed = map<nat, Edge>

  type Pair = (Lcid, Lcid)

  datatype Topo = Topo(nodes: set<Lcid>, edges: map<Pair, Keyed>)

  /** One entry of the window list a local controller sends. */
  datatype Window = Window(srcDpid: Dpid, srcPort: Port, dstDpid: Dpid, dstPort: Port)

  function Swap(e: Edge): Edge {
    Edge(e.rightDpid, e.inPort, e.leftDpid, e.outPort)
  }

  function KeysOf(t: Topo, p: Pair): Keyed {
    if p in t.edges then t.edges[p] else map[]
  }

  predicate Linked(t: Topo, u: Lcid, v: Lcid, e: Edge) {
    e in KeysOf(t, (u, v)).Values
  }

  /** networkx: the key of a new edge is the number of edges, or the next free number after it. */
  function FreshKey(d: Keyed, k: nat): (r: nat)
    ensures r !in d && r >= k
    decreases set x | x in d && x >= k
  {
    if k in d then
      var here, later := (set x | x in d && x >= k), (set x | x in d && x >= k + 1);
      assert k in here && k !in later && later < here;
      FreshKey(d, k + 1)
    else k
  }

  function AddEdge(t: Topo, p: Pair, e: Edge): Topo {
    var d := KeysOf(t, p);
    var d': Keyed := d[FreshKey(d, |d|) := e];
    t.(edges := t.edges[p := d'])
  }

  function EdgeOf(w: Window): Edge {
    Edge(w.srcDpid, w.srcPort, w.dstDpid, w.dstPort)
  }

  /** One turn of the loop of GRAPH_INFO; `homes` gives the home controller of each datapath. A
      controller that is not a node raises. */
  function AddWindow(t: Topo, homes: map<Dpid, Lcid>, w: Window): (Topo, bool) {
    if w.srcDpid !in homes || w.dstDpid !in homes || homes[w.srcDpid] == homes[w.dstDpid] then (t, true)
    else
      var u, v := homes[w.srcDpid], homes[w.dstDpid];
      if Linked(t, u, v, EdgeOf(w)) then (t, true)
      else if u !in t.nodes || v !in t.nodes then (t, false)
      else (AddEdge(AddEdge(t, (u, v), EdgeOf(w)), (v, u), Swap(EdgeOf(w))), true)
  }

  function AddWindows(t: Topo, homes: map<Dpid, Lcid>, ws: seq<Window>): (Topo, bool)
    decreases |ws|
  {
    if ws == [] then (t, true)
    else
      var r := AddWindow(t, homes, ws[0]);
      if r.1 then AddWindows(r.0, homes, ws[1..]) else r
  }

  predicate Mentions(e: Edge, d: Dpid) {
    e.leftDpid == d || e.rightDpid == d
  }

  function MentionKeys(m: Keyed, d: Dpid): set<nat> {
    set k | k in m && Mentions(m[k], d)
  }

  /** What DATAPATH_LEAVE may leave of the edges. For each edge that mentions the datapath it calls
      remove_edge without a key, and networkx then takes out any one edge of that pair. */
  ghost predicate LeaveResult(t: Topo, d: Dpid, t': Topo) {
    && t'.nodes == t.nodes && t'.edges.Keys <= t.edges.Keys
    && forall p | p in t.edges :: Thinned(t.edges[p], d, KeysOf(t', p)) && (p in t'.edges <==> KeysOf(t', p) != map[])
  }

  ghost predicate Thinned(before: Keyed, d: Dpid, after: Keyed) {
    && after.Keys <= before.Keys && (forall k | k in after :: after[k] == before[k])
    && |after| == |before| - |MentionKeys(before, d)|
  }

  // ---------------------------------------------------------------------------
  // The invariant
  // ---------------------------------------------------------------------------

  /** Every edge has its mirror image, and only once; no edge starts and ends at the same domain. */
  ghost predicate Inv(t: Topo) {
    && (forall u: Lcid, v: Lcid, e {:trigger Linked(t, u, v, e), Swap(e)} ::
          Linked(t, u, v, e) <==> Linked(t, v, u, Swap(e)))
    && (forall u: Lcid, e :: !Linked(t, u, u, e))
    && (forall p | p in t.edges :: OnceEach(t.edges[p]))
    && (forall p | p in t.edges :: t.edges[p] != map[] && p.0 in t.nodes && p.1 in t.nodes)
  }

  /** No link twice under two keys, and no link from a switch to itself. */
  ghost predicate OnceEach(m: Keyed) {
    && (forall j, k | j in m && k in m && m[j] == m[k] :: j == k)
    && (forall k | k in m :: m[k].leftDpid != m[k].rightDpid)
  }

  /** The graph with other edges between one pair. */
  function WithKeys(t: Topo, p: Pair, m: Keyed): Topo {
    t.(edges := if m == map[] then t.edges - {p} else t.edges[p := m])
  }

  lemma AddEdgeLinks(t: Topo, p: Pair, e: Edge)
    ensures forall u: Lcid, v: Lcid, x ::
              Linked(AddEdge(t, p, e), u, v, x) <==> Linked(t, u, v, x) || ((u, v) == p && x == e)
  {
    var d := KeysOf(t, p);
    var k := FreshKey(d, |d|);
    var d': Keyed := d[k := e];
    assert forall x :: x in d'.Values <==> x in d.Values || x == e by {
      assert d'[k] == e;
      forall x | x in d.Values ensures x in d'.Values {
        var j :| j in d && d[j] == x;
        assert d'[j] == x;
      }
    }
  }

  lemma AddEdgeOnce(t: Topo, p: Pair, e: Edge)
    requires forall q | q in t.edges :: OnceEach(t.edges[q])
    requires !Linked(t, p.0, p.1, e) && e.leftDpid != e.rightDpid
    ensures forall q | q in AddEdge(t, p, e).edges :: OnceEach(AddEdge(t, p, e).edges[q])
  {
    var d := KeysOf(t, p);
    assert forall k | k in d :: d[k] in d.Values;
    assert OnceEach(d);
  }

  lemma AddWindowKeeps(t: Topo, homes: map<Dpid, Lcid>, w: Window)
    requires Inv(t)
    ensures Inv(AddWindow(t, homes, w).0)
    ensures var r := AddWindow(t, homes, w);
            r.1 <==> (w.srcDpid in homes && w.dstDpid in homes && homes[w.srcDpid] != homes[w.dstDpid]
                      && !Linked(t, homes[w.srcDpid], homes[w.dstDpid], EdgeOf(w))
                      ==> homes[w.srcDpid] in t.nodes && homes[w.dstDpid] in t.nodes)
  {
    var r := AddWindow(t, homes, w);
    if r.0 != t {
      var u, v, e := homes[w.srcDpid], homes[w.dstDpid], EdgeOf(w);
      var a := AddEdge(t, (u, v), e);
      AddEdgeLinks(t, (u, v), e);
      AddEdgeLinks(a, (v, u), Swap(e));
      assert Swap(Swap(e)) == e;
      assert !Linked(t, v, u, Swap(e));
      assert e.leftDpid != e.rightDpid;
      AddEdgeOnce(t, (u, v), e);
      AddEdgeOnce(a, (v, u), Swap(e));
      MirrorOfAdd(t, u, v, e, r.0);
    }
  }

  lemma MirrorOfAdd(t: Topo, u: Lcid, v: Lcid, e: Edge, r: Topo)
    requires Inv(t) && u != v
    requires forall x: Lcid, y: Lcid, f :: Linked(r, x, y, f) <==>
               Linked(t, x, y, f) || ((x, y) == (u, v) && f == e) || ((x, y) == (v, u) && f == Swap(e))
    ensures forall x: Lcid, y: Lcid, f {:trigger Linked(r, x, y, f), Swap(f)} ::
              Linked(r, x, y, f) <==> Linked(r, y, x, Swap(f))
    ensures forall x: Lcid, f :: !Linked(r, x, x, f)
  {
    assert forall f :: Swap(Swap(f)) == f;
  }

  /** GRAPH_INFO keeps the mirror, whoever reports a link, from whichever side and however often,
      and also when it raises half way. */
  lemma {:induction false} AddWindowsKeeps(t: Topo, homes: map<Dpid, Lcid>, ws: seq<Window>)
    requires Inv(t)
    ensures Inv(AddWindows(t, homes, ws).0)
    decreases |ws|
  {
    if ws != [] {
      AddWindowKeeps(t, homes, ws[0]);
      AddWindowsKeeps(AddWindow(t, homes, ws[0]).0, homes, ws[1..]);
    }
  }

  /** A link reported from its other side is recognised. */
  lemma ReportedTwice(t: Topo, homes: map<Dpid, Lcid>, w: Window)
    requires Inv(t) && AddWindow(t, homes, w).1
    ensures AddWindow(AddWindow(t, homes, w).0, homes, Window(w.dstDpid, w.dstPort, w.srcDpid, w.srcPort))
            == (AddWindow(t, homes, w).0, true)
  {
    AddWindowKeeps(t, homes, w);
    var r := AddWindow(t, homes, w).0;
    if w.srcDpid in homes && w.dstDpid in homes && homes[w.srcDpid] != homes[w.dstDpid] {
      var u, v, e := homes[w.srcDpid], homes[w.dstDpid], EdgeOf(w);
      if !Linked(t, u, v, e) {
        AddEdgeLinks(t, (u, v), e);
        AddEdgeLinks(AddEdge(t, (u, v), e), (v, u), Swap(e));
      }
      assert Linked(r, u, v, e) && Linked(r, v, u, Swap(e));
    }
  }

  // ---------------------------------------------------------------------------
  // Departure of a datapath
  // ---------------------------------------------------------------------------

  /** What all runs keep, whatever the departures find: no pair without edges, no edge from a switch
      to itself. */
  ghost predicate Sensible(t: Topo) {
    forall p | p in t.edges :: t.edges[p] != map[]
      && forall k | k in t.edges[p] :: t.edges[p][k].leftDpid != t.edges[p][k].rightDpid
  }

  /** Of the links between two domains all mention the datapath or none does. */
  ghost predicate AllOrNone(t: Topo, d: Dpid) {
    forall p | p in t.edges :: MentionKeys(t.edges[p], d) == {} || MentionKeys(t.edges[p], d) == t.edges[p].Keys
  }

  ghost predicate NoMention(t: Topo, d: Dpid) {
    forall p | p in t.edges :: MentionKeys(t.edges[p], d) == {}
  }

  lemma SubsetSize(a: set<nat>, b: set<nat>)
    requires a <= b
    ensures |a| <= |b| && (|a| == |b| ==> a == b)
  {
    assert |b - a| == |b| - |a|;
    assert a + (b - a) == b;
  }

  lemma ThinnedAllOrNone(m: Keyed, d: Dpid, after: Keyed)
    requires Thinned(m, d, after) && (MentionKeys(m, d) == {} || MentionKeys(m, d) == m.Keys)
    ensures after == if MentionKeys(m, d) == {} then m else map[]
  {
    assert |after| == |after.Keys| && |m| == |m.Keys|;
    if MentionKeys(m, d) == {} { SubsetSize(after.Keys, m.Keys); }
  }

  lemma LeaveNoMention(t: Topo, d: Dpid, t': Topo)
    requires AllOrNone(t, d) && LeaveResult(t, d, t')
    ensures NoMention(t', d)
  {
    forall p | p in t'.edges ensures MentionKeys(t'.edges[p], d) == {} {
      assert p in t.edges && Thinned(t.edges[p], d, KeysOf(t', p));
      ThinnedAllOrNone(t.edges[p], d, KeysOf(t', p));
    }
  }

  lemma LeaveOfAllOrNone(t: Topo, d: Dpid, t': Topo)
    requires Inv(t) && AllOrNone(t, d) && LeaveResult(t, d, t')
    ensures Inv(t') && NoMention(t', d)
    ensures forall u: Lcid, v: Lcid, e :: Linked(t', u, v, e) <==> Linked(t, u, v, e) && !Mentions(e, d)
  {
    forall u: Lcid, v: Lcid, e ensures Linked(t', u, v, e) <==> Linked(t, u, v, e) && !Mentions(e, d) {
      var p := (u, v);
      if p in t.edges {
        ThinnedAllOrNone(t.edges[p], d, KeysOf(t', p));
        MentionValue(t.edges[p], d, e);
      }
    }
    forall p | p in t'.edges ensures OnceEach(t'.edges[p]) && MentionKeys(t'.edges[p], d) == {} {
      ThinnedAllOrNone(t.edges[p], d, KeysOf(t', p));
    }
    assert forall e :: Mentions(Swap(e), d) <==> Mentions(e, d);
  }

  lemma MentionValue(m: Keyed, d: Dpid, e: Edge)
    ensures MentionKeys(m, d) == {} && e in m.Values ==> !Mentions(e, d)
    ensures MentionKeys(m, d) == m.Keys && e in m.Values ==> Mentions(e, d)
  {
    if e in m.Values {
      var k :| k in m && m[k] == e;
      assert MentionKeys(m, d) == m.Keys ==> k in MentionKeys(m, d);
      assert Mentions(e, d) ==> k in MentionKeys(m, d);
    }
  }

  /** Some subset of a given size that contains a given element. */
  lemma {:induction false} SubsetWith(s: set<nat>, x: nat, n: nat) returns (r: set<nat>)
    requires x in s && 0 < n <= |s|
    ensures x in r && r <= s && |r| == n
    decreases |s|
  {
    if n == |s| {
      r := s;
    } else {
      assert |s - {x}| == |s| - 1;
      var y :| y in s - {x};
      r := SubsetWith(s - {y}, x, n);
    }
  }

  /** Where some links of a pair mention the datapath and some do not, one that does can be kept. */
  lemma OneKept(m: Keyed, d: Dpid) returns (kept: Keyed)
    requires MentionKeys(m, d) != {} && MentionKeys(m, d) != m.Keys
    ensures Thinned(m, d, kept) && kept != map[] && MentionKeys(kept, d) != {}
  {
    var gone := MentionKeys(m, d);
    var x :| x in gone;
    SubsetSize(gone, m.Keys);
    var keep := SubsetWith(m.Keys, x, |m| - |gone|);
    kept := map k | k in keep :: m[k];
    assert kept.Keys == keep;
    assert x in MentionKeys(kept, d);
  }

  /** The edges without those that mention the datapath. */
  ghost function Cleaned(t: Topo, d: Dpid): map<Pair, Keyed> {
    map q | q in t.edges && MentionKeys(t.edges[q], d) != t.edges[q].Keys :: t.edges[q] - MentionKeys(t.edges[q], d)
  }

  lemma CleanedAt(t: Topo, d: Dpid, q: Pair)
    requires forall r | r in t.edges :: t.edges[r] != map[]
    ensures var after := if q in Cleaned(t, d) then Cleaned(t, d)[q] else map[];
            && MentionKeys(after, d) == {} && (q in Cleaned(t, d) <==> after != map[])
            && (q in t.edges ==> Thinned(t.edges[q], d, after))
  {
    if q in t.edges {
      NoneLeft(t.edges[q], d);
      if q in Cleaned(t, d) { LeftOver(t.edges[q], d); }
    }
  }

  /** A result that keeps a link of the departed datapath, where some links of a pair mention it
      and some do not; of all other pairs just those go that mention it. */
  lemma BadLeave(t: Topo, d: Dpid, p: Pair) returns (t': Topo)
    requires p in t.edges && (forall q | q in t.edges :: t.edges[q] != map[])
    requires MentionKeys(t.edges[p], d) != {} && MentionKeys(t.edges[p], d) != t.edges[p].Keys
    ensures LeaveResult(t, d, t') && !NoMention(t', d)
    ensures p in t'.edges && MentionKeys(t'.edges[p], d) != {}
    ensures forall q | q != p :: MentionKeys(KeysOf(t', q), d) == {}
  {
    var kept := OneKept(t.edges[p], d);
    t' := Topo(t.nodes, Cleaned(t, d)[p := kept]);
    forall q | q != p
      ensures MentionKeys(KeysOf(t', q), d) == {}
      ensures (q in t'.edges <==> KeysOf(t', q) != map[]) && (q in t.edges ==> Thinned(t.edges[q], d, KeysOf(t', q)))
    {
      CleanedAt(t, d, q);
    }
  }

  lemma NoneLeft(m: Keyed, d: Dpid)
    ensures MentionKeys(m - MentionKeys(m, d), d) == {}
  {
  }

  lemma LeftOver(m: Keyed, d: Dpid)
    requires MentionKeys(m, d) != m.Keys
    ensures m - MentionKeys(m, d) != map[]
  {
    var k :| k in m && k !in MentionKeys(m, d);
    assert k in m - MentionKeys(m, d);
  }

  /** After a departure no edge mentions the datapath, whichever edges networkx takes out, exactly
      when between each two domains all links mention it or none does; in every state of every run. */
  lemma LeaveExact(t: Topo, d: Dpid)
    requires Sensible(t)
    ensures (forall t' | LeaveResult(t, d, t') :: NoMention(t', d)) <==> AllOrNone(t, d)
  {
    if AllOrNone(t, d) {
      forall t' | LeaveResult(t, d, t') ensures NoMention(t', d) {
        LeaveNoMention(t, d, t');
      }
    } else {
      var p :| p in t.edges && MentionKeys(t.edges[p], d) != {} && MentionKeys(t.edges[p], d) != t.edges[p].Keys;
      var t' := BadLeave(t, d, p);
    }
  }

  /** Links kept one way only break the mirror. */
  lemma BadMirror(t: Topo, d: Dpid, p: Pair, t': Topo)
    requires Inv(t) && p in t.edges && p in t'.edges && MentionKeys(t'.edges[p], d) != {}
    requires forall q | q != p :: MentionKeys(KeysOf(t', q), d) == {}
    ensures !Inv(t')
  {
    var k :| k in MentionKeys(t'.edges[p], d);
    var e := t'.edges[p][k];
    NoLoops(t, p);
    MentionValue(KeysOf(t', (p.1, p.0)), d, Swap(e));
    OneWay(t', p.0, p.1, e);
  }

  lemma NoLoops(t: Topo, p: Pair)
    requires Inv(t) && p in t.edges
    ensures p.0 != p.1
  {
    var k :| k in t.edges[p];
    assert Linked(t, p.0, p.1, t.edges[p][k]);
  }

  lemma OneWay(t: Topo, u: Lcid, v: Lcid, e: Edge)
    requires Linked(t, u, v, e) && !Linked(t, v, u, Swap(e))
    ensures !Inv(t)
  {
  }

  /** The mirror survives a departure, whichever edges networkx takes out, under the same condition. */
  lemma MirrorExact(t: Topo, d: Dpid)
    requires Inv(t)
    ensures (forall t' | LeaveResult(t, d, t') :: Inv(t')) <==> AllOrNone(t, d)
  {
    if AllOrNone(t, d) {
      forall t' | LeaveResult(t, d, t') ensures Inv(t') {
        LeaveOfAllOrNone(t, d, t');
      }
    } else {
      var p :| p in t.edges && MentionKeys(t.edges[p], d) != {} && MentionKeys(t.edges[p], d) != t.edges[p].Keys;
      var t' := BadLeave(t, d, p);
      BadMirror(t, d, p, t');
    }
  }

  // ---------------------------------------------------------------------------
  // Runs
  // ---------------------------------------------------------------------------

  datatype Event = Hello(lcid: Lcid) | GraphInfo(homes: map<Dpid, Lcid>, windows: seq<Window>) | DpLeave(dpid: Dpid)

  ghost predicate Next(t: Topo, e: Event, t': Topo) {
    match e
    case Hello(lcid) => t' == t.(nodes := t.nodes + {lcid})
    case GraphInfo(homes, ws) => t' == AddWindows(t, homes, ws).0
    case DpLeave(d) => LeaveResult(t, d, t')
  }

  /** At most one link between two domains. */
  ghost predicate SingleLink(t: Topo) {
    forall p | p in t.edges :: |t.edges[p]| <= 1
  }

  ghost predicate Run(ts: seq<Topo>, es: seq<Event>) {
    && |ts| == |es| + 1 && ts[0] == Topo({}, map[])
    && forall i | 0 <= i < |es| :: Next(ts[i], es[i], ts[i + 1])
  }

  lemma SingleAllOrNone(t: Topo, d: Dpid)
    requires SingleLink(t)
    ensures AllOrNone(t, d)
  {
    forall p | p in t.edges ensures MentionKeys(t.edges[p], d) == {} || MentionKeys(t.edges[p], d) == t.edges[p].Keys {
      var m := t.edges[p];
      if k :| k in MentionKeys(m, d) {
        assert |{k}| == 1 && |m.Keys| == |m|;
        SubsetSizeOne(k, m.Keys);
      }
    }
  }

  lemma SubsetSizeOne(k: nat, s: set<nat>)
    requires k in s && |s| <= 1
    ensures s == {k}
  {
    assert |s - {k}| == |s| - 1;
  }

  /** The departures among the first `n` events find all or none of the links of a pair mentioning
      the datapath. */
  ghost predicate CleanDepartures(ts: seq<Topo>, es: seq<Event>, n: nat) {
    n <= |ts| && n <= |es| && forall i | 0 <= i < n && es[i].DpLeave? :: AllOrNone(ts[i], es[i].dpid)
  }

  /** Whenever departures find all or none of the links of a pair mentioning the datapath, every
      edge keeps its mirror image through the whole run. */
  lemma {:induction false} RunMirror(ts: seq<Topo>, es: seq<Event>, n: nat)
    requires Run(ts, es) && n < |ts| && CleanDepartures(ts, es, n)
    ensures Inv(ts[n])
  {
    if n > 0 {
      RunMirror(ts, es, n - 1);
      MoveKeeps(ts, es, n - 1);
    }
  }

  lemma MoveKeeps(ts: seq<Topo>, es: seq<Event>, i: nat)
    requires Run(ts, es) && i < |es| && Inv(ts[i]) && (es[i].DpLeave? ==> AllOrNone(ts[i], es[i].dpid))
    ensures Inv(ts[i + 1]) && (es[i].DpLeave? ==> NoMention(ts[i + 1], es[i].dpid))
  {
    var t, e := ts[i], es[i];
    if e.Hello? {
      HelloKeeps(t, e.lcid);
    } else if e.GraphInfo? {
      AddWindowsKeeps(t, e.homes, e.windows);
    } else {
      LeaveOfAllOrNone(t, e.dpid, ts[i + 1]);
    }
  }

  lemma HelloKeeps(t: Topo, lcid: Lcid)
    requires Inv(t)
    ensures Inv(t.(nodes := t.nodes + {lcid}))
  {
    var t' := t.(nodes := t.nodes + {lcid});
    assert forall u: Lcid, v: Lcid, x :: Linked(t', u, v, x) <==> Linked(t, u, v, x);
  }

  lemma AddEdgeSensible(t: Topo, p: Pair, e: Edge)
    requires Sensible(t) && e.leftDpid != e.rightDpid
    ensures Sensible(AddEdge(t, p, e))
  {
    var d := KeysOf(t, p);
    assert FreshKey(d, |d|) in AddEdge(t, p, e).edges[p];
  }

  lemma {:induction false} WindowsSensible(t: Topo, homes: map<Dpid, Lcid>, ws: seq<Window>)
    requires Sensible(t)
    ensures Sensible(AddWindows(t, homes, ws).0)
    decreases |ws|
  {
    if ws != [] {
      var r := AddWindow(t, homes, ws[0]);
      if r.0 != t {
        var u, v, e := homes[ws[0].srcDpid], homes[ws[0].dstDpid], EdgeOf(ws[0]);
        AddEdgeSensible(t, (u, v), e);
        AddEdgeSensible(AddEdge(t, (u, v), e), (v, u), Swap(e));
      }
      if r.1 { WindowsSensible(r.0, homes, ws[1..]); }
    }
  }

  lemma {:induction false} RunSensible(ts: seq<Topo>, es: seq<Event>, n: nat)
    requires Run(ts, es) && n < |ts|
    ensures Sensible(ts[n])
  {
    if n > 0 {
      RunSensible(ts, es, n - 1);
      assert Next(ts[n - 1], es[n - 1], ts[n - 1 + 1]);
      match es[n - 1]
      case Hello(_) =>
      case GraphInfo(homes, ws) => WindowsSensible(ts[n - 1], homes, ws);
      case DpLeave(d) => LeaveSensible(ts[n - 1], d, ts[n]);
    }
  }

  lemma LeaveSensible(t: Topo, d: Dpid, t': Topo)
    requires Sensible(t) && LeaveResult(t, d, t')
    ensures Sensible(t')
  {
    forall p | p in t'.edges
      ensures t'.edges[p] != map[] && forall k | k in t'.edges[p] :: t'.edges[p][k].leftDpid != t'.edges[p][k].rightDpid
    {
      assert p in t.edges && Thinned(t.edges[p], d, KeysOf(t', p));
    }
  }

  // ---------------------------------------------------------------------------
  // A run with two links between two domains
  // ---------------------------------------------------------------------------

  const HOMES: map<Dpid, Lcid> := map[1 := 1, 2 := 1, 3 := 2, 4 := 2]

  const FIRST := Window(1, 7, 3, 8)

  const SECOND := Window(2, 7, 4, 8)

  /** Two domains and both links between them */
  const PARALLEL := Topo({1, 2}, map[(1, 2) := map[0 := EdgeOf(FIRST), 1 := EdgeOf(SECOND)],
                                     (2, 1) := map[0 := Swap(EdgeOf(FIRST)), 1 := Swap(EdgeOf(SECOND))]])

  lemma ParallelLinks()
    ensures AddWindows(Topo({1, 2}, map[]), HOMES, [FIRST, SECOND]) == (PARALLEL, true)
  {
    var t := Topo({1, 2}, map[]);
    var one := AddWindow(t, HOMES, FIRST).0;
    assert one.edges == map[(1, 2) := map[0 := EdgeOf(FIRST)], (2, 1) := map[0 := Swap(EdgeOf(FIRST))]];
    var two := AddWindow(one, HOMES, SECOND).0;
    assert two.edges == PARALLEL.edges;
    assert [FIRST, SECOND][1..] == [SECOND] && [SECOND][1..] == [];
    assert AddWindows(two, HOMES, []) == (two, true);
    assert AddWindows(one, HOMES, [SECOND]) == (two, true);
  }

  lemma ParallelInv()
    ensures Inv(PARALLEL) && AddWindows(Topo({1, 2}, map[]), HOMES, [FIRST, SECOND]).0 == PARALLEL
  {
    ParallelLinks();
    AddWindowsKeeps(Topo({1, 2}, map[]), HOMES, [FIRST, SECOND]);
  }

  lemma ParallelMixed()
    ensures var m := PARALLEL.edges[(1, 2)];
            MentionKeys(m, 1) != {} && MentionKeys(m, 1) != m.Keys
  {
    var m := PARALLEL.edges[(1, 2)];
    assert 0 in MentionKeys(m, 1) && 1 in m.Keys && 1 !in MentionKeys(m, 1);
  }

  lemma FourSteps(ts: seq<Topo>, es: seq<Event>)
    requires |es| == 4 && |ts| == 5 && ts[0] == Topo({}, map[])
    requires Next(ts[0], es[0], ts[1]) && Next(ts[1], es[1], ts[2]) && Next(ts[2], es[2], ts[3])
             && Next(ts[3], es[3], ts[4])
    ensures Run(ts, es)
  {
    forall i | 0 <= i < |es| ensures Next(ts[i], es[i], ts[i + 1]) {
      assert i == 0 || i == 1 || i == 2 || i == 3;
    }
  }

  lemma LeaveNext(ts: seq<Topo>, es: seq<Event>, d: Dpid)
    requires |es| == 4 && |ts| == 5 && es[3] == DpLeave(d) && LeaveResult(ts[3], d, ts[4])
    ensures Next(ts[3], es[3], ts[4])
  {
  }

  lemma DirtyAfter(t: Topo, homes: map<Dpid, Lcid>, windows: seq<Window>, d: Dpid, t': Topo)
    returns (ts: seq<Topo>, es: seq<Event>)
    requires AddWindows(Topo({1, 2}, map[]), homes, windows).0 == t && LeaveResult(t, d, t')
    ensures Run(ts, es) && |es| == 4 && es[3] == DpLeave(d) && ts[3] == t && ts[4] == t'
  {
    es := [Hello(1), Hello(2), GraphInfo(homes, windows), DpLeave(d)];
    ts := [Topo({}, map[]), Topo({1}, map[]), Topo({1, 2}, map[]), t, t'];
    LeaveNext(ts, es, d);
    FourSteps(ts, es);
  }

  /** Such a graph comes up, and then a datapath's departure can leave an edge that mentions it. */
  lemma DirtyDeparture() returns (ts: seq<Topo>, es: seq<Event>)
    ensures Run(ts, es) && |es| == 4 && es[3] == DpLeave(1) && Inv(ts[3]) && !NoMention(ts[4], 1)
  {
    ParallelInv();
    ParallelMixed();
    var t := BadLeave(PARALLEL, 1, (1, 2));
    ts, es := DirtyAfter(PARALLEL, HOMES, [FIRST, SECOND], 1, t);
  }

  // ---------------------------------------------------------------------------
  // One link between two domains
  // ---------------------------------------------------------------------------

  /** With one link between two domains at every moment, its key is 0. */
  ghost predicate ZeroKeys(t: Topo) {
    forall p | p in t.edges :: t.edges[p].Keys == {0}
  }

  lemma {:induction false} SingleRun(ts: seq<Topo>, es: seq<Event>, n: nat)
    requires Run(ts, es) && n < |ts|
    requires forall i | 0 <= i < |ts| :: SingleLink(ts[i])
    ensures Inv(ts[n]) && ZeroKeys(ts[n])
  {
    forall i | 0 <= i < n && es[i].DpLeave? ensures AllOrNone(ts[i], es[i].dpid) {
      SingleAllOrNone(ts[i], es[i].dpid);
    }
    RunMirror(ts, es, n);
    if n > 0 {
      SingleRun(ts, es, n - 1);
      NextZero(ts[n - 1], es[n - 1], ts[n]);
    }
  }

  lemma NextZero(t: Topo, e: Event, t': Topo)
    requires Inv(t) && ZeroKeys(t) && Next(t, e, t') && SingleLink(t')
    ensures ZeroKeys(t')
  {
    if e.GraphInfo? {
      WindowsZero(t, e.homes, e.windows);
    } else if e.DpLeave? {
      LeaveZero(t, e.dpid, t');
    }
  }

  lemma LeaveZero(t: Topo, d: Dpid, t': Topo)
    requires ZeroKeys(t) && LeaveResult(t, d, t')
    ensures ZeroKeys(t')
  {
    forall p | p in t'.edges ensures t'.edges[p].Keys == {0} {
      assert p in t.edges && Thinned(t.edges[p], d, KeysOf(t', p)) && KeysOf(t', p) != map[];
    }
  }

  lemma {:induction false} WindowsZero(t: Topo, homes: map<Dpid, Lcid>, ws: seq<Window>)
    requires Inv(t) && ZeroKeys(t) && SingleLink(AddWindows(t, homes, ws).0)
    ensures ZeroKeys(AddWindows(t, homes, ws).0)
    decreases |ws|
  {
    if ws != [] {
      var r := AddWindow(t, homes, ws[0]);
      AddWindowKeeps(t, homes, ws[0]);
      if r.1 {
        WindowsGrow(r.0, homes, ws[1..]);
        WindowZero(t, homes, ws[0]);
        WindowsZero(r.0, homes, ws[1..]);
      }
    }
  }

  /** Edges are never taken away by GRAPH_INFO. */
  ghost predicate Grown(t: Topo, t': Topo) {
    forall p | p in t.edges :: p in t'.edges && t.edges[p].Keys <= t'.edges[p].Keys
  }

  lemma {:induction false} WindowsGrow(t: Topo, homes: map<Dpid, Lcid>, ws: seq<Window>)
    ensures Grown(t, AddWindows(t, homes, ws).0)
    ensures SingleLink(AddWindows(t, homes, ws).0) ==> SingleLink(t)
    decreases |ws|
  {
    if ws != [] {
      var r := AddWindow(t, homes, ws[0]);
      assert Grown(t, r.0);
      if r.1 { WindowsGrow(r.0, homes, ws[1..]); }
    }
    var t' := AddWindows(t, homes, ws).0;
    forall p | p in t.edges ensures |t.edges[p]| <= |t'.edges[p]| {
      SubsetSize(t.edges[p].Keys, t'.edges[p].Keys);
    }
  }

  lemma WindowZero(t: Topo, homes: map<Dpid, Lcid>, w: Window)
    requires Inv(t) && ZeroKeys(t) && SingleLink(AddWindow(t, homes, w).0)
    ensures ZeroKeys(AddWindow(t, homes, w).0)
  {
    var r := AddWindow(t, homes, w).0;
    if r != t {
      var u, v, e := homes[w.srcDpid], homes[w.dstDpid], EdgeOf(w);
      ZeroAfterBoth(t, (u, v), e, (v, u), Swap(e));
    }
  }

  lemma ZeroAfterBoth(t: Topo, p: Pair, e: Edge, q: Pair, f: Edge)
    requires ZeroKeys(t) && SingleLink(AddEdge(AddEdge(t, p, e), q, f))
    ensures ZeroKeys(AddEdge(AddEdge(t, p, e), q, f))
  {
    var a := AddEdge(t, p, e);
    var r := AddEdge(a, q, f);
    AddGrows(a, q, f);
    ZeroAfterAdd(t, p, e, r);
    ZeroAfterAdd(a, q, f, r);
  }

  lemma AddGrows(t: Topo, p: Pair, e: Edge)
    ensures Grown(t, AddEdge(t, p, e))
  {
  }

  lemma ZeroAfterAdd(t: Topo, p: Pair, e: Edge, r: Topo)
    requires ZeroKeys(t) && SingleLink(r) && Grown(AddEdge(t, p, e), r)
    ensures ZeroKeys(AddEdge(t, p, e))
  {
    var d := KeysOf(t, p);
    var k := FreshKey(d, |d|);
    if p in t.edges {
      assert 0 in d && k != 0 && {0, k} <= r.edges[p].Keys;
      assert |{0, k}| == 2;
      SubsetSize({0, k}, r.edges[p].Keys);
      assert false;
    }
    assert |d| == 0 && k == 0;
  }
}
