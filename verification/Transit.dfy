/**
 cc_flow_mod_handler: a FLOW_MOD of the central controller becomes one rule on every switch of a
 path through the domain. Its two branches, and why any number of such installations, one after
 the other, leave the domain free of loops.
 */
module Transit {
  import opened Base
  import opened Graphs
  import opened Fabric
  import opened FlowTables

  /** A switch and the port its rule sends frames to. */
  type Way = seq<(Dpid, Port)>

  /** The loops over `path[i..n]`: one rule per switch, towards the next one. */
  function LoopRules(f: Fabric, dps: set<Dpid>, path: seq<Node>, i: nat, n: nat, k: Match): (r: (seq<ToSwitch>, bool))
    requires n < |path|
    decreases n - i
  {
    if i >= n then ([], true)
    else
      var port := HopPort(f, path[i], path[i + 1]);
      if port.None? || path[i].Host? || path[i].dpid !in dps then ([], false)
      else
        var rest := LoopRules(f, dps, path, i + 1, n, k);
        ([FlowAdd(path[i].dpid, k, port.value, None)] + rest.0, rest.1)
  }

  /** The messages the handler sends to switches, and whether it gets through without KeyError. */
  function FlowModMsgs(f: Fabric, dps: set<Dpid>, path: seq<Node>, inDpid: Dpid, outDpid: Dpid, k: Match,
                       regionOut: Port, buffer: Option<nat>, data: Option<seq<byte>>): (r: (seq<ToSwitch>, bool))
    requires path != []
  {
    if inDpid !in dps then ([], false)
    else if buffer.Some? then
      var first := FlowAdd(inDpid, k, regionOut, Released(buffer));
      if inDpid == outDpid then ([first], true)
      else if |path| < 2 || HopPort(f, path[0], path[1]).None? then ([], false)
      else
        var head := first.(port := HopPort(f, path[0], path[1]).value);
        var mid := LoopRules(f, dps, path, 1, |path| - 1, k);
        if !mid.1 || outDpid !in dps then ([head] + mid.0, false)
        else ([head] + mid.0 + [FlowAdd(outDpid, k, regionOut, None)], true)
    else if inDpid == outDpid then ([FlowAdd(inDpid, k, regionOut, None)], true)
    else
      var all := LoopRules(f, dps, path, 0, |path| - 1, k);
      if !all.1 || outDpid !in dps then (all.0, false)
      else (all.0 + [FlowAdd(outDpid, k, regionOut, None), PacketOut(outDpid, inDpid, To(regionOut), None, data)], true)
  }

  /** What the installation means: each switch of the path sends to the next, the last one out. */
  function WayOf(f: Fabric, path: seq<Node>, regionOut: Port): (w: Way)
    requires forall i | 0 <= i < |path| :: path[i].Sw?
    ensures |w| == |path|
  {
    seq(|path|, i requires 0 <= i < |path| =>
      (path[i].dpid,
       if i == |path| - 1 then regionOut
       else match HopPort(f, path[i], path[i + 1]) case None => 0 case Some(p) => p))
  }

  /** The rules among the messages. */
  function RulesIn(msgs: seq<ToSwitch>): (w: Way)
  {
    if msgs == [] then []
    else
      var n := |msgs| - 1;
      RulesIn(msgs[..n]) + if msgs[n].FlowAdd? then [(msgs[n].dpid, msgs[n].port)] else []
  }

  lemma {:induction false} RulesInConcat(a: seq<ToSwitch>, b: seq<ToSwitch>)
    ensures RulesIn(a + b) == RulesIn(a) + RulesIn(b)
  {
    if b == [] {
      assert a + b == a;
    } else {
      var ab, c := a + b, b[..|b| - 1];
      assert ab[..|ab| - 1] == a + c;
      RulesInConcat(a, c);
    }
  }

  lemma RulesOfThree(head: ToSwitch, mid: seq<ToSwitch>, last: ToSwitch)
    requires head.FlowAdd? && last.FlowAdd?
    ensures RulesIn([head] + mid + [last]) == [(head.dpid, head.port)] + RulesIn(mid) + [(last.dpid, last.port)]
  {
    RulesInConcat([head], mid);
    RulesInConcat([head] + mid, [last]);
  }

  lemma LoopRulesStep(f: Fabric, dps: set<Dpid>, path: seq<Node>, i: nat, n: nat, k: Match)
    requires i < n < |path| && path[i].Sw? && path[i].dpid in dps && HopPort(f, path[i], path[i + 1]).Some?
    ensures var r, rest := LoopRules(f, dps, path, i, n, k), LoopRules(f, dps, path, i + 1, n, k);
            r.1 == rest.1 && RulesIn(r.0) == [(path[i].dpid, HopPort(f, path[i], path[i + 1]).value)] + RulesIn(rest.0)
  {
    var add := FlowAdd(path[i].dpid, k, HopPort(f, path[i], path[i + 1]).value, None);
    RulesInConcat([add], LoopRules(f, dps, path, i + 1, n, k).0);
  }

  /** Where the first switch of the path from `i` on is that is not connected. */
  function Connected(dps: set<Dpid>, path: seq<Node>, i: nat): (j: nat)
    requires i <= |path|
    ensures i <= j <= |path|
    decreases |path| - i
  {
    if i < |path| && path[i].Sw? && path[i].dpid in dps then Connected(dps, path, i + 1) else i
  }

  lemma SliceCons(w: Way, i: nat, m: nat)
    requires i < m <= |w|
    ensures [w[i]] + w[i + 1..m] == w[i..m]
  {
  }

  lemma {:induction false} LoopRulesInWay(f: Fabric, dps: set<Dpid>, path: seq<Node>, i: nat, k: Match, w: Way)
    requires i < |path| == |w| && forall j | 0 <= j < |path| - 1 :: HopRule(f, path, j, w)
    ensures var r, j, n := LoopRules(f, dps, path, i, |path| - 1, k), Connected(dps, path, i), |path| - 1;
            (r.1 <==> j >= n) && RulesIn(r.0) == if j < n then w[i..j] else w[i..n]
    decreases |path| - i
  {
    if i < |path| - 1 {
      assert HopRule(f, path, i, w);
      if path[i].dpid in dps {
        var j, n := Connected(dps, path, i + 1), |path| - 1;
        LoopRulesStep(f, dps, path, i, n, k);
        LoopRulesInWay(f, dps, path, i + 1, k, w);
        SliceCons(w, i, if j < n then j else n);
      } else {
        assert w[i..i] == [];
      }
    }
  }

  ghost predicate HopRule(f: Fabric, path: seq<Node>, j: nat, w: Way)
    requires j + 1 < |path| == |w|
  {
    && path[j].Sw? && HopPort(f, path[j], path[j + 1]).Some?
    && w[j] == (path[j].dpid, HopPort(f, path[j], path[j + 1]).value)
  }

  /** An answer of networkx in a learned fabric */
  ghost predicate SwitchPath(f: Fabric, path: seq<Node>, s: Dpid, t: Dpid) {
    Inv(f) && Shortest(f.edges.Keys, Sw(s), Sw(t), path)
  }

  /** And all its switches are connected. */
  ghost predicate GoodPath(f: Fabric, dps: set<Dpid>, path: seq<Node>, s: Dpid, t: Dpid) {
    SwitchPath(f, path, s, t) && forall n | n in path :: n.Sw? ==> n.dpid in dps
  }

  lemma PathHops(f: Fabric, path: seq<Node>, s: Dpid, t: Dpid)
    requires SwitchPath(f, path, s, t)
    ensures forall i | 0 <= i < |path| :: path[i].Sw?
    ensures forall i | 0 <= i < |path| - 1 :: HopPort(f, path[i], path[i + 1]).Some?
    ensures |path| == 1 <==> s == t
    ensures |path| > 0 && path[0] == Sw(s) && path[|path| - 1] == Sw(t)
    ensures forall out: Port, j | 0 <= j < |path| - 1 :: HopRule(f, path, j, WayOf(f, path, out))
  {
    InteriorSwitches(f, s, Sw(t), path);
    ShortestSimple(f.edges.Keys, Sw(s), Sw(t), path);
  }

  lemma GoodPathHops(f: Fabric, dps: set<Dpid>, path: seq<Node>, s: Dpid, t: Dpid)
    requires GoodPath(f, dps, path, s, t)
    ensures forall i | 0 <= i < |path| :: path[i].Sw? && path[i].dpid in dps
    ensures forall i | 0 <= i < |path| - 1 :: HopPort(f, path[i], path[i + 1]).Some?
    ensures |path| == 1 <==> s == t
  {
    PathHops(f, path, s, t);
    assert forall i | 0 <= i < |path| :: path[i] in path;
  }

  lemma EndsOf(w: Way)
    requires |w| > 1
    ensures w == w[0..|w| - 1] + [w[|w| - 1]]
  {
  }

  lemma UnbufferedEnd(all: seq<ToSwitch>, s: Dpid, t: Dpid, k: Match, out: Port, data: Option<seq<byte>>)
    ensures RulesIn(all + [FlowAdd(t, k, out, None), PacketOut(t, s, To(out), None, data)]) == RulesIn(all) + [(t, out)]
  {
    var add, po := FlowAdd(t, k, out, None), PacketOut(t, s, To(out), None, data);
    assert all + [add, po] == all + [add] + [po];
    RulesInConcat(all, [add]);
    RulesInConcat(all + [add], [po]);
  }

  /** The two branches install the same rules in the same order, and raise for the same paths: on
      any path between the two switches, over whatever edges, and whichever switches are connected. */
  lemma BranchesSame(f: Fabric, dps: set<Dpid>, path: seq<Node>, s: Dpid, t: Dpid, k: Match, out: Port,
                     buffer: Option<nat>, data: Option<seq<byte>>, data': Option<seq<byte>>)
    requires path != [] && path[0] == Sw(s) && path[|path| - 1] == Sw(t) && buffer.Some?
    ensures var r, r' := FlowModMsgs(f, dps, path, s, t, k, out, buffer, data),
                         FlowModMsgs(f, dps, path, s, t, k, out, None, data');
            r.1 == r'.1 && RulesIn(r.0) == RulesIn(r'.0)
  {
    if s in dps && s == t {
      OneRule(s, k, out, Released(buffer));
      OneRule(s, k, out, None);
    } else if s in dps && HopPort(f, path[0], path[1]).Some? {
      LoopRulesStep(f, dps, path, 0, |path| - 1, k);
      var all, mid := LoopRules(f, dps, path, 0, |path| - 1, k), LoopRules(f, dps, path, 1, |path| - 1, k);
      var head := FlowAdd(s, k, HopPort(f, path[0], path[1]).value, Released(buffer));
      RulesInConcat([head], mid.0);
      OneRule(s, k, head.port, head.buffer);
      RulesOfThree(head, mid.0, FlowAdd(t, k, out, None));
      UnbufferedEnd(all.0, s, t, k, out, data');
    }
  }

  lemma OneRule(s: Dpid, k: Match, out: Port, buffer: Option<nat>)
    ensures RulesIn([FlowAdd(s, k, out, buffer)]) == [(s, out)]
  {
  }

  lemma UnbufferedStops(f: Fabric, dps: set<Dpid>, path: seq<Node>, s: Dpid, t: Dpid, k: Match, out: Port,
                        data: Option<seq<byte>>)
    requires SwitchPath(f, path, s, t)
    ensures forall i | 0 <= i < |path| :: path[i].Sw?
    ensures var r, j := FlowModMsgs(f, dps, path, s, t, k, out, None, data), Connected(dps, path, 0);
            (r.1 <==> j == |path|) && RulesIn(r.0) == WayOf(f, path, out)[..j]
  {
    PathHops(f, path, s, t);
    var w := WayOf(f, path, out);
    if s != t && s in dps {
      var all := LoopRules(f, dps, path, 0, |path| - 1, k);
      LoopRulesInWay(f, dps, path, 0, k, w);
      ConnectedEnd(dps, path, 0);
      UnbufferedEnd(all.0, s, t, k, out, data);
      EndsOf(w);
    }
  }

  lemma {:induction false} ConnectedEnd(dps: set<Dpid>, path: seq<Node>, i: nat)
    requires i < |path| && path[|path| - 1].Sw?
    ensures Connected(dps, path, i) == |path| <==>
            Connected(dps, path, i) >= |path| - 1 && path[|path| - 1].dpid in dps
    decreases |path| - i
  {
    if i + 1 < |path| { ConnectedEnd(dps, path, i + 1); }
  }

  /** Buffered or not, the handler installs the rules of the path up to its first switch that is not
      connected, and raises exactly if there is one. */
  lemma BranchesStop(f: Fabric, dps: set<Dpid>, path: seq<Node>, s: Dpid, t: Dpid, k: Match, out: Port,
                     buffer: Option<nat>, data: Option<seq<byte>>)
    requires SwitchPath(f, path, s, t)
    ensures forall i | 0 <= i < |path| :: path[i].Sw?
    ensures var r, j := FlowModMsgs(f, dps, path, s, t, k, out, buffer, data), Connected(dps, path, 0);
            (r.1 <==> j == |path|) && RulesIn(r.0) == WayOf(f, path, out)[..j]
  {
    UnbufferedStops(f, dps, path, s, t, k, out, data);
    PathHops(f, path, s, t);
    if buffer.Some? { BranchesSame(f, dps, path, s, t, k, out, buffer, data, data); }
  }

  lemma {:induction false} AllConnected(dps: set<Dpid>, path: seq<Node>, i: nat)
    requires i <= |path| && forall j | i <= j < |path| :: path[j].Sw? && path[j].dpid in dps
    ensures Connected(dps, path, i) == |path|
    decreases |path| - i
  {
    if i < |path| { AllConnected(dps, path, i + 1); }
  }

  /** When all are connected, both install one rule on every switch of the path, each towards the
      next, and the region's port on the last. */
  lemma BranchesAgree(f: Fabric, dps: set<Dpid>, path: seq<Node>, s: Dpid, t: Dpid, k: Match, out: Port,
                      buffer: Option<nat>, data: Option<seq<byte>>)
    requires GoodPath(f, dps, path, s, t)
    ensures forall i | 0 <= i < |path| :: path[i].Sw?
    ensures var r := FlowModMsgs(f, dps, path, s, t, k, out, buffer, data);
            r.1 && RulesIn(r.0) == WayOf(f, path, out)
  {
    GoodPathHops(f, dps, path, s, t);
    AllConnected(dps, path, 0);
    BranchesStop(f, dps, path, s, t, k, out, buffer, data);
  }

  /** One rule per switch. */
  lemma OneRulePerSwitch(f: Fabric, path: seq<Node>, s: Dpid, t: Dpid, out: Port)
    requires SwitchPath(f, path, s, t)
    ensures forall i | 0 <= i < |path| :: path[i].Sw?
    ensures Once(WayOf(f, path, out))
  {
    PathHops(f, path, s, t);
    ShortestSimple(f.edges.Keys, Sw(s), Sw(t), path);
    var w := WayOf(f, path, out);
    forall i, j | 0 <= i < j < |w| ensures w[i].0 != w[j].0 {
      assert path[i] != path[j];
    }
  }

  ghost predicate Once(w: Way) {
    forall i, j | 0 <= i < j < |w| :: w[i].0 != w[j].0
  }

  // ---------------------------------------------------------------------------
  // Any sequence of installations
  // ---------------------------------------------------------------------------

  /** The table entries for one match after installing a way. */
  function Lay(t: Tables, k: Match, w: Way): Tables
  {
    if w == [] then t else Lay(t, k, w[..|w| - 1])[(w[|w| - 1].0, k) := w[|w| - 1].1]
  }

  lemma LayMore(t: Tables, k: Match, w: Way, rule: (Dpid, Port))
    ensures Lay(t, k, w + [rule]) == Lay(t, k, w)[(rule.0, k) := rule.1]
  {
    assert (w + [rule])[..|w|] == w;
  }

  lemma {:induction false} LayIsApply(t: Tables, k: Match, msgs: seq<ToSwitch>)
    requires forall i | 0 <= i < |msgs| :: msgs[i].FlowAdd? ==> msgs[i].match_ == k
    ensures Apply(t, msgs) == Lay(t, k, RulesIn(msgs))
    decreases |msgs|
  {
    if msgs != [] {
      var n := |msgs| - 1;
      LayIsApply(t, k, msgs[..n]);
      var m, v := msgs[n], RulesIn(msgs[..n]);
      if m.FlowAdd? {
        LayMore(t, k, v, (m.dpid, m.port));
      } else {
        assert v + [] == v;
      }
    }
  }

  function LayAll(t: Tables, k: Match, ws: seq<Way>): Tables
  {
    if ws == [] then t else Lay(LayAll(t, k, ws[..|ws| - 1]), k, ws[|ws| - 1])
  }

  predicate Has(w: Way, s: Dpid) {
    exists i | 0 <= i < |w| :: w[i].0 == s
  }

  lemma {:induction false} LayLookup(t: Tables, k: Match, w: Way, s: Dpid)
    requires Once(w)
    ensures !Has(w, s) ==>
              ((s, k) in Lay(t, k, w) <==> (s, k) in t) && ((s, k) in t ==> Lay(t, k, w)[(s, k)] == t[(s, k)])
    ensures forall i | 0 <= i < |w| && w[i].0 == s :: (s, k) in Lay(t, k, w) && Lay(t, k, w)[(s, k)] == w[i].1
    ensures forall q: (Dpid, Match) | q.1 != k ::
              (q in Lay(t, k, w) <==> q in t) && (q in t ==> Lay(t, k, w)[q] == t[q])
    decreases |w|
  {
    if w != [] {
      var v := w[..|w| - 1];
      LayLookup(t, k, v, s);
      if Has(v, s) {
        var i :| 0 <= i < |v| && v[i].0 == s;
        assert w[i].0 == s;
      }
      assert w[|w| - 1].0 == s ==> Has(w, s);
    }
  }

  /** Cables between switches: where a port leads. */
  type Wire = map<(Dpid, Port), Dpid>

  /** One rule per switch, each over a cable to the next switch. */
  ghost predicate Threaded(wire: Wire, w: Way) {
    && |w| > 0 && Once(w)
    && (forall i | 0 <= i < |w| - 1 :: w[i] in wire && wire[w[i]] == w[i + 1].0)
  }

  /** A way of the domain: the last rule leads out of it. */
  ghost predicate Wired(wire: Wire, w: Way) {
    Threaded(wire, w) && w[|w| - 1] !in wire
  }

  ghost predicate AllWired(wire: Wire, ws: seq<Way>) {
    forall n | 0 <= n < |ws| :: Wired(wire, ws[n])
  }

  /** Once a switch, and a rule that leads over one of these cables leads to the next switch. */
  ghost predicate Follows(wire: Wire, w: Way) {
    && Once(w)
    && forall i | 0 <= i < |w| && w[i] in wire :: i + 1 < |w| && wire[w[i]] == w[i + 1].0
  }

  ghost predicate AllFollow(wire: Wire, ws: seq<Way>) {
    forall n | 0 <= n < |ws| :: Follows(wire, ws[n])
  }

  /** There is no rule for the match yet. */
  ghost predicate Fresh(t: Tables, k: Match) {
    forall s :: (s, k) !in t
  }

  /** The last installation that put a rule on `s`, and where on its way `s` is. */
  ghost predicate LastRule(ws: seq<Way>, s: Dpid, n: nat, i: nat) {
    && n < |ws| && i < |ws[n]| && ws[n][i].0 == s
    && forall m | n < m < |ws| :: !Has(ws[m], s)
  }

  lemma {:induction false} TableIsLastRule(wire: Wire, t: Tables, k: Match, ws: seq<Way>, s: Dpid)
    returns (n: nat, i: nat)
    requires Fresh(t, k) && AllFollow(wire, ws) && (s, k) in LayAll(t, k, ws)
    ensures LastRule(ws, s, n, i) && LayAll(t, k, ws)[(s, k)] == ws[n][i].1
    decreases |ws|
  {
    var last := |ws| - 1;
    var before := LayAll(t, k, ws[..last]);
    LayLookup(before, k, ws[last], s);
    if Has(ws[last], s) {
      n := last;
      i :| 0 <= i < |ws[last]| && ws[last][i].0 == s;
    } else {
      n, i := TableIsLastRule(wire, t, k, ws[..last], s);
      assert ws[..last][n] == ws[n];
      forall m | n < m < |ws| ensures !Has(ws[m], s) {
        if m < last { assert ws[..last][m] == ws[m]; }
      }
    }
  }

  ghost predicate WireHop(wire: Wire, t: Tables, k: Match, s: Dpid, u: Dpid) {
    (s, k) in t && (s, t[(s, k)]) in wire && wire[(s, t[(s, k)])] == u
  }

  /** A frame follows the rules from switch to switch over the cables. */
  ghost predicate WireRoute(wire: Wire, t: Tables, k: Match, r: seq<Dpid>) {
    |r| > 0 && forall j | 0 <= j < |r| - 1 :: WireHop(wire, t, k, r[j], r[j + 1])
  }

  /** Later installation, or the same one and further along it. */
  predicate Later(a: (nat, nat), b: (nat, nat)) {
    a.0 < b.0 || (a.0 == b.0 && a.1 < b.1)
  }

  /** Going to the next switch, a frame meets a rule of a later installation, or of the same one
      further along: never an older one. */
  lemma HopIsLater(wire: Wire, t: Tables, k: Match, ws: seq<Way>, s: Dpid, u: Dpid, n: nat, i: nat)
    returns (n': nat, i': nat)
    requires Fresh(t, k) && AllFollow(wire, ws) && WireHop(wire, LayAll(t, k, ws), k, s, u) && LastRule(ws, s, n, i)
    ensures LastRule(ws, u, n', i') && Later((n, i), (n', i'))
  {
    var n0, i0 := TableIsLastRule(wire, t, k, ws, s);
    assert Has(ws[n], s) && Has(ws[n0], s);
    assert n == n0;
    assert Follows(wire, ws[n]);
    assert i == i0;
    assert i + 1 < |ws[n]| && ws[n][i + 1].0 == u;
    n', i' := LastOf(ws, u, n, i + 1);
    if n' == n { assert Once(ws[n]); }
  }

  lemma {:induction false} LastOf(ws: seq<Way>, s: Dpid, n: nat, i: nat) returns (n': nat, i': nat)
    requires n < |ws| && i < |ws[n]| && ws[n][i].0 == s
    ensures LastRule(ws, s, n', i') && n' >= n && (n' == n ==> i' == i)
    decreases |ws| - n
  {
    if m :| n < m < |ws| && Has(ws[m], s) {
      var j: nat :| j < |ws[m]| && ws[m][j].0 == s;
      n', i' := LastOf(ws, s, m, j);
    } else {
      n', i' := n, i;
    }
  }

  /** The rules along a route are met in strictly increasing age order. */
  lemma {:induction false} RouteIsLater(wire: Wire, t: Tables, k: Match, ws: seq<Way>, r: seq<Dpid>, n: nat, i: nat,
                                        j: nat)
    returns (n': nat, i': nat)
    requires Fresh(t, k) && AllFollow(wire, ws) && WireRoute(wire, LayAll(t, k, ws), k, r) && j < |r|
    requires LastRule(ws, r[0], n, i)
    ensures LastRule(ws, r[j], n', i') && (j > 0 ==> Later((n, i), (n', i')))
    decreases j
  {
    if j == 0 {
      n', i' := n, i;
    } else {
      var m, h := RouteIsLater(wire, t, k, ws, r, n, i, j - 1);
      assert WireHop(wire, LayAll(t, k, ws), k, r[j - 1], r[j - 1 + 1]);
      n', i' := HopIsLater(wire, t, k, ws, r[j - 1], r[j], m, h);
    }
  }

  lemma RouteNoReturn(wire: Wire, t: Tables, k: Match, ws: seq<Way>, r: seq<Dpid>)
    requires Fresh(t, k) && AllFollow(wire, ws) && WireRoute(wire, LayAll(t, k, ws), k, r) && |r| > 1
    ensures r[0] != r[|r| - 1]
  {
    assert WireHop(wire, LayAll(t, k, ws), k, r[0], r[0 + 1]);
    var n, i := TableIsLastRule(wire, t, k, ws, r[0]);
    var n', i' := RouteIsLater(wire, t, k, ws, r, n, i, |r| - 1);
    assert Has(ws[n], r[0]) && Has(ws[n'], r[|r| - 1]) && Follows(wire, ws[n]);
  }

  lemma RoutePart(wire: Wire, t: Tables, k: Match, r: seq<Dpid>, i: nat, j: nat)
    requires WireRoute(wire, t, k, r) && i < j <= |r|
    ensures WireRoute(wire, t, k, r[i..j])
  {
    var q := r[i..j];
    forall h | 0 <= h < |q| - 1 ensures WireHop(wire, t, k, q[h], q[h + 1]) {
      assert WireHop(wire, t, k, r[i + h], r[i + h + 1]);
    }
  }

  lemma FollowLoopFree(wire: Wire, t: Tables, k: Match, ws: seq<Way>, r: seq<Dpid>)
    requires Fresh(t, k) && AllFollow(wire, ws) && WireRoute(wire, LayAll(t, k, ws), k, r)
    ensures Simple(r)
  {
    forall i, j | 0 <= i < j < |r| ensures r[i] != r[j] {
      RoutePart(wire, LayAll(t, k, ws), k, r, i, j + 1);
      RouteNoReturn(wire, t, k, ws, r[i..j + 1]);
    }
  }

  /** Loop freedom in a domain: after any sequence of complete installations for a destination, over
      any paths and whatever the graph was at the time, a frame visits no switch twice. */
  lemma TransitLoopFree(wire: Wire, t: Tables, k: Match, ws: seq<Way>, r: seq<Dpid>)
    requires Fresh(t, k) && AllWired(wire, ws) && WireRoute(wire, LayAll(t, k, ws), k, r)
    ensures Simple(r)
  {
    forall n | 0 <= n < |ws| ensures Follows(wire, ws[n]) {
      assert Wired(wire, ws[n]);
    }
    FollowLoopFree(wire, t, k, ws, r);
  }

  /** The cables agree with the ports the controller knows. */
  ghost predicate Agrees(f: Fabric, wire: Wire) {
    forall e | e in SwitchEdges(f) && f.edges[e].Some? ::
      (e.0.dpid, f.edges[e].value) in wire && wire[(e.0.dpid, f.edges[e].value)] == e.1.dpid
  }

  lemma {:induction false} LoopRulesMatch(f: Fabric, dps: set<Dpid>, path: seq<Node>, i: nat, n: nat, k: Match)
    requires n < |path|
    ensures forall m | m in LoopRules(f, dps, path, i, n, k).0 :: m.FlowAdd? && m.match_ == k
    decreases n - i
  {
    if i < n && HopPort(f, path[i], path[i + 1]).Some? {
      LoopRulesMatch(f, dps, path, i + 1, n, k);
    }
  }

  lemma FlowModMatch(f: Fabric, dps: set<Dpid>, path: seq<Node>, s: Dpid, t: Dpid, k: Match, out: Port,
                     buffer: Option<nat>, data: Option<seq<byte>>)
    requires path != []
    ensures forall m | m in FlowModMsgs(f, dps, path, s, t, k, out, buffer, data).0 :: m.FlowAdd? ==> m.match_ == k
  {
    LoopRulesMatch(f, dps, path, 0, |path| - 1, k);
    if |path| > 1 { LoopRulesMatch(f, dps, path, 1, |path| - 1, k); }
  }

  lemma FlowModThreads(f: Fabric, path: seq<Node>, s: Dpid, t: Dpid, out: Port, wire: Wire)
    requires SwitchPath(f, path, s, t) && Agrees(f, wire)
    ensures forall i | 0 <= i < |path| :: path[i].Sw?
    ensures var w := WayOf(f, path, out);
            Threaded(wire, w) && w[0].0 == s && w[|w| - 1] == (t, out)
  {
    OneRulePerSwitch(f, path, s, t, out);
    PathHops(f, path, s, t);
    var w := WayOf(f, path, out);
    forall i | 0 <= i < |w| - 1 ensures w[i] in wire && wire[w[i]] == w[i + 1].0 {
      assert HopPort(f, path[i], path[i + 1]).Some? && (path[i], path[i + 1]) in SwitchEdges(f);
    }
  }

  /** A FLOW_MOD that gets through is a complete installation of a way of the domain. */
  lemma FlowModInstalls(f: Fabric, dps: set<Dpid>, path: seq<Node>, s: Dpid, t: Dpid, k: Match, out: Port,
                        buffer: Option<nat>, data: Option<seq<byte>>, tables: Tables)
    requires GoodPath(f, dps, path, s, t)
    ensures forall i | 0 <= i < |path| :: path[i].Sw?
    ensures var r := FlowModMsgs(f, dps, path, s, t, k, out, buffer, data);
            r.1 && Apply(tables, r.0) == Lay(tables, k, WayOf(f, path, out))
  {
    BranchesAgree(f, dps, path, s, t, k, out, buffer, data);
    FlowModMatch(f, dps, path, s, t, k, out, buffer, data);
    LayIsApply(tables, k, FlowModMsgs(f, dps, path, s, t, k, out, buffer, data).0);
  }
}
