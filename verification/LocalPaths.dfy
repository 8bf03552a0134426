/**
 What a packet-in lays: the messages of its installation one by one, the rules they leave on any
 tables, and the way a frame then takes, along the path networkx chose and out at the host's port.
 */
module LocalPaths {
  import opened Base
  import opened Graphs
  import opened Fabric
  import opened FlowTables
  import opened Transit
  import L = LocalSteps

  // ---------------------------------------------------------------------------
  // The match of a packet
  // ---------------------------------------------------------------------------

  /** A switch takes the packet for one that the match describes. */
  predicate Catches(k: Match, p: L.Packet) {
    match k
    case EthDst(mac) => p.dst == mac
    case FiveTuple(srcIp, dstIp, proto, srcPort, dstPort) =>
      && p.srcIp == srcIp && p.dstIp == dstIp && p.proto == proto
      && p.srcPort == srcPort && p.dstPort == dstPort
  }

  /** Two packets of one flow, if they have ports; else for one destination. */
  predicate Alike(p: L.Packet, q: L.Packet) {
    if p.srcPort != 0 && p.dstPort != 0 then
      && p.srcIp == q.srcIp && p.dstIp == q.dstIp && p.proto == q.proto
      && p.srcPort == q.srcPort && p.dstPort == q.dstPort
    else p.dst == q.dst
  }

  /** The rules for a packet are for it and for just those that are alike. */
  lemma KeyCatches(p: L.Packet, q: L.Packet)
    ensures Catches(L.KeyOf(p), p)
    ensures Catches(L.KeyOf(p), q) <==> Alike(p, q)
  {
  }

  // ---------------------------------------------------------------------------
  // The messages
  // ---------------------------------------------------------------------------

  /** Every hop of the path is left by a port of a switch. */
  ghost predicate Passable(f: Fabric, path: seq<Node>) {
    path != [] && forall i | 0 <= i < |path| - 1 :: path[i].Sw? && HopPort(f, path[i], path[i + 1]).Some?
  }

  function PortAt(f: Fabric, path: seq<Node>, i: nat): Port
    requires i + 1 < |path| && HopPort(f, path[i], path[i + 1]).Some?
  {
    HopPort(f, path[i], path[i + 1]).value
  }

  /** The first `n` switches of the path, each with its port towards the next node */
  function WayAlong(f: Fabric, path: seq<Node>, n: nat): (w: Way)
    requires Passable(f, path) && n < |path|
    ensures |w| == n
  {
    seq(n, i requires 0 <= i < n => (path[i].dpid, PortAt(f, path, i)))
  }

  /** Two messages to each of the first `n` switches: a rule for the match, out of the port to the
      next node, and the packet itself, with its data, out of that same port. */
  ghost predicate RuleAndPacket(f: Fabric, path: seq<Node>, n: nat, k: Match, inPort: Port, data: seq<byte>,
                                msgs: seq<ToSwitch>)
    requires Passable(f, path) && n < |path|
  {
    |msgs| == 2 * n && forall i | 0 <= i < n :: PairAt(f, path, i, k, inPort, data, msgs)
  }

  ghost predicate PairAt(f: Fabric, path: seq<Node>, i: nat, k: Match, inPort: Port, data: seq<byte>,
                         msgs: seq<ToSwitch>)
    requires Passable(f, path) && i + 1 < |path| && 2 * i + 1 < |msgs|
  {
    && msgs[2 * i] == FlowAdd(path[i].dpid, k, PortAt(f, path, i), None)
    && msgs[2 * i + 1] == PacketOut(path[i].dpid, inPort, To(PortAt(f, path, i)), None, Some(data))
  }

  lemma {:induction false} InstallsMsgs(f: Fabric, dps: set<Dpid>, path: seq<Node>, i: nat, n: nat, k: Match,
                                        inPort: Port, data: seq<byte>, j: nat)
    requires Passable(f, path) && i <= n < |path|
    requires forall h | i <= h < n :: path[h].dpid in dps
    requires n + 1 < |path| ==> path[n].dpid !in dps
    ensures var r := Installs(f, dps, path, i, k, inPort, None, data);
            && |r.0| == 2 * (n - i) && (r.1 <==> n + 1 == |path|)
            && (i <= j < n ==>
                  && r.0[2 * (j - i)] == FlowAdd(path[j].dpid, k, PortAt(f, path, j), None)
                  && r.0[2 * (j - i) + 1] ==
                       PacketOut(path[j].dpid, inPort, To(PortAt(f, path, j)), None, Some(data)))
    decreases n - i
  {
    if i < n {
      InstallsMsgs(f, dps, path, i + 1, n, k, inPort, data, j);
    }
  }

  /** Without a buffer the installation sends rule and packet to every switch before the first that is
      not connected, and gets through exactly if there is none. */
  lemma UnbufferedMsgs(f: Fabric, dps: set<Dpid>, path: seq<Node>, n: nat, k: Match, inPort: Port, data: seq<byte>)
    requires Passable(f, path) && n < |path|
    requires forall h | 0 <= h < n :: path[h].dpid in dps
    requires n + 1 < |path| ==> path[n].dpid !in dps
    ensures var r := Installs(f, dps, path, 0, k, inPort, None, data);
            RuleAndPacket(f, path, n, k, inPort, data, r.0) && (r.1 <==> n + 1 == |path|)
  {
    InstallsMsgs(f, dps, path, 0, n, k, inPort, data, 0);
    var msgs := Installs(f, dps, path, 0, k, inPort, None, data).0;
    forall i | 0 <= i < n ensures PairAt(f, path, i, k, inPort, data, msgs) {
      InstallsMsgs(f, dps, path, 0, n, k, inPort, data, i);
    }
  }

  /** With a buffer it sends one message: the first switch's rule, which releases the buffer. */
  lemma BufferedMsgs(f: Fabric, dps: set<Dpid>, path: seq<Node>, k: Match, inPort: Port, b: nat, data: seq<byte>)
    requires Passable(f, path) && |path| > 1
    ensures Installs(f, dps, path, 0, k, inPort, Some(b), data) ==
            if path[0].dpid in dps
            then ([FlowAdd(path[0].dpid, k, PortAt(f, path, 0), if b == 0 then None else Some(b))], true)
            else ([], false)
  {
  }

  // ---------------------------------------------------------------------------
  // The rules they leave
  // ---------------------------------------------------------------------------

  lemma RulesInMore(msgs: seq<ToSwitch>, m: ToSwitch)
    ensures RulesIn(msgs + [m]) == RulesIn(msgs) + if m.FlowAdd? then [(m.dpid, m.port)] else []
  {
    assert (msgs + [m])[..|msgs|] == msgs;
  }

  lemma {:induction false} RulesOfPairs(f: Fabric, path: seq<Node>, n: nat, k: Match, inPort: Port, data: seq<byte>,
                                        msgs: seq<ToSwitch>)
    requires Passable(f, path) && n < |path| && RuleAndPacket(f, path, n, k, inPort, data, msgs)
    ensures RulesIn(msgs) == WayAlong(f, path, n)
    ensures forall m | m in msgs && m.FlowAdd? :: m.match_ == k
    decreases n
  {
    if n == 0 {
      assert msgs == [];
    } else {
      var less := msgs[..2 * n - 2];
      assert PairAt(f, path, n - 1, k, inPort, data, msgs);
      forall i | 0 <= i < n - 1 ensures PairAt(f, path, i, k, inPort, data, less) {
        assert PairAt(f, path, i, k, inPort, data, msgs);
      }
      RulesOfPairs(f, path, n - 1, k, inPort, data, less);
      var add, out := msgs[2 * n - 2], msgs[2 * n - 1];
      assert msgs == less + [add] + [out];
      RulesInMore(less, add);
      RulesInMore(less + [add], out);
      assert WayAlong(f, path, n) == WayAlong(f, path, n - 1) + [(path[n - 1].dpid, PortAt(f, path, n - 1))];
    }
  }

  /** For the match, the switches of the way have its ports; all other entries stay. */
  ghost predicate Sets(t: Tables, k: Match, w: Way, t': Tables) {
    && (forall i | 0 <= i < |w| :: (w[i].0, k) in t' && t'[(w[i].0, k)] == w[i].1)
    && (forall q: (Dpid, Match) | q.1 != k || !Has(w, q.0) :: (q in t' <==> q in t) && (q in t ==> t'[q] == t[q]))
  }

  lemma LaySets(t: Tables, k: Match, w: Way)
    requires Once(w)
    ensures Sets(t, k, w, Lay(t, k, w))
  {
    forall i | 0 <= i < |w| ensures (w[i].0, k) in Lay(t, k, w) && Lay(t, k, w)[(w[i].0, k)] == w[i].1 {
      LayLookup(t, k, w, w[i].0);
    }
    forall q: (Dpid, Match) | q.1 != k || !Has(w, q.0)
      ensures (q in Lay(t, k, w) <==> q in t) && (q in t ==> Lay(t, k, w)[q] == t[q])
    {
      LayLookup(t, k, w, q.0);
    }
  }

  lemma WayOnce(f: Fabric, path: seq<Node>, n: nat)
    requires Passable(f, path) && n < |path| && Simple(path)
    ensures Once(WayAlong(f, path, n))
  {
    forall i, j | 0 <= i < j < n ensures path[i].dpid != path[j].dpid {
      assert path[i] != path[j];
    }
  }

  lemma PairsSet(f: Fabric, path: seq<Node>, n: nat, k: Match, inPort: Port, data: seq<byte>, msgs: seq<ToSwitch>,
                 t: Tables)
    requires Passable(f, path) && n < |path| && Simple(path) && RuleAndPacket(f, path, n, k, inPort, data, msgs)
    ensures Sets(t, k, WayAlong(f, path, n), Apply(t, msgs))
  {
    RulesOfPairs(f, path, n, k, inPort, data, msgs);
    assert forall i | 0 <= i < |msgs| :: msgs[i] in msgs;
    LayIsApply(t, k, msgs);
    WayOnce(f, path, n);
    LaySets(t, k, WayAlong(f, path, n));
  }

  // ---------------------------------------------------------------------------
  // The handler
  // ---------------------------------------------------------------------------

  /** A packet for a host the controller knows, with networkx's path to it. */
  ghost predicate Known(l: L.Local, p: L.Packet, path: seq<Node>) {
    && L.LocalInv(l) && p.dpid in l.load && p.dst != L.LLDP_MAC
    && Sw(p.dpid) in L.Heard(l, p).fabric.nodes && Host(p.dst) in L.Heard(l, p).fabric.nodes
    && Shortest(L.Heard(l, p).fabric.edges.Keys, Sw(p.dpid), Host(p.dst), path)
  }

  lemma KnownPasses(l: L.Local, p: L.Packet, path: seq<Node>)
    requires Known(l, p, path)
    ensures L.LocalInv(L.Heard(l, p)) && L.Heard(l, p).out == l.out && L.Heard(l, p).datapaths == l.datapaths
    ensures Passable(L.Heard(l, p).fabric, path) && Simple(path)
    ensures |path| > 1 && path[0] == Sw(p.dpid) && path[|path| - 1] == Host(p.dst)
  {
    L.HeardKeeps(l, p);
    var f := L.Heard(l, p).fabric;
    InteriorSwitches(f, p.dpid, Host(p.dst), path);
    ShortestSimple(f.edges.Keys, Sw(p.dpid), Host(p.dst), path);
    assert forall i | 0 <= i < |path| - 1 :: (path[i], path[i + 1]) in f.edges;
  }

  /** The first `n` switches of the path are connected, and no more or all of them. */
  predicate ConnectedTo(dps: set<Dpid>, path: seq<Node>, n: nat)
    requires n < |path| && forall i | 0 <= i < |path| - 1 :: path[i].Sw?
  {
    (forall i | 0 <= i < n :: path[i].dpid in dps) && (n + 1 < |path| ==> path[n].dpid !in dps)
  }

  /** An unbuffered packet for a known host. Every switch of the path before the first that is not
      connected gets a rule and the packet; the handler raises exactly if there is one that is not.
      On any tables the rules lead each of those switches to the next node, and nothing else changes. */
  lemma UnbufferedInstalls(l: L.Local, p: L.Packet, now: int, path: seq<Node>, n: nat, t: Tables)
    returns (msgs: seq<ToSwitch>)
    requires Known(l, p, path) && p.buffer.None?
    requires n < |path| && (forall i | 0 <= i < |path| - 1 :: path[i].Sw?) && ConnectedTo(l.datapaths, path, n)
    ensures var r, f := L.PacketIn(l, p, now, path), L.Heard(l, p).fabric;
            && r.0.out == l.out + msgs && (r.1 <==> n + 1 == |path|) && Passable(f, path)
            && RuleAndPacket(f, path, n, L.KeyOf(p), p.inPort, p.data, msgs)
            && Sets(t, L.KeyOf(p), WayAlong(f, path, n), Apply(t, msgs))
  {
    KnownPasses(l, p, path);
    var h := L.Heard(l, p);
    msgs := Installs(h.fabric, h.datapaths, path, 0, L.KeyOf(p), p.inPort, None, p.data).0;
    UnbufferedMsgs(h.fabric, h.datapaths, path, n, L.KeyOf(p), p.inPort, p.data);
    PairsSet(h.fabric, path, n, L.KeyOf(p), p.inPort, p.data, msgs, t);
  }

  lemma OneRuleSets(t: Tables, d: Dpid, k: Match, port: Port, buffer: Option<nat>)
    ensures Sets(t, k, [(d, port)], Apply(t, [FlowAdd(d, k, port, buffer)]))
  {
    var msgs, w := [FlowAdd(d, k, port, buffer)], [(d, port)];
    assert msgs[..0] == [];
    assert Apply(t, msgs) == t[(d, k) := port];
    assert w[0].0 == d && Has(w, d);
  }

  /** A buffered packet: the switch it came in at gets its rule, which releases the buffer, and nothing
      else changes. The handler gets through. */
  lemma BufferedInstalls(l: L.Local, p: L.Packet, now: int, path: seq<Node>, t: Tables) returns (msgs: seq<ToSwitch>)
    requires Known(l, p, path) && p.buffer.Some?
    ensures var r, f := L.PacketIn(l, p, now, path), L.Heard(l, p).fabric;
            && r.0.out == l.out + msgs && r.1 && Passable(f, path)
            && msgs == [FlowAdd(p.dpid, L.KeyOf(p), PortAt(f, path, 0), Released(p.buffer))]
            && Sets(t, L.KeyOf(p), [(p.dpid, PortAt(f, path, 0))], Apply(t, msgs))
  {
    KnownPasses(l, p, path);
    var h := L.Heard(l, p);
    msgs := Installs(h.fabric, h.datapaths, path, 0, L.KeyOf(p), p.inPort, p.buffer, p.data).0;
    assert p.dpid in h.datapaths;
    BufferedMsgs(h.fabric, h.datapaths, path, L.KeyOf(p), p.inPort, p.buffer.value, p.data);
    OneRuleSets(t, p.dpid, L.KeyOf(p), PortAt(h.fabric, path, 0), Released(p.buffer));
  }

  // ---------------------------------------------------------------------------
  // The way of a frame
  // ---------------------------------------------------------------------------

  /** The switches of the path */
  function SwitchesOf(path: seq<Node>): (r: seq<Dpid>)
    requires path != [] && forall i | 0 <= i < |path| - 1 :: path[i].Sw?
    ensures |r| == |path| - 1
  {
    seq(|path| - 1, i requires 0 <= i < |path| - 1 => path[i].dpid)
  }

  lemma HopFollows(f: Fabric, wire: Wire, path: seq<Node>, k: Match, t: Tables, t': Tables, i: nat)
    requires Passable(f, path) && Agrees(f, wire) && i + 2 < |path|
    requires Sets(t, k, WayAlong(f, path, |path| - 1), t') && path[i + 1].Sw?
    ensures WireHop(wire, t', k, path[i].dpid, path[i + 1].dpid)
    ensures forall u: Dpid | WireHop(wire, t', k, path[i].dpid, u) :: u == path[i + 1].dpid
  {
    var w := WayAlong(f, path, |path| - 1);
    assert (w[i].0, k) in t' && t'[(w[i].0, k)] == w[i].1;
    assert (path[i], path[i + 1]) in SwitchEdges(f);
  }

  lemma {:induction false} RoutePrefix(f: Fabric, wire: Wire, path: seq<Node>, k: Match, t: Tables, t': Tables,
                                       home: (Dpid, Port), r: seq<Dpid>, i: nat)
    requires Passable(f, path) && Agrees(f, wire) && Sets(t, k, WayAlong(f, path, |path| - 1), t')
    requires |path| > 1 && path[|path| - 2] == Sw(home.0) && PortAt(f, path, |path| - 2) == home.1 && home !in wire
    requires WireRoute(wire, t', k, r) && r[0] == path[0].dpid && i < |r|
    ensures i < |path| - 1 && r[i] == path[i].dpid
  {
    if i > 0 {
      RoutePrefix(f, wire, path, k, t, t', home, r, i - 1);
      assert WireHop(wire, t', k, r[i - 1], r[i - 1 + 1]);
      var w := WayAlong(f, path, |path| - 1);
      assert (w[i - 1].0, k) in t' && t'[(w[i - 1].0, k)] == w[i - 1].1;
      if i + 1 < |path| { HopFollows(f, wire, path, k, t, t', i - 1); }
    }
  }

  /** After an unbuffered packet for a known host, with all switches of the path connected: whatever the
      tables were, a frame that its match catches goes from the packet's switch along exactly that path,
      at its last switch the rule is for the host's own port, and there is no other way to go. */
  lemma FrameGoes(l: L.Local, p: L.Packet, now: int, path: seq<Node>, t: Tables, wire: Wire, a: Dpid)
    returns (msgs: seq<ToSwitch>)
    requires Known(l, p, path) && p.buffer.None? && (forall x | Sw(x) in path :: x in l.datapaths)
    requires On(L.Heard(l, p).fabric, a, p.dst)
    requires Agrees(L.Heard(l, p).fabric, wire) && (a, L.Heard(l, p).fabric.macs[a][p.dst]) !in wire
    ensures |path| > 1 && forall i | 0 <= i < |path| - 1 :: path[i].Sw?
    ensures var r, k, v := L.PacketIn(l, p, now, path), L.KeyOf(p), Apply(t, msgs);
            && r.1 && r.0.out == l.out + msgs
            && WireRoute(wire, v, k, SwitchesOf(path))
            && (forall way | WireRoute(wire, v, k, way) && way[0] == p.dpid :: way <= SwitchesOf(path))
            && SwitchesOf(path)[|path| - 2] == a
            && (a, k) in v && v[(a, k)] == L.Heard(l, p).fabric.macs[a][p.dst]
  {
    KnownPasses(l, p, path);
    var f, n, k := L.Heard(l, p).fabric, |path| - 1, L.KeyOf(p);
    assert forall i | 0 <= i < n :: path[i] in path;
    msgs := UnbufferedInstalls(l, p, now, path, n, t);
    HostPath(f, p.dpid, p.dst, a, path);
    PathFollowed(f, wire, path, k, t, Apply(t, msgs), (a, f.macs[a][p.dst]));
  }

  /** Rules along a path lead along it, and nowhere else. */
  lemma PathFollowed(f: Fabric, wire: Wire, path: seq<Node>, k: Match, t: Tables, v: Tables, home: (Dpid, Port))
    requires Passable(f, path) && Agrees(f, wire) && Sets(t, k, WayAlong(f, path, |path| - 1), v)
    requires |path| > 1 && path[|path| - 2] == Sw(home.0) && PortAt(f, path, |path| - 2) == home.1 && home !in wire
    ensures WireRoute(wire, v, k, SwitchesOf(path))
    ensures forall way | WireRoute(wire, v, k, way) && way[0] == path[0].dpid :: way <= SwitchesOf(path)
    ensures (home.0, k) in v && v[(home.0, k)] == home.1
  {
    var n := |path| - 1;
    var w, rs := WayAlong(f, path, n), SwitchesOf(path);
    assert (w[n - 1].0, k) in v && v[(w[n - 1].0, k)] == w[n - 1].1;
    forall j | 0 <= j < |rs| - 1 ensures WireHop(wire, v, k, rs[j], rs[j + 1]) {
      HopFollows(f, wire, path, k, t, v, j);
    }
    forall way | WireRoute(wire, v, k, way) && way[0] == path[0].dpid ensures way <= rs {
      PrefixOf(f, wire, path, k, t, v, home, way);
    }
  }

  lemma PrefixOf(f: Fabric, wire: Wire, path: seq<Node>, k: Match, t: Tables, t': Tables, home: (Dpid, Port),
                 r: seq<Dpid>)
    requires Passable(f, path) && Agrees(f, wire) && Sets(t, k, WayAlong(f, path, |path| - 1), t')
    requires |path| > 1 && path[|path| - 2] == Sw(home.0) && PortAt(f, path, |path| - 2) == home.1 && home !in wire
    requires WireRoute(wire, t', k, r) && r[0] == path[0].dpid
    ensures r <= SwitchesOf(path)
  {
    RoutePrefix(f, wire, path, k, t, t', home, r, |r| - 1);
    forall i | 0 <= i < |r| ensures r[i] == SwitchesOf(path)[i] {
      RoutePrefix(f, wire, path, k, t, t', home, r, i);
    }
  }
}
