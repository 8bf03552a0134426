/**
 What each handler of layer_2_switch.py makes of the controller's state, as functions on values.
 The class `Layer2Switch` is proved against these.
 */
module LocalSteps {
  import opened Base
  import opened Graphs
  import opened Fabric
  import opened FlowTables
  import opened Transit
  import opened Pending
  import W = Wire

  /** All of the controller's state that its handlers read. `sent` and `out` are the messages to
      the central controller and to the switches, oldest first. */
  datatype Local = Local(
    lcid: Option<int>,
    fabric: Fabric,
    datapaths: set<Dpid>,
    load: map<Dpid, nat>,
    inter: map<Dpid, seq<Port>>,
    isWin: map<Dpid, bool>,
    pending: Pending,
    xid: nat,
    sent: seq<(W.Msg, nat)>,
    out: seq<ToSwitch>)

  /** A packet-in: the switch and port, the addresses, and the buffer at the switch, if any. */
  datatype Packet = Packet(dpid: Dpid, inPort: Port, src: Mac, dst: Mac, srcIp: int, dstIp: int, proto: int,
                           srcPort: int, dstPort: int, buffer: Option<nat>, data: seq<byte>)

  /** lldp.LLDP_MAC_NEAREST_BRIDGE and BROADCAST_STR. */
  const LLDP_MAC: Mac := Ascii("01:80:c2:00:00:0e")
  const BROADCAST_MAC: Mac := Ascii("ff:ff:ff:ff:ff:ff")

  function Ascii(s: string): seq<byte> {
    seq(|s|, i requires 0 <= i < |s| => if s[i] as int < 256 then s[i] as int else 0)
  }

  /** dst_mac[0:2] != '33'. */
  predicate NotProtocol(dst: Mac) {
    !(|dst| >= 2 && dst[0] == '3' as int && dst[1] == '3' as int)
  }

  /** What the rules for a packet match: its five-tuple if it has ports, else its destination. */
  function KeyOf(p: Packet): Match {
    if p.srcPort != 0 && p.dstPort != 0 then FiveTuple(p.srcIp, p.dstIp, p.proto, p.srcPort, p.dstPort)
    else EthDst(p.dst)
  }

  /** The four dictionaries keyed by dpid, the three keyed by xid, and the learned fabric agree. */
  ghost predicate LocalInv(l: Local) {
    && Inv(l.fabric) && Aligned(l.pending)
    && l.datapaths == l.load.Keys == l.inter.Keys == l.fabric.macs.Keys
  }

  /** cc_agent.send_msg of a message without xid. */
  function Send(l: Local, m: W.Msg): Local {
    l.(xid := NextXid(l.xid), sent := l.sent + [(m, NextXid(l.xid))])
  }

  ghost function SwitchFeatures(l: Local, d: Dpid): Local {
    var isWindow := d in l.isWin && l.isWin[d];
    var s := Send(l.(fabric := Join(l.fabric, d), datapaths := l.datapaths + {d}, load := l.load[d := 0],
                     inter := if d in l.inter then l.inter else l.inter[d := []]),
                  W.DpConnected(d, isWindow));
    s.(out := s.out + [TableMiss(d)])
  }

  // ---------------------------------------------------------------------------
  // Packet-in
  // ---------------------------------------------------------------------------

  /** A host that was on the port is forgotten and reported. */
  ghost function Clear(l: Local, d: Dpid, p: Port): Local
    requires d in l.fabric.macs
  {
    var gone := HostsOn(l.fabric, d, p);
    if gone == {} then l
    else
      var h :| h in gone;
      Send(l.(fabric := Purge(l.fabric, d, p)), W.HostLeave(d, h))
  }

  /** Then the new one is entered. */
  ghost function Enter(l: Local, d: Dpid, p: Port, src: Mac): Local
    requires d in l.fabric.macs
  {
    var c := Clear(l, d, p);
    Send(c.(fabric := Attach(c.fabric, d, p, src)), W.HostConnected(d, src))
  }

  /** The switch is in the dictionaries. */
  predicate Serves(l: Local, d: Dpid) {
    d in l.load && d in l.inter && d in l.fabric.macs
  }

  /** The state after counting the packet and learning its source. */
  ghost function Heard(l: Local, p: Packet): Local
    requires Serves(l, p.dpid)
  {
    var c := l.(load := l.load[p.dpid := l.load[p.dpid] + 1]);
    if Host(p.src) in l.fabric.nodes || p.inPort in l.inter[p.dpid] then c
    else Enter(c, p.dpid, p.inPort, p.src)
  }

  /** The rules along the path, for the part of it that gets through. */
  function Forward(l: Local, p: Packet, path: seq<Node>): (Local, bool) {
    var r := Installs(l.fabric, l.datapaths, path, 0, KeyOf(p), p.inPort, p.buffer, p.data);
    (l.(out := l.out + r.0), r.1)
  }

  function FloodOut(l: Local, p: Packet): Local {
    l.(out := l.out + [PacketOut(p.dpid, p.inPort, Flood, p.buffer, if p.buffer.None? then Some(p.data) else None)])
  }

  function Request(p: Packet): W.Msg {
    W.PacketIn(p.dpid, p.srcIp, p.dstIp, p.srcPort, p.dstPort, p.src, p.dst)
  }

  /** The destination is unknown here: ask the central controller and keep the packet. */
  function Ask(l: Local, p: Packet, now: int): Local {
    var x := NextXid(l.xid);
    l.(xid := x, pending := Register(l.pending, x, now, p.buffer, p.data),
       sent := l.sent + [(Request(p), x)])
  }

  /** ofp_packet_in_handler. `path` is what networkx returned, [] if it found none; the result says
      whether the handler got through without an exception. */
  ghost function PacketIn(l: Local, p: Packet, now: int, path: seq<Node>): (Local, bool)
    requires LocalInv(l)
  {
    if p.dpid !in l.load then (l, false)
    else if p.dst == LLDP_MAC then
      (if p.inPort in l.inter[p.dpid] then l else l.(inter := l.inter[p.dpid := l.inter[p.dpid] + [p.inPort]]), true)
    else Route(Heard(l, p), p, now, path)
  }

  function Route(h: Local, p: Packet, now: int, path: seq<Node>): (Local, bool)
  {
    if Host(p.dst) in h.fabric.nodes then
      if Sw(p.dpid) !in h.fabric.nodes then (h, false) else Forward(h, p, path)
    else if p.dst == BROADCAST_MAC then (FloodOut(h, p), true)
    else if NotProtocol(p.dst) then (Ask(h, p, now), true)
    else (h, true)
  }

  /** `path` is an answer of networkx.shortest_path, or [] for NetworkXNoPath. */
  ghost predicate Answer(f: Fabric, s: Node, t: Node, path: seq<Node>) {
    if path == [] then !Reaches(f.edges.Keys, s, t) else Shortest(f.edges.Keys, s, t, path)
  }

  // ---------------------------------------------------------------------------
  // Messages of the central controller, topology
  // ---------------------------------------------------------------------------

  /** The packet the FLOW_MOD answers, if its xid is known: buffer and data. */
  function Awaited(p: Pending, xid: nat): (Option<nat>, Option<seq<byte>>)
    requires Aligned(p)
  {
    if xid in p.packets then (p.buffers[xid], p.packets[xid]) else (None, None)
  }

  /** cc_flow_mod_handler. */
  ghost function FlowMod(l: Local, xid: nat, inDpid: Dpid, outDpid: Dpid, out: Port, dst: Mac,
                         path: seq<Node>): (Local, bool)
    requires LocalInv(l)
  {
    if outDpid !in l.isWin then (l, true)
    else if inDpid !in l.datapaths then (l, false)
    else
      var (buffer, data) := Awaited(l.pending, xid);
      var t := l.(pending := Take(l.pending, xid));
      if Sw(inDpid) !in l.fabric.nodes || Sw(outDpid) !in l.fabric.nodes then (t, false)
      else if path == [] then (t, true)
      else
        var r := FlowModMsgs(l.fabric, l.datapaths, path, inDpid, outDpid, EthDst(dst), out, buffer, data);
        (t.(out := t.out + r.0), r.1)
  }

  function Windows(isWin: map<Dpid, bool>, switches: set<Dpid>, windows: set<Dpid>): map<Dpid, bool> {
    map d | d in isWin.Keys + switches + windows ::
      if d in windows then true else if d in switches then false else isWin[d]
  }

  /** The part of get_topology_data after its log line. */
  function Discovered(l: Local, switches: set<Dpid>, windows: set<Dpid>, links: seq<Link>, json: seq<byte>): Local {
    Send(l.(isWin := Windows(l.isWin, {}, windows), fabric := Discover(l.fabric, switches, links)),
      W.GraphInfo(json))
  }

  /** get_topology_data: `windows` are the switches with a link to another domain. The log line joins
      the window list's entries, which raises unless they are `texts`; the lines after it subscript
      them like dictionaries. */
  function TopologyData(l: Local, switches: set<Dpid>, windows: set<Dpid>, links: seq<Link>, json: seq<byte>,
                        texts: bool): (Local, bool)
  {
    var marked := l.(isWin := Windows(l.isWin, switches, {}));
    if windows != {} && !texts then (marked, false) else (Discovered(marked, switches, windows, links, json), true)
  }

  /** switch_leave_handler. */
  function SwitchLeave(l: Local, d: Dpid): (Local, bool)
  {
    if Sw(d) !in l.fabric.nodes then (l, false)
    else if d !in l.datapaths then (l.(fabric := RemoveNode(l.fabric, Sw(d))), false)
    else
      (Send(l.(fabric := Leave(l.fabric, d), datapaths := l.datapaths - {d}, load := l.load - {d},
        inter := l.inter - {d}),
            W.DatapathLeave(d)), true)
  }

  /** cc_role_assign_handler. */
  function RoleAssign(l: Local, d: Dpid, role: int, gid: int): (Local, bool) {
    if d in l.datapaths then (l.(out := l.out + [RoleRequest(d, role, gid)]), true) else (l, false)
  }

  // ---------------------------------------------------------------------------
  // The invariant
  // ---------------------------------------------------------------------------

  /** The rest of the state is not touched. */
  ghost predicate SameRest(l: Local, l': Local) {
    && l'.out == l.out && l'.pending == l.pending && l'.datapaths == l.datapaths
    && l'.load == l.load && l'.inter == l.inter && l'.isWin == l.isWin
  }

  lemma ClearPurges(l: Local, d: Dpid, p: Port)
    requires d in l.fabric.macs
    ensures Clear(l, d, p).fabric == Purge(l.fabric, d, p) && SameRest(l, Clear(l, d, p))
  {
    if HostsOn(l.fabric, d, p) == {} { NothingToPurge(l.fabric, d, p); }
  }

  lemma EnterLearns(l: Local, d: Dpid, p: Port, src: Mac)
    requires d in l.fabric.macs
    ensures Enter(l, d, p, src).fabric == Learn(l.fabric, d, p, src) && SameRest(l, Enter(l, d, p, src))
  {
    ClearPurges(l, d, p);
  }

  lemma LearnTables(f: Fabric, d: Dpid, p: Port, h: Mac)
    requires d in f.macs
    ensures Learn(f, d, p, h).macs.Keys == f.macs.Keys
  {
  }

  /** The packet teaches the controller a new host. */
  predicate Teaches(l: Local, p: Packet)
    requires p.dpid in l.inter
  {
    Host(p.src) !in l.fabric.nodes && p.inPort !in l.inter[p.dpid]
  }

  lemma HeardLearns(l: Local, p: Packet)
    requires Serves(l, p.dpid)
    ensures Heard(l, p).fabric == if Teaches(l, p) then Learn(l.fabric, p.dpid, p.inPort, p.src) else l.fabric
    ensures SameRest(l.(load := l.load[p.dpid := l.load[p.dpid] + 1]), Heard(l, p))
  {
    if Teaches(l, p) {
      EnterLearns(l.(load := l.load[p.dpid := l.load[p.dpid] + 1]), p.dpid, p.inPort, p.src);
    }
  }

  lemma HeardKeeps(l: Local, p: Packet)
    requires LocalInv(l) && p.dpid in l.load
    ensures LocalInv(Heard(l, p))
    ensures Heard(l, p).fabric == if Teaches(l, p) then Learn(l.fabric, p.dpid, p.inPort, p.src) else l.fabric
    ensures Heard(l, p).out == l.out && Heard(l, p).pending == l.pending && Heard(l, p).datapaths == l.datapaths
  {
    HeardLearns(l, p);
    if Teaches(l, p) {
      LearnKeeps(l.fabric, p.dpid, p.inPort, p.src);
      LearnTables(l.fabric, p.dpid, p.inPort, p.src);
    }
    assert l.load[p.dpid := l.load[p.dpid] + 1].Keys == l.load.Keys;
  }

  lemma NothingToPurge(f: Fabric, d: Dpid, p: Port)
    requires d in f.macs && HostsOn(f, d, p) == {}
    ensures Purge(f, d, p) == f
  {
    assert f.macs[d] - {} == f.macs[d];
    assert f.macs[d := f.macs[d]] == f.macs;
    assert Purge(f, d, p).edges == f.edges;
  }

  /** Every handler keeps the invariant, also when it ends with an exception half way. */
  lemma PacketInKeeps(l: Local, p: Packet, now: int, path: seq<Node>)
    requires LocalInv(l)
    ensures LocalInv(PacketIn(l, p, now, path).0)
  {
    if p.dpid in l.load {
      if p.dst == LLDP_MAC {
      } else {
        HeardKeeps(l, p);
        RouteKeeps(Heard(l, p), p, now, path);
      }
    }
  }

  lemma RouteKeeps(h: Local, p: Packet, now: int, path: seq<Node>)
    requires LocalInv(h)
    ensures LocalInv(Route(h, p, now, path).0)
  {
    var r := Route(h, p, now, path).0;
    assert r.fabric == h.fabric && r.load == h.load && r.inter == h.inter && r.datapaths == h.datapaths;
    assert Aligned(r.pending);
  }

  lemma TopologyKeeps(l: Local, switches: set<Dpid>, windows: set<Dpid>, links: seq<Link>, json: seq<byte>,
                      texts: bool)
    requires LocalInv(l)
    ensures LocalInv(TopologyData(l, switches, windows, links, json, texts).0)
  {
    DiscoverKeeps(l.fabric, switches, links);
    DiscoverTables(l.fabric, switches, links);
  }

  /** While the entries are dictionaries, a domain with a window never gets beyond the log line: its
      graph and its messages stay as they are. */
  lemma WindowsRaise(l: Local, switches: set<Dpid>, windows: set<Dpid>, links: seq<Link>, json: seq<byte>)
    ensures var r := TopologyData(l, switches, windows, links, json, false);
            && (r.1 <==> windows == {})
            && (windows != {} ==> r.0.fabric == l.fabric && r.0.sent == l.sent
                                  && forall d | d in switches :: d in r.0.isWin && !r.0.isWin[d])
  {
    var marked := Windows(l.isWin, switches, {});
    assert forall d | d in switches :: d in marked && !marked[d];
  }

  lemma FeaturesKeep(l: Local, d: Dpid)
    requires LocalInv(l)
    ensures LocalInv(SwitchFeatures(l, d))
  {
    JoinKeeps(l.fabric, d);
  }

  lemma {:induction false} LinksTables(f: Fabric, links: seq<Link>)
    ensures AddLinks(f, links).macs == f.macs
  {
    if links != [] { LinksTables(f, links[..|links| - 1]); }
  }

  lemma DiscoverTables(f: Fabric, switches: set<Dpid>, links: seq<Link>)
    ensures Discover(f, switches, links).macs == f.macs
  {
    var g := f.(nodes := f.nodes + (set d | d in switches :: Sw(d)));
    LinksTables(g, links);
    LinksTables(AddLinks(g, links), Reversed(links));
  }

  lemma SwitchLeaveKeeps(l: Local, d: Dpid)
    requires LocalInv(l)
    ensures LocalInv(SwitchLeave(l, d).0)
  {
    if Sw(d) in l.fabric.nodes {
      LeaveKeeps(l.fabric, d);
      if d !in l.datapaths {
        assert Leave(l.fabric, d) == RemoveNode(l.fabric, Sw(d)) by {
          assert l.fabric.macs - {d} == l.fabric.macs;
          assert Leave(l.fabric, d).edges == RemoveNode(l.fabric, Sw(d)).edges;
        }
      }
    }
  }

  /** An exception of the packet-in handler's installation has one cause only: a switch of the path
      that is not connected to this controller. A hop without a port cannot be it. */
  lemma {:induction false} InstallRaises(f: Fabric, dps: set<Dpid>, s: Dpid, t: Node, path: seq<Node>, i: nat, k: Match,
                                         inPort: Port, buffer: Option<nat>, data: seq<byte>)
    requires Inv(f) && Shortest(f.edges.Keys, Sw(s), t, path)
    ensures Installs(f, dps, path, i, k, inPort, buffer, data).1 <==>
            forall j | i <= j < |path| - 1 && (j == i || buffer.None?) :: path[j].Sw? && path[j].dpid in dps
    decreases |path| - i
  {
    InteriorSwitches(f, s, t, path);
    if i + 1 < |path| && buffer.None? {
      InstallRaises(f, dps, s, t, path, i + 1, k, inPort, buffer, data);
    }
  }
}
