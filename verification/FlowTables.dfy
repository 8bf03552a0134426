/**
 Flow tables of the switches, the rules the local controller puts into them, and why frames
 that follow the rules do not loop.
 */
module FlowTables {
  import opened Base
  import opened Graphs
  import opened Fabric

  /** What a rule matches: the destination MAC, or the addresses and ports of a TCP/UDP flow. */
  datatype Match = EthDst(mac: Mac) | FiveTuple(srcIp: int, dstIp: int, proto: int, srcPort: int, dstPort: int)

  /** Messages to switches. A rule carries the buffer whose packet it releases, if any. */
  datatype ToSwitch =
    | FlowAdd(dpid: Dpid, match_: Match, port: Port, buffer: Option<nat>)
    | PacketOut(dpid: Dpid, inPort: nat, out: OutPort, buffer: Option<nat>, data: Option<seq<byte>>)
    | RoleRequest(dpid: Dpid, role: int, gid: int)
    | TableMiss(dpid: Dpid)

  datatype OutPort = To(port: Port) | Flood

  /** All rules have priority 1, so a table is a map: by section 6.4 of the OpenFlow Switch
      Specification 1.3.0 a rule with the same match and priority takes the place of the old one. */
  type Tables = map<(Dpid, Match), Port>

  function Apply(t: Tables, msgs: seq<ToSwitch>): Tables
  {
    if msgs == [] then t
    else
      var before, m := Apply(t, msgs[..|msgs| - 1]), msgs[|msgs| - 1];
      if m.FlowAdd? then before[(m.dpid, m.match_) := m.port] else before
  }

  lemma {:induction false} ApplyConcat(t: Tables, a: seq<ToSwitch>, b: seq<ToSwitch>)
    ensures Apply(t, a + b) == Apply(Apply(t, a), b)
  {
    if b == [] {
      assert a + b == a;
    } else {
      var ab, c := a + b, b[..|b| - 1];
      assert ab[..|ab| - 1] == a + c;
      ApplyConcat(t, a, c);
    }
  }

  /** add_flow tests its buffer id for truth, so id 0 is dropped. */
  function Released(buffer: Option<nat>): Option<nat> {
    if buffer == Some(0) then None else buffer
  }

  /** The port from a node to the next: self.net[last_hop][next_hop]['port']; None is KeyError. */
  function HopPort(f: Fabric, u: Node, v: Node): Option<Port> {
    if (u, v) in f.edges then f.edges[(u, v)] else None
  }

  /** The installation loop of the packet-in handler from position `i` of the path on. A buffered
      packet ends it after the first rule; a missing port or datapath raises. */
  function Installs(f: Fabric, dps: set<Dpid>, path: seq<Node>, i: nat, k: Match, inPort: Port,
                    buffer: Option<nat>, data: seq<byte>): (r: (seq<ToSwitch>, bool))
    decreases |path| - i
  {
    if i + 1 >= |path| then ([], true)
    else
      var port := HopPort(f, path[i], path[i + 1]);
      if port.None? || path[i].Host? || path[i].dpid !in dps then ([], false)
      else
        var add := FlowAdd(path[i].dpid, k, port.value, Released(buffer));
        if buffer.Some? then ([add], true)
        else
          var rest := Installs(f, dps, path, i + 1, k, inPort, buffer, data);
          ([add, PacketOut(path[i].dpid, inPort, To(port.value), None, Some(data))] + rest.0, rest.1)
  }

  // ---------------------------------------------------------------------------
  // Rules towards the domain's own hosts
  // ---------------------------------------------------------------------------

  /** Where every host of the domain is, for good. */
  type Homes = map<Mac, (Dpid, Port)>

  /** One domain: what its controller knows, the switches it talks to, and their tables. */
  datatype Domain = Domain(fabric: Fabric, dps: set<Dpid>, tables: Tables)

  /** One port has one cable: it leads to one switch, or to hosts. */
  ghost predicate Cabled(f: Fabric, homes: Homes)
  {
    && (forall e, e' | e in SwitchEdges(f) && e' in SwitchEdges(f) && e.0 == e'.0 && f.edges[e] == f.edges[e'] ::
          e == e')
    && (forall e, h | e in SwitchEdges(f) && h in homes && e.0 == Sw(homes[h].0) :: f.edges[e] != Some(homes[h].1))
  }

  ghost predicate AtHome(f: Fabric, homes: Homes) {
    forall d, h | On(f, d, h) :: h in homes && homes[h] == (d, f.macs[d][h])
  }

  /** Following port `p` at switch `s` delivers to the home, or gets strictly nearer to it. */
  ghost predicate Toward(f: Fabric, s: Dpid, p: Port, home: (Dpid, Port)) {
    || (s == home.0 && p == home.1)
    || exists t :: NearerBy(f, s, p, t, home.0)
  }

  ghost predicate NearerBy(f: Fabric, s: Dpid, p: Port, t: Dpid, a: Dpid) {
    var E := SwitchEdges(f);
    && (Sw(s), Sw(t)) in E && f.edges[(Sw(s), Sw(t))] == Some(p)
    && Reaches(E, Sw(s), Sw(a)) && Reaches(E, Sw(t), Sw(a))
    && Dist(E, Sw(t), Sw(a)) < Dist(E, Sw(s), Sw(a))
  }

  /** `dest` says which host each match is for. */
  type Dest = Match -> Mac

  ghost predicate RulesPoint(f: Fabric, tables: Tables, homes: Homes, dest: Dest) {
    forall s, k | (s, k) in tables && dest(k) in homes :: Toward(f, s, tables[(s, k)], homes[dest(k)])
  }

  ghost predicate DomainInv(d: Domain, homes: Homes, dest: Dest) {
    Inv(d.fabric) && AtHome(d.fabric, homes) && Cabled(d.fabric, homes) && RulesPoint(d.fabric, d.tables, homes, dest)
  }

  /** The steps of a domain whose switches and links do not change: a packet from a host that may
      be new (it then shows up at its home) to a known host, over the path networkx picked; or the
      rules of a FLOW_MOD, which are for hosts of other domains. */
  datatype DomainEvent =
    | Packet(at: Dpid, inPort: Port, src: Mac, isNew: bool, dst: Mac, key: Match, buffer: Option<nat>,
             data: seq<byte>, path: seq<Node>)
    | Transit(msgs: seq<ToSwitch>)

  function Heard(d: Domain, e: DomainEvent): Fabric
    requires e.Packet?
  {
    if e.isNew && e.at in d.fabric.macs then Learn(d.fabric, e.at, e.inPort, e.src) else d.fabric
  }

  ghost predicate Legal(d: Domain, e: DomainEvent, homes: Homes, dest: Dest)
  {
    match e
    case Packet(at, inPort, src, isNew, dst, key, _, _, path) =>
      && dest(key) == dst
      && (isNew ==> Host(src) !in d.fabric.nodes && at in d.fabric.macs
                    && src in homes && homes[src] == (at, inPort))
      && (Host(dst) in Heard(d, e).nodes && path != [] ==> Shortest(Heard(d, e).edges.Keys, Sw(at), Host(dst), path))
    case Transit(msgs) =>
      forall m | m in msgs :: m.FlowAdd? ==> dest(m.match_) !in homes
  }

  function DomainStep(d: Domain, e: DomainEvent): Domain
  {
    match e
    case Packet(_, inPort, _, _, dst, key, buffer, data, path) =>
      var f := Heard(d, e);
      var msgs := if Host(dst) in f.nodes then Installs(f, d.dps, path, 0, key, inPort, buffer, data).0 else [];
      Domain(f, d.dps, Apply(d.tables, msgs))
    case Transit(msgs) => d.(tables := Apply(d.tables, msgs))
  }

  ghost predicate DomainRun(ds: seq<Domain>, es: seq<DomainEvent>, homes: Homes, dest: Dest) {
    && |ds| == |es| + 1
    && forall i | 0 <= i < |es| :: Legal(ds[i], es[i], homes, dest) && ds[i + 1] == DomainStep(ds[i], es[i])
  }

  /** Each rule the packet-in handler sends puts the frame one hop further on its path. */
  ghost predicate OnPath(f: Fabric, path: seq<Node>, k: Match, m: ToSwitch) {
    m.FlowAdd? ==> m.match_ == k && exists i :: PathRule(f, path, i, m.dpid, m.port)
  }

  ghost predicate PathRule(f: Fabric, path: seq<Node>, i: nat, s: Dpid, p: Port) {
    i + 1 < |path| && path[i] == Sw(s) && HopPort(f, path[i], path[i + 1]) == Some(p)
  }

  lemma {:induction false} InstallsOnPath(f: Fabric, dps: set<Dpid>, path: seq<Node>, i: nat, k: Match, inPort: Port,
                                          buffer: Option<nat>, data: seq<byte>)
    ensures forall m | m in Installs(f, dps, path, i, k, inPort, buffer, data).0 :: OnPath(f, path, k, m)
    decreases |path| - i
  {
    var r := Installs(f, dps, path, i, k, inPort, buffer, data).0;
    if r != [] {
      assert PathRule(f, path, i, r[0].dpid, r[0].port);
      if buffer.None? {
        InstallsOnPath(f, dps, path, i + 1, k, inPort, buffer, data);
        var rest := Installs(f, dps, path, i + 1, k, inPort, buffer, data).0;
        forall m | m in r ensures OnPath(f, path, k, m) {
          assert m == r[0] || m.PacketOut? || m in rest;
        }
      }
    }
  }

  /** A rule of a shortest path to a host leads towards its home. */
  lemma PathRuleToward(f: Fabric, homes: Homes, at: Dpid, dst: Mac, path: seq<Node>, i: nat, s: Dpid, p: Port)
    requires Inv(f) && AtHome(f, homes) && Host(dst) in f.nodes
    requires Shortest(f.edges.Keys, Sw(at), Host(dst), path) && PathRule(f, path, i, s, p)
    ensures dst in homes && Toward(f, s, p, homes[dst])
  {
    var a :| On(f, a, dst);
    HostPath(f, at, dst, a, path);
    if i + 2 < |path| {
      var q, E := path[..|path| - 1], SwitchEdges(f);
      assert (q[i], q[i + 1]) in E;
      SuffixShortest(E, Sw(at), Sw(a), q, i);
      SuffixShortest(E, Sw(at), Sw(a), q, i + 1);
      DistOfShortest(E, q[i], Sw(a), q[i..]);
      DistOfShortest(E, q[i + 1], Sw(a), q[i + 1..]);
      assert NearerBy(f, s, p, q[i + 1].dpid, a);
    }
  }

  lemma {:induction false} ApplyPoints(f: Fabric, t: Tables, homes: Homes, dest: Dest, msgs: seq<ToSwitch>)
    requires RulesPoint(f, t, homes, dest)
    requires forall m | m in msgs ::
               m.FlowAdd? && dest(m.match_) in homes ==> Toward(f, m.dpid, m.port, homes[dest(m.match_)])
    ensures RulesPoint(f, Apply(t, msgs), homes, dest)
    decreases |msgs|
  {
    if msgs != [] {
      var n := |msgs| - 1;
      assert forall m | m in msgs[..n] :: m in msgs;
      ApplyPoints(f, t, homes, dest, msgs[..n]);
      assert msgs[n] in msgs;
    }
  }

  /** Learning a leaf changes no distance, so the rules already installed still point the right way. */
  lemma LearnKeepsRules(d: Domain, homes: Homes, dest: Dest, at: Dpid, p: Port, h: Mac)
    requires DomainInv(d, homes, dest) && at in d.fabric.macs
    requires Host(h) !in d.fabric.nodes && h in homes && homes[h] == (at, p)
    ensures DomainInv(d.(fabric := Learn(d.fabric, at, p, h)), homes, dest)
  {
    var f := d.fabric;
    var g := Learn(f, at, p, h);
    LearnKeeps(f, at, p, h);
    LearnKeepsSwitches(f, at, p, h);
    LearnAtHome(f, homes, at, p, h);
    forall s, k | (s, k) in d.tables && dest(k) in homes ensures Toward(g, s, d.tables[(s, k)], homes[dest(k)]) {
      TowardAgain(f, g, s, d.tables[(s, k)], homes[dest(k)]);
    }
  }

  lemma LearnAtHome(f: Fabric, homes: Homes, at: Dpid, p: Port, h: Mac)
    requires AtHome(f, homes) && at in f.macs && h in homes && homes[h] == (at, p)
    ensures AtHome(Learn(f, at, p, h), homes)
  {
    var g := Learn(f, at, p, h);
    assert forall x, m | On(g, x, m) :: (x == at && m == h) || (On(f, x, m) && f.macs[x][m] == g.macs[x][m]);
  }

  lemma TowardAgain(f: Fabric, g: Fabric, s: Dpid, p: Port, home: (Dpid, Port))
    requires SwitchEdges(f) == SwitchEdges(g) && forall e | e in SwitchEdges(f) :: g.edges[e] == f.edges[e]
    requires Toward(f, s, p, home)
    ensures Toward(g, s, p, home)
  {
    if !(s == home.0 && p == home.1) {
      var t :| NearerBy(f, s, p, t, home.0);
      assert NearerBy(g, s, p, t, home.0);
    }
  }

  lemma HeardKeeps(d: Domain, e: DomainEvent, homes: Homes, dest: Dest)
    requires DomainInv(d, homes, dest) && Legal(d, e, homes, dest) && e.Packet?
    ensures DomainInv(d.(fabric := Heard(d, e)), homes, dest)
  {
    if e.isNew {
      LearnKeepsRules(d, homes, dest, e.at, e.inPort, e.src);
    }
  }

  lemma DomainStepKeeps(d: Domain, e: DomainEvent, homes: Homes, dest: Dest)
    requires DomainInv(d, homes, dest) && Legal(d, e, homes, dest)
    ensures DomainInv(DomainStep(d, e), homes, dest)
  {
    match e
    case Packet(at, inPort, _, _, dst, key, buffer, data, path) =>
      var f := Heard(d, e);
      HeardKeeps(d, e, homes, dest);
      if Host(dst) in f.nodes {
        var msgs := Installs(f, d.dps, path, 0, key, inPort, buffer, data).0;
        InstallsOnPath(f, d.dps, path, 0, key, inPort, buffer, data);
        forall m | m in msgs && m.FlowAdd? ensures dst in homes && Toward(f, m.dpid, m.port, homes[dst]) {
          assert OnPath(f, path, key, m);
          var i :| PathRule(f, path, i, m.dpid, m.port);
          PathRuleToward(f, homes, at, dst, path, i, m.dpid, m.port);
        }
        ApplyPoints(f, d.tables, homes, dest, msgs);
      }
    case Transit(msgs) =>
      ApplyPoints(d.fabric, d.tables, homes, dest, msgs);
  }

  /** Over whole runs, buffered or not and whatever shortest paths were picked, every rule for a
      host of the domain delivers or points strictly nearer. */
  lemma {:induction false} RunRulesPoint(ds: seq<Domain>, es: seq<DomainEvent>, homes: Homes, dest: Dest, n: nat)
    requires DomainRun(ds, es, homes, dest) && n < |ds| && DomainInv(ds[0], homes, dest)
    ensures DomainInv(ds[n], homes, dest)
  {
    if n > 0 {
      RunRulesPoint(ds, es, homes, dest, n - 1);
      DomainStepKeeps(ds[n - 1], es[n - 1], homes, dest);
    }
  }

  // ---------------------------------------------------------------------------
  // Frames
  // ---------------------------------------------------------------------------

  /** A frame that satisfies the matches `ks` may go from switch `s` to switch `t`. */
  ghost predicate Hop(d: Domain, ks: set<Match>, s: Dpid, t: Dpid) {
    exists k :: k in ks && (s, k) in d.tables && HopPort(d.fabric, Sw(s), Sw(t)) == Some(d.tables[(s, k)])
  }

  ghost predicate Route(d: Domain, ks: set<Match>, r: seq<Dpid>) {
    |r| > 0 && forall i | 0 <= i < |r| - 1 :: Hop(d, ks, r[i], r[i + 1])
  }

  /** How many switches away the switch `a` is. */
  ghost function Away(f: Fabric, a: Dpid, s: Dpid): Option<nat> {
    if Reaches(SwitchEdges(f), Sw(s), Sw(a)) then Some(Dist(SwitchEdges(f), Sw(s), Sw(a))) else None
  }

  lemma HopNearer(d: Domain, homes: Homes, dest: Dest, ks: set<Match>, dst: Mac, s: Dpid, t: Dpid)
    requires DomainInv(d, homes, dest) && dst in homes && (forall k | k in ks :: dest(k) == dst)
    requires Hop(d, ks, s, t)
    ensures var ds, dt := Away(d.fabric, homes[dst].0, s), Away(d.fabric, homes[dst].0, t);
            ds.Some? && dt.Some? && dt.value < ds.value
  {
    var k :| k in ks && (s, k) in d.tables && HopPort(d.fabric, Sw(s), Sw(t)) == Some(d.tables[(s, k)]);
    var p, E := d.tables[(s, k)], SwitchEdges(d.fabric);
    assert Toward(d.fabric, s, p, homes[dest(k)]);
    assert (Sw(s), Sw(t)) in E;
    var u :| NearerBy(d.fabric, s, p, u, homes[dst].0);
    assert (Sw(s), Sw(u)) == (Sw(s), Sw(t));
  }

  /** Every switch of the way is strictly nearer to `a` than all before it. */
  ghost predicate Approaches(f: Fabric, a: Dpid, r: seq<Dpid>) {
    && (forall i | 0 <= i < |r| :: Away(f, a, r[i]).Some?)
    && (forall i, j | 0 <= i < j < |r| :: Away(f, a, r[j]).value < Away(f, a, r[i]).value)
  }

  /** Loop freedom: whichever matching rule each switch uses, the way of a frame to a host of the
      domain gets nearer at every hop, so it visits no switch twice and is no longer than the
      distance from where it started. */
  lemma {:induction false} LoopFree(d: Domain, homes: Homes, dest: Dest, ks: set<Match>, dst: Mac, r: seq<Dpid>)
    requires DomainInv(d, homes, dest) && dst in homes && (forall k | k in ks :: dest(k) == dst)
    requires Route(d, ks, r) && |r| > 1
    ensures Approaches(d.fabric, homes[dst].0, r) && Simple(r)
    ensures |r| - 1 <= Away(d.fabric, homes[dst].0, r[0]).value
    decreases |r|
  {
    var f, a := d.fabric, homes[dst].0;
    assert Hop(d, ks, r[0], r[0 + 1]);
    if |r| > 2 {
      LoopFree(d, homes, dest, ks, dst, r[1..]);
    }
  }

  lemma {:induction false} RunSwitches(ds: seq<Domain>, es: seq<DomainEvent>, homes: Homes, dest: Dest, n: nat)
    requires DomainRun(ds, es, homes, dest) && n < |ds|
    ensures SwitchEdges(ds[n].fabric) == SwitchEdges(ds[0].fabric)
  {
    if n > 0 {
      RunSwitches(ds, es, homes, dest, n - 1);
      var d, e := ds[n - 1], es[n - 1];
      assert Legal(d, e, homes, dest) && ds[n - 1 + 1] == DomainStep(d, e);
      if e.Packet? && e.isNew { LearnKeepsSwitches(d.fabric, e.at, e.inPort, e.src); }
    }
  }

  /** A frame in flight while the run goes on: it makes its hop number `i` by the tables of the state
      number `times[i]`. */
  ghost predicate Flight(ds: seq<Domain>, ks: set<Match>, way: seq<Dpid>, times: seq<nat>) {
    && |way| == |times| + 1
    && forall i | 0 <= i < |times| :: times[i] < |ds| && Hop(ds[times[i]], ks, way[i], way[i + 1])
  }

  ghost predicate Nearer(f: Fabric, a: Dpid, s: Dpid, t: Dpid) {
    Away(f, a, s).Some? && Away(f, a, t).Some? && Away(f, a, t).value < Away(f, a, s).value
  }

  /** A run from a good state, and matches that are all for one host of the domain */
  ghost predicate Flying(ds: seq<Domain>, es: seq<DomainEvent>, homes: Homes, dest: Dest, ks: set<Match>, dst: Mac) {
    && DomainRun(ds, es, homes, dest) && DomainInv(ds[0], homes, dest)
    && dst in homes && (forall k | k in ks :: dest(k) == dst)
  }

  lemma FlightHop(ds: seq<Domain>, es: seq<DomainEvent>, homes: Homes, dest: Dest, ks: set<Match>, dst: Mac, n: nat,
                  s: Dpid, t: Dpid)
    requires Flying(ds, es, homes, dest, ks, dst) && n < |ds| && Hop(ds[n], ks, s, t)
    ensures Nearer(ds[0].fabric, homes[dst].0, s, t)
  {
    RunRulesPoint(ds, es, homes, dest, n);
    RunSwitches(ds, es, homes, dest, n);
    HopNearer(ds[n], homes, dest, ks, dst, s, t);
  }

  lemma {:induction false} FlightNearer(ds: seq<Domain>, es: seq<DomainEvent>, homes: Homes, dest: Dest,
                                        ks: set<Match>, dst: Mac, way: seq<Dpid>, times: seq<nat>, i: nat, j: nat)
    requires Flying(ds, es, homes, dest, ks, dst) && Flight(ds, ks, way, times) && i < j < |way|
    ensures Nearer(ds[0].fabric, homes[dst].0, way[i], way[j])
    decreases j
  {
    assert Hop(ds[times[j - 1]], ks, way[j - 1], way[j - 1 + 1]);
    FlightHop(ds, es, homes, dest, ks, dst, times[j - 1], way[j - 1], way[j]);
    if i < j - 1 { FlightNearer(ds, es, homes, dest, ks, dst, way, times, i, j - 1); }
  }

  /** A frame that is on its way while hosts are learned and rules change gets nearer at every hop
      too, whenever it makes it: distances between switches do not change. */
  lemma FlightLoopFree(ds: seq<Domain>, es: seq<DomainEvent>, homes: Homes, dest: Dest, ks: set<Match>, dst: Mac,
                       way: seq<Dpid>, times: seq<nat>)
    requires DomainRun(ds, es, homes, dest) && DomainInv(ds[0], homes, dest)
    requires dst in homes && (forall k | k in ks :: dest(k) == dst) && Flight(ds, ks, way, times)
    ensures Simple(way) && (|way| > 1 ==> Approaches(ds[0].fabric, homes[dst].0, way))
  {
    forall i, j | 0 <= i < j < |way| ensures Nearer(ds[0].fabric, homes[dst].0, way[i], way[j]) {
      FlightNearer(ds, es, homes, dest, ks, dst, way, times, i, j);
    }
    NearerApproaches(ds[0].fabric, homes[dst].0, way);
  }

  lemma NearerApproaches(f: Fabric, a: Dpid, way: seq<Dpid>)
    requires forall i, j | 0 <= i < j < |way| :: Nearer(f, a, way[i], way[j])
    ensures Simple(way) && (|way| > 1 ==> Approaches(f, a, way))
  {
    forall i, j | 0 <= i < j < |way| ensures way[i] != way[j] {
      assert Nearer(f, a, way[i], way[j]);
    }
    if |way| > 1 {
      forall i | 0 <= i < |way| ensures Away(f, a, way[i]).Some? {
        assert Nearer(f, a, way[0], way[if i == 0 then 1 else i]);
      }
    }
  }

  /** The end of the way: at a switch with a matching rule the frame is delivered to its host or
      goes on to another switch. So a way that cannot be prolonged ended at the host or at a miss. */
  lemma DeliveredOrOn(d: Domain, homes: Homes, dest: Dest, ks: set<Match>, dst: Mac, s: Dpid, k: Match)
    requires DomainInv(d, homes, dest) && dst in homes && dest(k) == dst
    requires k in ks && (s, k) in d.tables
    ensures (s, d.tables[(s, k)]) == homes[dst] || exists t :: Hop(d, ks, s, t)
    ensures (s, d.tables[(s, k)]) == homes[dst] ==>
              forall t :: HopPort(d.fabric, Sw(s), Sw(t)) != Some(d.tables[(s, k)])
  {
    var p := d.tables[(s, k)];
    assert Toward(d.fabric, s, p, homes[dest(k)]);
    if (s, p) != homes[dst] {
      var t :| NearerBy(d.fabric, s, p, t, homes[dst].0);
      assert Hop(d, ks, s, t);
    } else {
      forall t ensures HopPort(d.fabric, Sw(s), Sw(t)) != Some(p) {
        if (Sw(s), Sw(t)) in d.fabric.edges {
          assert (Sw(s), Sw(t)) in SwitchEdges(d.fabric);
        }
      }
    }
  }
}
