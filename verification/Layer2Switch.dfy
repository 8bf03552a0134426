/**
 The local controller of layer_2_switch.py with its dictionaries and its graph, and the xid
 counter of its agent. Every handler is proved against the step of the same name in `LocalSteps`.
 */
module Layer2Switch {
  import opened Base
  import opened Graphs
  import opened Fabric
  import opened FlowTables
  import opened Transit
  import opened Pending
  import W = Wire
  import L = LocalSteps

  class Layer2Switch {
    var lcid: Option<int>
    /** self.net and self.mac_to_port */
    var fabric: Fabric
    var datapaths: set<Dpid>
    var dpidToLoad: map<Dpid, nat>
    var interPorts: map<Dpid, seq<Port>>
    var dpidToIsWin: map<Dpid, bool>
    /** self.xid_to_packet, self.xid_to_packet_timestamp and self.xid_to_buffer_id */
    var pending: Pending
    var agentXid: nat
    var sent: seq<(W.Msg, nat)>
    var out: seq<ToSwitch>

    ghost function State(): L.Local
      reads this
    {
      L.Local(lcid, fabric, datapaths, dpidToLoad, interPorts, dpidToIsWin, pending, agentXid, sent, out)
    }

    ghost predicate Valid()
      reads this
    {
      L.LocalInv(State())
    }

    constructor (firstXid: nat)
      ensures Valid() && State() == L.Local(None, EMPTY, {}, map[], map[], map[], NONE, firstXid, [], [])
    {
      lcid, fabric, pending := None, EMPTY, NONE;
      datapaths, dpidToLoad, interPorts, dpidToIsWin := {}, map[], map[], map[];
      agentXid, sent, out := firstXid, [], [];
    }

    /** cc_agent.set_xid and cc_agent.send_msg */
    method Send(m: W.Msg)
      modifies this`agentXid, this`sent
      ensures agentXid == NextXid(old(agentXid)) && sent == old(sent) + [(m, agentXid)]
    {
      agentXid := (agentXid + 1) % XIDS;
      sent := sent + [(m, agentXid)];
    }

    method DropNode(n: Node)
      modifies this`fabric
      ensures fabric == RemoveNode(old(fabric), n)
    {
      fabric := fabric.(nodes := fabric.nodes - {n});
      fabric := fabric.(edges := map e | e in fabric.edges && e.0 != n && e.1 != n :: fabric.edges[e]);
    }

    method PutEdge(u: Node, v: Node, port: Option<Port>)
      modifies this`fabric
      ensures fabric == AddEdge(old(fabric), u, v, port)
    {
      fabric := fabric.(nodes := fabric.nodes + {u, v});
      if port.Some? || (u, v) !in fabric.edges {
        fabric := fabric.(edges := fabric.edges[(u, v) := port]);
      } else {
        assert fabric.edges[(u, v) := fabric.edges[(u, v)]] == fabric.edges;
      }
    }

    method HelloDown(id: int)
      modifies this`lcid
      ensures State() == old(State()).(lcid := Some(id))
    {
      lcid := Some(id);
    }

    method SwitchFeatures(d: Dpid)
      requires Valid()
      modifies this
      ensures Valid() && State() == L.SwitchFeatures(old(State()), d)
    {
      L.FeaturesKeep(State(), d);
      AddSwitch(d);
    }

    method AddSwitch(d: Dpid)
      modifies this`datapaths, this`dpidToLoad, this`fabric, this`interPorts, this`agentXid, this`sent, this`out
      ensures State() == L.SwitchFeatures(old(State()), d)
    {
      datapaths := datapaths + {d};
      dpidToLoad := dpidToLoad[d := 0];
      if d !in fabric.macs {
        fabric := fabric.(macs := fabric.macs[d := map[]]);
      }
      if d !in interPorts {
        interPorts := interPorts[d := []];
      }
      var isWindow := if d in dpidToIsWin then dpidToIsWin[d] else false;
      Send(W.DpConnected(d, isWindow));
      out := out + [TableMiss(d)];
    }

    /** The first loop of the learning branch: a host on the same port goes. */
    method PurgePort(d: Dpid, p: Port)
      requires Valid() && d in fabric.macs
      modifies this`fabric, this`agentXid, this`sent
      ensures var c := L.Clear(old(State()), d, p);
              fabric == c.fabric && agentXid == c.xid && sent == c.sent
    {
      var todo := fabric.macs[d].Keys;
      ghost var l := State();
      while todo != {}
        invariant todo <= fabric.macs[d].Keys && fabric == l.fabric && agentXid == l.xid && sent == l.sent
        invariant forall h | h in fabric.macs[d] && h !in todo :: fabric.macs[d][h] != p
        decreases todo
      {
        var h :| h in todo;
        todo := todo - {h};
        if fabric.macs[d][h] == p {
          PurgeOne(fabric, d, p, h);
          fabric := fabric.(macs := fabric.macs[d := fabric.macs[d] - {h}]);
          DropNode(Host(h));
          Send(W.HostLeave(d, h));
          return;
        }
      }
      assert HostsOn(fabric, d, p) == {};
    }

    /** The second loop: under the invariant it finds nothing, so its body never removes a host. */
    method PurgeEverywhere(src: Mac)
      requires Inv(fabric) && Host(src) !in fabric.nodes
    {
      SecondPurgeIdle(fabric, src);
      var todo := fabric.macs.Keys;
      while todo != {}
        invariant todo <= fabric.macs.Keys
        decreases todo
      {
        var d :| d in todo;
        todo := todo - {d};
        assert !On(fabric, d, src);
        if src in fabric.macs[d] {
          assert false;
        }
      }
    }

    method LearnHost(d: Dpid, p: Port, src: Mac)
      requires Valid() && d in fabric.macs && Host(src) !in fabric.nodes
      modifies this`fabric, this`agentXid, this`sent
      ensures var e := L.Enter(old(State()), d, p, src);
              fabric == e.fabric && agentXid == e.xid && sent == e.sent
    {
      PurgeKeeps(fabric, d, p);
      PurgePort(d, p);
      ghost var f := fabric;
      PurgeEverywhere(src);
      var table: map<Mac, Port> := fabric.macs[d][src := p];
      fabric := fabric.(macs := fabric.macs[d := table]);
      fabric := fabric.(nodes := fabric.nodes + {Host(src)});
      PutEdge(Sw(d), Host(src), Some(p));
      PutEdge(Host(src), Sw(d), None);
      assert fabric == Attach(f, d, p, src);
      Send(W.HostConnected(d, src));
    }

    /** The installation loop over the path. */
    method InstallPath(p: L.Packet, path: seq<Node>) returns (ok: bool)
      modifies this`out
      ensures var r := Installs(old(fabric), datapaths, path, 0, L.KeyOf(p), p.inPort, p.buffer, p.data);
              ok == r.1 && out == old(out) + r.0
    {
      var k := L.KeyOf(p);
      var i := 0;
      ghost var f, goal := fabric, Installs(fabric, datapaths, path, 0, k, p.inPort, p.buffer, p.data);
      while i + 1 < |path|
        invariant 0 <= i
        invariant var rest := Installs(f, datapaths, path, i, k, p.inPort, p.buffer, p.data);
                  goal.1 == rest.1 && old(out) + goal.0 == out + rest.0
      {
        ghost var rest, was := Installs(f, datapaths, path, i, k, p.inPort, p.buffer, p.data), out;
        var u, v := path[i], path[i + 1];
        if (u, v) !in fabric.edges || fabric.edges[(u, v)].None? || u.Host? || u.dpid !in datapaths {
          assert out + rest.0 == out;
          return false;
        }
        var port := fabric.edges[(u, v)].value;
        out := out + [FlowAdd(u.dpid, k, port, Released(p.buffer))];
        if p.buffer.Some? {
          return true;
        }
        out := out + [PacketOut(u.dpid, p.inPort, To(port), None, Some(p.data))];
        i := i + 1;
        ghost var later := Installs(f, datapaths, path, i, k, p.inPort, p.buffer, p.data);
        assert was + rest.0 == out + later.0;
      }
      assert out + [] == out;
      ok := true;
    }

    method AskCentral(p: L.Packet, now: int)
      modifies this`agentXid, this`pending, this`sent
      ensures agentXid == NextXid(old(agentXid))
      ensures pending == Register(old(pending), agentXid, now, p.buffer, p.data)
      ensures sent == old(sent) + [(L.Request(p), agentXid)]
    {
      agentXid := (agentXid + 1) % XIDS;
      pending := pending.(packets := pending.packets[agentXid := None]);
      pending := pending.(stamps := pending.stamps[agentXid := now]);
      pending := pending.(buffers := pending.buffers[agentXid := p.buffer]);
      if p.buffer.None? {
        pending := pending.(packets := pending.packets[agentXid := Some(p.data)]);
      }
      sent := sent + [(L.Request(p), agentXid)];
    }

    /** The part of the packet-in handler up to the learning of the source. */
    method Hear(p: L.Packet)
      requires Valid() && p.dpid in datapaths
      modifies this`dpidToLoad, this`fabric, this`agentXid, this`sent
      ensures State() == L.Heard(old(State()), p)
    {
      dpidToLoad := dpidToLoad[p.dpid := dpidToLoad[p.dpid] + 1];
      assert State() == old(State()).(load := dpidToLoad);
      if Host(p.src) !in fabric.nodes && p.inPort !in interPorts[p.dpid] {
        LearnHost(p.dpid, p.inPort, p.src);
      }
    }

    method PacketIn(p: L.Packet, now: int) returns (ok: bool, ghost path: seq<Node>)
      requires Valid()
      modifies this
      ensures Valid() && (State(), ok) == L.PacketIn(old(State()), p, now, path)
      ensures Sw(p.dpid) in fabric.nodes && Host(p.dst) in fabric.nodes && p.dst != L.LLDP_MAC
              && p.dpid in datapaths ==>
                L.Answer(fabric, Sw(p.dpid), Host(p.dst), path)
    {
      path := [];
      L.PacketInKeeps(State(), p, now, []);
      if p.dpid !in datapaths {
        return false, [];
      }
      if p.dst == L.LLDP_MAC {
        if p.inPort !in interPorts[p.dpid] {
          interPorts := interPorts[p.dpid := interPorts[p.dpid] + [p.inPort]];
        }
        return true, [];
      }
      L.HeardKeeps(State(), p);
      Hear(p);
      ok, path := Route(p, now);
    }

    method Route(p: L.Packet, now: int) returns (ok: bool, ghost path: seq<Node>)
      requires Valid()
      modifies this`out, this`agentXid, this`pending, this`sent
      ensures Valid() && (State(), ok) == L.Route(old(State()), p, now, path)
      ensures Sw(p.dpid) in fabric.nodes && Host(p.dst) in fabric.nodes
              ==> L.Answer(fabric, Sw(p.dpid), Host(p.dst), path)
    {
      path := [];
      ok := true;
      if Host(p.dst) in fabric.nodes {
        if Sw(p.dpid) !in fabric.nodes {
          return false, [];
        }
        var answer := ShortestPath(fabric.edges.Keys, Sw(p.dpid), Host(p.dst));
        if answer.Some? {
          path := answer.value;
          ok := InstallPath(p, answer.value);
        } else {
          assert out + [] == out;
        }
      } else if p.dst == L.BROADCAST_MAC {
        var data := if p.buffer.None? then Some(p.data) else None;
        out := out + [PacketOut(p.dpid, p.inPort, Flood, p.buffer, data)];
      } else if L.NotProtocol(p.dst) {
        AskCentral(p, now);
      }
      L.RouteKeeps(old(State()), p, now, path);
    }

    /** The loops of cc_flow_mod_handler over positions `i..n` of the path. */
    method InstallBetween(path: seq<Node>, first: nat, n: nat, k: Match) returns (ok: bool)
      requires n < |path|
      modifies this`out
      ensures var r := LoopRules(old(fabric), datapaths, path, first, n, k);
              ok == r.1 && State() == old(State()).(out := old(out) + r.0)
    {
      ghost var goal := LoopRules(fabric, datapaths, path, first, n, k);
      var i := first;
      while i < n
        invariant State().(out := []) == old(State()).(out := [])
        invariant var rest := LoopRules(fabric, datapaths, path, i, n, k);
                  goal.1 == rest.1 && old(out) + goal.0 == out + rest.0
      {
        ghost var rest := LoopRules(fabric, datapaths, path, i, n, k);
        var u, v := path[i], path[i + 1];
        if (u, v) !in fabric.edges || fabric.edges[(u, v)].None? || u.Host? || u.dpid !in datapaths {
          assert out + rest.0 == out;
          return false;
        }
        out := out + [FlowAdd(u.dpid, k, fabric.edges[(u, v)].value, None)];
        i := i + 1;
      }
      assert out + [] == out;
      ok := true;
    }

    /** The two branches of cc_flow_mod_handler once the path is known. */
    method InstallFlowMod(path: seq<Node>, inDpid: Dpid, outDpid: Dpid, k: Match, regionOut: Port,
                          buffer: Option<nat>, data: Option<seq<byte>>) returns (ok: bool)
      requires path != []
      modifies this`out
      ensures var r := FlowModMsgs(old(fabric), datapaths, path, inDpid, outDpid, k, regionOut, buffer, data);
              ok == r.1 && State() == old(State()).(out := old(out) + r.0)
    {
      ghost var was := out;
      if inDpid !in datapaths {
        assert out + [] == out;
        return false;
      }
      if inDpid == outDpid {
        out := out + [FlowAdd(inDpid, k, regionOut, Released(buffer))];
        return true;
      }
      if buffer.Some? {
        if |path| < 2 || (path[0], path[1]) !in fabric.edges || fabric.edges[(path[0], path[1])].None? {
          assert out + [] == out;
          return false;
        }
        ghost var head := [FlowAdd(inDpid, k, fabric.edges[(path[0], path[1])].value, Released(buffer))];
        ghost var mid := LoopRules(fabric, datapaths, path, 1, |path| - 1, k);
        out := out + [FlowAdd(inDpid, k, fabric.edges[(path[0], path[1])].value, Released(buffer))];
        ok := InstallBetween(path, 1, |path| - 1, k);
        assert out == was + (head + mid.0);
        if !ok || outDpid !in datapaths {
          return false;
        }
        out := out + [FlowAdd(outDpid, k, regionOut, None)];
        assert out == was + (head + mid.0 + [FlowAdd(outDpid, k, regionOut, None)]);
      } else {
        ghost var all := LoopRules(fabric, datapaths, path, 0, |path| - 1, k);
        ok := InstallBetween(path, 0, |path| - 1, k);
        if !ok || outDpid !in datapaths {
          return false;
        }
        out := out + [FlowAdd(outDpid, k, regionOut, None)];
        out := out + [PacketOut(outDpid, inDpid, To(regionOut), None, data)];
      }
    }

    method FlowMod(xid: nat, inDpid: Dpid, outDpid: Dpid, regionOut: Port, dst: Mac)
      returns (ok: bool, ghost path: seq<Node>)
      requires Valid()
      modifies this
      ensures Valid() && (State(), ok) == L.FlowMod(old(State()), xid, inDpid, outDpid, regionOut, dst, path)
      ensures Sw(inDpid) in fabric.nodes && Sw(outDpid) in fabric.nodes && outDpid in dpidToIsWin
              && inDpid in datapaths ==>
                L.Answer(fabric, Sw(inDpid), Sw(outDpid), path)
    {
      path, ok := [], true;
      if outDpid !in dpidToIsWin {
        return;
      }
      if inDpid !in datapaths {
        ok := false;
        return;
      }
      var buffer: Option<nat>, data: Option<seq<byte>> := None, None;
      ghost var before := State();
      if xid in pending.packets {
        data := pending.packets[xid];
        buffer := pending.buffers[xid];
        pending := Take(pending, xid);
      }
      assert State() == before.(pending := Take(before.pending, xid));
      if Sw(inDpid) !in fabric.nodes || Sw(outDpid) !in fabric.nodes {
        ok := false;
        return;
      }
      var answer := ShortestPath(fabric.edges.Keys, Sw(inDpid), Sw(outDpid));
      if answer.Some? {
        path := answer.value;
        ok := InstallFlowMod(answer.value, inDpid, outDpid, EthDst(dst), regionOut, buffer, data);
      }
    }

    /** _packet_timeout_handler */
    method PacketTimeout(now: int)
      requires Valid()
      modifies this`pending
      ensures Valid() && State() == old(State()).(pending := Expire(old(pending), now))
    {
      var todo := pending.stamps.Keys;
      ghost var done: set<nat> := {};
      ghost var p := pending;
      while todo != {}
        invariant todo !! done && todo + done == p.stamps.Keys
        invariant pending == Without(p, done * Overdue(p, now))
        decreases todo
      {
        var xid :| xid in todo;
        todo, done := todo - {xid}, done + {xid};
        if now - pending.stamps[xid] > TIMEOUT {
          pending := Take(pending, xid);
        }
      }
      assert done * Overdue(p, now) == Overdue(p, now);
    }

    /** cc_role_assign_handler */
    method RoleAssign(d: Dpid, role: int, gid: int) returns (ok: bool)
      modifies this`out
      ensures (State(), ok) == L.RoleAssign(old(State()), d, role, gid)
    {
      ok := d in datapaths;
      if ok {
        out := out + [RoleRequest(d, role, gid)];
      }
    }

    method PutLinks(links: seq<Link>)
      modifies this`fabric
      ensures fabric == AddLinks(old(fabric), links)
    {
      ghost var f := fabric;
      for i := 0 to |links|
        invariant fabric == AddLinks(f, links[..i])
      {
        assert links[..i + 1][..i] == links[..i];
        PutEdge(Sw(links[i].src), Sw(links[i].dst), Some(links[i].srcPort));
      }
      assert links[..|links|] == links;
    }

    method MarkWindows(switches: set<Dpid>, windows: set<Dpid>)
      modifies this`dpidToIsWin
      ensures dpidToIsWin == L.Windows(old(dpidToIsWin), switches, windows)
    {
      dpidToIsWin := map d | d in dpidToIsWin.Keys + switches :: if d in switches then false else dpidToIsWin[d];
      dpidToIsWin := map d | d in dpidToIsWin.Keys + windows :: if d in windows then true else dpidToIsWin[d];
    }

    /** get_topology_data; `texts` says that the entries of the window list are texts. */
    method TopologyData(switches: set<Dpid>, windows: set<Dpid>, links: seq<Link>, json: seq<byte>, texts: bool)
      returns (ok: bool)
      requires Valid()
      modifies this
      ensures Valid() && (State(), ok) == L.TopologyData(old(State()), switches, windows, links, json, texts)
    {
      L.TopologyKeeps(State(), switches, windows, links, json, texts);
      MarkWindows(switches, {});
      if windows != {} && !texts {
        return false;
      }
      AddTopology(switches, windows, links, json);
      ok := true;
    }

    method AddTopology(switches: set<Dpid>, windows: set<Dpid>, links: seq<Link>, json: seq<byte>)
      modifies this`dpidToIsWin, this`fabric, this`agentXid, this`sent
      ensures State() == L.Discovered(old(State()), switches, windows, links, json)
    {
      MarkWindows({}, windows);
      fabric := fabric.(nodes := fabric.nodes + (set d | d in switches :: Sw(d)));
      PutLinks(links);
      PutLinks(Reversed(links));
      Send(W.GraphInfo(json));
    }

    /** The hosts of a table leave the graph. */
    method RemoveHosts(d: Dpid)
      requires d in fabric.macs
      modifies this`fabric
      ensures fabric == WithoutHosts(old(fabric), old(fabric).macs[d].Keys)
    {
      var todo := fabric.macs[d].Keys;
      ghost var done: set<Mac> := {};
      ghost var f := fabric;
      assert WithoutHosts(f, {}) == f by {
        assert WithoutHosts(f, {}).edges == f.edges;
      }
      while todo != {}
        invariant todo !! done && todo + done == f.macs[d].Keys
        invariant fabric == WithoutHosts(f, done)
        decreases todo
      {
        var h :| h in todo;
        todo, done := todo - {h}, done + {h};
        DropNode(Host(h));
      }
      assert done == f.macs[d].Keys;
    }

    /** switch_leave_handler */
    method SwitchLeave(d: Dpid) returns (ok: bool)
      requires Valid()
      modifies this
      ensures Valid() && (State(), ok) == L.SwitchLeave(old(State()), d)
    {
      L.SwitchLeaveKeeps(State(), d);
      ok := RemoveSwitch(d);
    }

    method RemoveSwitch(d: Dpid) returns (ok: bool)
      requires datapaths == fabric.macs.Keys
      modifies this`fabric, this`datapaths, this`dpidToLoad, this`interPorts, this`agentXid, this`sent
      ensures (State(), ok) == L.SwitchLeave(old(State()), d)
    {
      if Sw(d) !in fabric.nodes {
        return false;
      }
      ghost var f := fabric;
      DropNode(Sw(d));
      if d !in datapaths {
        return false;
      }
      datapaths := datapaths - {d};
      dpidToLoad := dpidToLoad - {d};
      interPorts := interPorts - {d};
      RemoveHosts(d);
      fabric := fabric.(macs := fabric.macs - {d});
      LeaveIsRemoval(f, d);
      Send(W.DatapathLeave(d));
      ok := true;
    }
  }

  /** The graph without some hosts. */
  function WithoutHosts(f: Fabric, gone: set<Mac>): Fabric {
    f.(nodes := f.nodes - (set h | h in gone :: Host(h)),
       edges := map e | e in f.edges && !(e.0.Host? && e.0.mac in gone)
         && !(e.1.Host? && e.1.mac in gone) :: f.edges[e])
  }

  lemma LeaveIsRemoval(f: Fabric, d: Dpid)
    requires d in f.macs
    ensures var g := WithoutHosts(RemoveNode(f, Sw(d)), f.macs[d].Keys);
            g.(macs := g.macs - {d}) == Leave(f, d)
  {
    var g := WithoutHosts(RemoveNode(f, Sw(d)), f.macs[d].Keys);
    assert g.edges == Leave(f, d).edges;
  }

  /** Under the invariant a port has one host at most, so the loop's single removal is the purge. */
  lemma PurgeOne(f: Fabric, d: Dpid, p: Port, h: Mac)
    requires Inv(f) && On(f, d, h) && f.macs[d][h] == p
    ensures HostsOn(f, d, p) == {h}
    ensures Purge(f, d, p) == RemoveNode(f.(macs := f.macs[d := f.macs[d] - {h}]), Host(h))
  {
    assert forall m | m in HostsOn(f, d, p) :: On(f, d, m);
    assert HostsOn(f, d, p) == {h};
    var r := RemoveNode(f.(macs := f.macs[d := f.macs[d] - {h}]), Host(h));
    assert Purge(f, d, p).edges == r.edges;
    assert Purge(f, d, p).nodes == r.nodes;
  }
}
