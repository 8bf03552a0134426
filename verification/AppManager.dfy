/**
 The central controller's manager with its registries: `AppManager`, and the `Datapath` and
 `LocalController` objects it keeps (app_manager.py, controller.py). Its handlers are proved
 against the steps of `Registry`, `DomainGraph`, `Stitching` and `Silence`.
 */
module AppManager {
  import opened Base
  import opened Graphs
  import opened Mailing
  import W = Wire
  import R = Registry
  import D = DomainGraph
  import S = Stitching
  import Quiet = Silence
  import Ro = Roles
  import N = Ids

  const XIDS: nat := 0x1_0000_0000
  const MASTER: int := 2

  /** The message that makes a controller the master of a datapath. */
  function Appointment(d: Dpid, c: Lcid, gid: nat): W.Msg {
    W.RoleAssign(d, c, MASTER, gid)
  }

  /** The connection to a local controller. `sent` are the messages queued for it, with their xids. */
  class LocalController {
    const address: nat
    var id: Option<Lcid>
    var xid: nat
    var dpidToRole: map<Dpid, int>
    var dpidToLoad: map<Dpid, int>
    var dpWin: set<Dpid>
    var sent: seq<(W.Msg, nat)>

    constructor (address: nat, firstXid: nat)
      ensures this.address == address && id == None && xid == firstXid && sent == []
      ensures dpidToRole == map[] && dpidToLoad == map[] && dpWin == {}
    {
      this.address := address;
      id, xid, dpidToRole, dpidToLoad, dpWin, sent := None, firstXid, map[], map[], {}, [];
    }

    /** send_msg of a message without xid */
    method SendMsg(m: W.Msg)
      modifies this`xid, this`sent
      ensures xid == (old(xid) + 1) % XIDS
      ensures sent == old(sent) + [(m, xid)]
    {
      xid := (xid + 1) % XIDS;
      sent := sent + [(m, xid)];
    }

    /** send_msg of a message that carries its xid already */
    method SendWithXid(m: W.Msg, x: nat)
      modifies this`sent
      ensures sent == old(sent) + [(m, x)]
    {
      sent := sent + [(m, x)];
    }
  }

  class Datapath {
    const id: Dpid
    var generationId: nat
    var mac: seq<Mac>
    var lcHome: LocalController?
    var lcConnected: seq<LocalController>
    var load: int
    /** What the ids were drawn for, the first first. */
    ghost var draws: seq<Ro.Draw>

    constructor (id: Dpid)
      ensures this.id == id && generationId == 1 && mac == [] && lcHome == null && lcConnected == [] && load == 0
      ensures draws == []
    {
      this.id := id;
      generationId, mac, lcHome, lcConnected, load := 1, [], null, [], 0;
      draws := [];
    }

    /** Each call gives the next id: strictly increasing over the life of the object. */
    method GetGenerationId(ghost use: Ro.Draw) returns (g: nat)
      modifies this`generationId, this`draws
      ensures g == old(generationId) && generationId == g + 1 && draws == old(draws) + [use]
    {
      generationId := generationId + 1;
      g := generationId - 1;
      draws := draws + [use];
    }

    method AddLc(lc: LocalController)
      modifies this`lcConnected
      ensures lcConnected == if lc in old(lcConnected) then old(lcConnected) else old(lcConnected) + [lc]
    {
      if lc !in lcConnected {
        lcConnected := lcConnected + [lc];
      }
    }

    /** list.remove, which raises if the controller is not connected */
    method DelLc(lc: LocalController) returns (ok: bool)
      modifies this`lcConnected
      ensures ok == (lc in old(lcConnected))
      ensures !ok ==> lcConnected == old(lcConnected)
      ensures ok ==> OneLess(old(lcConnected), lc, lcConnected)
    {
      var i := 0;
      while i < |lcConnected| && lcConnected[i] != lc
        invariant 0 <= i <= |lcConnected| && lc !in lcConnected[..i]
        invariant lcConnected == old(lcConnected)
      {
        i := i + 1;
      }
      if i == |lcConnected| {
        assert lcConnected[..i] == lcConnected;
        return false;
      }
      ok := true;
      lcConnected := lcConnected[..i] + lcConnected[i + 1..];
    }

    method AddMac(m: Mac)
      modifies this`mac
      ensures mac == R.Added(old(mac), m)
    {
      if m !in mac {
        mac := mac + [m];
      }
    }

    /** list.remove, which raises if the MAC is not in the list */
    method DelMac(m: Mac) returns (ok: bool)
      modifies this`mac
      ensures ok == (m in old(mac)) && mac == R.Remove(old(mac), m)
    {
      var i := 0;
      while i < |mac| && mac[i] != m
        invariant 0 <= i <= |mac| && m !in mac[..i] && mac == old(mac)
      {
        i := i + 1;
      }
      ok := i < |mac|;
      if !ok {
        assert mac[..i] == mac;
        return;
      }
      R.RemoveAt(mac[..i], m, mac[i + 1..]);
      assert mac == mac[..i] + [m] + mac[i + 1..];
      mac := mac[..i] + mac[i + 1..];
    }
  }

  /** One occurrence of `x` is out of the list, its first. */
  ghost predicate OneLess<A>(s: seq<A>, x: A, t: seq<A>) {
    exists i :: 0 <= i < |s| && s[i] == x && x !in s[..i] && t == s[..i] + s[i + 1..]
  }

  lemma OneLessDistinct<A>(s: seq<A>, x: A, t: seq<A>)
    requires Distinct(s) && OneLess(s, x, t)
    ensures Distinct(t) && x !in t && |t| == |s| - 1 && forall y | y in t :: y in s
  {
    var i :| 0 <= i < |s| && s[i] == x && x !in s[..i] && t == s[..i] + s[i + 1..];
    forall j | 0 <= j < |t| ensures t[j] == s[if j < i then j else j + 1] {
    }
  }

  class AppManager {
    /** Which key of several dict.keys()[0] gives. */
    const firstKey: D.Keyed -> nat
    var glcid: Lcid
    var lcipToLcid: map<nat, Lcid>
    var localCtrlList: map<Lcid, LocalController>
    var datapathList: map<Dpid, Datapath>
    var hostToLcid: map<Mac, Lcid>
    var topo: D.Topo
    /** self.lc_outline, self.lc_outline_0 and self.lc_outline_1, always set together */
    var flags: map<Lcid, Quiet.Flags>
    /** The controllers _ms_switch_execute was called for. */
    var switched: seq<Lcid>

    /** Distinct dpids have distinct objects. */
    ghost predicate Named()
      reads this`datapathList
    {
      forall d | d in datapathList :: datapathList[d].id == d
    }

    ghost predicate Valid()
      reads this, localCtrlList.Values
    {
      && Named()
      && Listed()
      && localCtrlList.Keys <= flags.Keys
      && (forall m: D.Keyed | m != map[] :: firstKey(m) in m)
    }

    /** The next id of each datapath is the number of those drawn, and one. */
    ghost predicate Numbered()
      reads this`datapathList, datapathList.Values`generationId, datapathList.Values`draws
    {
      forall d | d in datapathList :: datapathList[d].generationId == |datapathList[d].draws| + 1
    }

    /** A connected controller is in the list once, and has the datapath in its dictionaries. */
    ghost predicate Joined()
      reads this`datapathList, datapathList.Values`lcConnected,
        (set d, lc | d in datapathList && lc in datapathList[d].lcConnected :: lc)`dpidToRole,
        (set d, lc | d in datapathList && lc in datapathList[d].lcConnected :: lc)`dpidToLoad
    {
      forall d | d in datapathList ::
        && Distinct(datapathList[d].lcConnected)
        && forall lc | lc in datapathList[d].lcConnected :: d in lc.dpidToRole && d in lc.dpidToLoad
    }

    ghost function Macs(): map<Dpid, seq<Mac>>
      reads this`datapathList, datapathList.Values`mac
    {
      map d | d in datapathList :: datapathList[d].mac
    }

    ghost function Reg(): R.Registry
      reads this`hostToLcid, this`datapathList, datapathList.Values`mac
    {
      R.Registry(hostToLcid, Macs())
    }

    constructor (firstKey: D.Keyed -> nat)
      requires forall m: D.Keyed | m != map[] :: firstKey(m) in m
      ensures Valid() && Reg() == R.Registry(map[], map[]) && topo == D.Topo({}, map[])
      ensures Numbers() == N.START && Numbered() && Joined()
    {
      this.firstKey := firstKey;
      glcid, lcipToLcid, localCtrlList, datapathList, hostToLcid := 1, map[], map[], map[], map[];
      topo, flags, switched := D.Topo({}, map[]), map[], [];
    }

    ghost function Numbers(): N.Numbers
      reads this`glcid, this`lcipToLcid
    {
      N.Numbers(glcid, lcipToLcid)
    }

    /** The id of an address: the one it has, or the next one. */
    method IdFor(address: nat) returns (id: Lcid)
      modifies this`glcid, this`lcipToLcid, this`topo
      ensures id == if address in old(lcipToLcid) then old(lcipToLcid)[address] else old(glcid)
      ensures Numbers() == N.Greeted(old(Numbers()), address)
      ensures lcipToLcid == old(lcipToLcid)[address := id]
      ensures topo == if address in old(lcipToLcid) then old(topo) else old(topo).(nodes := old(topo).nodes + {id})
    {
      if address in lcipToLcid {
        id := lcipToLcid[address];
        assert lcipToLcid[address := id] == lcipToLcid;
      } else {
        id := glcid;
        lcipToLcid := lcipToLcid[address := glcid];
        topo := topo.(nodes := topo.nodes + {glcid});
        glcid := glcid + 1;
        if glcid > N.MAX_ID {
          glcid := 1;
        }
      }
    }

    /** _tflcp_hello_up_handler: the controller gets its id and counts as heard. */
    method HelloUp(lc: LocalController)
      requires Valid() && (lc.id.Some? ==> lc.address in lcipToLcid && lc.id == Some(lcipToLcid[lc.address]))
      modifies this`glcid, this`lcipToLcid, this`localCtrlList, this`topo, this`flags, lc`id, lc`xid, lc`sent
      ensures Valid() && lc.address in lcipToLcid && lc.id == Some(lcipToLcid[lc.address])
      ensures Numbers() == N.Greeted(old(Numbers()), lc.address)
      ensures lc.address in old(lcipToLcid) ==> lcipToLcid == old(lcipToLcid) && topo == old(topo)
      ensures lc.address !in old(lcipToLcid) ==>
                lcipToLcid == old(lcipToLcid)[lc.address := old(glcid)]
                && topo == old(topo).(nodes := old(topo).nodes + {old(glcid)})
      ensures localCtrlList == old(localCtrlList)[lc.id.value := lc]
      ensures flags == old(flags)[lc.id.value := Quiet.Step(Quiet.CLEAR, Quiet.Heard).0]
      ensures lc.sent == old(lc.sent) + [(W.HelloDown(lc.id.value), lc.xid)]
    {
      var id := IdFor(lc.address);
      lc.id := Some(id);
      localCtrlList := localCtrlList[id := lc];
      flags := flags[id := Quiet.CLEAR];
      lc.SendMsg(W.HelloDown(id));
    }

    /** _tflcp_echo_reply_handler */
    method EchoReply(lc: LocalController)
      requires Valid() && lc.id.Some?
      modifies this`flags
      ensures Valid() && flags == old(flags)[lc.id.value := Quiet.Step(Quiet.CLEAR, Quiet.Heard).0]
    {
      flags := flags[lc.id.value := Quiet.CLEAR];
    }

    /** _ms_switch_decide at one controller */
    method Visit(c: Lcid)
      requires c in flags
      modifies this`flags, this`switched
      ensures flags == old(flags)[c := Quiet.Tick(old(flags)[c]).0]
      ensures switched == old(switched) + if Quiet.Tick(old(flags)[c]).1 then [c] else []
    {
      var f := flags[c];
      if !f.out {
        if !f.first {
          f := f.(first := true);
          if f.second {
            f := f.(second := false);
          }
        } else {
          if f.second {
            f := f.(out := true);
            switched := switched + [c];
          } else {
            f := f.(second := true);
          }
        }
      }
      flags := flags[c := f];
    }

    /** One round of _ms_switch_decide over all controllers. */
    method MsSwitchDecide()
      requires Valid()
      modifies this`flags, this`switched
      ensures Valid() && flags.Keys == old(flags).Keys && old(switched) <= switched
      ensures forall c | c in flags ::
                flags[c] == if c in localCtrlList then Quiet.Tick(old(flags)[c]).0 else old(flags)[c]
      ensures forall c :: c in switched[|old(switched)|..] <==> c in localCtrlList && Quiet.Tick(old(flags)[c]).1
      ensures Distinct(switched[|old(switched)|..])
    {
      var todo := localCtrlList.Keys;
      ghost var fs, n := flags, |switched|;
      while todo != {}
        invariant todo <= localCtrlList.Keys && old(switched) <= switched
        invariant Visited(fs, flags, localCtrlList.Keys - todo, switched[n..])
        decreases todo
      {
        var c :| c in todo;
        todo := todo - {c};
        ghost var was, before := switched, flags;
        Visit(c);
        VisitedMore(fs, before, localCtrlList.Keys - todo - {c}, was[n..], c);
        assert switched[n..] == was[n..] + if Quiet.Tick(fs[c]).1 then [c] else [];
        assert localCtrlList.Keys - todo - {c} + {c} == localCtrlList.Keys - todo;
      }
    }

    /** The clearing loop of two handlers, over the very list it removes from. */
    method ClearMacs(dp: Datapath) returns (ok: bool)
      modifies this`hostToLcid, dp`mac
      ensures (hostToLcid, dp.mac, ok) == R.ClearFrom(old(hostToLcid), old(dp.mac), 0)
    {
      var i := 0;
      while i < |dp.mac|
        invariant R.ClearFrom(hostToLcid, dp.mac, i) == R.ClearFrom(old(hostToLcid), old(dp.mac), 0)
        decreases |dp.mac| - i
      {
        var m := dp.mac[i];
        if m !in hostToLcid {
          return false;
        }
        hostToLcid := hostToLcid - {m};
        var had := dp.DelMac(m);
        i := i + 1;
      }
      ok := true;
    }

    /** The controller becomes the datapath's home. */
    method Join(lc: LocalController, d: Dpid, dp: Datapath)
      requires Named() && d in datapathList && datapathList[d] == dp
      modifies dp`lcConnected, dp`lcHome, lc`dpidToRole, lc`dpidToLoad
      ensures dp.lcHome == lc
      ensures dp.lcConnected == if lc in old(dp.lcConnected) then old(dp.lcConnected) else old(dp.lcConnected) + [lc]
      ensures lc.dpidToRole == old(lc.dpidToRole)[d := MASTER] && lc.dpidToLoad == old(lc.dpidToLoad)[d := dp.load]
      ensures old(Joined()) ==> Joined()
    {
      dp.AddLc(lc);
      dp.lcHome := lc;
      lc.dpidToRole := lc.dpidToRole[d := MASTER];
      lc.dpidToLoad := lc.dpidToLoad[d := dp.load];
    }

    /** The next id of a datapath goes to its new home, which is to be its master. */
    method Appoint(lc: LocalController, d: Dpid, dp: Datapath)
      requires lc.id.Some? && Named() && d in datapathList && datapathList[d] == dp
      modifies dp`generationId, dp`draws, lc`xid, lc`sent
      ensures dp.generationId == old(dp.generationId) + 1
      ensures dp.draws == old(dp.draws) + [Ro.Assign(lc.id.value)]
      ensures lc.sent == old(lc.sent) + [(Appointment(d, lc.id.value, old(dp.generationId)), lc.xid)]
      ensures old(Numbered()) ==>
                && Numbered()
                && Ro.Issued(dp.draws) == Ro.Issued(old(dp.draws)) + [(lc.id.value, old(dp.generationId))]
    {
      Ro.IssuedMore(dp.draws, lc.id.value);
      var gid := dp.GetGenerationId(Ro.Assign(lc.id.value));
      lc.SendMsg(Appointment(d, lc.id.value, gid));
    }

    /** The end of _tflcp_datapath_connected_handler */
    method Adopt(lc: LocalController, d: Dpid, dp: Datapath)
      requires lc.id.Some? && Named() && d in datapathList && datapathList[d] == dp
      modifies dp`lcConnected, dp`lcHome, dp`generationId, dp`draws, lc`xid, lc`sent, lc`dpidToRole, lc`dpidToLoad
      ensures dp.lcHome == lc && lc in dp.lcConnected && dp.generationId == old(dp.generationId) + 1
      ensures lc.dpidToRole == old(lc.dpidToRole)[d := MASTER] && lc.dpidToLoad == old(lc.dpidToLoad)[d := dp.load]
      ensures lc.sent == old(lc.sent) + [(Appointment(d, lc.id.value, old(dp.generationId)), lc.xid)]
      ensures dp.draws == old(dp.draws) + [Ro.Assign(lc.id.value)]
      ensures old(Joined()) ==> Joined()
      ensures old(Numbered()) ==>
                && Numbered()
                && Ro.Issued(dp.draws) == Ro.Issued(old(dp.draws)) + [(lc.id.value, old(dp.generationId))]
    {
      Join(lc, d, dp);
      Appoint(lc, d, dp);
    }

    /** A datapath that is known connects again: its hosts are to be cleared first. */
    method Reconnect(lc: LocalController, d: Dpid) returns (ok: bool)
      requires Named() && lc.id.Some? && d in datapathList
      modifies this`hostToLcid, datapathList.Values, lc`xid, lc`sent, lc`dpidToRole, lc`dpidToLoad
      ensures Named() && (Reg(), ok) == R.Clear(old(Reg()), d)
      ensures ok ==> Appointed(lc, d, old(lc.sent), old(datapathList[d].generationId))
      ensures ok && old(Numbered()) ==> Ro.Issued(datapathList[d].draws) == Ro.Issued(old(datapathList[d].draws))
                                        + [(lc.id.value, old(datapathList[d].generationId))]
      ensures (old(Numbered()) ==> Numbered()) && (old(Joined()) ==> Joined())
    {
      var dp := datapathList[d];
      ok := ClearMacs(dp);
      assert Macs() == old(Macs())[d := dp.mac];
      if ok {
        Adopt(lc, d, dp);
      }
    }

    method Open(d: Dpid) returns (dp: Datapath)
      requires Named() && d !in datapathList
      modifies this`datapathList
      ensures fresh(dp) && datapathList == old(datapathList)[d := dp] && Named()
      ensures dp.draws == [] && dp.generationId == 1 && Macs() == old(Macs())[d := []]
      ensures (old(Numbered()) ==> Numbered()) && (old(Joined()) ==> Joined())
    {
      dp := new Datapath(d);
      datapathList := datapathList[d := dp];
      assert Macs() == old(Macs())[d := []];
    }

    /** A datapath that is not known gets an object. */
    method FirstConnect(lc: LocalController, d: Dpid)
      requires Named() && lc.id.Some? && d !in datapathList
      modifies this`datapathList, lc`xid, lc`sent, lc`dpidToRole, lc`dpidToLoad
      ensures Named() && Reg() == old(Reg()).(macs := old(Macs())[d := []])
      ensures Appointed(lc, d, old(lc.sent), 1)
      ensures old(Numbered()) ==> Ro.Issued(datapathList[d].draws) == Ro.Issued([]) + [(lc.id.value, 1)]
      ensures (old(Numbered()) ==> Numbered()) && (old(Joined()) ==> Joined())
    {
      var dp := Open(d);
      Adopt(lc, d, dp);
    }

    /** The controller is connected, home, and told to be master with id `gid`; the next one is due. */
    ghost predicate Appointed(lc: LocalController, d: Dpid, was: seq<(W.Msg, nat)>, gid: nat)
      requires lc.id.Some?
      reads this`datapathList, datapathList.Values`lcHome, datapathList.Values`lcConnected,
        datapathList.Values`generationId, lc`id, lc`xid, lc`sent
    {
      && d in datapathList && datapathList[d].lcHome == lc && lc in datapathList[d].lcConnected
      && datapathList[d].generationId == gid + 1
      && lc.sent == was + [(Appointment(d, lc.id.value, gid), lc.xid)]
    }

    /** _tflcp_datapath_connected_handler */
    method DatapathConnected(lc: LocalController, d: Dpid) returns (ok: bool)
      requires Valid() && lc.id.Some?
      modifies this`hostToLcid, this`datapathList, datapathList.Values, lc`xid, lc`sent, lc`dpidToRole, lc`dpidToLoad
      ensures Valid() && (Reg(), ok) == R.Connected(old(Reg()), d)
      ensures d in datapathList && (d in old(datapathList) ==> datapathList == old(datapathList))
      ensures ok ==>
                Appointed(lc, d, old(lc.sent), if d in old(datapathList) then old(datapathList[d].generationId) else 1)
      ensures ok && old(Numbered()) ==>
                var gid := if d in old(datapathList) then old(datapathList[d].generationId) else 1;
                Ro.Issued(datapathList[d].draws)
                == Ro.Issued(if d in old(datapathList) then old(datapathList[d].draws) else []) + [(lc.id.value, gid)]
      ensures (old(Numbered()) ==> Numbered()) && (old(Joined()) ==> Joined())
    {
      if d in datapathList {
        ok := Reconnect(lc, d);
      } else {
        FirstConnect(lc, d);
        ok := true;
      }
    }

    /** _tflcp_gid_request_handler */
    method GidRequest(lc: LocalController, d: Dpid) returns (ok: bool)
      requires Valid()
      modifies datapathList.Values`generationId, datapathList.Values`draws, lc`xid, lc`sent
      ensures Valid() && ok == (d in datapathList) && Macs() == old(Macs())
      ensures ok ==> lc.sent == old(lc.sent) + [(W.GidReply(d, old(datapathList[d].generationId)), lc.xid)]
                     && datapathList[d].generationId == old(datapathList[d].generationId) + 1
                     && datapathList[d].draws == old(datapathList[d].draws) + [Ro.Reply]
      ensures forall e | e in datapathList && e != d :: unchanged(datapathList[e])
      ensures old(Numbered()) ==> Numbered()
    {
      if d !in datapathList {
        return false;
      }
      var gid := datapathList[d].GetGenerationId(Ro.Reply);
      lc.SendMsg(W.GidReply(d, gid));
      ok := true;
    }

    /** The search for the datapath that has the MAC. */
    method ForgetMac(m: Mac)
      requires Named()
      modifies datapathList.Values`mac
      ensures R.Forgets(old(Macs()), m, Macs())
    {
      var todo := datapathList.Keys;
      while todo != {}
        invariant todo <= datapathList.Keys && Macs() == old(Macs())
        invariant forall d | d in datapathList && d !in todo :: m !in datapathList[d].mac
        decreases todo
      {
        var d :| d in todo;
        todo := todo - {d};
        if m in datapathList[d].mac {
          var had := datapathList[d].DelMac(m);
          assert Macs() == old(Macs())[d := R.Remove(old(Macs())[d], m)];
          return;
        }
      }
    }

    method AddHost(d: Dpid, m: Mac) returns (ok: bool)
      requires Named()
      modifies datapathList.Values`mac
      ensures ok == (d in datapathList)
      ensures Macs() == if ok then old(Macs())[d := R.Added(old(Macs())[d], m)] else old(Macs())
    {
      ok := d in datapathList;
      if ok {
        datapathList[d].AddMac(m);
        assert Macs() == old(Macs())[d := R.Added(old(Macs())[d], m)];
      }
    }

    /** _tflcp_host_connected_handler. `mid` are the MAC lists after the search. */
    method HostConnected(lc: LocalController, d: Dpid, m: Mac) returns (ok: bool, ghost mid: map<Dpid, seq<Mac>>)
      requires Valid() && lc.id.Some?
      modifies this`hostToLcid, datapathList.Values`mac
      ensures Valid() && ok == (d in datapathList)
      ensures R.HostConnects(old(Reg()), lc.id.value, d, m, mid, Reg())
    {
      ghost var hosts := hostToLcid;
      if m in hostToLcid {
        hostToLcid := hostToLcid - {m};
        ForgetMac(m);
      }
      hostToLcid := hostToLcid[m := lc.id.value];
      assert hostToLcid == hosts[m := lc.id.value];
      mid := Macs();
      ok := AddHost(d, m);
    }

    /** _tflcp_host_leave_handler */
    method HostLeave(d: Dpid, m: Mac) returns (ok: bool)
      requires Valid()
      modifies this`hostToLcid, datapathList.Values`mac
      ensures Valid() && (Reg(), ok) == R.HostLeave(old(Reg()), d, m)
    {
      ghost var was := Macs();
      if m in hostToLcid {
        hostToLcid := hostToLcid - {m};
      } else {
        assert hostToLcid - {m} == hostToLcid;
      }
      if d !in datapathList {
        return false;
      }
      if m in datapathList[d].mac {
        var had := datapathList[d].DelMac(m);
      }
      assert Macs() == was[d := R.Remove(was[d], m)];
      ok := true;
    }

    /** LC_LEVEL_TOPO.remove_edge(u, v): some edge of the pair goes; there must be one. */
    method RemoveEdge(p: D.Pair) returns (ghost k: nat)
      requires p in topo.edges && topo.edges[p] != map[]
      modifies this`topo
      ensures k in old(topo).edges[p] && topo == D.WithKeys(old(topo), p, old(topo).edges[p] - {k})
    {
      var m := topo.edges[p];
      var key :| key in m.Keys;
      var rest: D.Keyed := m - {key};
      k := key;
      if rest == map[] {
        topo := topo.(edges := topo.edges - {p});
      } else {
        topo := topo.(edges := topo.edges[p := rest]);
      }
    }

    method ThinOne(p: D.Pair, ghost t: D.Topo, ghost rest: D.Keyed) returns (ghost less: D.Keyed)
      requires topo == D.WithKeys(t, p, rest) && rest != map[]
      modifies this`topo
      ensures topo == D.WithKeys(t, p, less) && exists j :: j in rest && less == rest - {j}
    {
      ghost var j := RemoveEdge(p);
      less := rest - {j};
      WithKeysTwice(t, p, rest, less);
    }

    /** The removal loop over the edges of one pair, as they were when the loop began. */
    method ThinPair(p: D.Pair, d: Dpid) returns (ghost rest: D.Keyed)
      requires p in topo.edges && topo.edges[p] != map[]
      modifies this`topo
      ensures D.Thinned(old(topo).edges[p], d, rest) && topo == D.WithKeys(old(topo), p, rest)
    {
      ghost var t := topo;
      var m := topo.edges[p];
      var todo := m.Keys;
      ghost var gone: set<nat> := {};
      rest := m;
      while todo != {}
        invariant Thinning(m, d, todo, gone, rest) && topo == D.WithKeys(t, p, rest)
        decreases todo
      {
        var k :| k in todo;
        if D.Mentions(m[k], d) {
          SomeLeft(m, d, todo, gone, rest, k);
          ghost var less := ThinOne(p, t, rest);
          ThinTake(m, d, todo, gone, rest, k, less);
          rest, gone := less, gone + {k};
        } else {
          ThinSkip(m, d, todo, gone, rest, k);
        }
        todo := todo - {k};
      }
      assert gone == D.MentionKeys(m, d);
    }

    /** The loop over LC_LEVEL_TOPO.edges(data=True), pair by pair. */
    method RemoveMentions(d: Dpid)
      requires D.Sensible(topo)
      modifies this`topo
      ensures D.LeaveResult(old(topo), d, topo)
    {
      ghost var t := topo;
      var todo := topo.edges.Keys;
      while todo != {}
        invariant todo <= t.edges.Keys && topo.nodes == t.nodes && topo.edges.Keys <= t.edges.Keys
        invariant forall p | p in todo :: p in topo.edges && topo.edges[p] == t.edges[p]
        invariant forall p | p in t.edges && p !in todo :: ThinnedAt(t, d, topo, p)
        decreases todo
      {
        var p :| p in todo;
        todo := todo - {p};
        ghost var before := topo;
        ghost var rest := ThinPair(p, d);
        ThinnedStep(t, d, before, p, rest, todo);
      }
    }

    /** The registry's part of _tflcp_datapath_leave_handler. */
    method Unregister(d: Dpid) returns (ok: bool)
      requires Named() && d in datapathList
      modifies this`hostToLcid, this`datapathList, datapathList.Values`mac
      ensures (Reg(), ok) == R.Leave(old(Reg()), d, |old(datapathList[d].lcConnected)| == 1)
      ensures datapathList == old(datapathList) || datapathList == old(datapathList) - {d}
      ensures ok ==> (d in datapathList <==> |old(datapathList[d].lcConnected)| != 1)
      ensures Named() && (old(Joined()) ==> Joined())
    {
      var dp := datapathList[d];
      ok := ClearMacs(dp);
      assert Macs() == old(Macs())[d := dp.mac];
      if ok && |dp.lcConnected| == 1 {
        ghost var was := Macs();
        datapathList := datapathList - {d};
        assert Macs() == was - {d};
      }
    }

    /** The controller forgets the datapath, and the datapath the controller. */
    method Part(lc: LocalController, d: Dpid, dp: Datapath) returns (ok: bool)
      requires Named() && dp.id == d && (d in datapathList ==> datapathList[d] == dp)
      modifies dp`lcConnected, lc`dpidToRole, lc`dpidToLoad, lc`dpWin
      ensures ok <==> d in old(lc.dpidToRole) && d in old(lc.dpidToLoad) && lc in old(dp.lcConnected)
      ensures lc.dpidToRole == old(lc.dpidToRole) - {d}
      ensures lc.dpidToLoad == if d in old(lc.dpidToRole) then old(lc.dpidToLoad) - {d} else old(lc.dpidToLoad)
      ensures lc.dpWin == if ok then old(lc.dpWin) - {d} else old(lc.dpWin)
      ensures !ok ==> dp.lcConnected == old(dp.lcConnected)
      ensures ok ==> OneLess(old(dp.lcConnected), lc, dp.lcConnected)
      ensures ok && old(Joined()) ==> Joined()
    {
      if d !in lc.dpidToRole {
        assert lc.dpidToRole - {d} == lc.dpidToRole;
        return false;
      }
      lc.dpidToRole := lc.dpidToRole - {d};
      if d !in lc.dpidToLoad {
        assert lc.dpidToLoad - {d} == lc.dpidToLoad;
        return false;
      }
      lc.dpidToLoad := lc.dpidToLoad - {d};
      ghost var was := dp.lcConnected;
      ok := dp.DelLc(lc);
      if ok {
        if Distinct(was) { OneLessDistinct(was, lc, dp.lcConnected); }
        lc.dpWin := lc.dpWin - {d};
      }
    }

    /** What DATAPATH_LEAVE needs: the datapath and the hosts of its list are known, and the controller
        has the datapath in its dictionaries and is one of those connected to it. */
    ghost predicate CanLeave(lc: LocalController, d: Dpid)
      reads this`hostToLcid, this`datapathList, datapathList.Values`mac, datapathList.Values`lcConnected,
        lc`dpidToRole, lc`dpidToLoad
    {
      && d in datapathList && R.Clear(Reg(), d).1
      && d in lc.dpidToRole && d in lc.dpidToLoad && lc in datapathList[d].lcConnected
    }

    /** _tflcp_datapath_leave_handler up to the edges of the domain graph */
    method DropDatapath(lc: LocalController, d: Dpid) returns (ok: bool)
      requires Valid() && d in datapathList
      modifies this`hostToLcid, this`datapathList, datapathList.Values`mac, datapathList.Values`lcConnected,
        lc`dpidToRole, lc`dpidToLoad, lc`dpWin
      ensures Valid() && ok == old(CanLeave(lc, d))
      ensures Reg() == R.Leave(old(Reg()), d, |old(datapathList[d].lcConnected)| == 1).0
      ensures datapathList == old(datapathList) || datapathList == old(datapathList) - {d}
      ensures ok ==> (d in datapathList <==> |old(datapathList[d].lcConnected)| > 1)
      ensures ok ==> Left(lc, d) && OneLess(old(datapathList[d].lcConnected), lc, old(datapathList[d]).lcConnected)
      ensures ok && old(Joined()) ==> Joined()
    {
      var dp := datapathList[d];
      ok := Unregister(d);
      if ok {
        ok := Part(lc, d, dp);
      }
    }

    /** The controller has forgotten the datapath and nothing else. */
    twostate predicate Left(lc: LocalController, d: Dpid)
      reads lc`dpidToRole, lc`dpidToLoad, lc`dpWin
    {
      && lc.dpidToRole == old(lc.dpidToRole) - {d} && lc.dpidToLoad == old(lc.dpidToLoad) - {d}
      && lc.dpWin == old(lc.dpWin) - {d}
    }

    lemma ConnectedCanLeave(lc: LocalController, d: Dpid)
      ensures Joined() && R.Inv(Reg()) && d in datapathList && lc in datapathList[d].lcConnected ==> CanLeave(lc, d)
    {
      if R.Inv(Reg()) && d in datapathList {
        R.ClearKeeps(Reg(), d);
      }
    }

    /** _tflcp_datapath_leave_handler */
    method DatapathLeave(lc: LocalController, d: Dpid) returns (ok: bool)
      requires Valid() && D.Sensible(topo)
      modifies this`hostToLcid, this`datapathList, this`topo, datapathList.Values`mac, datapathList.Values`lcConnected,
        lc`dpidToRole, lc`dpidToLoad, lc`dpWin
      ensures Valid() && ok == old(CanLeave(lc, d))
      ensures d !in old(datapathList) ==> Reg() == old(Reg())
      ensures d in old(datapathList) ==> Reg() == R.Leave(old(Reg()), d, |old(datapathList[d].lcConnected)| == 1).0
      ensures ok ==> Left(lc, d) && OneLess(old(datapathList[d].lcConnected), lc, old(datapathList[d]).lcConnected)
      ensures ok ==> (d in datapathList <==> |old(datapathList[d].lcConnected)| > 1)
      ensures if ok then D.LeaveResult(old(topo), d, topo) else topo == old(topo)
      ensures old(Joined() && R.Inv(Reg()) && d in datapathList && lc in datapathList[d].lcConnected) ==> ok && Joined()
    {
      if d !in datapathList {
        return false;
      }
      ConnectedCanLeave(lc, d);
      ok := DropDatapath(lc, d);
      if ok {
        RemoveMentions(d);
      }
    }

    /** The home controllers' ids. */
    ghost predicate Homed()
      reads this`datapathList, datapathList.Values`lcHome,
        set d | d in datapathList && datapathList[d].lcHome != null :: datapathList[d].lcHome
    {
      forall d | d in datapathList :: datapathList[d].lcHome != null && datapathList[d].lcHome.id.Some?
    }

    ghost function Homes(): map<Dpid, Lcid>
      requires Homed()
      reads this`datapathList, datapathList.Values`lcHome,
        set d | d in datapathList && datapathList[d].lcHome != null :: datapathList[d].lcHome
    {
      map d | d in datapathList :: datapathList[d].lcHome.id.value
    }

    /** One window of the GRAPH_INFO handler */
    method AddWindow(w: D.Window) returns (ok: bool)
      requires Homed()
      modifies this`topo
      ensures (topo, ok) == D.AddWindow(old(topo), Homes(), w)
    {
      if w.srcDpid !in datapathList || w.dstDpid !in datapathList {
        return true;
      }
      var u, v := datapathList[w.srcDpid].lcHome.id.value, datapathList[w.dstDpid].lcHome.id.value;
      if u == v {
        return true;
      }
      if D.Linked(topo, u, v, D.EdgeOf(w)) {
        return true;
      }
      if u !in topo.nodes || v !in topo.nodes {
        return false;
      }
      topo := D.AddEdge(topo, (u, v), D.EdgeOf(w));
      topo := D.AddEdge(topo, (v, u), D.Swap(D.EdgeOf(w)));
      ok := true;
    }

    /** _tflcp_graph_info_handler */
    method GraphInfo(ws: seq<D.Window>) returns (ok: bool)
      requires Homed()
      modifies this`topo
      ensures (topo, ok) == D.AddWindows(old(topo), Homes(), ws)
    {
      ghost var goal := D.AddWindows(topo, Homes(), ws);
      var i := 0;
      while i < |ws|
        invariant 0 <= i <= |ws| && D.AddWindows(topo, Homes(), ws[i..]) == goal
      {
        assert ws[i..][1..] == ws[i + 1..];
        ok := AddWindow(ws[i]);
        if !ok {
          return;
        }
        i := i + 1;
      }
      ok := true;
    }

    ghost function Pick(): S.Pick
      reads this`topo
    {
      var t := topo;
      p => firstKey(D.KeysOf(t, p))
    }

    /** The body of the dispatch loop up to the sending. */
    method NextOrder(path: seq<Lcid>, i: nat, src: Lcid, inDpid: Dpid, dst: Mac) returns (o: Option<S.Order>)
      requires i + 1 < |path|
      ensures o == S.OrderAt(topo, Pick(), localCtrlList.Keys, path, i, src, inDpid, dst)
    {
      var edges := D.KeysOf(topo, (path[i], path[i + 1]));
      var key := firstKey(edges);
      if key !in edges || path[i] !in localCtrlList {
        return None;
      }
      var wildcards, enter := 0, inDpid;
      if src == path[i] {
        wildcards := 1;
      }
      if wildcards == 0 {
        var before := D.KeysOf(topo, (if i == 0 then path[|path| - 1] else path[i - 1], path[i]));
        if 0 !in before {
          return None;
        }
        enter := before[0].rightDpid;
      }
      o := Some(S.Order(path[i], enter, edges[key].leftDpid, edges[key].outPort, dst, wildcards));
    }

    /** The messages queued for each controller of the list. */
    ghost function Queues(): map<Lcid, seq<(W.Msg, nat)>>
      reads this`localCtrlList, localCtrlList.Values`sent
    {
      map c | c in localCtrlList :: localCtrlList[c].sent
    }

    ghost predicate Listed()
      reads this`localCtrlList, localCtrlList.Values`id
    {
      forall c | c in localCtrlList :: localCtrlList[c].id == Some(c)
    }

    method SendOrder(o: S.Order, xid: nat)
      requires Listed() && o.lcid in localCtrlList
      modifies localCtrlList.Values`sent
      ensures Queues() == old(Queues())[o.lcid := old(Queues())[o.lcid] + [(OrderMsg(o), xid)]]
    {
      localCtrlList[o.lcid].SendWithXid(OrderMsg(o), xid);
    }

    method SendNext(o: S.Order, xid: nat, ghost was: map<Lcid, seq<(W.Msg, nat)>>, ghost os: seq<S.Order>)
      requires Listed() && o.lcid in localCtrlList && o.lcid in was && Queues() == WithMail(was, os, xid)
      modifies localCtrlList.Values`sent
      ensures Queues() == WithMail(was, os + [o], xid)
    {
      MailMore(was, os, o, xid);
      SendOrder(o, xid);
    }

    /** `NextOrder` as one step of the loop towards `goal`. */
    method StepOrder(path: seq<Lcid>, i: nat, src: Lcid, inDpid: Dpid, dst: Mac, ghost os: seq<S.Order>,
                     ghost goal: (seq<S.Order>, bool))
      returns (o: Option<S.Order>)
      requires i + 1 < |path| && S.Going(topo, Pick(), localCtrlList.Keys, path, i, src, inDpid, dst, os, goal)
      ensures o == None ==> goal == (os, false)
      ensures o.Some? ==> o.value.lcid in localCtrlList
      ensures o.Some? ==> S.Going(topo, Pick(), localCtrlList.Keys, path, i + 1, src, o.value.inDpid, dst,
              os + [o.value], goal)
    {
      S.GoesOn(topo, Pick(), localCtrlList.Keys, path, i, src, inDpid, dst, os, goal);
      o := NextOrder(path, i, src, inDpid, dst);
    }

    /** The dispatch loop of _tflcp_packet_in_handler over the path. */
    method Dispatch(path: seq<Lcid>, src: Lcid, inDpid: Dpid, dst: Mac, xid: nat)
      returns (ok: bool, ghost os: seq<S.Order>)
      requires Listed()
      modifies localCtrlList.Values`sent
      ensures (os, ok) == S.Stitch(topo, Pick(), localCtrlList.Keys, path, 0, src, inDpid, dst)
      ensures Queues() == WithMail(old(Queues()), os, xid)
    {
      ghost var goal := S.Stitch(topo, Pick(), localCtrlList.Keys, path, 0, src, inDpid, dst);
      S.GoesFrom(topo, Pick(), localCtrlList.Keys, path, src, inDpid, dst);
      ok, os := Send(path, src, inDpid, dst, xid, goal);
    }

    method Send(path: seq<Lcid>, src: Lcid, inDpid: Dpid, dst: Mac, xid: nat, ghost goal: (seq<S.Order>, bool))
      returns (ok: bool, ghost os: seq<S.Order>)
      requires Listed() && S.Going(topo, Pick(), localCtrlList.Keys, path, 0, src, inDpid, dst, [], goal)
      modifies localCtrlList.Values`sent
      ensures (os, ok) == goal
      ensures Queues() == WithMail(old(Queues()), os, xid)
    {
      var i, enter := 0, inDpid;
      os := [];
      NoMail(Queues(), xid);
      while i + 1 < |path|
        invariant 0 <= i && Queues() == WithMail(old(Queues()), os, xid)
        invariant S.Going(topo, Pick(), localCtrlList.Keys, path, i, src, enter, dst, os, goal)
      {
        var o := StepOrder(path, i, src, enter, dst, os, goal);
        if o == None {
          return false, os;
        }
        SendNext(o.value, xid, old(Queues()), os);
        i, enter, os := i + 1, o.value.inDpid, os + [o.value];
      }
      S.GoesOn(topo, Pick(), localCtrlList.Keys, path, i, src, enter, dst, os, goal);
      ok := true;
    }

    /** _tflcp_packet_in_handler */
    method PacketIn(lc: LocalController, xid: nat, inDpid: Dpid, srcMac: Mac, dstMac: Mac)
      returns (ok: bool, ghost os: seq<S.Order>, ghost path: seq<Lcid>)
      requires Valid() && lc.id.Some?
      modifies localCtrlList.Values`sent
      ensures (os, ok) == S.PacketIn(topo, Pick(), localCtrlList.Keys, hostToLcid, lc.id.value, inDpid, srcMac,
              dstMac, path)
      ensures Queues() == WithMail(old(Queues()), os, xid)
      ensures dstMac in hostToLcid && path != [] ==> Shortest(topo.edges.Keys, lc.id.value, hostToLcid[dstMac], path)
      ensures srcMac in hostToLcid && dstMac in hostToLcid && hostToLcid[dstMac] != lc.id.value && path == []
              && lc.id.value in topo.nodes && hostToLcid[dstMac] in topo.nodes ==>
                !Reaches(topo.edges.Keys, lc.id.value, hostToLcid[dstMac])
    {
      ok, os, path := true, [], [];
      NoMail(Queues(), xid);
      if srcMac !in hostToLcid || dstMac !in hostToLcid {
        return;
      }
      var start, dst := lc.id.value, hostToLcid[dstMac];
      if start == dst {
        return;
      }
      if start !in topo.nodes || dst !in topo.nodes {
        ok := false;
        return;
      }
      var answer := ShortestPath(topo.edges.Keys, start, dst);
      if answer.Some? {
        path := answer.value;
        ok, os := Dispatch(answer.value, hostToLcid[srcMac], inDpid, dstMac, xid);
      }
    }
  }

  /** `rest` is `m` without `n` of its edges. */
  ghost predicate Less(m: D.Keyed, rest: D.Keyed, n: nat) {
    rest.Keys <= m.Keys && (forall k | k in rest :: rest[k] == m[k]) && |rest| == |m| - n
  }

  /** Where the loop over `m` is: those of its edges that it met and that mention the datapath are
      `gone`, and as many are missing in `rest`. */
  ghost predicate Thinning(m: D.Keyed, d: Dpid, todo: set<nat>, gone: set<nat>, rest: D.Keyed) {
    todo <= m.Keys && gone == D.MentionKeys(m, d) - todo && Less(m, rest, |gone|)
  }

  lemma LessOne(m: D.Keyed, rest: D.Keyed, less: D.Keyed, n: nat)
    requires Less(m, rest, n) && exists j :: j in rest && less == rest - {j}
    ensures Less(m, less, n + 1)
  {
    var j :| j in rest && less == rest - {j};
    assert less.Keys == rest.Keys - {j} && |less| == |less.Keys| && |rest| == |rest.Keys|;
  }

  /** While there are edges to take out for, there are edges left. */
  lemma SomeLeft(m: D.Keyed, d: Dpid, todo: set<nat>, gone: set<nat>, rest: D.Keyed, k: nat)
    requires Thinning(m, d, todo, gone, rest) && k in todo
    ensures rest != map[]
  {
    D.SubsetSize(gone + {k}, m.Keys);
  }

  lemma ThinTake(m: D.Keyed, d: Dpid, todo: set<nat>, gone: set<nat>, rest: D.Keyed, k: nat, less: D.Keyed)
    requires Thinning(m, d, todo, gone, rest) && k in todo && D.Mentions(m[k], d)
    requires exists j :: j in rest && less == rest - {j}
    ensures Thinning(m, d, todo - {k}, gone + {k}, less)
  {
    LessOne(m, rest, less, |gone|);
    var all := D.MentionKeys(m, d);
    assert k in all;
    OneMet(all, todo, gone, k);
  }

  lemma OneMet(all: set<nat>, todo: set<nat>, gone: set<nat>, k: nat)
    requires gone == all - todo && k in todo && k in all
    ensures gone + {k} == all - (todo - {k}) && |gone + {k}| == |gone| + 1
  {
  }

  lemma ThinSkip(m: D.Keyed, d: Dpid, todo: set<nat>, gone: set<nat>, rest: D.Keyed, k: nat)
    requires Thinning(m, d, todo, gone, rest) && k in todo && !D.Mentions(m[k], d)
    ensures Thinning(m, d, todo - {k}, gone, rest)
  {
  }

  lemma WithKeysTwice(t: D.Topo, p: D.Pair, a: D.Keyed, b: D.Keyed)
    ensures D.WithKeys(D.WithKeys(t, p, a), p, b) == D.WithKeys(t, p, b)
  {
    var x, y := D.WithKeys(D.WithKeys(t, p, a), p, b).edges, D.WithKeys(t, p, b).edges;
    assert x == y;
  }

  ghost predicate ThinnedAt(t: D.Topo, d: Dpid, t': D.Topo, p: D.Pair)
    requires p in t.edges
  {
    D.Thinned(t.edges[p], d, D.KeysOf(t', p)) && (p in t'.edges <==> D.KeysOf(t', p) != map[])
  }

  lemma ThinnedStep(t: D.Topo, d: Dpid, before: D.Topo, p: D.Pair, rest: D.Keyed, todo: set<D.Pair>)
    requires p in t.edges && p !in todo && D.Thinned(t.edges[p], d, rest) && todo <= before.edges.Keys
    requires forall q | q in t.edges && q !in todo && q != p :: ThinnedAt(t, d, before, q)
    ensures var t' := D.WithKeys(before, p, rest);
            (forall q | q in t.edges && q !in todo :: ThinnedAt(t, d, t', q))
            && forall q | q in todo :: q in t'.edges && t'.edges[q] == before.edges[q]
  {
    var t' := D.WithKeys(before, p, rest);
    assert D.KeysOf(t', p) == rest;
    forall q | q in t.edges && q !in todo ensures ThinnedAt(t, d, t', q) {
      if q != p {
        assert ThinnedAt(t, d, before, q);
        assert D.KeysOf(t', q) == D.KeysOf(before, q);
      }
    }
  }

  /** A round that has been at `seen`: their flags are a tick further, and those due were switched. */
  ghost predicate Visited(fs: map<Lcid, Quiet.Flags>, flags: map<Lcid, Quiet.Flags>, seen: set<Lcid>, due: seq<Lcid>) {
    && flags.Keys == fs.Keys && seen <= fs.Keys
    && (forall c | c in fs :: flags[c] == if c in seen then Quiet.Tick(fs[c]).0 else fs[c])
    && (forall c :: c in due <==> c in seen && Quiet.Tick(fs[c]).1) && Distinct(due)
  }

  lemma VisitedMore(fs: map<Lcid, Quiet.Flags>, flags: map<Lcid, Quiet.Flags>, seen: set<Lcid>, due: seq<Lcid>, c: Lcid)
    requires Visited(fs, flags, seen, due) && c in fs && c !in seen
    ensures Visited(fs, flags[c := Quiet.Tick(flags[c]).0], seen + {c}, due + if Quiet.Tick(fs[c]).1 then [c] else [])
  {
    var more := due + if Quiet.Tick(fs[c]).1 then [c] else [];
    assert forall x :: x in more <==> x in due || (x == c && Quiet.Tick(fs[c]).1);
  }
}
