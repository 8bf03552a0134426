/**
 The central registry and the local tables: what the local controllers report of their datapaths and
 hosts, and that the registry then says of each host where it is and which controller has it.
 */
module Reports {
  import opened Base
  import opened Fabric
  import W = Wire
  import L = LocalSteps
  import P = LocalPending
  import R = Registry

  /** What the central controller makes of a message of controller `c`, as far as its registry goes; each
      datapath is connected to one controller. */
  ghost function Say(r: R.Registry, c: Lcid, m: W.Msg): R.Registry {
    match m
    case DpConnected(d, _) => if d < 0 then r else R.Connected(r, d).0
    case HostConnected(d, h) => if d < 0 then r else R.HostConnected(r, c, d, h).0
    case HostLeave(d, h) => if d < 0 then r else R.HostLeave(r, d, h).0
    case DatapathLeave(d) => if d < 0 then r else R.Leave(r, d, true).0
    case _ => r
  }

  ghost function SayAll(r: R.Registry, c: Lcid, ms: seq<(W.Msg, nat)>): R.Registry {
    if ms == [] then r else Say(SayAll(r, c, ms[..|ms| - 1]), c, ms[|ms| - 1].0)
  }

  lemma SayMore(r: R.Registry, c: Lcid, ms: seq<(W.Msg, nat)>, m: (W.Msg, nat))
    ensures SayAll(r, c, ms + [m]) == Say(SayAll(r, c, ms), c, m.0)
  {
    assert (ms + [m])[..|ms|] == ms;
  }

  lemma {:induction false} SayConcat(r: R.Registry, c: Lcid, a: seq<(W.Msg, nat)>, b: seq<(W.Msg, nat)>)
    ensures SayAll(r, c, a + b) == SayAll(SayAll(r, c, a), c, b)
    decreases |b|
  {
    if b == [] {
      assert a + b == a;
    } else {
      var n := |b| - 1;
      SayConcat(r, c, a, b[..n]);
      assert a + b == (a + b[..n]) + [b[n]];
      SayMore(r, c, a + b[..n], b[n]);
    }
  }

  // ---------------------------------------------------------------------------
  // The mirror
  // ---------------------------------------------------------------------------

  /** The controller of each datapath's domain, and of each host's */
  type Owner = Dpid -> Lcid
  type Home = Mac -> Lcid

  /** A controller serves datapaths and hosts of its own domain. */
  ghost predicate Own(l: L.Local, c: Lcid, own: Owner, home: Home) {
    && L.LocalInv(l) && (forall d | d in l.fabric.macs :: own(d) == c)
    && forall d, h | On(l.fabric, d, h) :: home(h) == c
  }

  ghost predicate AllOwn(ls: map<Lcid, L.Local>, own: Owner, home: Home) {
    forall c | c in ls :: Own(ls[c], c, own, home)
  }

  /** The registry has the datapath if the controller has, and then with the hosts of its table. */
  ghost predicate ShowsTable(r: R.Registry, l: L.Local, d: Dpid) {
    && (d in r.macs <==> d in l.fabric.macs)
    && (d in r.macs ==> R.Elems(r.macs[d]) == l.fabric.macs[d].Keys)
  }

  ghost predicate ShowsAt(r: R.Registry, ls: map<Lcid, L.Local>, own: Owner, d: Dpid) {
    if own(d) in ls then ShowsTable(r, ls[own(d)], d) else d !in r.macs
  }

  /** It names for each listed host the controller of its datapath. */
  ghost predicate NamesOwner(r: R.Registry, own: Owner) {
    forall d, h | R.Holds(r, d, h) :: h in r.hosts && r.hosts[h] == own(d)
  }

  /** The registry has exactly the datapaths that are connected to some controller, each with exactly the
      hosts of its table there, and for each of these hosts it names that controller. */
  ghost predicate Mirrors(r: R.Registry, ls: map<Lcid, L.Local>, own: Owner, home: Home) {
    R.Inv(r) && AllOwn(ls, own, home) && (forall d :: ShowsAt(r, ls, own, d)) && NamesOwner(r, own)
  }

  /** A report about one datapath: registry and controller changed there only, and agree there. */
  ghost predicate Reported(r: R.Registry, r': R.Registry, l: L.Local, l': L.Local, d: Dpid, own: Owner) {
    && R.Inv(r') && r'.macs - {d} == r.macs - {d} && l'.fabric.macs - {d} == l.fabric.macs - {d}
    && ShowsTable(r', l', d) && NamesOwner(r', own)
  }

  lemma OffTheReport(r: R.Registry, r': R.Registry, l: L.Local, l': L.Local, d: Dpid, own: Owner, e: Dpid)
    requires Reported(r, r', l, l', d, own) && e != d
    ensures ShowsTable(r', l', e) <==> ShowsTable(r, l, e)
    ensures (e in r'.macs <==> e in r.macs) && (e in r.macs ==> r'.macs[e] == r.macs[e])
  {
    assert e in r'.macs <==> e in r'.macs - {d};
    assert e in r.macs <==> e in r.macs - {d};
    assert e in l'.fabric.macs <==> e in l'.fabric.macs - {d};
    assert e in l.fabric.macs <==> e in l.fabric.macs - {d};
    assert e in r.macs ==> (r'.macs - {d})[e] == r'.macs[e] && (r.macs - {d})[e] == r.macs[e];
    assert e in l.fabric.macs ==>
        (l'.fabric.macs - {d})[e] == l'.fabric.macs[e] && (l.fabric.macs - {d})[e] == l.fabric.macs[e];
  }

  lemma ReportMirrors(r: R.Registry, r': R.Registry, ls: map<Lcid, L.Local>, own: Owner, home: Home, c: Lcid,
                      l': L.Local, d: Dpid)
    requires c in ls && own(d) == c && Mirrors(r, ls, own, home) && Own(l', c, own, home)
    requires Reported(r, r', ls[c], l', d, own)
    ensures Mirrors(r', ls[c := l'], own, home)
  {
    var ls' := ls[c := l'];
    forall e ensures ShowsAt(r', ls', own, e) {
      assert ShowsAt(r, ls, own, e);
      if e != d { OffTheReport(r, r', ls[c], l', d, own, e); }
    }
  }

  /** Nothing was reported, and the tables are as they were. */
  lemma QuietMirrors(r: R.Registry, ls: map<Lcid, L.Local>, own: Owner, home: Home, c: Lcid, l': L.Local)
    requires c in ls && Mirrors(r, ls, own, home) && l'.fabric.macs == ls[c].fabric.macs && L.LocalInv(l')
    ensures Mirrors(r, ls[c := l'], own, home)
  {
    assert Own(ls[c], c, own, home);
    assert forall d, h :: On(l'.fabric, d, h) <==> On(ls[c].fabric, d, h);
    var ls' := ls[c := l'];
    forall e ensures ShowsAt(r, ls', own, e) {
      assert ShowsAt(r, ls, own, e);
    }
  }

  // ---------------------------------------------------------------------------
  // One message at the registry
  // ---------------------------------------------------------------------------

  lemma NewDatapath(r: R.Registry, l: L.Local, l': L.Local, d: Dpid, own: Owner)
    requires R.Inv(r) && NamesOwner(r, own) && d !in r.macs && d !in l.fabric.macs
    requires l'.fabric.macs == l.fabric.macs[d := map[]]
    ensures Reported(r, R.Connected(r, d).0, l, l', d, own)
  {
    R.ConnectedKeeps(r, d);
    var r' := R.Connected(r, d).0;
    assert r'.macs - {d} == r.macs - {d} && l'.fabric.macs - {d} == l.fabric.macs - {d};
    assert R.Elems([]) == {};
    forall e, h | R.Holds(r', e, h) ensures h in r'.hosts && r'.hosts[h] == own(e) {
      assert R.Holds(r, e, h);
    }
  }

  lemma GoneDatapath(r: R.Registry, l: L.Local, l': L.Local, d: Dpid, own: Owner)
    requires R.Inv(r) && NamesOwner(r, own) && d in r.macs && l'.fabric.macs == l.fabric.macs - {d}
    ensures Reported(r, R.Leave(r, d, true).0, l, l', d, own)
  {
    R.LeaveKeeps(r, d, true);
    R.ClearKeeps(r, d);
    R.Halves(r.macs[d]);
    var r' := R.Leave(r, d, true).0;
    assert r'.macs - {d} == r.macs - {d} && l'.fabric.macs - {d} == l.fabric.macs - {d};
    forall e, h | R.Holds(r', e, h) ensures h in r'.hosts && r'.hosts[h] == own(e) {
      assert R.Holds(r, e, h) && e != d;
      assert h in R.Elems(r.macs[d]) ==> R.Holds(r, d, h);
    }
  }

  lemma NewHost(r: R.Registry, l: L.Local, l': L.Local, c: Lcid, d: Dpid, m: Mac, t: map<Mac, Port>,
                own: Owner)
    requires R.Inv(r) && NamesOwner(r, own) && own(d) == c && d in r.macs && d in l.fabric.macs && ShowsTable(r, l, d)
    requires (forall e :: !R.Holds(r, e, m)) && l'.fabric.macs == l.fabric.macs[d := t]
    requires t.Keys == l.fabric.macs[d].Keys + {m}
    ensures Reported(r, R.HostConnected(r, c, d, m).0, l, l', d, own)
  {
    R.HostConnectedKeeps(r, c, d, m);
    var r' := R.HostConnected(r, c, d, m).0;
    assert m !in r.macs[d] by { assert !R.Holds(r, d, m); }
    assert r'.macs == r.macs[d := r.macs[d] + [m]] && r'.hosts == r.hosts[m := c];
    assert r'.macs - {d} == r.macs - {d} && l'.fabric.macs - {d} == l.fabric.macs - {d};
    assert R.Elems(r.macs[d] + [m]) == R.Elems(r.macs[d]) + {m};
    forall e, h | R.Holds(r', e, h) ensures h in r'.hosts && r'.hosts[h] == own(e) {
      if h != m { assert R.Holds(r, e, h); }
    }
  }

  lemma GoneHost(r: R.Registry, l: L.Local, l': L.Local, d: Dpid, m: Mac, t: map<Mac, Port>, own: Owner)
    requires R.Inv(r) && NamesOwner(r, own) && d in l.fabric.macs && ShowsTable(r, l, d) && m in l.fabric.macs[d]
    requires l'.fabric.macs == l.fabric.macs[d := t] && t.Keys == l.fabric.macs[d].Keys - {m}
    ensures Reported(r, R.HostLeave(r, d, m).0, l, l', d, own)
  {
    assert m in R.Elems(r.macs[d]) && R.Holds(r, d, m);
    R.HostLeaveExact(r, d, m);
    R.RemoveGone(r.macs[d], m);
    R.RemovedOne(r, d, m);
    var r' := R.HostLeave(r, d, m).0;
    assert r'.macs - {d} == r.macs - {d} && l'.fabric.macs - {d} == l.fabric.macs - {d};
    forall e, h | R.Holds(r', e, h) ensures h in r'.hosts && r'.hosts[h] == own(e) {
      assert R.Holds(r, e, h) && h != m;
    }
  }

  // ---------------------------------------------------------------------------
  // The handlers
  // ---------------------------------------------------------------------------

  /** What a controller sent from `l` to `l'` */
  function New(l: L.Local, l': L.Local): seq<(W.Msg, nat)> {
    if l.sent <= l'.sent then l'.sent[|l.sent|..] else []
  }

  /** Not a report */
  predicate Other(m: W.Msg) {
    !m.DpConnected? && !m.HostConnected? && !m.HostLeave? && !m.DatapathLeave?
  }

  /** One message was sent. */
  ghost predicate Said(l: L.Local, l': L.Local, m: W.Msg) {
    |l'.sent| == |l.sent| + 1 && l.sent <= l'.sent && l'.sent[|l.sent|].0 == m
  }

  lemma OneSaid(r: R.Registry, c: Lcid, l: L.Local, l': L.Local, m: W.Msg)
    requires Said(l, l', m)
    ensures l.sent <= l'.sent && SayAll(r, c, New(l, l')) == Say(r, c, m)
  {
    var last := [l'.sent[|l.sent|]];
    assert New(l, l') == last;
    assert SayAll(r, c, last[..0]) == r;
  }

  lemma NewConcat(r: R.Registry, c: Lcid, l: L.Local, l1: L.Local, l2: L.Local)
    requires l.sent <= l1.sent <= l2.sent
    ensures SayAll(r, c, New(l, l2)) == SayAll(SayAll(r, c, New(l, l1)), c, New(l1, l2))
  {
    assert New(l, l2) == New(l, l1) + New(l1, l2);
    SayConcat(r, c, New(l, l1), New(l1, l2));
  }

  /** The mirror is kept from the state of controller `c` to `l'`, once the central controller has taken
      in what was sent. */
  ghost predicate Kept(r: R.Registry, ls: map<Lcid, L.Local>, own: Owner, home: Home, c: Lcid, l': L.Local) {
    c in ls && ls[c].sent <= l'.sent && Mirrors(SayAll(r, c, New(ls[c], l')), ls[c := l'], own, home)
  }

  lemma KeptOn(r: R.Registry, ls: map<Lcid, L.Local>, own: Owner, home: Home, c: Lcid, l1: L.Local, l2: L.Local)
    requires Kept(r, ls, own, home, c, l1)
    requires Kept(SayAll(r, c, New(ls[c], l1)), ls[c := l1], own, home, c, l2)
    ensures Kept(r, ls, own, home, c, l2)
  {
    NewConcat(r, c, ls[c], l1, l2);
    assert ls[c := l1][c := l2] == ls[c := l2];
  }

  lemma OwnAt(r: R.Registry, ls: map<Lcid, L.Local>, own: Owner, home: Home, c: Lcid, d: Dpid)
    requires c in ls && Mirrors(r, ls, own, home) && own(d) == c
    ensures Own(ls[c], c, own, home) && ShowsTable(r, ls[c], d)
  {
    assert ShowsAt(r, ls, own, d);
  }

  /** A switch joins. */
  lemma JoinMirrors(r: R.Registry, ls: map<Lcid, L.Local>, own: Owner, home: Home, c: Lcid, d: Dpid)
    requires c in ls && Mirrors(r, ls, own, home) && own(d) == c && d !in ls[c].datapaths
    ensures Kept(r, ls, own, home, c, L.SwitchFeatures(ls[c], d))
  {
    var l := ls[c];
    OwnAt(r, ls, own, home, c, d);
    var l' := L.SwitchFeatures(l, d);
    L.FeaturesKeep(l, d);
    OneSaid(r, c, l, l', W.DpConnected(d, d in l.isWin && l.isWin[d]));
    assert forall e, h :: On(l'.fabric, e, h) <==> On(l.fabric, e, h);
    NewDatapath(r, l, l', d, own);
    ReportMirrors(r, R.Connected(r, d).0, ls, own, home, c, l', d);
  }

  lemma LeftOwn(l: L.Local, d: Dpid, c: Lcid, own: Owner, home: Home)
    requires Own(l, c, own, home) && Sw(d) in l.fabric.nodes && d in l.datapaths
    ensures var l' := L.SwitchLeave(l, d).0;
            Own(l', c, own, home) && Said(l, l', W.DatapathLeave(d)) && l'.fabric.macs == l.fabric.macs - {d}
  {
    var l' := L.SwitchLeave(l, d).0;
    L.SwitchLeaveKeeps(l, d);
    assert forall e, h | On(l'.fabric, e, h) :: On(l.fabric, e, h);
  }

  /** A switch leaves. */
  lemma LeaveMirrors(r: R.Registry, ls: map<Lcid, L.Local>, own: Owner, home: Home, c: Lcid, d: Dpid)
    requires c in ls && Mirrors(r, ls, own, home) && Sw(d) in ls[c].fabric.nodes && d in ls[c].datapaths
    ensures Kept(r, ls, own, home, c, L.SwitchLeave(ls[c], d).0)
  {
    var l, l' := ls[c], L.SwitchLeave(ls[c], d).0;
    assert Own(l, c, own, home);
    LeftOwn(l, d, c, own, home);
    LeaveReported(r, ls, own, home, c, d, l');
  }

  lemma LeaveReported(r: R.Registry, ls: map<Lcid, L.Local>, own: Owner, home: Home, c: Lcid, d: Dpid, l': L.Local)
    requires c in ls && Mirrors(r, ls, own, home) && d in ls[c].fabric.macs && Own(l', c, own, home)
    requires Said(ls[c], l', W.DatapathLeave(d)) && l'.fabric.macs == ls[c].fabric.macs - {d}
    ensures Kept(r, ls, own, home, c, l')
  {
    assert Own(ls[c], c, own, home);
    OwnAt(r, ls, own, home, c, d);
    OneSaid(r, c, ls[c], l', W.DatapathLeave(d));
    GoneDatapath(r, ls[c], l', d, own);
    ReportMirrors(r, R.Leave(r, d, true).0, ls, own, home, c, l', d);
  }

  /** The one host on a port */
  lemma OneOnPort(f: Fabric, d: Dpid, p: Port, h: Mac)
    requires Inv(f) && d in f.macs && h in HostsOn(f, d, p)
    ensures HostsOn(f, d, p) == {h} && On(f, d, h)
  {
    forall x | x in HostsOn(f, d, p) ensures x == h {
      assert On(f, d, x) && On(f, d, h);
    }
  }

  lemma ClearedOwn(l: L.Local, d: Dpid, p: Port, c: Lcid, own: Owner, home: Home) returns (h0: Mac)
    requires Own(l, c, own, home) && d in l.fabric.macs && HostsOn(l.fabric, d, p) != {}
    ensures var l' := L.Clear(l, d, p);
            && Own(l', c, own, home) && Said(l, l', W.HostLeave(d, h0)) && h0 in l.fabric.macs[d]
            && l'.fabric.macs == l.fabric.macs[d := l.fabric.macs[d] - {h0}]
  {
    var l' := L.Clear(l, d, p);
    PurgeKeeps(l.fabric, d, p);
    L.ClearPurges(l, d, p);
    h0 := l'.sent[|l.sent|].0.mac;
    OneOnPort(l.fabric, d, p, h0);
    assert l'.fabric.macs.Keys == l.fabric.macs.Keys;
    assert forall e, h | On(l'.fabric, e, h) :: On(l.fabric, e, h);
  }

  lemma ClearReported(r: R.Registry, ls: map<Lcid, L.Local>, own: Owner, home: Home, c: Lcid, d: Dpid, h0: Mac,
                      l': L.Local)
    requires c in ls && Mirrors(r, ls, own, home) && d in ls[c].fabric.macs && Own(l', c, own, home)
    requires Said(ls[c], l', W.HostLeave(d, h0)) && h0 in ls[c].fabric.macs[d]
    requires l'.fabric.macs == ls[c].fabric.macs[d := ls[c].fabric.macs[d] - {h0}]
    ensures Kept(r, ls, own, home, c, l')
  {
    assert Own(ls[c], c, own, home);
    OwnAt(r, ls, own, home, c, d);
    OneSaid(r, c, ls[c], l', W.HostLeave(d, h0));
    GoneHost(r, ls[c], l', d, h0, ls[c].fabric.macs[d] - {h0}, own);
    ReportMirrors(r, R.HostLeave(r, d, h0).0, ls, own, home, c, l', d);
  }

  /** A host is forgotten. */
  lemma ClearMirrors(r: R.Registry, ls: map<Lcid, L.Local>, own: Owner, home: Home, c: Lcid, d: Dpid, p: Port)
    requires c in ls && Mirrors(r, ls, own, home) && d in ls[c].fabric.macs
    ensures Kept(r, ls, own, home, c, L.Clear(ls[c], d, p))
  {
    assert Own(ls[c], c, own, home);
    if HostsOn(ls[c].fabric, d, p) == {} {
      assert New(ls[c], L.Clear(ls[c], d, p)) == [];
      QuietMirrors(r, ls, own, home, c, ls[c]);
    } else {
      var h0 := ClearedOwn(ls[c], d, p, c, own, home);
      ClearReported(r, ls, own, home, c, d, h0, L.Clear(ls[c], d, p));
    }
  }

  /** Nobody has a host of this domain that its controller does not know. */
  lemma NobodyHolds(r: R.Registry, ls: map<Lcid, L.Local>, own: Owner, home: Home, c: Lcid, h: Mac, e: Dpid)
    requires c in ls && Mirrors(r, ls, own, home) && home(h) == c && Host(h) !in ls[c].fabric.nodes
    ensures !R.Holds(r, e, h)
  {
    assert ShowsAt(r, ls, own, e);
    assert R.Holds(r, e, h) ==> h in R.Elems(r.macs[e]);
    NotOn(ls, own, home, c, h, e);
  }

  lemma NotOn(ls: map<Lcid, L.Local>, own: Owner, home: Home, c: Lcid, h: Mac, e: Dpid)
    requires c in ls && AllOwn(ls, own, home) && home(h) == c && Host(h) !in ls[c].fabric.nodes
    ensures own(e) in ls ==> !On(ls[own(e)].fabric, e, h)
  {
    assert Own(ls[c], c, own, home);
    assert own(e) in ls ==> Own(ls[own(e)], own(e), own, home);
    SecondPurgeIdle(ls[c].fabric, h);
  }

  lemma EnteredOwn(l: L.Local, d: Dpid, p: Port, h: Mac, c: Lcid, own: Owner, home: Home)
    requires Own(l, c, own, home) && d in l.fabric.macs && home(h) == c && Host(h) !in l.fabric.nodes
    requires HostsOn(l.fabric, d, p) == {}
    ensures var l' := L.Send(l.(fabric := Attach(l.fabric, d, p, h)), W.HostConnected(d, h));
            var t: map<Mac, Port> := l.fabric.macs[d][h := p];
            && Own(l', c, own, home) && Said(l, l', W.HostConnected(d, h)) && l'.fabric.macs == l.fabric.macs[d := t]
  {
    AttachKeeps(l.fabric, d, p, h);
    AttachTables(l.fabric, d, p, h);
    var l' := L.Send(l.(fabric := Attach(l.fabric, d, p, h)), W.HostConnected(d, h));
    assert l'.fabric.macs.Keys == l.fabric.macs.Keys;
  }

  lemma HostReported(r: R.Registry, ls: map<Lcid, L.Local>, own: Owner, home: Home, c: Lcid, d: Dpid, h: Mac,
                     t: map<Mac, Port>, l': L.Local)
    requires c in ls && Mirrors(r, ls, own, home) && d in ls[c].fabric.macs && own(d) == c
    requires home(h) == c && Host(h) !in ls[c].fabric.nodes
    requires l'.fabric.macs == ls[c].fabric.macs[d := t] && t.Keys == ls[c].fabric.macs[d].Keys + {h}
    ensures Reported(r, R.HostConnected(r, c, d, h).0, ls[c], l', d, own)
  {
    OwnAt(r, ls, own, home, c, d);
    forall e ensures !R.Holds(r, e, h) {
      NobodyHolds(r, ls, own, home, c, h, e);
    }
    NewHost(r, ls[c], l', c, d, h, t, own);
  }

  lemma EnterReported(r: R.Registry, r': R.Registry, ls: map<Lcid, L.Local>, own: Owner, home: Home, c: Lcid, d: Dpid,
                      h: Mac, l': L.Local)
    requires c in ls && Mirrors(r, ls, own, home) && own(d) == c && Own(l', c, own, home)
    requires Said(ls[c], l', W.HostConnected(d, h)) && r' == Say(r, c, W.HostConnected(d, h))
    requires Reported(r, r', ls[c], l', d, own)
    ensures Kept(r, ls, own, home, c, l')
  {
    OneSaid(r, c, ls[c], l', W.HostConnected(d, h));
    ReportMirrors(r, r', ls, own, home, c, l', d);
  }

  lemma EnteredMirrors(r: R.Registry, ls: map<Lcid, L.Local>, own: Owner, home: Home, c: Lcid, d: Dpid, h: Mac,
                       t: map<Mac, Port>, l': L.Local)
    requires c in ls && Mirrors(r, ls, own, home) && d in ls[c].fabric.macs && own(d) == c && Own(l', c, own, home)
    requires home(h) == c && Host(h) !in ls[c].fabric.nodes && Said(ls[c], l', W.HostConnected(d, h))
    requires l'.fabric.macs == ls[c].fabric.macs[d := t] && t.Keys == ls[c].fabric.macs[d].Keys + {h}
    ensures Kept(r, ls, own, home, c, l')
  {
    HostReported(r, ls, own, home, c, d, h, t, l');
    EnterReported(r, Say(r, c, W.HostConnected(d, h)), ls, own, home, c, d, h, l');
  }

  /** A host is entered. */
  lemma EnterMirrors(r: R.Registry, ls: map<Lcid, L.Local>, own: Owner, home: Home, c: Lcid, d: Dpid, p: Port, h: Mac)
    requires c in ls && Mirrors(r, ls, own, home) && d in ls[c].fabric.macs
    requires home(h) == c && Host(h) !in ls[c].fabric.nodes && HostsOn(ls[c].fabric, d, p) == {}
    ensures Kept(r, ls, own, home, c, L.Send(ls[c].(fabric := Attach(ls[c].fabric, d, p, h)), W.HostConnected(d, h)))
  {
    assert Own(ls[c], c, own, home);
    EnteredOwn(ls[c], d, p, h, c, own, home);
    var t: map<Mac, Port> := ls[c].fabric.macs[d][h := p];
    EnteredMirrors(r, ls, own, home, c, d, h, t,
                   L.Send(ls[c].(fabric := Attach(ls[c].fabric, d, p, h)), W.HostConnected(d, h)));
  }

  /** A host that the packet teaches takes the place of the one on its port. */
  lemma LearnMirrors(r: R.Registry, ls: map<Lcid, L.Local>, own: Owner, home: Home, c: Lcid, d: Dpid, p: Port, h: Mac)
    requires c in ls && Mirrors(r, ls, own, home) && d in ls[c].fabric.macs
    requires home(h) == c && Host(h) !in ls[c].fabric.nodes
    ensures Kept(r, ls, own, home, c, L.Enter(ls[c], d, p, h))
  {
    var l1 := L.Clear(ls[c], d, p);
    ClearMirrors(r, ls, own, home, c, d, p);
    ClearedFor(ls[c], d, p, h);
    EnterMirrors(SayAll(r, c, New(ls[c], l1)), ls[c := l1], own, home, c, d, p, h);
    KeptOn(r, ls, own, home, c, l1, L.Enter(ls[c], d, p, h));
  }

  lemma ClearedFor(l: L.Local, d: Dpid, p: Port, h: Mac)
    requires d in l.fabric.macs && Host(h) !in l.fabric.nodes
    ensures var l1 := L.Clear(l, d, p);
            d in l1.fabric.macs && Host(h) !in l1.fabric.nodes && HostsOn(l1.fabric, d, p) == {}
  {
    L.ClearPurges(l, d, p);
  }

  /** Requests are no reports. */
  lemma RouteSilent(h: L.Local, p: L.Packet, now: int, path: seq<Node>, r: R.Registry, c: Lcid)
    ensures var l' := L.Route(h, p, now, path).0;
            h.sent <= l'.sent && l'.fabric == h.fabric && SayAll(r, c, New(h, l')) == r
  {
    var l' := L.Route(h, p, now, path).0;
    if l'.sent == h.sent {
      assert New(h, l') == [];
    } else {
      OneSaid(r, c, h, l', L.Request(p));
    }
  }

  /** The controller after counting a packet of the switch */
  ghost function Counted(l: L.Local, d: Dpid): L.Local
    requires d in l.load
  {
    l.(load := l.load[d := l.load[d] + 1])
  }

  lemma HeardIs(l: L.Local, p: L.Packet)
    requires L.LocalInv(l) && p.dpid in l.load
    ensures L.Heard(l, p) == if L.Teaches(l, p) then L.Enter(Counted(l, p.dpid), p.dpid, p.inPort, p.src)
                             else Counted(l, p.dpid)
  {
  }

  lemma HeardMirrors(r: R.Registry, ls: map<Lcid, L.Local>, own: Owner, home: Home, c: Lcid, p: L.Packet)
    requires c in ls && Mirrors(r, ls, own, home) && L.LocalInv(ls[c]) && p.dpid in ls[c].load
    requires L.Teaches(ls[c], p) ==> home(p.src) == c
    ensures Kept(r, ls, own, home, c, L.Heard(ls[c], p))
  {
    HeardIs(ls[c], p);
    CountMirrors(r, ls, own, home, c, p);
    if L.Teaches(ls[c], p) { TaughtMirrors(r, ls, own, home, c, p.dpid, p.inPort, p.src); }
  }

  lemma TaughtMirrors(r: R.Registry, ls: map<Lcid, L.Local>, own: Owner, home: Home, c: Lcid, d: Dpid, p: Port, h: Mac)
    requires c in ls && Mirrors(r, ls, own, home) && d in ls[c].load && d in ls[c].fabric.macs
    requires home(h) == c && Host(h) !in ls[c].fabric.nodes && Kept(r, ls, own, home, c, Counted(ls[c], d))
    ensures Kept(r, ls, own, home, c, L.Enter(Counted(ls[c], d), d, p, h))
  {
    var l0 := Counted(ls[c], d);
    LearnMirrors(SayAll(r, c, New(ls[c], l0)), ls[c := l0], own, home, c, d, p, h);
    KeptOn(r, ls, own, home, c, l0, L.Enter(l0, d, p, h));
  }

  lemma CountMirrors(r: R.Registry, ls: map<Lcid, L.Local>, own: Owner, home: Home, c: Lcid, p: L.Packet)
    requires c in ls && Mirrors(r, ls, own, home) && L.LocalInv(ls[c]) && p.dpid in ls[c].load
    ensures Kept(r, ls, own, home, c, Counted(ls[c], p.dpid))
  {
    var l0 := Counted(ls[c], p.dpid);
    assert l0.load.Keys == ls[c].load.Keys;
    assert New(ls[c], l0) == [];
    QuietMirrors(r, ls, own, home, c, l0);
  }

  lemma ArrivalMirrors(r: R.Registry, ls: map<Lcid, L.Local>, own: Owner, home: Home, c: Lcid, p: L.Packet, now: int,
                       path: seq<Node>)
    requires c in ls && Mirrors(r, ls, own, home) && L.LocalInv(ls[c])
    requires p.dpid in ls[c].load && p.dst != L.LLDP_MAC && (L.Teaches(ls[c], p) ==> home(p.src) == c)
    ensures Kept(r, ls, own, home, c, L.PacketIn(ls[c], p, now, path).0)
  {
    var l, h := ls[c], L.Heard(ls[c], p);
    HeardMirrors(r, ls, own, home, c, p);
    L.HeardKeeps(l, p);
    RouteMirrors(SayAll(r, c, New(l, h)), ls[c := h], own, home, c, p, now, path);
    KeptOn(r, ls, own, home, c, h, L.PacketIn(l, p, now, path).0);
  }

  lemma RouteMirrors(r: R.Registry, ls: map<Lcid, L.Local>, own: Owner, home: Home, c: Lcid, p: L.Packet, now: int,
                     path: seq<Node>)
    requires c in ls && Mirrors(r, ls, own, home) && L.LocalInv(ls[c])
    ensures Kept(r, ls, own, home, c, L.Route(ls[c], p, now, path).0)
  {
    RouteSilent(ls[c], p, now, path, r, c);
    L.RouteKeeps(ls[c], p, now, path);
    QuietMirrors(r, ls, own, home, c, L.Route(ls[c], p, now, path).0);
  }

  // ---------------------------------------------------------------------------
  // Runs
  // ---------------------------------------------------------------------------

  /** Switches join the controller of their domain, and not twice; hosts are learned in their own domain;
      reports are sent by the handlers only. */
  predicate Orderly(l: L.Local, c: Lcid, m: P.Move, own: Owner, home: Home)
    requires l.load.Keys == l.inter.Keys
  {
    match m
    case Arrives(p, _, _) => p.dpid in l.load && p.dst != L.LLDP_MAC && L.Teaches(l, p) ==> home(p.src) == c
    case Features(d) => own(d) == c && d !in l.datapaths
    case Sends(msg) => Other(msg)
    case _ => true
  }

  /** The handler's other messages, and those that change no table */
  lemma OtherMirrors(r: R.Registry, ls: map<Lcid, L.Local>, own: Owner, home: Home, c: Lcid, l': L.Local, m: W.Msg)
    requires c in ls && Mirrors(r, ls, own, home) && l'.fabric.macs == ls[c].fabric.macs && L.LocalInv(l')
    requires l'.sent == ls[c].sent || (Said(ls[c], l', m) && Other(m))
    ensures Kept(r, ls, own, home, c, l')
  {
    QuietMirrors(r, ls, own, home, c, l');
    if l'.sent == ls[c].sent {
      assert New(ls[c], l') == [];
    } else {
      OneSaid(r, c, ls[c], l', m);
    }
  }

  /** The handlers that change no table */
  predicate Still(m: P.Move) {
    m.Ordered? || m.Topology? || m.TimesOut? || m.Sends?
  }

  lemma StillTables(l: L.Local, m: P.Move)
    requires L.LocalInv(l) && Still(m)
    ensures P.Moved(l, m).fabric.macs == l.fabric.macs
  {
    if m.Topology? { L.DiscoverTables(l.fabric, m.switches, m.links); }
  }

  lemma StillSays(l: L.Local, m: P.Move)
    requires L.LocalInv(l) && Still(m) && (m.Sends? ==> Other(m.m))
    ensures var l' := P.Moved(l, m);
            l'.sent == l.sent || (|l'.sent| == |l.sent| + 1 && l.sent <= l'.sent && Other(l'.sent[|l.sent|].0))
  {
  }

  lemma StillMirrors(r: R.Registry, ls: map<Lcid, L.Local>, own: Owner, home: Home, c: Lcid, l': L.Local)
    requires c in ls && Mirrors(r, ls, own, home) && l'.fabric.macs == ls[c].fabric.macs && L.LocalInv(l')
    requires var l := ls[c];
             l'.sent == l.sent || (|l'.sent| == |l.sent| + 1 && l.sent <= l'.sent && Other(l'.sent[|l.sent|].0))
    ensures Kept(r, ls, own, home, c, l')
  {
    OtherMirrors(r, ls, own, home, c, l', if l'.sent == ls[c].sent then W.HelloUp else l'.sent[|ls[c].sent|].0);
  }

  lemma LeavesMirrors(r: R.Registry, ls: map<Lcid, L.Local>, own: Owner, home: Home, c: Lcid, d: Dpid)
    requires c in ls && Mirrors(r, ls, own, home) && L.LocalInv(ls[c])
    ensures Kept(r, ls, own, home, c, L.SwitchLeave(ls[c], d).0)
  {
    if Sw(d) in ls[c].fabric.nodes && d in ls[c].datapaths {
      LeaveMirrors(r, ls, own, home, c, d);
    } else {
      L.SwitchLeaveKeeps(ls[c], d);
      StillMirrors(r, ls, own, home, c, L.SwitchLeave(ls[c], d).0);
    }
  }

  lemma ArrivesMirrors(r: R.Registry, ls: map<Lcid, L.Local>, own: Owner, home: Home, c: Lcid, p: L.Packet, now: int,
                       path: seq<Node>)
    requires c in ls && Mirrors(r, ls, own, home) && L.LocalInv(ls[c])
    requires p.dpid in ls[c].load && p.dst != L.LLDP_MAC && L.Teaches(ls[c], p) ==> home(p.src) == c
    ensures Kept(r, ls, own, home, c, L.PacketIn(ls[c], p, now, path).0)
  {
    if p.dpid in ls[c].load && p.dst != L.LLDP_MAC {
      ArrivalMirrors(r, ls, own, home, c, p, now, path);
    } else {
      L.PacketInKeeps(ls[c], p, now, path);
      StillMirrors(r, ls, own, home, c, L.PacketIn(ls[c], p, now, path).0);
    }
  }

  /** Every handler keeps the mirror, once the central controller has taken its messages in. */
  lemma MoveMirrors(r: R.Registry, ls: map<Lcid, L.Local>, own: Owner, home: Home, c: Lcid, m: P.Move)
    requires c in ls && Mirrors(r, ls, own, home) && L.LocalInv(ls[c]) && Orderly(ls[c], c, m, own, home)
    ensures Kept(r, ls, own, home, c, P.Moved(ls[c], m))
  {
    match m
    case Arrives(p, now, path) => ArrivesMirrors(r, ls, own, home, c, p, now, path);
    case Features(d) => JoinMirrors(r, ls, own, home, c, d);
    case Leaves(d) => LeavesMirrors(r, ls, own, home, c, d);
    case _ =>
      P.MovedKeeps(ls[c], m);
      StillTables(ls[c], m);
      StillSays(ls[c], m);
      StillMirrors(r, ls, own, home, c, P.Moved(ls[c], m));
  }

  /** A run: at each step some controller's handler runs, and the central controller takes in what it sent. */
  ghost predicate Runs(rs: seq<R.Registry>, lss: seq<map<Lcid, L.Local>>, cs: seq<Lcid>, ms: seq<P.Move>, own: Owner,
                       home: Home) {
    && |rs| == |lss| == |ms| + 1 && |cs| == |ms|
    && forall i | 0 <= i < |ms| ::
         RunStep(rs[i], lss[i], rs[i + 1], lss[i + 1], cs[i], ms[i], own, home)
  }

  ghost predicate RunStep(r: R.Registry, ls: map<Lcid, L.Local>, r': R.Registry, ls': map<Lcid, L.Local>, c: Lcid,
                          m: P.Move, own: Owner, home: Home) {
    && c in ls && L.LocalInv(ls[c]) && Orderly(ls[c], c, m, own, home)
    && ls' == ls[c := P.Moved(ls[c], m)] && r' == SayAll(r, c, New(ls[c], P.Moved(ls[c], m)))
  }

  /** The registry mirrors the tables: in every run, in whatever order the handlers of the controllers
      run, it has exactly the connected datapaths, each with exactly the hosts that its controller has in
      its table, and names for each of them the controller whose domain it is in. */
  lemma {:induction false} RegistryMirrors(rs: seq<R.Registry>, lss: seq<map<Lcid, L.Local>>, cs: seq<Lcid>,
                                           ms: seq<P.Move>, own: Owner, home: Home, n: nat)
    requires Runs(rs, lss, cs, ms, own, home) && n < |rs| && Mirrors(rs[0], lss[0], own, home)
    ensures Mirrors(rs[n], lss[n], own, home)
  {
    if n > 0 {
      RegistryMirrors(rs, lss, cs, ms, own, home, n - 1);
      assert RunStep(rs[n - 1], lss[n - 1], rs[n - 1 + 1], lss[n - 1 + 1], cs[n - 1], ms[n - 1], own, home);
      MoveMirrors(rs[n - 1], lss[n - 1], own, home, cs[n - 1], ms[n - 1]);
    }
  }

  /** It begins so, with controllers that know nothing. */
  lemma EmptyMirrors(ls: map<Lcid, L.Local>, own: Owner, home: Home)
    requires forall c | c in ls :: ls[c].fabric == EMPTY && L.LocalInv(ls[c])
    ensures Mirrors(R.Registry(map[], map[]), ls, own, home)
  {
    forall c | c in ls ensures Own(ls[c], c, own, home) {
      assert ls[c].fabric == EMPTY;
    }
  }

  /** So the central controller knows where to find a host that some local controller has. */
  lemma HostsKnown(r: R.Registry, ls: map<Lcid, L.Local>, own: Owner, home: Home, c: Lcid, d: Dpid, h: Mac)
    requires c in ls && Mirrors(r, ls, own, home) && On(ls[c].fabric, d, h)
    ensures h in r.hosts && r.hosts[h] == c
  {
    assert Own(ls[c], c, own, home);
    OwnAt(r, ls, own, home, c, d);
    assert h in R.Elems(r.macs[d]) && R.Holds(r, d, h);
  }
}
