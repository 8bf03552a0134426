/**
 The central controller's host registry: `host_to_lcid` and the MAC lists of the datapaths, under
 the connect and leave messages of AppManager. The clearing loops remove from the list they walk.
 */
module Registry {
  import opened Base

  datatype Registry = Registry(hosts: map<Mac, Lcid>, macs: map<Dpid, seq<Mac>>)

  /** list.remove: the first occurrence goes. */
  function Remove(s: seq<Mac>, m: Mac): (r: seq<Mac>)
    ensures m in s ==> |r| == |s| - 1
    ensures m !in s ==> r == s
  {
    if s == [] then [] else if s[0] == m then s[1..] else [s[0]] + Remove(s[1..], m)
  }

  /** The clearing loop from position `i` on: it walks by position over the list that it takes the
      MACs out of, so each removal moves the next one out of its sight. A missing key raises. */
  function ClearFrom(hosts: map<Mac, Lcid>, macs: seq<Mac>, i: nat): (map<Mac, Lcid>, seq<Mac>, bool)
    decreases |macs| - i
  {
    if i >= |macs| then (hosts, macs, true)
    else if macs[i] !in hosts then (hosts, macs, false)
    else ClearFrom(hosts - {macs[i]}, Remove(macs, macs[i]), i + 1)
  }

  function Clear(r: Registry, d: Dpid): (Registry, bool)
    requires d in r.macs
  {
    var c := ClearFrom(r.hosts, r.macs[d], 0);
    (Registry(c.0, r.macs[d := c.1]), c.2)
  }

  /** DATAPATH_CONNECTED */
  function Connected(r: Registry, d: Dpid): (Registry, bool) {
    if d in r.macs then Clear(r, d) else (r.(macs := r.macs[d := []]), true)
  }

  /** DATAPATH_LEAVE; `last` says that one controller was connected. */
  function Leave(r: Registry, d: Dpid, last: bool): (Registry, bool) {
    if d !in r.macs then (r, false)
    else
      var c := Clear(r, d);
      if c.1 && last then (c.0.(macs := c.0.macs - {d}), true) else c
  }

  predicate Holds(r: Registry, d: Dpid, m: Mac) {
    d in r.macs && m in r.macs[d]
  }

  /** The search of HOST_CONNECTED for the datapath that has the MAC. */
  ghost function Forget(r: Registry, m: Mac): Registry {
    if exists d :: Holds(r, d, m) then
      var d :| Holds(r, d, m);
      r.(macs := r.macs[d := Remove(r.macs[d], m)])
    else r
  }

  ghost function Dropped(r: Registry, m: Mac): Registry {
    if m in r.hosts then Forget(r, m) else r
  }

  function Added(s: seq<Mac>, m: Mac): seq<Mac> {
    if m in s then s else s + [m]
  }

  /** HOST_CONNECTED from controller `lc` */
  ghost function HostConnected(r: Registry, lc: Lcid, d: Dpid, m: Mac): (Registry, bool)
  {
    var f := Dropped(r, m);
    var g := f.(hosts := f.hosts[m := lc]);
    if d !in g.macs then (g, false) else (g.(macs := g.macs[d := Added(g.macs[d], m)]), true)
  }

  /** The MAC is taken from one list that has it, whichever the search meets first, if any has. */
  ghost predicate Forgets(before: map<Dpid, seq<Mac>>, m: Mac, after: map<Dpid, seq<Mac>>) {
    || (after == before && forall d | d in before :: m !in before[d])
    || exists d :: d in before && m in before[d] && after == before[d := Remove(before[d], m)]
  }

  /** HOST_CONNECTED with the search left open: `mid` are the lists after it. */
  ghost predicate HostConnects(r: Registry, lc: Lcid, d: Dpid, m: Mac, mid: map<Dpid, seq<Mac>>, r': Registry) {
    && (if m in r.hosts then Forgets(r.macs, m, mid) else mid == r.macs)
    && r' == Registry(r.hosts[m := lc], if d in mid then mid[d := Added(mid[d], m)] else mid)
  }

  /** While no MAC is in two lists there is no choice. */
  lemma HostConnectsOnce(r: Registry, lc: Lcid, d: Dpid, m: Mac, mid: map<Dpid, seq<Mac>>, r': Registry)
    requires Inv(r) && HostConnects(r, lc, d, m, mid, r')
    ensures r' == HostConnected(r, lc, d, m).0
  {
    if m in r.hosts && exists d :: d in r.macs && m in r.macs[d] {
      var x :| x in r.macs && m in r.macs[x] && mid == r.macs[x := Remove(r.macs[x], m)];
      assert Holds(r, x, m);
      var y :| Holds(r, y, m) && Forget(r, m) == r.(macs := r.macs[y := Remove(r.macs[y], m)]);
    }
  }

  /** HOST_LEAVE: the datapath is the one the message names. */
  function HostLeave(r: Registry, d: Dpid, m: Mac): (Registry, bool)
  {
    var f := r.(hosts := r.hosts - {m});
    if d !in f.macs then (f, false) else (f.(macs := f.macs[d := Remove(f.macs[d], m)]), true)
  }

  // ---------------------------------------------------------------------------
  // The clearing loop
  // ---------------------------------------------------------------------------

  function Evens(s: seq<Mac>): seq<Mac> {
    if s == [] then [] else [s[0]] + if |s| == 1 then [] else Evens(s[2..])
  }

  function Odds(s: seq<Mac>): seq<Mac> {
    if |s| < 2 then [] else [s[1]] + Odds(s[2..])
  }

  function Elems(s: seq<Mac>): set<Mac> {
    set m | m in s
  }

  lemma {:induction false} RemoveAt(pre: seq<Mac>, m: Mac, post: seq<Mac>)
    requires m !in pre
    ensures Remove(pre + [m] + post, m) == pre + post
  {
    var s := pre + [m] + post;
    if pre == [] {
      assert s[1..] == post;
    } else {
      assert s[1..] == pre[1..] + [m] + post;
      RemoveAt(pre[1..], m, post);
      assert [pre[0]] + (pre[1..] + post) == pre + post;
    }
  }

  /** The loop as written skips every second element: with `pre` behind it and `rest` before it, it
      takes out the even positions of `rest`. */
  lemma {:induction false} ClearSkips(hosts: map<Mac, Lcid>, pre: seq<Mac>, rest: seq<Mac>)
    requires Distinct(pre + rest) && forall m | m in rest :: m in hosts
    ensures ClearFrom(hosts, pre + rest, |pre|) == (hosts - Elems(Evens(rest)), pre + Odds(rest), true)
    decreases |rest|
  {
    if rest == [] {
      assert pre + rest == pre && pre + Odds(rest) == pre;
      assert hosts - Elems(Evens(rest)) == hosts;
    } else {
      FirstOut(hosts, pre, rest);
      var m := rest[0];
      if |rest| == 1 {
        assert pre + rest[1..] == pre && pre + Odds(rest) == pre;
        assert Evens(rest) == [m] && Elems([m]) == {m};
      } else {
        var p, q := pre + [rest[1]], rest[2..];
        assert pre + rest[1..] == p + q;
        SkipShape(pre, rest);
        ClearSkips(hosts - {m}, p, q);
        SkipResult(hosts, pre, rest);
      }
    }
  }

  lemma FirstOut(hosts: map<Mac, Lcid>, pre: seq<Mac>, rest: seq<Mac>)
    requires Distinct(pre + rest) && rest != [] && rest[0] in hosts
    ensures ClearFrom(hosts, pre + rest, |pre|) == ClearFrom(hosts - {rest[0]}, pre + rest[1..], |pre| + 1)
  {
    var m, all := rest[0], pre + rest;
    assert forall i | 0 <= i < |pre| :: all[i] != all[|pre|] && all[i] == pre[i];
    RemoveAt(pre, m, rest[1..]);
    assert all == pre + [m] + rest[1..];
  }

  lemma SkipResult(hosts: map<Mac, Lcid>, pre: seq<Mac>, rest: seq<Mac>)
    requires |rest| > 1
    ensures pre + [rest[1]] + Odds(rest[2..]) == pre + Odds(rest)
    ensures hosts - {rest[0]} - Elems(Evens(rest[2..])) == hosts - Elems(Evens(rest))
  {
    var odds, evens := Odds(rest[2..]), Evens(rest[2..]);
    assert Odds(rest) == [rest[1]] + odds && Evens(rest) == [rest[0]] + evens;
    Regroup(pre, [rest[1]], odds);
    ElemsCons(rest[0], evens);
    MinusTwice(hosts, {rest[0]}, Elems(evens));
  }

  lemma Regroup(a: seq<Mac>, b: seq<Mac>, c: seq<Mac>)
    ensures a + b + c == a + (b + c)
  {
  }

  lemma MinusTwice(hosts: map<Mac, Lcid>, a: set<Mac>, b: set<Mac>)
    ensures hosts - a - b == hosts - (a + b)
  {
  }

  lemma ElemsCons(m: Mac, s: seq<Mac>)
    ensures Elems([m] + s) == {m} + Elems(s)
  {
  }

  lemma SkipShape(pre: seq<Mac>, rest: seq<Mac>)
    requires Distinct(pre + rest) && |rest| > 1
    ensures Distinct(pre + [rest[1]] + rest[2..]) && rest[0] !in rest[2..]
    ensures forall m | m in rest[2..] :: m in rest
  {
    var a, b := pre + rest, pre + [rest[1]] + rest[2..];
    forall i, j | 0 <= i < j < |b| ensures b[i] != b[j] {
      var x, y := if i < |pre| then i else i + 1, if j < |pre| then j else j + 1;
      assert b[i] == a[x] && b[j] == a[y];
    }
    forall i | 0 <= i < |rest[2..]| ensures rest[2..][i] != rest[0] {
      assert rest[2..][i] == a[|pre| + 2 + i] && rest[0] == a[|pre|];
    }
  }

  /** What is left of a list is its odd positions; what is forgotten is its even positions. */
  lemma ClearKeepsOdds(hosts: map<Mac, Lcid>, s: seq<Mac>)
    requires Distinct(s) && forall m | m in s :: m in hosts
    ensures ClearFrom(hosts, s, 0) == (hosts - Elems(Evens(s)), Odds(s), true)
    ensures Odds(s) == [] <==> |s| <= 1
  {
    assert [] + s == s && [] + Odds(s) == Odds(s);
    ClearSkips(hosts, [], s);
  }

  lemma TailDistinct(s: seq<Mac>)
    requires Distinct(s) && s != []
    ensures Distinct(s[1..]) && s[0] !in s[1..]
  {
    assert forall i | 0 < i < |s| :: s[i] == s[1..][i - 1];
  }

  lemma {:induction false} Halves(s: seq<Mac>)
    requires Distinct(s)
    ensures Elems(s) == Elems(Evens(s)) + Elems(Odds(s))
    ensures Distinct(Odds(s)) && Elems(Evens(s)) !! Elems(Odds(s))
    decreases |s|
  {
    if |s| >= 2 {
      var q := s[2..];
      TailDistinct(s);
      TailDistinct(s[1..]);
      assert s[1..][1..] == q && s[1] == s[1..][0] && s[1] in s[1..];
      assert forall m | m in q :: m in s[1..];
      Halves(q);
      ElemsCons(s[0], Evens(q));
      ElemsCons(s[1], Odds(q));
      assert s[0] !in Elems(q) && s[1] !in Elems(q);
      assert forall i | 0 <= i < |Odds(q)| :: Odds(q)[i] in Elems(Odds(q));
    }
  }

  // ---------------------------------------------------------------------------
  // The invariant
  // ---------------------------------------------------------------------------

  /** Lists without duplicates, no MAC in two of them, and every MAC of a list a known host. */
  ghost predicate Inv(r: Registry) {
    && (forall d | d in r.macs :: Distinct(r.macs[d]))
    && (forall d, e, m | Holds(r, d, m) && Holds(r, e, m) :: d == e)
    && (forall d, m | Holds(r, d, m) :: m in r.hosts)
  }

  lemma DistinctCons(m: Mac, s: seq<Mac>)
    requires Distinct(s) && m !in Elems(s)
    ensures Distinct([m] + s)
  {
    assert forall i | 0 <= i < |s| :: s[i] in Elems(s);
  }

  lemma {:induction false} RemoveGone(s: seq<Mac>, m: Mac)
    requires Distinct(s)
    ensures Distinct(Remove(s, m)) && Elems(Remove(s, m)) == Elems(s) - {m}
  {
    if s != [] {
      var q := s[1..];
      TailDistinct(s);
      assert s == [s[0]] + q;
      ElemsCons(s[0], q);
      assert s[0] !in Elems(q);
      if s[0] != m {
        RemoveGone(q, m);
        ElemsCons(s[0], Remove(q, m));
        DistinctCons(s[0], Remove(q, m));
      }
    }
  }

  lemma ClearKeeps(r: Registry, d: Dpid)
    requires Inv(r) && d in r.macs
    ensures Clear(r, d).1 && Inv(Clear(r, d).0)
    ensures Clear(r, d).0 == Registry(r.hosts - Elems(Evens(r.macs[d])), r.macs[d := Odds(r.macs[d])])
  {
    var s := r.macs[d];
    assert forall m | m in s :: Holds(r, d, m);
    ClearKeepsOdds(r.hosts, s);
    Halves(s);
    var c := Clear(r, d).0;
    forall e, m | Holds(c, e, m) ensures Holds(r, e, m) && m in c.hosts {
      if e == d { assert m in Elems(Odds(s)); }
      assert Holds(r, e, m) && (m in Elems(Evens(s)) ==> Holds(r, d, m));
    }
  }

  lemma LeaveKeeps(r: Registry, d: Dpid, last: bool)
    requires Inv(r)
    ensures Inv(Leave(r, d, last).0) && Leave(r, d, last).1 == (d in r.macs)
  {
    if d in r.macs {
      ClearKeeps(r, d);
      var c, l := Clear(r, d).0, Leave(r, d, last).0;
      assert forall e, m | Holds(l, e, m) :: Holds(c, e, m);
    }
  }

  /** A datapath goes when the last controller leaves it, and not before; no other is touched. */
  lemma LeaveLast(r: Registry, d: Dpid, last: bool)
    requires Inv(r)
    ensures var l := Leave(r, d, last).0;
            && (d in l.macs <==> d in r.macs && !last)
            && forall e | e != d :: (e in l.macs <==> e in r.macs) && (e in r.macs ==> l.macs[e] == r.macs[e])
  {
    if d in r.macs { ClearKeeps(r, d); }
  }

  lemma ForgetKeeps(r: Registry, m: Mac)
    requires Inv(r)
    ensures Inv(Forget(r, m)) && Forget(r, m).hosts == r.hosts && Forget(r, m).macs.Keys == r.macs.Keys
    ensures forall d, x :: Holds(Forget(r, m), d, x) <==> Holds(r, d, x) && x != m
  {
    if exists d :: Holds(r, d, m) {
      var d :| Holds(r, d, m) && Forget(r, m) == r.(macs := r.macs[d := Remove(r.macs[d], m)]);
      RemovedOne(r, d, m);
      assert forall e | Holds(r, e, m) :: e == d;
    }
  }

  lemma RemovedOne(r: Registry, d: Dpid, m: Mac)
    requires Inv(r) && d in r.macs
    ensures var f := r.(macs := r.macs[d := Remove(r.macs[d], m)]);
            Inv(f) && forall e, x :: Holds(f, e, x) <==> Holds(r, e, x) && !(e == d && x == m)
  {
    RemoveGone(r.macs[d], m);
    var f := r.(macs := r.macs[d := Remove(r.macs[d], m)]);
    forall e, x ensures Holds(f, e, x) <==> Holds(r, e, x) && !(e == d && x == m) {
      if e == d {
        assert x in f.macs[d] <==> x in Elems(f.macs[d]);
        assert x in r.macs[d] <==> x in Elems(r.macs[d]);
      }
    }
  }

  lemma HostConnectedKeeps(r: Registry, lc: Lcid, d: Dpid, m: Mac)
    requires Inv(r)
    ensures Inv(HostConnected(r, lc, d, m).0) && HostConnected(r, lc, d, m).1 == (d in r.macs)
    ensures forall e, x :: Holds(HostConnected(r, lc, d, m).0, e, x) <==>
              (Holds(r, e, x) && x != m) || (e == d && x == m && d in r.macs)
  {
    ForgetKeeps(r, m);
    var f := Dropped(r, m);
    assert forall e, x :: Holds(f, e, x) <==> Holds(r, e, x) && x != m;
    assert Inv(f) && f.macs.Keys == r.macs.Keys;
    var g := HostConnected(r, lc, d, m).0;
    assert g.macs == f.(macs := if d in f.macs then f.macs[d := Added(f.macs[d], m)] else f.macs).macs;
    assert forall e, x :: Holds(g, e, x) <==> Holds(f, e, x) || (e == d && x == m && d in f.macs);
  }

  /** HOST_LEAVE trusts the datapath it is given: it keeps the invariant exactly when no other
      datapath has the MAC in its list. */
  lemma HostLeaveExact(r: Registry, d: Dpid, m: Mac)
    requires Inv(r)
    ensures Inv(HostLeave(r, d, m).0) <==> forall e | e != d :: !Holds(r, e, m)
  {
    var f := HostLeave(r, d, m).0;
    if d in r.macs {
      RemovedOne(r, d, m);
      var g := r.(macs := r.macs[d := Remove(r.macs[d], m)]);
      assert forall e, x :: Holds(f, e, x) <==> Holds(g, e, x);
    } else {
      assert forall e, x :: Holds(f, e, x) <==> Holds(r, e, x);
    }
    if e :| e != d && Holds(r, e, m) {
      assert Holds(f, e, m);
    }
  }

  /** What a wrong HOST_LEAVE leads to: the next clearing of the list that still has the MAC raises. */
  lemma WrongHostLeave(m: Mac)
    ensures var r := Registry(map[m := 1], map[7 := [m], 8 := []]);
            Inv(r) && !Leave(HostLeave(r, 8, m).0, 7, true).1
  {
    var r := Registry(map[m := 1], map[7 := [m], 8 := []]);
    var f := HostLeave(r, 8, m).0;
    assert f == Registry(map[], map[7 := [m], 8 := []]);
    assert ClearFrom(f.hosts, [m], 0) == (f.hosts, [m], false);
  }

  // ---------------------------------------------------------------------------
  // Runs
  // ---------------------------------------------------------------------------

  datatype Event =
    | EvConnected(dpid: Dpid)
    | EvLeave(dpid: Dpid, last: bool)
    | EvHost(lc: Lcid, dpid: Dpid, mac: Mac)
    | EvHostLeave(dpid: Dpid, mac: Mac)

  ghost function Step(r: Registry, e: Event): (Registry, bool) {
    match e
    case EvConnected(d) => Connected(r, d)
    case EvLeave(d, last) => Leave(r, d, last)
    case EvHost(lc, d, m) => HostConnected(r, lc, d, m)
    case EvHostLeave(d, m) => HostLeave(r, d, m)
  }

  /** The datapath a message is about is registered. */
  predicate Known(r: Registry, e: Event) {
    e.EvConnected? || e.dpid in r.macs
  }

  /** HOST_LEAVE names the datapath that has the MAC, if any has. */
  ghost predicate Honest(r: Registry, e: Event) {
    e.EvHostLeave? ==> forall d | d != e.dpid :: !Holds(r, d, e.mac)
  }

  ghost predicate Run(rs: seq<Registry>, es: seq<Event>) {
    && |rs| == |es| + 1 && rs[0] == Registry(map[], map[])
    && forall i | 0 <= i < |es| :: rs[i + 1] == Step(rs[i], es[i]).0
  }

  lemma ConnectedKeeps(r: Registry, d: Dpid)
    requires Inv(r)
    ensures Inv(Connected(r, d).0) && Connected(r, d).1
  {
    if d in r.macs {
      ClearKeeps(r, d);
    } else {
      assert forall e, m :: Holds(Connected(r, d).0, e, m) <==> Holds(r, e, m);
    }
  }

  lemma StepKeeps(r: Registry, e: Event)
    requires Inv(r) && Honest(r, e)
    ensures Inv(Step(r, e).0) && Step(r, e).1 == Known(r, e)
  {
    match e
    case EvConnected(d) => ConnectedKeeps(r, d);
    case EvLeave(d, last) => LeaveKeeps(r, d, last);
    case EvHost(lc, d, m) => HostConnectedKeeps(r, lc, d, m);
    case EvHostLeave(d, m) => HostLeaveExact(r, d, m);
  }

  /** In every run whose HOST_LEAVEs are honest the invariant holds throughout, and a handler
      raises only for an unknown datapath: no key it deletes is ever missing. */
  lemma {:induction false} RunInv(rs: seq<Registry>, es: seq<Event>, n: nat)
    requires Run(rs, es) && n <= |es| && forall i | 0 <= i < |es| :: Honest(rs[i], es[i])
    ensures Inv(rs[n])
    ensures n < |es| ==> Step(rs[n], es[n]).1 == Known(rs[n], es[n])
  {
    if n > 0 {
      RunInv(rs, es, n - 1);
      StepKeeps(rs[n - 1], es[n - 1]);
    }
    if n < |es| { StepKeeps(rs[n], es[n]); }
  }

  // ---------------------------------------------------------------------------
  // Stale hosts
  // ---------------------------------------------------------------------------

  /** The known hosts are exactly those in some list. */
  ghost predicate Exact(r: Registry) {
    forall m :: m in r.hosts <==> exists d :: Holds(r, d, m)
  }

  /** The departure of a datapath leaves the hosts at the odd positions of its list behind, known
      but in no list: the registry stays exact only if there was at most one host. */
  lemma LeaveStale(r: Registry, d: Dpid)
    requires Inv(r) && Exact(r) && d in r.macs
    ensures var l := Leave(r, d, true).0;
            && (forall m :: m in l.hosts && !(exists e :: Holds(l, e, m)) <==> m in Odds(r.macs[d]))
            && (Exact(l) <==> |r.macs[d]| <= 1)
  {
    var s, l := r.macs[d], Leave(r, d, true).0;
    ClearKeeps(r, d);
    Halves(s);
    assert forall e, m :: Holds(l, e, m) <==> Holds(r, e, m) && e != d;
    forall m ensures m in l.hosts && !(exists e :: Holds(l, e, m)) <==> m in Odds(s) {
      assert m in Odds(s) <==> m in Elems(Odds(s));
      assert m in s <==> m in Elems(s);
      if m in s { assert Holds(r, d, m); }
      if m in l.hosts && m !in s {
        var e :| Holds(r, e, m);
        assert Holds(l, e, m);
      }
    }
    if |s| > 1 {
      assert s[1] in Odds(s);
    } else {
      assert forall e, m | Holds(l, e, m) :: Holds(r, e, m) && (Holds(r, d, m) ==> e == d);
    }
  }

  /** A datapath that connects to another controller should lose all its hosts; it keeps those at the
      odd positions, so it is cleared only if it had at most one. */
  lemma ReconnectStale(r: Registry, d: Dpid)
    requires Inv(r) && d in r.macs
    ensures Connected(r, d).1 && Connected(r, d).0.macs[d] == Odds(r.macs[d])
    ensures Connected(r, d).0.macs[d] == [] <==> |r.macs[d]| <= 1
    ensures forall m :: m in Connected(r, d).0.hosts <==> m in r.hosts && m !in Evens(r.macs[d])
  {
    ClearKeeps(r, d);
    assert forall m | m in r.macs[d] :: Holds(r, d, m);
    ClearKeepsOdds(r.hosts, r.macs[d]);
  }

  /** Clearing as the comment in the handler asks for it: all hosts of the list are forgotten. */
  function FullClear(r: Registry, d: Dpid): Registry
    requires d in r.macs
  {
    Registry(r.hosts - Elems(r.macs[d]), r.macs[d := []])
  }

  ghost function MeantStep(r: Registry, e: Event): Registry {
    match e
    case EvConnected(d) => if d in r.macs then FullClear(r, d) else Connected(r, d).0
    case EvLeave(d, last) =>
      if d !in r.macs then r
      else
        var c := FullClear(r, d);
        if last then c.(macs := c.macs - {d}) else c
    case _ => Step(r, e).0
  }

  ghost predicate MeantRun(rs: seq<Registry>, es: seq<Event>) {
    && |rs| == |es| + 1 && rs[0] == Registry(map[], map[])
    && forall i | 0 <= i < |es| :: Known(rs[i], es[i]) && Honest(rs[i], es[i]) && rs[i + 1] == MeantStep(rs[i], es[i])
  }

  lemma FullClearKeeps(r: Registry, d: Dpid, g: Registry)
    requires Inv(r) && Exact(r) && d in r.macs
    requires g == FullClear(r, d) || g == FullClear(r, d).(macs := FullClear(r, d).macs - {d})
    ensures Inv(g) && Exact(g)
  {
    assert forall e, m :: Holds(g, e, m) <==> Holds(r, e, m) && e != d;
    assert forall m :: m in Elems(r.macs[d]) <==> Holds(r, d, m);
    forall m ensures m in g.hosts <==> exists e :: Holds(g, e, m) {
      if m in g.hosts {
        var e :| Holds(r, e, m);
        assert Holds(g, e, m);
      }
    }
  }

  lemma HostExact(r: Registry, lc: Lcid, d: Dpid, m: Mac)
    requires Inv(r) && Exact(r) && d in r.macs
    ensures Exact(HostConnected(r, lc, d, m).0)
  {
    HostConnectedKeeps(r, lc, d, m);
    ForgetKeeps(r, m);
    var g := HostConnected(r, lc, d, m).0;
    forall x ensures x in g.hosts <==> exists e :: Holds(g, e, x) {
      if x == m {
        assert Holds(g, d, m);
      } else if x in r.hosts {
        var e :| Holds(r, e, x);
        assert Holds(g, e, x);
      }
    }
  }

  lemma HostLeaveKeepsExact(r: Registry, d: Dpid, m: Mac)
    requires Inv(r) && Exact(r) && d in r.macs && forall e | e != d :: !Holds(r, e, m)
    ensures Exact(HostLeave(r, d, m).0)
  {
    HostLeaveExact(r, d, m);
    RemovedOne(r, d, m);
    var f, g := HostLeave(r, d, m).0, r.(macs := r.macs[d := Remove(r.macs[d], m)]);
    assert forall e, x :: Holds(f, e, x) <==> Holds(g, e, x);
    assert forall e, x :: Holds(f, e, x) <==> Holds(r, e, x) && x != m;
    forall x | x in f.hosts ensures exists e :: Holds(f, e, x) {
      var e :| Holds(r, e, x);
      assert Holds(f, e, x);
    }
  }

  /** With the clearing that was meant, the known hosts are the hosts of the lists in every run. */
  lemma {:induction false} MeantExact(rs: seq<Registry>, es: seq<Event>, n: nat)
    requires MeantRun(rs, es) && n < |rs|
    ensures Inv(rs[n]) && Exact(rs[n])
  {
    if n > 0 {
      MeantExact(rs, es, n - 1);
      var r, e := rs[n - 1], es[n - 1];
      match e
      case EvConnected(d) =>
        if d in r.macs {
          FullClearKeeps(r, d, MeantStep(r, e));
        } else {
          assert forall x, m :: Holds(MeantStep(r, e), x, m) <==> Holds(r, x, m);
        }
      case EvLeave(d, last) => FullClearKeeps(r, d, MeantStep(r, e));
      case EvHost(lc, d, m) =>
        HostConnectedKeeps(r, lc, d, m);
        HostExact(r, lc, d, m);
      case EvHostLeave(d, m) =>
        HostLeaveExact(r, d, m);
        HostLeaveKeepsExact(r, d, m);
    }
  }
}
