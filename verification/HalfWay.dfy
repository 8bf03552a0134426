/**
 Frames while a FLOW_MOD is being carried out: its rules reach the switches one by one, and exactly
 when the rules laid so far leave the domain free of loops.
 */
module HalfWay {
  import opened Base
  import opened Graphs
  import opened Fabric
  import opened FlowTables
  import opened Transit

  /** No frame for the match comes by a switch twice. */
  ghost predicate LoopFreeTables(wire: Wire, t: Tables, k: Match) {
    forall r: seq<Dpid> | WireRoute(wire, t, k, r) :: Simple(r)
  }

  /** By the rules of `t` a frame gets from switch `s` to a switch of the way. */
  ghost predicate ComesBack(wire: Wire, t: Tables, k: Match, s: Dpid, p: Way) {
    exists r: seq<Dpid> :: WireRoute(wire, t, k, r) && r[0] == s && Has(p, r[|r| - 1])
  }

  /** Where the last rule of a way leads, if to a switch. */
  ghost predicate LeadsTo(wire: Wire, p: Way, s: Dpid) {
    p != [] && p[|p| - 1] in wire && wire[p[|p| - 1]] == s
  }

  // ---------------------------------------------------------------------------
  // Hops after rules were laid
  // ---------------------------------------------------------------------------

  lemma HopOff(wire: Wire, t: Tables, k: Match, p: Way, s: Dpid, u: Dpid)
    requires Once(p) && !Has(p, s)
    ensures WireHop(wire, Lay(t, k, p), k, s, u) <==> WireHop(wire, t, k, s, u)
  {
    LayLookup(t, k, p, s);
  }

  lemma HopOn(wire: Wire, t: Tables, k: Match, p: Way, i: nat, u: Dpid)
    requires Threaded(wire, p) && i < |p|
    ensures WireHop(wire, Lay(t, k, p), k, p[i].0, u) <==> if i + 1 < |p| then u == p[i + 1].0 else LeadsTo(wire, p, u)
  {
    LayLookup(t, k, p, p[i].0);
  }

  lemma FirstIn(r: seq<Dpid>, p: Way) returns (m: nat)
    requires r != [] && Has(p, r[|r| - 1])
    ensures m < |r| && Has(p, r[m]) && forall h | 0 <= h < m :: !Has(p, r[h])
  {
    m := 0;
    while !Has(p, r[m])
      invariant m < |r| && forall h | 0 <= h < m :: !Has(p, r[h])
      decreases |r| - m
    {
      m := m + 1;
    }
  }

  /** Up to where it meets the way, a route is one of both tables. */
  lemma OffWay(wire: Wire, t: Tables, k: Match, p: Way, r: seq<Dpid>)
    requires Once(p) && r != [] && forall h | 0 <= h < |r| - 1 :: !Has(p, r[h])
    ensures WireRoute(wire, Lay(t, k, p), k, r) <==> WireRoute(wire, t, k, r)
  {
    forall h | 0 <= h < |r| - 1
      ensures WireHop(wire, Lay(t, k, p), k, r[h], r[h + 1]) <==> WireHop(wire, t, k, r[h], r[h + 1])
    {
      HopOff(wire, t, k, p, r[h], r[h + 1]);
    }
  }

  lemma RouteJoin(wire: Wire, t: Tables, k: Match, a: seq<Dpid>, b: seq<Dpid>)
    requires WireRoute(wire, t, k, a) && WireRoute(wire, t, k, b) && a[|a| - 1] == b[0]
    ensures WireRoute(wire, t, k, a + b[1..])
  {
    var r := a + b[1..];
    forall j | 0 <= j < |r| - 1 ensures WireHop(wire, t, k, r[j], r[j + 1]) {
      if j + 1 < |a| {
        assert WireHop(wire, t, k, a[j], a[j + 1]);
      } else {
        var h := j + 1 - |a|;
        assert WireHop(wire, t, k, b[h], b[h + 1]);
        assert r[j] == b[h];
      }
    }
  }

  // ---------------------------------------------------------------------------
  // A way back closes a loop
  // ---------------------------------------------------------------------------

  /** The switches of the way from position `i` on, and where it leads. */
  ghost function Rest(p: Way, i: nat, s: Dpid): seq<Dpid>
    requires i < |p|
  {
    seq(|p| - i, h requires 0 <= h < |p| - i => p[i + h].0) + [s]
  }

  lemma RestRoute(wire: Wire, t: Tables, k: Match, p: Way, i: nat, s: Dpid)
    requires Threaded(wire, p) && i < |p| && LeadsTo(wire, p, s)
    ensures WireRoute(wire, Lay(t, k, p), k, Rest(p, i, s))
  {
    var r := Rest(p, i, s);
    forall j | 0 <= j < |r| - 1 ensures WireHop(wire, Lay(t, k, p), k, r[j], r[j + 1]) {
      HopOn(wire, t, k, p, i + j, r[j + 1]);
    }
  }

  lemma BackIsLoop(wire: Wire, t: Tables, k: Match, p: Way, s: Dpid)
    requires Threaded(wire, p) && LeadsTo(wire, p, s) && ComesBack(wire, t, k, s, p)
    ensures !LoopFreeTables(wire, Lay(t, k, p), k)
  {
    var r: seq<Dpid> :| WireRoute(wire, t, k, r) && r[0] == s && Has(p, r[|r| - 1]);
    var m := FirstIn(r, p);
    var head := r[0..m + 1];
    RoutePart(wire, t, k, r, 0, m + 1);
    OffWay(wire, t, k, p, head);
    var i: nat :| i < |p| && p[i].0 == r[m];
    RestRoute(wire, t, k, p, i, s);
    RouteJoin(wire, Lay(t, k, p), k, head, Rest(p, i, s));
    var loop := head + Rest(p, i, s)[1..];
    assert loop[0] == s && loop[|loop| - 1] == s && |loop| > 1;
  }

  // ---------------------------------------------------------------------------
  // A loop needs a way back
  // ---------------------------------------------------------------------------

  lemma Rotate(wire: Wire, t: Tables, k: Match, c: seq<Dpid>, i: nat) returns (d: seq<Dpid>)
    requires WireRoute(wire, t, k, c) && |c| > 1 && c[0] == c[|c| - 1] && i < |c|
    ensures WireRoute(wire, t, k, d) && |d| == |c| && d[0] == c[i] && d[|d| - 1] == c[i]
  {
    RoutePart(wire, t, k, c, i, |c|);
    RoutePart(wire, t, k, c, 0, i + 1);
    RouteJoin(wire, t, k, c[i..|c|], c[0..i + 1]);
    d := c[i..|c|] + c[0..i + 1][1..];
  }

  /** A route that starts on the way follows it. */
  lemma {:induction false} AlongWay(wire: Wire, t: Tables, k: Match, p: Way, d: seq<Dpid>, i: nat, h: nat)
    requires Threaded(wire, p) && WireRoute(wire, Lay(t, k, p), k, d) && i < |p| && d[0] == p[i].0
    requires h < |d| && i + h <= |p|
    ensures if i + h < |p| then d[h] == p[i + h].0 else LeadsTo(wire, p, d[h])
    decreases h
  {
    if h > 0 {
      AlongWay(wire, t, k, p, d, i, h - 1);
      assert WireHop(wire, Lay(t, k, p), k, d[h - 1], d[h - 1 + 1]);
      HopOn(wire, t, k, p, i + h - 1, d[h]);
    }
  }

  lemma BackFrom(wire: Wire, t: Tables, k: Match, p: Way, q: seq<Dpid>)
    requires Once(p) && WireRoute(wire, Lay(t, k, p), k, q) && Has(p, q[|q| - 1])
    ensures ComesBack(wire, t, k, q[0], p)
  {
    var m := FirstIn(q, p);
    var r := q[0..m + 1];
    RoutePart(wire, Lay(t, k, p), k, q, 0, m + 1);
    OffWay(wire, t, k, p, r);
    assert r[0] == q[0] && Has(p, r[|r| - 1]);
  }

  /** A circle that starts on the way is longer than the rest of it. */
  lemma CircleIsLonger(wire: Wire, t: Tables, k: Match, p: Way, d: seq<Dpid>, i: nat)
    requires Threaded(wire, p) && WireRoute(wire, Lay(t, k, p), k, d) && |d| > 1 && i < |p|
    requires d[0] == p[i].0 && d[|d| - 1] == p[i].0
    ensures i + |d| > |p|
  {
    if i + |d| - 1 < |p| {
      AlongWay(wire, t, k, p, d, i, |d| - 1);
      assert false;
    }
  }

  lemma LoopComesBack(wire: Wire, t: Tables, k: Match, p: Way, d: seq<Dpid>, i: nat) returns (s: Dpid)
    requires Threaded(wire, p) && WireRoute(wire, Lay(t, k, p), k, d) && |d| > 1 && i < |p|
    requires d[0] == p[i].0 && d[|d| - 1] == p[i].0
    ensures LeadsTo(wire, p, s) && ComesBack(wire, t, k, s, p)
  {
    CircleIsLonger(wire, t, k, p, d, i);
    var h := |p| - i;
    AlongWay(wire, t, k, p, d, i, h);
    s := d[h];
    var q := d[h..|d|];
    RoutePart(wire, Lay(t, k, p), k, d, h, |d|);
    assert q[|q| - 1] == p[i].0;
    BackFrom(wire, t, k, p, q);
  }

  lemma LoopMeetsWay(wire: Wire, t: Tables, k: Match, p: Way, c: seq<Dpid>) returns (i: nat)
    requires Once(p) && LoopFreeTables(wire, t, k)
    requires WireRoute(wire, Lay(t, k, p), k, c) && |c| > 1 && c[0] == c[|c| - 1]
    ensures i < |c| && Has(p, c[i])
  {
    if forall h | 0 <= h < |c| - 1 :: !Has(p, c[h]) {
      OffWay(wire, t, k, p, c);
      assert false;
    }
    i :| 0 <= i < |c| - 1 && Has(p, c[i]);
  }

  lemma CircleOf(wire: Wire, t: Tables, k: Match, r: seq<Dpid>) returns (c: seq<Dpid>)
    requires WireRoute(wire, t, k, r) && !Simple(r)
    ensures WireRoute(wire, t, k, c) && |c| > 1 && c[0] == c[|c| - 1]
  {
    var i, j :| 0 <= i < j < |r| && r[i] == r[j];
    RoutePart(wire, t, k, r, i, j + 1);
    c := r[i..j + 1];
  }

  /** Laying the rules of a way, or of a first part of one, keeps tables without loops free of them
      exactly if the last rule leads to no switch from which the old rules lead back to the way. */
  lemma LayLoopFree(wire: Wire, t: Tables, k: Match, p: Way)
    requires Threaded(wire, p) && LoopFreeTables(wire, t, k)
    ensures LoopFreeTables(wire, Lay(t, k, p), k) <==> forall s | LeadsTo(wire, p, s) :: !ComesBack(wire, t, k, s, p)
  {
    if s: Dpid :| LeadsTo(wire, p, s) && ComesBack(wire, t, k, s, p) {
      BackIsLoop(wire, t, k, p, s);
    }
    if r: seq<Dpid> :| WireRoute(wire, Lay(t, k, p), k, r) && !Simple(r) {
      var c := CircleOf(wire, Lay(t, k, p), k, r);
      var h := LoopMeetsWay(wire, t, k, p, c);
      var d := Rotate(wire, Lay(t, k, p), k, c, h);
      var i: nat :| i < |p| && p[i].0 == c[h];
      var s := LoopComesBack(wire, t, k, p, d, i);
    }
  }

  // ---------------------------------------------------------------------------
  // Half an installation
  // ---------------------------------------------------------------------------

  lemma PrefixThreaded(wire: Wire, w: Way, j: nat)
    requires Threaded(wire, w) && 0 < j <= |w|
    ensures Threaded(wire, w[..j])
    ensures j < |w| ==> forall s: Dpid :: LeadsTo(wire, w[..j], s) <==> s == w[j].0
  {
  }

  /** With the first `j` rules of a way laid there is a loop exactly if the old rules lead from the
      next switch of the way back to one of those that have their new rule. */
  lemma HalfSafe(wire: Wire, t: Tables, k: Match, w: Way, j: nat)
    requires Threaded(wire, w) && 0 < j < |w| && LoopFreeTables(wire, t, k)
    ensures LoopFreeTables(wire, Lay(t, k, w[..j]), k) <==> !ComesBack(wire, t, k, w[j].0, w[..j])
  {
    PrefixThreaded(wire, w, j);
    LayLoopFree(wire, t, k, w[..j]);
  }

  lemma {:induction false} RulesInPrefix(msgs: seq<ToSwitch>, m: nat)
    requires m <= |msgs|
    ensures |RulesIn(msgs[..m])| <= |RulesIn(msgs)| && RulesIn(msgs[..m]) == RulesIn(msgs)[..|RulesIn(msgs[..m])|]
    decreases |msgs|
  {
    if m == |msgs| {
      assert msgs[..m] == msgs;
    } else {
      var less := msgs[..|msgs| - 1];
      RulesInPrefix(less, m);
      assert less[..m] == msgs[..m];
    }
  }

  /** How many of the rules are among the first `m` messages of a FLOW_MOD's handler. */
  function RulesSent(msgs: seq<ToSwitch>, m: nat): nat
    requires m <= |msgs|
  {
    |RulesIn(msgs[..m])|
  }

  /** From nowhere the last of the first `j` rules leads to do the old rules lead back to them. */
  ghost predicate NoWayBack(wire: Wire, t: Tables, k: Match, w: Way, j: nat)
    requires j <= |w|
  {
    forall s | LeadsTo(wire, w[..j], s) :: !ComesBack(wire, t, k, s, w[..j])
  }

  lemma LaidSafe(wire: Wire, t: Tables, k: Match, w: Way, j: nat)
    requires Threaded(wire, w) && j <= |w| && LoopFreeTables(wire, t, k)
    ensures LoopFreeTables(wire, Lay(t, k, w[..j]), k) <==> NoWayBack(wire, t, k, w, j)
  {
    if j > 0 {
      PrefixThreaded(wire, w, j);
      LayLoopFree(wire, t, k, w[..j]);
    }
  }

  lemma PrefixLaid(tables: Tables, k: Match, msgs: seq<ToSwitch>, w: Way, j: nat, m: nat)
    requires j <= |w| && RulesIn(msgs) == w[..j] && m <= |msgs|
    requires forall x | x in msgs :: x.FlowAdd? ==> x.match_ == k
    ensures RulesSent(msgs, m) <= |w| && Apply(tables, msgs[..m]) == Lay(tables, k, w[..RulesSent(msgs, m)])
  {
    RulesInPrefix(msgs, m);
    assert forall i | 0 <= i < m :: msgs[i] in msgs;
    LayIsApply(tables, k, msgs[..m]);
    assert w[..j][..RulesSent(msgs, m)] == w[..RulesSent(msgs, m)];
  }

  lemma SentIsLaid(f: Fabric, dps: set<Dpid>, path: seq<Node>, s: Dpid, t: Dpid, k: Match, out: Port,
                   buffer: Option<nat>, data: Option<seq<byte>>, tables: Tables, m: nat)
    requires SwitchPath(f, path, s, t) && m <= |FlowModMsgs(f, dps, path, s, t, k, out, buffer, data).0|
    ensures forall i | 0 <= i < |path| :: path[i].Sw?
    ensures var msgs, w := FlowModMsgs(f, dps, path, s, t, k, out, buffer, data).0, WayOf(f, path, out);
            RulesSent(msgs, m) <= |w| && Apply(tables, msgs[..m]) == Lay(tables, k, w[..RulesSent(msgs, m)])
  {
    BranchesStop(f, dps, path, s, t, k, out, buffer, data);
    FlowModMatch(f, dps, path, s, t, k, out, buffer, data);
    var msgs := FlowModMsgs(f, dps, path, s, t, k, out, buffer, data).0;
    PrefixLaid(tables, k, msgs, WayOf(f, path, out), Connected(dps, path, 0), m);
  }

  /** Stopped after any number of its messages, by an exception or otherwise, the FLOW_MOD handler has
      laid a first part of its way, and it has left the domain free of loops exactly if the old rules
      do not lead back from where that part leads. The condition reads the old tables and the path only. */
  lemma FlowModHalfWay(f: Fabric, dps: set<Dpid>, path: seq<Node>, s: Dpid, t: Dpid, k: Match, out: Port,
                       buffer: Option<nat>, data: Option<seq<byte>>, tables: Tables, wire: Wire, m: nat)
    requires SwitchPath(f, path, s, t) && Agrees(f, wire) && LoopFreeTables(wire, tables, k)
    requires m <= |FlowModMsgs(f, dps, path, s, t, k, out, buffer, data).0|
    ensures forall i | 0 <= i < |path| :: path[i].Sw?
    ensures var msgs, w := FlowModMsgs(f, dps, path, s, t, k, out, buffer, data).0, WayOf(f, path, out);
            var j := RulesSent(msgs, m);
            && j <= |w|
            && (LoopFreeTables(wire, Apply(tables, msgs[..m]), k) <==> NoWayBack(wire, tables, k, w, j))
  {
    SentIsLaid(f, dps, path, s, t, k, out, buffer, data, tables, m);
    FlowModThreads(f, path, s, t, out, wire);
    var msgs := FlowModMsgs(f, dps, path, s, t, k, out, buffer, data).0;
    LaidSafe(wire, tables, k, WayOf(f, path, out), RulesSent(msgs, m));
  }

  // ---------------------------------------------------------------------------
  // Both happen
  // ---------------------------------------------------------------------------

  /** Two switches with a cable between their ports 5 and 6. */
  const PAIR := Fabric(
    {Sw(1), Sw(2)}, map[(Sw(1), Sw(2)) := Some(5), (Sw(2), Sw(1)) := Some(6)], map[1 := map[], 2 := map[]])

  const CABLES: Wire := map[(1, 5) := 2, (2, 6) := 1]

  /** With the old rules from switch 2 through switch 1, the first message of a FLOW_MOD from 1 through
      2 closes a circle. */
  lemma TransientLoop(k: Match, data: Option<seq<byte>>)
    ensures var old_ := FlowModMsgs(PAIR, {1, 2}, [Sw(2), Sw(1)], 2, 1, k, 9, None, data);
            var new_ := FlowModMsgs(PAIR, {1, 2}, [Sw(1), Sw(2)], 1, 2, k, 9, None, data);
            && old_.1 && new_.1
            && WireRoute(CABLES, Apply(Apply(map[], old_.0), new_.0[..1]), k, [1, 2, 1])
  {
    var old_ := FlowModMsgs(PAIR, {1, 2}, [Sw(2), Sw(1)], 2, 1, k, 9, None, data).0;
    var new_ := FlowModMsgs(PAIR, {1, 2}, [Sw(1), Sw(2)], 1, 2, k, 9, None, data).0;
    PairMsgs(k, 2, 1, 6, data);
    PairMsgs(k, 1, 2, 5, data);
    assert new_[..1] == [FlowAdd(1, k, 5, None)];
    var t := Apply(map[], old_);
    assert t == map[(2, k) := 6, (1, k) := 9] by { ThreeApplied(map[], old_); }
    ApplyOne(t, FlowAdd(1, k, 5, None));
    var u := Apply(t, new_[..1]);
    assert WireHop(CABLES, u, k, 1, 2) && WireHop(CABLES, u, k, 2, 1);
  }

  /** Only the rule of `s` leads over a cable, to `u`. */
  ghost predicate OneCable(wire: Wire, t: Tables, k: Match, s: Dpid, u: Dpid) {
    s != u && forall x: Dpid, y: Dpid | WireHop(wire, t, k, x, y) :: x == s && y == u
  }

  lemma OnlyHop(wire: Wire, t: Tables, k: Match, s: Dpid, u: Dpid, r: seq<Dpid>, j: nat)
    requires OneCable(wire, t, k, s, u) && WireRoute(wire, t, k, r) && j + 1 < |r|
    ensures r[j] == s && r[j + 1] == u
  {
    assert WireHop(wire, t, k, r[j], r[j + 1]);
  }

  lemma OneCableFree(wire: Wire, t: Tables, k: Match, s: Dpid, u: Dpid)
    requires OneCable(wire, t, k, s, u)
    ensures LoopFreeTables(wire, t, k)
  {
    forall r: seq<Dpid> | WireRoute(wire, t, k, r) ensures Simple(r) {
      if |r| > 1 { OnlyHop(wire, t, k, s, u, r, 0); }
      if |r| > 2 { OnlyHop(wire, t, k, s, u, r, 1); }
    }
  }

  /** A frame on its way meets the rules of different moments. Two complete installations of opposite
      direction leave no loop, the first nor both; but a frame that went from 1 to 2 by the first is
      sent back by the second. */
  lemma FlightReturns(k: Match, data: Option<seq<byte>>)
    ensures var first := FlowModMsgs(PAIR, {1, 2}, [Sw(1), Sw(2)], 1, 2, k, 9, None, data);
            var second := FlowModMsgs(PAIR, {1, 2}, [Sw(2), Sw(1)], 2, 1, k, 9, None, data);
            var t := Apply(map[], first.0);
            var u := Apply(t, second.0);
            && first.1 && second.1 && LoopFreeTables(CABLES, t, k) && LoopFreeTables(CABLES, u, k)
            && WireHop(CABLES, t, k, 1, 2) && WireHop(CABLES, u, k, 2, 1)
  {
    var first := FlowModMsgs(PAIR, {1, 2}, [Sw(1), Sw(2)], 1, 2, k, 9, None, data).0;
    var second := FlowModMsgs(PAIR, {1, 2}, [Sw(2), Sw(1)], 2, 1, k, 9, None, data).0;
    PairMsgs(k, 1, 2, 5, data);
    PairMsgs(k, 2, 1, 6, data);
    var t := Apply(map[], first);
    assert t == map[(1, k) := 5, (2, k) := 9] by { ThreeApplied(map[], first); }
    var u := Apply(t, second);
    assert u == map[(2, k) := 6, (1, k) := 9] by { ThreeApplied(t, second); }
    OneCableFree(CABLES, t, k, 1, 2);
    OneCableFree(CABLES, u, k, 2, 1);
  }

  lemma PairMsgs(k: Match, s: Dpid, t: Dpid, port: Port, data: Option<seq<byte>>)
    requires (s, t, port) == (2, 1, 6) || (s, t, port) == (1, 2, 5)
    ensures FlowModMsgs(PAIR, {1, 2}, [Sw(s), Sw(t)], s, t, k, 9, None, data) ==
            ([FlowAdd(s, k, port, None), FlowAdd(t, k, 9, None), PacketOut(t, s, To(9), None, data)], true)
  {
    var path, add, i: nat := [Sw(s), Sw(t)], FlowAdd(s, k, port, None), 0;
    assert HopPort(PAIR, path[0], path[1]) == Some(port);
    var all := LoopRules(PAIR, {1, 2}, path, i, 1, k);
    assert LoopRules(PAIR, {1, 2}, path, i + 1, 1, k) == ([], true);
    assert all == ([add] + [], true);
    var last, release := FlowAdd(t, k, 9, None), PacketOut(t, s, To(9), None, data);
    assert FlowModMsgs(PAIR, {1, 2}, path, s, t, k, 9, None, data) == (all.0 + [last, release], true);
    assert [add] + [] + [last, release] == [add, last, release];
  }

  lemma ApplyOne(t: Tables, m: ToSwitch)
    ensures Apply(t, [m]) == if m.FlowAdd? then t[(m.dpid, m.match_) := m.port] else t
  {
    assert [m][..0] == [];
  }

  lemma ThreeApplied(t: Tables, msgs: seq<ToSwitch>)
    requires |msgs| == 3 && msgs[0].FlowAdd? && msgs[1].FlowAdd? && msgs[2].PacketOut?
    ensures Apply(t, msgs)
            == t[(msgs[0].dpid, msgs[0].match_) := msgs[0].port][(msgs[1].dpid, msgs[1].match_) := msgs[1].port]
  {
    assert msgs == [msgs[0]] + [msgs[1]] + [msgs[2]];
    ApplyConcat(t, [msgs[0]] + [msgs[1]], [msgs[2]]);
    ApplyConcat(t, [msgs[0]], [msgs[1]]);
    ApplyOne(t, msgs[0]);
    ApplyOne(Apply(t, [msgs[0]]), msgs[1]);
    ApplyOne(Apply(t, [msgs[0]] + [msgs[1]]), msgs[2]);
  }
}
