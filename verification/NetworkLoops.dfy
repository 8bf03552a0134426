/**
 Loop freedom of the whole network for frames between domains: after any run of FLOW_MODs a frame
 gets nearer to its destination's domain, then to its host, or it meets a later rule of its domain.
 */
module NetworkLoops {
  import opened Base
  import opened Graphs
  import opened Fabric
  import opened FlowTables
  import opened Delivery
  import opened NetworkRuns
  import T = Transit
  import D = DomainGraph
  import S = Stitching

  // ---------------------------------------------------------------------------
  // Orders head for the destination
  // ---------------------------------------------------------------------------

  /** The order of a domain on a shortest path to the domain `goal`: it leaves by the path's next edge. */
  ghost predicate Heads(n: Network, goal: Lcid, o: S.Order) {
    exists path, i :: HeadsAt(n, goal, o, path, i)
  }

  ghost predicate HeadsAt(n: Network, goal: Lcid, o: S.Order, path: seq<Lcid>, i: nat) {
    && i + 1 < |path| && Shortest(n.topo.edges.Keys, path[0], goal, path)
    && n.pick((path[i], path[i + 1])) in D.KeysOf(n.topo, (path[i], path[i + 1]))
    && o.lcid == path[i]
    && o.outDpid == S.Via(n.topo, n.pick, path, i).leftDpid && o.outPort == S.Via(n.topo, n.pick, path, i).outPort
  }

  /** The orders for a request of the source's domain head for the destination's. */
  lemma StitchHeads(n: Network, hosts: map<Mac, Lcid>, start: Lcid, inDpid: Dpid, srcMac: Mac, dstMac: Mac,
                    path: seq<Lcid>)
    requires Asks(n, hosts, start, srcMac, dstMac, path) && S.Agrees(n.topo, n.pick, path)
    ensures forall o | o in S.PacketIn(n.topo, n.pick, n.ctrls, hosts, start, inDpid, srcMac, dstMac, path).0 ::
              o.dst == dstMac && Heads(n, hosts[dstMac], o)
  {
    ShortestSimple(n.topo.edges.Keys, start, hosts[dstMac], path);
    S.StitchChain(n.topo, n.pick, n.ctrls, path, inDpid, dstMac);
    S.StitchDst(n.topo, n.pick, n.ctrls, path, 0, path[0], inDpid, dstMac);
    var os := S.Stitch(n.topo, n.pick, n.ctrls, path, 0, path[0], inDpid, dstMac).0;
    forall o | o in os ensures Heads(n, hosts[dstMac], o) {
      var j :| 0 <= j < |os| && os[j] == o;
      assert S.ChainedAt(n.topo, n.pick, path, 0, inDpid, os, j);
      assert HeadsAt(n, hosts[dstMac], o, path, j);
    }
  }

  /** How many domains away the domain of a switch is. */
  ghost predicate Ranked(n: Network, goal: Lcid, s: Dpid) {
    s in n.owner && Reaches(n.topo.edges.Keys, n.owner[s], goal)
  }

  ghost function Rank(n: Network, goal: Lcid, s: Dpid): nat
    requires Ranked(n, goal, s)
  {
    Dist(n.topo.edges.Keys, n.owner[s], goal)
  }

  /** The way of a domain with rules over cables, that leads out into a domain nearer to the goal. */
  ghost predicate HeadingWay(n: Network, goal: Lcid, w: T.Way) {
    && T.Threaded(n.wire, w) && (exists u :: u != goal && OwnedBy(n, w, u))
    && Ranked(n, goal, w[0].0)
    && w[|w| - 1] in n.wire && Ranked(n, goal, n.wire[w[|w| - 1]])
    && Rank(n, goal, n.wire[w[|w| - 1]]) < Rank(n, goal, w[0].0)
  }

  lemma WayHeads(n: Network, goal: Lcid, o: S.Order, p: seq<Node>)
    requires Consistent(n) && InsideAt(n, o, p) && Heads(n, goal, o)
    ensures o.lcid != goal && OwnedBy(n, WayAt(n, o, p), o.lcid) && HeadingWay(n, goal, WayAt(n, o, p))
  {
    var path, i :| HeadsAt(n, goal, o, path, i);
    var w := WayAt(n, o, p);
    WayThreads(n, o, p);
    WayOwned(n, o, p);
    LinkCable(n, path, i);
    ShortestSimple(n.topo.edges.Keys, path[0], goal, path);
    assert path[i] != path[|path| - 1];
    NextIsNearer(n, goal, path, i);
    assert Owns(n, o.lcid, w[0].0);
  }

  lemma NextIsNearer(n: Network, goal: Lcid, path: seq<Lcid>, i: nat)
    requires i + 1 < |path| && Shortest(n.topo.edges.Keys, path[0], goal, path)
    ensures var E := n.topo.edges.Keys;
            Reaches(E, path[i], goal) && Reaches(E, path[i + 1], goal)
              && Dist(E, path[i + 1], goal) < Dist(E, path[i], goal)
  {
    var E := n.topo.edges.Keys;
    SuffixShortest(E, path[0], goal, path, i);
    SuffixShortest(E, path[0], goal, path, i + 1);
    DistOfShortest(E, path[i], goal, path[i..]);
    DistOfShortest(E, path[i + 1], goal, path[i + 1..]);
  }

  // ---------------------------------------------------------------------------
  // What one hop does
  // ---------------------------------------------------------------------------

  ghost predicate SameRule(t: Tables, v: Tables, k: Match, s: Dpid)
    requires (s, k) in t
  {
    (s, k) in v && v[(s, k)] == t[(s, k)]
  }

  /** Before the goal's domain, the only rules for `dst` are those that the ways laid. */
  ghost predicate Laid(n: Network, goal: Lcid, t: Tables, dst: Mac, dest: Dest, ws: seq<T.Way>) {
    && (forall i | 0 <= i < |ws| :: ws[i] == [] || HeadingWay(n, goal, ws[i]))
    && (forall s: Dpid, k | !Owns(n, goal, s) && (s, k) in t && dest(k) == dst ::
          k == EthDst(dst) && SameRule(t, T.LayAll(map[], k, ws), k, s))
  }

  /** In it they are rules of the domain itself, as a domain's runs keep them. */
  ghost predicate HomeRules(n: Network, goal: Lcid, t: Tables, dst: Mac, d: Domain, homes: Homes, dest: Dest) {
    && goal in n.sites && d.fabric == n.sites[goal].fabric
    && DomainInv(d, homes, dest) && dst in homes && homes[dst] !in n.wire
    && (forall s: Dpid, k | Owns(n, goal, s) && (s, k) in t && dest(k) == dst :: SameRule(t, d.tables, k, s))
  }

  ghost predicate Sound(n: Network, goal: Lcid, t: Tables, dst: Mac, ws: seq<T.Way>, d: Domain, homes: Homes,
                        dest: Dest) {
    Consistent(n) && Laid(n, goal, t, dst, dest, ws) && HomeRules(n, goal, t, dst, d, homes, dest)
  }

  /** By some rule for `dst`, whichever the switch takes of those that match, a frame goes from `s` to `u`. */
  ghost predicate MatchHop(n: Network, t: Tables, dst: Mac, dest: Dest, s: Dpid, u: Dpid) {
    exists k :: dest(k) == dst && T.WireHop(n.wire, t, k, s, u)
  }

  ghost predicate MatchRoute(n: Network, t: Tables, dst: Mac, dest: Dest, r: seq<Dpid>) {
    |r| > 0 && forall j | 0 <= j < |r| - 1 :: MatchHop(n, t, dst, dest, r[j], r[j + 1])
  }

  lemma FollowsAll(ws: seq<T.Way>, wire: T.Wire)
    requires forall i | 0 <= i < |ws| :: ws[i] == [] || T.Follows(wire, ws[i])
    ensures T.AllFollow(wire, ws)
  {
    forall i | 0 <= i < |ws| ensures T.Follows(wire, ws[i]) {
      if ws[i] == [] { assert T.Once(ws[i]); }
    }
  }

  /** The cables within one domain */
  ghost function Within(n: Network, u: Lcid): T.Wire {
    map e | e in n.wire && Owns(n, u, e.0) && Owns(n, u, n.wire[e]) :: n.wire[e]
  }

  lemma HeadingFollows(n: Network, goal: Lcid, w: T.Way, u: Lcid)
    requires HeadingWay(n, goal, w)
    ensures T.Follows(Within(n, u), w)
  {
    var wire := Within(n, u);
    var v :| v != goal && OwnedBy(n, w, v);
    forall i | 0 <= i < |w| && w[i] in wire ensures i + 1 < |w| && wire[w[i]] == w[i + 1].0 {
      assert Owns(n, v, w[i].0) && Owns(n, v, w[0].0);
    }
  }

  lemma LaidFollow(n: Network, goal: Lcid, t: Tables, dst: Mac, dest: Dest, ws: seq<T.Way>, u: Lcid)
    requires Laid(n, goal, t, dst, dest, ws)
    ensures T.AllFollow(Within(n, u), ws)
  {
    forall i | 0 <= i < |ws| && ws[i] != [] ensures T.Follows(Within(n, u), ws[i]) {
      HeadingFollows(n, goal, ws[i], u);
    }
    FollowsAll(ws, Within(n, u));
  }

  /** A hop before the goal stays in its domain or goes to a domain nearer to the goal. */
  lemma TransitHop(n: Network, goal: Lcid, t: Tables, dst: Mac, dest: Dest, ws: seq<T.Way>, k: Match, s: Dpid, u: Dpid)
    requires Laid(n, goal, t, dst, dest, ws) && dest(k) == dst && T.WireHop(n.wire, t, k, s, u) && !Owns(n, goal, s)
    ensures Ranked(n, goal, s) && Ranked(n, goal, u)
    ensures n.owner[u] == n.owner[s] || Rank(n, goal, u) < Rank(n, goal, s)
  {
    LaidFollow(n, goal, t, dst, dest, ws, goal);
    assert SameRule(t, T.LayAll(map[], k, ws), k, s);
    var m, i := T.TableIsLastRule(Within(n, goal), map[], k, ws, s);
    WayHop(n, goal, ws[m], i, u);
  }

  lemma WayHop(n: Network, goal: Lcid, w: T.Way, i: nat, u: Dpid)
    requires HeadingWay(n, goal, w) && i < |w| && w[i] in n.wire && n.wire[w[i]] == u
    ensures Ranked(n, goal, w[i].0) && Ranked(n, goal, u)
    ensures n.owner[u] == n.owner[w[i].0] || Rank(n, goal, u) < Rank(n, goal, w[i].0)
  {
    var v :| v != goal && OwnedBy(n, w, v);
    assert Owns(n, v, w[0].0) && Owns(n, v, w[i].0);
    if i + 1 < |w| { assert Owns(n, v, w[i + 1].0); }
  }

  /** A hop in the goal's domain stays there and gets nearer to the host. */
  lemma HomeHop(n: Network, goal: Lcid, t: Tables, dst: Mac, d: Domain, homes: Homes, dest: Dest, k: Match, s: Dpid,
                u: Dpid)
    requires Consistent(n) && HomeRules(n, goal, t, dst, d, homes, dest)
    requires dest(k) == dst && T.WireHop(n.wire, t, k, s, u) && Owns(n, goal, s)
    ensures Owns(n, goal, u) && Nearer(d.fabric, homes[dst].0, s, u)
  {
    var p := t[(s, k)];
    assert SameRule(t, d.tables, k, s);
    assert Toward(d.fabric, s, p, homes[dest(k)]);
    var v :| NearerBy(d.fabric, s, p, v, homes[dst].0);
    assert (Sw(s), Sw(v)) in SwitchEdges(d.fabric);
    assert T.Agrees(d.fabric, n.wire);
    assert v == u;
    assert Sw(u) in n.sites[goal].fabric.nodes;
  }

  lemma AnyHop(n: Network, goal: Lcid, t: Tables, dst: Mac, ws: seq<T.Way>, d: Domain, homes: Homes, dest: Dest,
               s: Dpid, u: Dpid)
    requires Sound(n, goal, t, dst, ws, d, homes, dest) && MatchHop(n, t, dst, dest, s, u)
    ensures Ranked(n, goal, s) && Ranked(n, goal, u)
    ensures n.owner[u] == n.owner[s] || Rank(n, goal, u) < Rank(n, goal, s)
  {
    var k :| dest(k) == dst && T.WireHop(n.wire, t, k, s, u);
    if Owns(n, goal, s) {
      HomeHop(n, goal, t, dst, d, homes, dest, k, s, u);
      Here(n.topo.edges.Keys, goal);
    } else {
      TransitHop(n, goal, t, dst, dest, ws, k, s, u);
    }
  }

  // ---------------------------------------------------------------------------
  // Routes
  // ---------------------------------------------------------------------------

  /** Along a route the domain stays or comes nearer. */
  lemma {:induction false} RouteFalls(n: Network, goal: Lcid, t: Tables, dst: Mac, ws: seq<T.Way>, d: Domain,
                                      homes: Homes, dest: Dest, r: seq<Dpid>, i: nat, j: nat)
    requires Sound(n, goal, t, dst, ws, d, homes, dest) && MatchRoute(n, t, dst, dest, r) && i <= j < |r| && |r| > 1
    ensures Ranked(n, goal, r[i]) && Ranked(n, goal, r[j])
    ensures n.owner[r[j]] == n.owner[r[i]] || Rank(n, goal, r[j]) < Rank(n, goal, r[i])
    decreases j - i
  {
    if i == j {
      var h := if i + 1 < |r| then i else i - 1;
      assert MatchHop(n, t, dst, dest, r[h], r[h + 1]);
      AnyHop(n, goal, t, dst, ws, d, homes, dest, r[h], r[h + 1]);
    } else {
      RouteFalls(n, goal, t, dst, ws, d, homes, dest, r, i, j - 1);
      assert MatchHop(n, t, dst, dest, r[j - 1], r[j - 1 + 1]);
      AnyHop(n, goal, t, dst, ws, d, homes, dest, r[j - 1], r[j]);
    }
  }

  /** A route that came back would stay in one domain. */
  lemma CircleStays(n: Network, goal: Lcid, t: Tables, dst: Mac, ws: seq<T.Way>, d: Domain, homes: Homes, dest: Dest,
                    c: seq<Dpid>)
    requires Sound(n, goal, t, dst, ws, d, homes, dest) && MatchRoute(n, t, dst, dest, c)
    requires |c| > 1 && c[0] == c[|c| - 1]
    ensures c[0] in n.owner && forall h | 0 <= h < |c| :: Owns(n, n.owner[c[0]], c[h])
  {
    forall h | 0 <= h < |c| ensures c[0] in n.owner && Owns(n, n.owner[c[0]], c[h]) {
      RouteFalls(n, goal, t, dst, ws, d, homes, dest, c, 0, h);
      RouteFalls(n, goal, t, dst, ws, d, homes, dest, c, h, |c| - 1);
    }
  }

  /** In the goal's domain it would get nearer to the host at every hop. */
  lemma {:induction false} HomeFalls(n: Network, goal: Lcid, t: Tables, dst: Mac, d: Domain, homes: Homes, dest: Dest,
                                     c: seq<Dpid>, j: nat)
    requires Consistent(n) && HomeRules(n, goal, t, dst, d, homes, dest) && MatchRoute(n, t, dst, dest, c)
    requires 0 < j < |c| && forall h | 0 <= h < |c| :: Owns(n, goal, c[h])
    ensures Nearer(d.fabric, homes[dst].0, c[0], c[j])
  {
    assert MatchHop(n, t, dst, dest, c[j - 1], c[j - 1 + 1]);
    var k :| dest(k) == dst && T.WireHop(n.wire, t, k, c[j - 1], c[j]);
    HomeHop(n, goal, t, dst, d, homes, dest, k, c[j - 1], c[j]);
    if j > 1 { HomeFalls(n, goal, t, dst, d, homes, dest, c, j - 1); }
  }

  /** Before it, it would be a route over the cables of one domain. */
  lemma CircleWithin(n: Network, goal: Lcid, t: Tables, dst: Mac, dest: Dest, ws: seq<T.Way>, u: Lcid, c: seq<Dpid>)
    requires Laid(n, goal, t, dst, dest, ws) && MatchRoute(n, t, dst, dest, c) && u != goal
             && forall h | 0 <= h < |c| :: Owns(n, u, c[h])
    ensures T.WireRoute(Within(n, u), T.LayAll(map[], EthDst(dst), ws), EthDst(dst), c)
  {
    var v, e := T.LayAll(map[], EthDst(dst), ws), EthDst(dst);
    forall j | 0 <= j < |c| - 1 ensures T.WireHop(Within(n, u), v, e, c[j], c[j + 1]) {
      assert MatchHop(n, t, dst, dest, c[j], c[j + 1]);
      var k :| dest(k) == dst && T.WireHop(n.wire, t, k, c[j], c[j + 1]);
      assert Owns(n, u, c[j]) && Owns(n, u, c[j + 1]) && !Owns(n, goal, c[j]);
      assert SameRule(t, T.LayAll(map[], k, ws), k, c[j]);
    }
  }

  lemma NoCircle(n: Network, goal: Lcid, t: Tables, dst: Mac, ws: seq<T.Way>, d: Domain, homes: Homes, dest: Dest,
                 c: seq<Dpid>)
    requires Sound(n, goal, t, dst, ws, d, homes, dest) && MatchRoute(n, t, dst, dest, c) && |c| > 1
    ensures c[0] != c[|c| - 1]
  {
    if c[0] == c[|c| - 1] {
      CircleStays(n, goal, t, dst, ws, d, homes, dest, c);
      var u := n.owner[c[0]];
      if u == goal {
        HomeFalls(n, goal, t, dst, d, homes, dest, c, |c| - 1);
      } else {
        CircleWithin(n, goal, t, dst, dest, ws, u, c);
        LaidFollow(n, goal, t, dst, dest, ws, u);
        T.FollowLoopFree(Within(n, u), map[], EthDst(dst), ws, c);
      }
    }
  }

  lemma PartOfRoute(n: Network, t: Tables, dst: Mac, dest: Dest, r: seq<Dpid>, i: nat, j: nat)
    requires MatchRoute(n, t, dst, dest, r) && i < j <= |r|
    ensures MatchRoute(n, t, dst, dest, r[i..j])
  {
    var q := r[i..j];
    forall h | 0 <= h < |q| - 1 ensures MatchHop(n, t, dst, dest, q[h], q[h + 1]) {
      assert MatchHop(n, t, dst, dest, r[i + h], r[i + h + 1]);
    }
  }

  /** Tables that ways heading for the goal laid, and the goal's own rules, have no loop in the whole
      network, whichever of the matching rules each switch uses. */
  lemma SoundLoopFree(n: Network, goal: Lcid, t: Tables, dst: Mac, ws: seq<T.Way>, d: Domain, homes: Homes,
                      dest: Dest, r: seq<Dpid>)
    requires Sound(n, goal, t, dst, ws, d, homes, dest) && MatchRoute(n, t, dst, dest, r)
    ensures Simple(r)
  {
    forall i, j | 0 <= i < j < |r| ensures r[i] != r[j] {
      PartOfRoute(n, t, dst, dest, r, i, j + 1);
      NoCircle(n, goal, t, dst, ws, d, homes, dest, r[i..j + 1]);
    }
  }

  // ---------------------------------------------------------------------------
  // One more way
  // ---------------------------------------------------------------------------

  /** The way that a job lays for a match: none if it is for another destination */
  ghost function WayFor(n: Network, j: Job, k: Match): T.Way
    requires InsideAt(n, j.o, j.path)
  {
    if EthDst(j.o.dst) == k then WayAt(n, j.o, j.path) else []
  }

  ghost predicate Kept(t: Tables, t': Tables, k: Match, s: Dpid) {
    ((s, k) in t' <==> (s, k) in t) && ((s, k) in t' ==> SameRule(t', t, k, s))
  }

  /** For the match, `t'` is `t` with the rules of the way. */
  ghost predicate Changes(t: Tables, t': Tables, k: Match, way: T.Way) {
    && T.Once(way)
    && (forall s: Dpid :: T.Has(way, s) || Kept(t, t', k, s))
    && (forall i | 0 <= i < |way| :: (way[i].0, k) in t' && t'[(way[i].0, k)] == way[i].1)
  }

  lemma LayChanges(t: Tables, key: Match, way: T.Way, k: Match)
    requires T.Once(way)
    ensures Changes(t, T.Lay(t, key, way), k, if key == k then way else [])
  {
    forall s: Dpid ensures T.Has(if key == k then way else [], s) || Kept(t, T.Lay(t, key, way), k, s) {
      T.LayLookup(t, key, way, s);
    }
    if key == k {
      forall i | 0 <= i < |way|
        ensures (way[i].0, k) in T.Lay(t, key, way) && T.Lay(t, key, way)[(way[i].0, k)] == way[i].1 {
        T.LayLookup(t, key, way, way[i].0);
      }
    }
  }

  lemma JobChanges(n: Network, w: World, j: Job, k: Match)
    requires Consistent(n) && Sees(n, w) && Ready(n, w, j)
    ensures Changes(w.tables, Do(w, j).0.tables, k, WayFor(n, j, k))
  {
    var a := DoIsBatch(n, w, j);
    WayLays(n, j.o, j.path);
    assert Do(w, j).0.tables == T.Lay(w.tables, EthDst(j.o.dst), WayAt(n, j.o, j.path));
    LayChanges(w.tables, EthDst(j.o.dst), WayAt(n, j.o, j.path), k);
  }

  /** Only EthDst(dst) among the matches for `dst` may have got other rules, and those are the way's. */
  ghost predicate LaysFor(t: Tables, t': Tables, dst: Mac, dest: Dest, way: T.Way) {
    forall k | dest(k) == dst :: Changes(t, t', k, if k == EthDst(dst) then way else [])
  }

  lemma LaidMore(n: Network, goal: Lcid, t: Tables, t': Tables, dst: Mac, dest: Dest, ws: seq<T.Way>, way: T.Way)
    requires Laid(n, goal, t, dst, dest, ws) && LaysFor(t, t', dst, dest, way)
             && (way == [] || HeadingWay(n, goal, way))
    ensures Laid(n, goal, t', dst, dest, ws + [way])
  {
    var more := ws + [way];
    assert more[..|ws|] == ws;
    forall s: Dpid, k | !Owns(n, goal, s) && (s, k) in t' && dest(k) == dst
      ensures k == EthDst(dst) && SameRule(t', T.LayAll(map[], k, more), k, s)
    {
      assert Changes(t, t', k, if k == EthDst(dst) then way else []);
      LaidAt(t, t', k, ws, if k == EthDst(dst) then way else [], s);
    }
  }

  lemma LaidAt(t: Tables, t': Tables, k: Match, ws: seq<T.Way>, way: T.Way, s: Dpid)
    requires Changes(t, t', k, way) && (s, k) in t' && ((s, k) in t ==> SameRule(t, T.LayAll(map[], k, ws), k, s))
    ensures SameRule(t', T.LayAll(map[], k, ws + [way]), k, s) && (way == [] ==> (s, k) in t)
  {
    assert (ws + [way])[..|ws|] == ws;
    T.LayLookup(T.LayAll(map[], k, ws), k, way, s);
    if T.Has(way, s) {
      var i :| 0 <= i < |way| && way[i].0 == s;
    } else {
      assert Kept(t, t', k, s);
    }
  }

  lemma HomeKept(n: Network, goal: Lcid, t: Tables, t': Tables, dst: Mac, way: T.Way, d: Domain, homes: Homes,
                 dest: Dest)
    requires HomeRules(n, goal, t, dst, d, homes, dest) && LaysFor(t, t', dst, dest, way)
             && (way == [] || HeadingWay(n, goal, way))
    ensures HomeRules(n, goal, t', dst, d, homes, dest)
  {
    forall s: Dpid, k | Owns(n, goal, s) && (s, k) in t' && dest(k) == dst ensures SameRule(t', d.tables, k, s) {
      assert Changes(t, t', k, if k == EthDst(dst) then way else []);
      assert !T.Has(way, s) && !T.Has([], s) && Kept(t, t', k, s);
      assert SameRule(t, d.tables, k, s);
    }
  }

  lemma SoundMore(n: Network, goal: Lcid, t: Tables, t': Tables, dst: Mac, ws: seq<T.Way>, way: T.Way, d: Domain,
                  homes: Homes, dest: Dest)
    requires Sound(n, goal, t, dst, ws, d, homes, dest) && LaysFor(t, t', dst, dest, way)
             && (way == [] || HeadingWay(n, goal, way))
    ensures Sound(n, goal, t', dst, ws + [way], d, homes, dest)
  {
    LaidMore(n, goal, t, t', dst, dest, ws, way);
    HomeKept(n, goal, t, t', dst, way, d, homes, dest);
  }

  lemma JobLaysFor(n: Network, v: World, j: Job, dst: Mac, dest: Dest)
    requires Consistent(n) && Sees(n, v) && Ready(n, v, j) && forall m :: dest(EthDst(m)) == m
    ensures LaysFor(v.tables, Do(v, j).0.tables, dst, dest, WayFor(n, j, EthDst(dst)))
  {
    forall k | dest(k) == dst
      ensures Changes(v.tables, Do(v, j).0.tables, k, if k == EthDst(dst) then WayFor(n, j, EthDst(dst)) else [])
    {
      JobChanges(n, v, j, k);
    }
  }

  /** One order keeps the network's tables sound, if it heads for the destination's domain or is for
      another destination. */
  lemma JobSound(n: Network, goal: Lcid, v: World, j: Job, dst: Mac, ws: seq<T.Way>, d: Domain, homes: Homes,
                 dest: Dest)
    requires Sees(n, v) && Ready(n, v, j) && (j.o.dst == dst ==> Heads(n, goal, j.o))
    requires Sound(n, goal, v.tables, dst, ws, d, homes, dest) && forall m :: dest(EthDst(m)) == m
    ensures Sound(n, goal, Do(v, j).0.tables, dst, ws + [WayFor(n, j, EthDst(dst))], d, homes, dest)
  {
    JobLaysFor(n, v, j, dst, dest);
    if j.o.dst == dst { WayHeads(n, goal, j.o, j.path); }
    SoundMore(n, goal, v.tables, Do(v, j).0.tables, dst, ws, WayFor(n, j, EthDst(dst)), d, homes, dest);
  }
}
