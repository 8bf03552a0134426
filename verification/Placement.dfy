/** Which server a node goes to: `SwitchBinPlacer` and `HostSwitchBinPlacer` (cluster.py). */
module Placement {
  import opened Base

  // ---------------------------------------------------------------------------
  // bin
  // ---------------------------------------------------------------------------

  /** One ticket for each node, as far as the nodes go; a node listed twice has the later one. */
  function Zip(nodes: seq<string>, tickets: seq<string>): map<string, string>
    requires |nodes| <= |tickets|
  {
    if nodes == [] then map[]
    else Zip(nodes[..|nodes| - 1], tickets)[nodes[|nodes| - 1] := tickets[|nodes| - 1]]
  }

  function Repeat(s: string, n: nat): (r: seq<string>)
    ensures |r| == n && forall i | 0 <= i < n :: r[i] == s
  {
    seq(n, i => s)
  }

  /** sizes[server] tickets for each server */
  function Tickets(servers: seq<string>, sizes: map<string, nat>): seq<string>
    requires forall s | s in servers :: s in sizes
  {
    if servers == [] then []
    else
      var last := servers[|servers| - 1];
      Tickets(servers[..|servers| - 1], sizes) + Repeat(last, sizes[last])
  }

  function Occurs(s: string, q: seq<string>): nat {
    if q == [] then 0 else Occurs(s, q[..|q| - 1]) + if q[|q| - 1] == s then 1 else 0
  }

  /** The nodes that are placed on a server */
  function Load(placement: map<string, string>, s: string): nat {
    |set n | n in placement && placement[n] == s|
  }

  lemma {:induction false} OccursConcat(s: string, a: seq<string>, b: seq<string>)
    ensures Occurs(s, a + b) == Occurs(s, a) + Occurs(s, b)
  {
    if b == [] {
      assert a + b == a;
    } else {
      assert (a + b)[..|a + b| - 1] == a + b[..|b| - 1];
      OccursConcat(s, a, b[..|b| - 1]);
    }
  }

  lemma {:induction false} OccursRepeat(s: string, x: string, n: nat)
    ensures Occurs(s, Repeat(x, n)) == if s == x then n else 0
  {
    if n > 0 {
      assert Repeat(x, n)[..n - 1] == Repeat(x, n - 1);
      OccursRepeat(s, x, n - 1);
    }
  }

  /** For distinct servers each has as many tickets as its size says. */
  lemma {:induction false} TicketsOf(servers: seq<string>, sizes: map<string, nat>, s: string)
    requires Distinct(servers) && forall x | x in servers :: x in sizes
    ensures Occurs(s, Tickets(servers, sizes)) == if s in servers then sizes[s] else 0
  {
    if servers != [] {
      var less, last := servers[..|servers| - 1], servers[|servers| - 1];
      TicketsOf(less, sizes, s);
      OccursConcat(s, Tickets(less, sizes), Repeat(last, sizes[last]));
      OccursRepeat(s, last, sizes[last]);
      assert s in servers <==> s in less || s == last;
      assert last !in less;
    }
  }

  /** Distinct nodes: the load of a server is the number of tickets it has among those handed out. */
  lemma {:induction false} LoadIsTickets(nodes: seq<string>, tickets: seq<string>, s: string)
    requires Distinct(nodes) && |nodes| <= |tickets|
    ensures var p := Zip(nodes, tickets);
            (forall n :: n in p <==> n in nodes) && Load(p, s) == Occurs(s, tickets[..|nodes|])
  {
    if nodes == [] {
      assert Load(map[], s) == 0;
    } else {
      var k := |nodes| - 1;
      var less, last := nodes[..k], nodes[k];
      LoadIsTickets(less, tickets, s);
      assert forall n :: n in nodes <==> n in less || n == last;
      assert last !in less;
      assert tickets[..k + 1][..k] == tickets[..k];
      LoadMore(Zip(less, tickets), last, tickets[k], s);
    }
  }

  lemma LoadMore(p: map<string, string>, n: string, t: string, s: string)
    requires n !in p
    ensures Load(p[n := t], s) == Load(p, s) + if t == s then 1 else 0
  {
    var q := p[n := t];
    var before, after := set m | m in p && p[m] == s, set m | m in q && q[m] == s;
    assert after == if t == s then before + {n} else before;
  }

  /** The sizes that bin computes: the quotient, and one more for the first few. */
  ghost predicate Sized(servers: seq<string>, sizes: map<string, nat>, quotient: nat, extra: nat) {
    && (forall s :: s in sizes <==> s in servers)
    && forall i | 0 <= i < |servers| :: sizes[servers[i]] == quotient + if i < extra then 1 else 0
  }

  lemma {:induction false} TicketCount(servers: seq<string>, sizes: map<string, nat>, quotient: nat, extra: nat)
    requires forall i | 0 <= i < |servers| ::
               servers[i] in sizes && sizes[servers[i]] == quotient + if i < extra then 1 else 0
    ensures |Tickets(servers, sizes)| == quotient * |servers| + if extra <= |servers| then extra else |servers|
  {
    if servers != [] {
      var n := |servers| - 1;
      var less := servers[..n];
      assert forall i | 0 <= i < n :: less[i] == servers[i];
      TicketCount(less, sizes, quotient, extra);
      OneMore(quotient, n);
      LastTickets(servers, sizes);
      assert n + 1 == |servers|;
    }
  }

  lemma OneMore(q: nat, n: nat)
    ensures q * (n + 1) == q * n + q
  {
  }

  lemma LastTickets(servers: seq<string>, sizes: map<string, nat>)
    requires servers != [] && forall s | s in servers :: s in sizes
    ensures var n := |servers| - 1;
            |Tickets(servers, sizes)| == |Tickets(servers[..n], sizes)| + sizes[servers[n]]
  {
  }

  /** At least the quotient per server, and one more for each of the first: enough, also if a server
      is listed more than once. */
  lemma {:induction false} TicketsEnough(servers: seq<string>, sizes: map<string, nat>, quotient: nat, extra: nat)
    requires extra <= |servers|
    requires forall i | 0 <= i < |servers| ::
               servers[i] in sizes && sizes[servers[i]] >= quotient + if i < extra then 1 else 0
    ensures |Tickets(servers, sizes)| >= quotient * |servers| + extra
  {
    if servers != [] {
      var n := |servers| - 1;
      var less := servers[..n];
      assert forall i | 0 <= i < n :: less[i] == servers[i];
      TicketsEnough(less, sizes, quotient, if extra > n then n else extra);
      assert quotient * |servers| == quotient * n + quotient;
    }
  }

  /** Every node has a server; over distinct servers and nodes the loads are the quotient or one more. */
  ghost predicate Binned(nodes: seq<string>, servers: seq<string>, p: map<string, string>)
    requires servers != []
  {
    && (forall n :: n in p <==> n in nodes)
    && (forall n | n in p :: p[n] in servers)
    && (Distinct(nodes) && Distinct(servers) ==> Even(nodes, servers, p, |nodes| / |servers|, |nodes| % |servers|))
  }

  ghost predicate Even(nodes: seq<string>, servers: seq<string>, p: map<string, string>, quotient: nat, extra: nat) {
    && |p| == |nodes|
    && forall i | 0 <= i < |servers| :: Load(p, servers[i]) == quotient + if i < extra then 1 else 0
  }

  lemma {:induction false} ZipKeys(nodes: seq<string>, tickets: seq<string>)
    requires |nodes| <= |tickets|
    ensures var p := Zip(nodes, tickets);
            (forall n :: n in p <==> n in nodes) && forall n | n in p :: p[n] in tickets
  {
    if nodes != [] {
      ZipKeys(nodes[..|nodes| - 1], tickets);
      assert forall n :: n in nodes <==> n in nodes[..|nodes| - 1] || n == nodes[|nodes| - 1];
    }
  }

  lemma {:induction false} TicketsAreServers(servers: seq<string>, sizes: map<string, nat>)
    requires forall s | s in servers :: s in sizes
    ensures forall t | t in Tickets(servers, sizes) :: t in servers
  {
    if servers != [] {
      TicketsAreServers(servers[..|servers| - 1], sizes);
    }
  }

  lemma {:induction false} ZipSize(nodes: seq<string>, tickets: seq<string>)
    requires Distinct(nodes) && |nodes| <= |tickets|
    ensures |Zip(nodes, tickets)| == |nodes|
  {
    if nodes != [] {
      var less, last := nodes[..|nodes| - 1], nodes[|nodes| - 1];
      ZipSize(less, tickets);
      ZipKeys(less, tickets);
      var p := Zip(less, tickets);
      var q := p[last := tickets[|nodes| - 1]];
      assert last !in less;
      assert q.Keys == p.Keys + {last};
      assert |q.Keys| == |p.Keys| + 1;
    }
  }

  lemma EvenBins(nodes: seq<string>, servers: seq<string>, sizes: map<string, nat>, quotient: nat, extra: nat)
    requires Distinct(nodes) && Distinct(servers)
    requires |nodes| == quotient * |servers| + extra && extra <= |servers| && Sized(servers, sizes, quotient, extra)
    ensures var tickets := Tickets(servers, sizes);
            |tickets| == |nodes| && Even(nodes, servers, Zip(nodes, tickets), quotient, extra)
  {
    var tickets := Tickets(servers, sizes);
    TicketCount(servers, sizes, quotient, extra);
    assert tickets[..|nodes|] == tickets;
    ZipSize(nodes, tickets);
    forall i | 0 <= i < |servers|
      ensures Load(Zip(nodes, tickets), servers[i]) == quotient + if i < extra then 1 else 0 {
      LoadIsTickets(nodes, tickets, servers[i]);
      TicketsOf(servers, sizes, servers[i]);
      assert servers[i] in servers;
    }
  }

  ghost predicate Enough(servers: seq<string>, sizes: map<string, nat>, quotient: nat, extra: nat) {
    && extra <= |servers|
    && (forall s :: s in sizes <==> s in servers)
    && (forall i | 0 <= i < |servers| :: sizes[servers[i]] >= quotient + if i < extra then 1 else 0)
    && (Distinct(servers) ==> Sized(servers, sizes, quotient, extra))
  }

  lemma BinRight(nodes: seq<string>, servers: seq<string>, sizes: map<string, nat>, quotient: nat, extra: nat)
    requires |nodes| == quotient * |servers| + extra && Enough(servers, sizes, quotient, extra)
    ensures |nodes| <= |Tickets(servers, sizes)|
    ensures var p := Zip(nodes, Tickets(servers, sizes));
            && (forall n :: n in p <==> n in nodes)
            && (forall n | n in p :: p[n] in servers)
            && (Distinct(nodes) && Distinct(servers) ==> Even(nodes, servers, p, quotient, extra))
  {
    TicketsEnough(servers, sizes, quotient, extra);
    ZipKeys(nodes, Tickets(servers, sizes));
    TicketsAreServers(servers, sizes);
    if Distinct(nodes) && Distinct(servers) {
      EvenBins(nodes, servers, sizes, quotient, extra);
    }
  }

  method Sizes(servers: seq<string>, quotient: nat, remainder: nat) returns (sizes: map<string, nat>)
    requires remainder <= |servers|
    ensures Enough(servers, sizes, quotient, remainder)
  {
    sizes := map s | s in servers :: quotient;
    for i := 0 to remainder
      invariant forall s :: s in sizes <==> s in servers
      invariant forall s | s in sizes :: sizes[s] >= quotient
      invariant forall j | 0 <= j < i :: sizes[servers[j]] >= quotient + 1
      invariant Distinct(servers)
                ==> forall j | 0 <= j < |servers| :: sizes[servers[j]] == quotient + if j < i then 1 else 0
    {
      sizes := sizes[servers[i] := sizes[servers[i]] + 1];
    }
  }

  /** SwitchBinPlacer.bin; false is ZeroDivisionError. */
  method Bin(nodes: seq<string>, servers: seq<string>) returns (ok: bool, placement: map<string, string>)
    ensures ok == (servers != [])
    ensures ok ==> Binned(nodes, servers, placement)
  {
    ok, placement := servers != [], map[];
    if ok {
      var sizes := Sizes(servers, |nodes| / |servers|, |nodes| % |servers|);
      BinRight(nodes, servers, sizes, |nodes| / |servers|, |nodes| % |servers|);
      placement := Zip(nodes, Tickets(servers, sizes));
    }
  }

  // ---------------------------------------------------------------------------
  // calculatePlacement
  // ---------------------------------------------------------------------------

  type Link = (string, string)

  /** The switch that a link joins a host to. If both ends are hosts and switches, the code's second
      test has the last word. */
  function JoinedTo(l: Link, h: string, hset: set<string>, sset: set<string>): Option<string> {
    if l.1 == h && h in hset && l.0 in sset then Some(l.0)
    else if l.0 == h && h in hset && l.1 in sset then Some(l.1)
    else None
  }

  /** `switchFor` has for each host the switch of its last link to one. */
  ghost predicate LastLinked(links: seq<Link>, hset: set<string>, sset: set<string>, switchFor: map<string, string>) {
    && (forall h | h in switchFor :: exists i :: LastAt(links, hset, sset, h, switchFor[h], i))
    && forall h, i | 0 <= i < |links| && JoinedTo(links[i], h, hset, sset).Some? :: h in switchFor
  }

  ghost predicate LastAt(links: seq<Link>, hset: set<string>, sset: set<string>, h: string, sw: string, i: int) {
    && 0 <= i < |links| && JoinedTo(links[i], h, hset, sset) == Some(sw)
    && forall j | i < j < |links| :: JoinedTo(links[j], h, hset, sset) == None
  }

  /** The switch of the last link, or the one before it */
  function Joined(last: Option<string>, before: map<string, string>, h: string): string {
    if last.Some? then last.value else if h in before then before[h] else h
  }

  lemma LastMore(links: seq<Link>, hset: set<string>, sset: set<string>, before: map<string, string>, l: Link,
                 after: map<string, string>)
    requires LastLinked(links, hset, sset, before)
    requires forall h :: h in after <==> h in before || JoinedTo(l, h, hset, sset).Some?
    requires forall h | h in after :: after[h] == Joined(JoinedTo(l, h, hset, sset), before, h)
    ensures LastLinked(links + [l], hset, sset, after)
  {
    var more := links + [l];
    forall h | h in after ensures exists i :: LastAt(more, hset, sset, h, after[h], i) {
      if JoinedTo(l, h, hset, sset).Some? {
        assert LastAt(more, hset, sset, h, after[h], |links|);
      } else {
        var i :| LastAt(links, hset, sset, h, before[h], i);
        assert LastAt(more, hset, sset, h, after[h], i);
      }
    }
    forall h, i | 0 <= i < |more| && JoinedTo(more[i], h, hset, sset).Some? ensures h in after {
      if i < |links| { assert more[i] == links[i]; }
    }
  }

  /** The connectivity map of calculatePlacement */
  method SwitchFor(links: seq<Link>, hset: set<string>, sset: set<string>) returns (switchFor: map<string, string>)
    ensures LastLinked(links, hset, sset, switchFor)
  {
    switchFor := map[];
    for k := 0 to |links|
      invariant LastLinked(links[..k], hset, sset, switchFor)
    {
      var l := links[k];
      ghost var before := switchFor;
      if l.0 in hset && l.1 in sset {
        switchFor := switchFor[l.0 := l.1];
      }
      if l.1 in hset && l.0 in sset {
        switchFor := switchFor[l.1 := l.0];
      }
      LastMore(links[..k], hset, sset, before, l, switchFor);
      assert links[..k + 1] == links[..k] + [l];
    }
    assert links[..|links|] == links;
  }

  /** frozenset() of a list */
  function Elements(s: seq<string>): set<string> {
    set x | x in s
  }

  /** update() of a dictionary */
  function Update(a: map<string, string>, b: map<string, string>): map<string, string> {
    a + b
  }

  /** The hosts join those already placed: each at the server of its switch. */
  ghost predicate Joins(hosts: seq<string>, switchFor: map<string, string>, base: map<string, string>,
                        p: map<string, string>) {
    && (forall n | n in base :: n in p && p[n] == base[n])
    && (forall n | n in p :: n in base || n in hosts)
    && forall h | h in hosts ::
         h in p && (h !in base ==> h in switchFor && switchFor[h] in base && p[h] == base[switchFor[h]])
  }

  /** The hosts' part of calculatePlacement; false is the exception for an isolated host. */
  method PlaceHosts(hosts: seq<string>, switchFor: map<string, string>, base: map<string, string>)
    returns (ok: bool, p: map<string, string>)
    requires forall h | h in switchFor :: switchFor[h] in base
    ensures ok <==> forall h | h in hosts :: h in base || h in switchFor
    ensures ok ==> Joins(hosts, switchFor, base, p)
  {
    p := base;
    for k := 0 to |hosts|
      invariant forall h | h in hosts[..k] :: h in base || h in switchFor
      invariant Joins(hosts[..k], switchFor, base, p)
      invariant forall n | n in p :: n in base || (n in switchFor && p[n] == base[switchFor[n]])
    {
      var h := hosts[k];
      assert h in hosts && hosts[..k + 1] == hosts[..k] + [h];
      if h !in p {
        if h !in switchFor {
          return false, p;
        }
        p := p[h := p[switchFor[h]]];
      }
    }
    assert hosts[..|hosts|] == hosts;
    ok := true;
  }

  ghost predicate Linked(links: seq<Link>, hset: set<string>, sset: set<string>, h: string) {
    exists i :: 0 <= i < |links| && JoinedTo(links[i], h, hset, sset).Some?
  }

  /** Switches and controllers are in even bins, and every other host is where its last switch is. */
  ghost predicate Placed(switches: seq<string>, controllers: seq<string>, hosts: seq<string>, links: seq<Link>,
                         servers: seq<string>, p: map<string, string>)
    requires servers != []
  {
    exists ps, pc, switchFor ::
      && Binned(switches, servers, ps) && Binned(controllers, servers, pc)
      && LastLinked(links, Elements(hosts), Elements(switches), switchFor)
      && Joins(hosts, switchFor, Update(ps, pc), p)
  }

  /** calculatePlacement. It fails only for want of servers or for a host that is neither placed as a
      switch or controller nor linked to a switch. */
  method CalculatePlacement(switches: seq<string>, controllers: seq<string>, hosts: seq<string>, links: seq<Link>,
                            servers: seq<string>)
    returns (ok: bool, p: map<string, string>)
    ensures ok <==> servers != [] && forall h | h in hosts ::
                      h in switches || h in controllers || Linked(links, Elements(hosts), Elements(switches), h)
    ensures ok ==> Placed(switches, controllers, hosts, links, servers, p)
  {
    p := map[];
    var hset, sset := Elements(hosts), Elements(switches);
    var switchFor := SwitchFor(links, hset, sset);
    var placedSwitches, placedControllers;
    ok, placedSwitches := Bin(switches, servers);
    if !ok { return; }
    ok, placedControllers := Bin(controllers, servers);
    ok, p := PlaceHosts(hosts, switchFor, Update(placedSwitches, placedControllers));
  }

  // ---------------------------------------------------------------------------
  // HostSwitchBinPlacer
  // ---------------------------------------------------------------------------

  /** max(int(n / servers), 1) */
  function BinSize(n: nat, servers: nat): (b: nat)
    requires servers > 0
    ensures b > 0
  {
    if n / servers > 1 then n / servers else 1
  }

  ghost predicate InRange(n: nat, servers: nat)
    requires servers > 0
  {
    forall k: nat | k < n :: k / BinSize(n, servers) < servers
  }

  /** The placer finds a server for all n nodes of a kind exactly when there are no more nodes than
      servers, or a multiple of them. */
  lemma InRangeIff(n: nat, servers: nat)
    requires servers > 0
    ensures InRange(n, servers) <==> n <= servers || n % servers == 0
  {
    var b := BinSize(n, servers);
    if n <= servers {
      SmallBins(n, servers);
    } else {
      if n % servers == 0 {
        forall k: nat | k < n ensures k / b < servers {}
      } else {
        DivAbove(n - 1, b, servers);
      }
    }
  }

  lemma SmallBins(n: nat, servers: nat)
    requires 0 < servers && n <= servers
    ensures InRange(n, servers)
  {
    assert n / servers <= 1;
    assert BinSize(n, servers) == 1;
  }

  lemma MulOrder(m: nat, q: nat, b: nat)
    requires b > 0
    ensures m <= q <==> m * b <= q * b
  {
    assert q * b - m * b == (q - m) * b;
  }

  lemma DivAbove(k: nat, b: nat, m: nat)
    requires b > 0 && k >= b * m
    ensures k / b >= m
  {
    MulOrder(k / b + 1, m, b);
  }

  /** servdict[i]; None is KeyError. */
  function ServerAt(servers: seq<string>, i: nat): Option<string> {
    if i < |servers| then Some(servers[i]) else None
  }

  /** Which of the three counters a node counts on; 3 for a node it does not know */
  function KindOf(hset: set<string>, sset: set<string>, cset: set<string>, node: string): nat {
    if node in hset then 0 else if node in sset then 1 else if node in cset then 2 else 3
  }

  class HostSwitchBinPlacer {
    const servers: seq<string>
    const hset: set<string>
    const sset: set<string>
    const cset: set<string>
    const hbin: nat
    const sbin: nat
    const cbin: nat
    var hind: nat
    var sind: nat
    var cind: nat

    ghost predicate Valid() {
      hbin > 0 && sbin > 0 && cbin > 0
    }

    /** The constructor's division raises without servers. */
    constructor (servers: seq<string>, hosts: seq<string>, switches: seq<string>, controllers: seq<string>)
      requires servers != []
      ensures Valid() && this.servers == servers && hind == sind == cind == 0
      ensures hset == Elements(hosts) && sset == Elements(switches) && cset == Elements(controllers)
      ensures hbin == BinSize(|hosts|, |servers|) && sbin == BinSize(|switches|, |servers|)
              && cbin == BinSize(|controllers|, |servers|)
    {
      this.servers := servers;
      hset, sset, cset := Elements(hosts), Elements(switches), Elements(controllers);
      hbin, sbin, cbin := BinSize(|hosts|, |servers|), BinSize(|switches|, |servers|),
        BinSize(|controllers|, |servers|);
      hind, sind, cind := 0, 0, 0;
    }

    /** place: the bins of a node's kind are filled one after the other; a KeyError moves nothing on. */
    method Place(node: string) returns (server: Option<string>)
      requires Valid()
      modifies this`hind, this`sind, this`cind
      ensures var kind, one := KindOf(hset, sset, cset, node), if server.Some? then 1 else 0;
              && server == ServerAt(servers, if kind == 0 then old(hind) / hbin else if kind == 1 then old(sind) / sbin
                                             else if kind == 2 then old(cind) / cbin else 0)
              && hind == old(hind) + (if kind == 0 then one else 0)
              && sind == old(sind) + (if kind == 1 then one else 0)
              && cind == old(cind) + (if kind == 2 then one else 0)
    {
      if node in hset {
        server := ServerAt(servers, hind / hbin);
        if server == None { return; }
        hind := hind + 1;
      } else if node in sset {
        server := ServerAt(servers, sind / sbin);
        if server == None { return; }
        sind := sind + 1;
      } else if node in cset {
        server := ServerAt(servers, cind / cbin);
        if server == None { return; }
        cind := cind + 1;
      } else {
        server := ServerAt(servers, 0);
      }
    }
  }

  // ---------------------------------------------------------------------------
  // placeNodes
  // ---------------------------------------------------------------------------

  /** How many of the nodes are in the set */
  function CountIn(nodes: seq<string>, s: set<string>): nat {
    if nodes == [] then 0
    else CountIn(nodes[..|nodes| - 1], s) + if nodes[|nodes| - 1] in s then 1 else 0
  }

  lemma CountNext(nodes: seq<string>, i: nat, s: set<string>)
    requires i < |nodes|
    ensures CountIn(nodes[..i + 1], s) == CountIn(nodes[..i], s) + if nodes[i] in s then 1 else 0
  {
    assert nodes[..i + 1][..i] == nodes[..i];
  }

  lemma {:induction false} CountGrows(nodes: seq<string>, i: nat, s: set<string>)
    requires i < |nodes| && nodes[i] in s
    ensures CountIn(nodes[..i], s) < CountIn(nodes, s)
    decreases |nodes|
  {
    var n := |nodes| - 1;
    if i < n {
      assert nodes[..n][..i] == nodes[..i];
      CountGrows(nodes[..n], i, s);
    }
  }

  /** Each element of the set is counted once. */
  lemma {:induction false} CountAll(nodes: seq<string>, s: set<string>)
    requires Distinct(nodes) && forall x | x in s :: x in nodes
    ensures CountIn(nodes, s) == |s|
    decreases |nodes|
  {
    if nodes != [] {
      var n := |nodes| - 1;
      var less := s - {nodes[n]};
      CountAll(nodes[..n], less);
      CountOthers(nodes[..n], s, nodes[n]);
      assert nodes[n] in s ==> s == less + {nodes[n]};
      assert nodes[n] !in s ==> s == less;
    }
  }

  lemma {:induction false} CountOthers(nodes: seq<string>, s: set<string>, x: string)
    requires x !in nodes
    ensures CountIn(nodes, s - {x}) == CountIn(nodes, s)
    decreases |nodes|
  {
    if nodes != [] { CountOthers(nodes[..|nodes| - 1], s, x); }
  }

  /** The first `used` bins' places are in range. */
  ghost predicate Room(used: nat, bin: nat, servers: nat)
    requires bin > 0
  {
    forall k: nat | k < used :: k / bin < servers
  }

  /** The server of the i-th node, if none was given to it: by its place among the nodes of its kind. */
  ghost function ServerOf(nodes: seq<string>, i: nat, hosts: seq<string>, switches: seq<string>,
                          servers: seq<string>): Option<string>
    requires i < |nodes| && servers != []
  {
    var hset, sset := Elements(hosts), Elements(switches);
    if nodes[i] in hset then ServerAt(servers, CountIn(nodes[..i], hset) / BinSize(|hosts|, |servers|))
    else if nodes[i] in sset then ServerAt(servers, CountIn(nodes[..i], sset) / BinSize(|switches|, |servers|))
    else Some(servers[0])
  }

  /** The topology's nodes: its hosts and switches, each once. */
  ghost predicate NodesAre(nodes: seq<string>, hosts: seq<string>, switches: seq<string>) {
    && Distinct(nodes) && Distinct(hosts) && Distinct(switches) && Elements(hosts) !! Elements(switches)
    && forall n :: n in nodes <==> n in hosts || n in switches
  }

  /** The i-th node has its server: the one given to it, or the placer's. */
  ghost predicate SettledAt(nodes: seq<string>, i: nat, given: map<string, string>, hosts: seq<string>,
                            switches: seq<string>, servers: seq<string>, p: map<string, string>)
    requires i < |nodes| && servers != []
  {
    nodes[i] in p && Some(p[nodes[i]]) == if nodes[i] in given then Some(given[nodes[i]])
                                          else ServerOf(nodes, i, hosts, switches, servers)
  }

  /** The first `m` nodes have theirs, and nobody else but those that were given one. */
  ghost predicate Settled(nodes: seq<string>, m: nat, given: map<string, string>, hosts: seq<string>,
                          switches: seq<string>, servers: seq<string>, p: map<string, string>)
    requires m <= |nodes| && servers != []
  {
    && (forall n | n in p :: n in given || exists i :: 0 <= i < m && nodes[i] == n)
    && (forall n | n in given :: n in p && p[n] == given[n])
    && (forall i | 0 <= i < m :: SettledAt(nodes, i, given, hosts, switches, servers, p))
  }

  lemma SettledMore(nodes: seq<string>, m: nat, given: map<string, string>, hosts: seq<string>, switches: seq<string>,
                    servers: seq<string>, p: map<string, string>, s: string)
    requires m < |nodes| && servers != [] && Distinct(nodes) && Settled(nodes, m, given, hosts, switches, servers, p)
    requires ServerOf(nodes, m, hosts, switches, servers) == Some(s)
    ensures Settled(nodes, m + 1, given, hosts, switches, servers, if nodes[m] in p then p else p[nodes[m] := s])
  {
    var q := if nodes[m] in p then p else p[nodes[m] := s];
    forall i | 0 <= i < m ensures SettledAt(nodes, i, given, hosts, switches, servers, q) {
      assert SettledAt(nodes, i, given, hosts, switches, servers, p) && nodes[i] != nodes[m];
    }
    NotYet(nodes, m, given, hosts, switches, servers, p);
    assert SettledAt(nodes, m, given, hosts, switches, servers, q);
    forall n | n in q ensures n in given || exists i :: 0 <= i < m + 1 && nodes[i] == n {
      if n in p && n !in given {
        var i :| 0 <= i < m && nodes[i] == n;
        assert nodes[i] == n;
      } else if n !in given {
        assert nodes[m] == n;
      }
    }
  }

  lemma NotYet(nodes: seq<string>, m: nat, given: map<string, string>, hosts: seq<string>, switches: seq<string>,
               servers: seq<string>, p: map<string, string>)
    requires m < |nodes| && servers != [] && Distinct(nodes) && Settled(nodes, m, given, hosts, switches, servers, p)
    ensures nodes[m] in p <==> nodes[m] in given
  {
  }

  /** The counters of a placer that has placed the first `m` nodes, and found room for all of them */
  ghost predicate Counted(nodes: seq<string>, m: nat, hosts: seq<string>, switches: seq<string>, servers: nat,
                          hind: nat, sind: nat)
    requires m <= |nodes| && servers > 0
  {
    && hind == CountIn(nodes[..m], Elements(hosts)) && Room(hind, BinSize(|hosts|, servers), servers)
    && sind == CountIn(nodes[..m], Elements(switches)) && Room(sind, BinSize(|switches|, servers), servers)
  }

  lemma NoRoom(used: nat, n: nat, servers: nat)
    requires servers > 0 && used < n && used / BinSize(n, servers) >= servers
    ensures !InRange(n, servers)
  {
  }

  lemma {:induction false} ElementsSize(s: seq<string>)
    requires Distinct(s)
    ensures |Elements(s)| == |s|
  {
    if s != [] {
      var n := |s| - 1;
      ElementsSize(s[..n]);
      assert Elements(s) == Elements(s[..n]) + {s[n]};
      assert forall i | 0 <= i < n :: s[..n][i] != s[n];
    }
  }

  lemma KindCount(nodes: seq<string>, hosts: seq<string>, switches: seq<string>)
    requires NodesAre(nodes, hosts, switches)
    ensures CountIn(nodes, Elements(hosts)) == |hosts| && CountIn(nodes, Elements(switches)) == |switches|
  {
    CountAll(nodes, Elements(hosts));
    CountAll(nodes, Elements(switches));
    ElementsSize(hosts);
    ElementsSize(switches);
  }

  /** One node that gets no server: there are too many of its kind. */
  lemma Overflows(nodes: seq<string>, m: nat, hosts: seq<string>, switches: seq<string>, servers: seq<string>)
    requires NodesAre(nodes, hosts, switches) && servers != [] && m < |nodes|
    requires ServerOf(nodes, m, hosts, switches, servers) == None
    ensures !InRange(|hosts|, |servers|) || !InRange(|switches|, |servers|)
  {
    KindCount(nodes, hosts, switches);
    if nodes[m] in Elements(hosts) {
      CountGrows(nodes, m, Elements(hosts));
      NoRoom(CountIn(nodes[..m], Elements(hosts)), |hosts|, |servers|);
    } else {
      CountGrows(nodes, m, Elements(switches));
      NoRoom(CountIn(nodes[..m], Elements(switches)), |switches|, |servers|);
    }
  }

  lemma CountedMore(nodes: seq<string>, m: nat, hosts: seq<string>, switches: seq<string>, servers: seq<string>,
                    hind: nat, sind: nat, hind': nat, sind': nat)
    requires NodesAre(nodes, hosts, switches) && servers != [] && m < |nodes|
    requires Counted(nodes, m, hosts, switches, |servers|, hind, sind)
    requires ServerOf(nodes, m, hosts, switches, servers).Some?
    requires hind' == hind + (if nodes[m] in Elements(hosts) then 1 else 0)
    requires sind' == sind + (if nodes[m] in Elements(switches) then 1 else 0)
    ensures Counted(nodes, m + 1, hosts, switches, |servers|, hind', sind')
  {
    CountNext(nodes, m, Elements(hosts));
    CountNext(nodes, m, Elements(switches));
  }

  /** placeNodes with this placer. `given` are the servers some nodes have already; the placer is asked
      for those too. It gets through exactly if no kind of node overflows its bins. */
  method PlaceNodes(nodes: seq<string>, hosts: seq<string>, switches: seq<string>, servers: seq<string>,
                    given: map<string, string>)
    returns (ok: bool, p: map<string, string>)
    requires NodesAre(nodes, hosts, switches)
    ensures servers == [] ==> ok && p == given
    ensures servers != [] ==> (ok <==> InRange(|hosts|, |servers|) && InRange(|switches|, |servers|))
    ensures servers != [] && ok ==> Settled(nodes, |nodes|, given, hosts, switches, servers, p)
  {
    p, ok := given, true;
    if servers == [] { return; }
    var placer := new HostSwitchBinPlacer(servers, hosts, switches, []);
    for i := 0 to |nodes|
      invariant placer.Valid() && Counted(nodes, i, hosts, switches, |servers|, placer.hind, placer.sind)
      invariant Settled(nodes, i, given, hosts, switches, servers, p)
    {
      ghost var hind, sind := placer.hind, placer.sind;
      var server := placer.Place(nodes[i]);
      assert server == ServerOf(nodes, i, hosts, switches, servers);
      if server == None {
        Overflows(nodes, i, hosts, switches, servers);
        return false, p;
      }
      CountedMore(nodes, i, hosts, switches, servers, hind, sind, placer.hind, placer.sind);
      SettledMore(nodes, i, given, hosts, switches, servers, p, server.value);
      if nodes[i] !in p {
        p := p[nodes[i] := server.value];
      }
    }
    KindCount(nodes, hosts, switches);
    assert nodes[..|nodes|] == nodes;
  }
}
