/**
 Which ports a topology gets, told from the links that were added: those of a switch are numbered
 from 1 and those of a host from 0, in the order in which its links were added.
 */
module PortNumbers {
  import opened Base
  import opened Topologies

  /** The event is a link of the node. */
  predicate Touches(e: Event, n: string) {
    e.Link? && (e.u == n || e.v == n)
  }

  /** The number of links of the node */
  function Degree(es: seq<Event>, n: string): nat {
    if es == [] then 0 else Degree(es[..|es| - 1], n) + if Touches(es[|es| - 1], n) then 1 else 0
  }

  /** The port that follows `m` others: switches begin with 1, hosts with 0. */
  ghost predicate Follows(node: map<string, bool>, n: string, m: nat, port: int) {
    n in node && port == if node[n] then m + 1 else m
  }

  /** The ports of the node are the first `m`. */
  ghost predicate FirstPorts(s: State, n: string, m: nat) {
    forall p: int :: (n, p) in s.ports <==> exists i: nat :: i < m && Follows(s.node, n, i, p)
  }

  ghost predicate Proper(es: seq<Event>) {
    Known(EMPTY, es) && AllFit(EMPTY, es)
  }

  lemma ProperLess(es: seq<Event>)
    requires Proper(es) && es != []
    ensures Proper(es[..|es| - 1]) && Fits(DoAll(EMPTY, es[..|es| - 1]), es[|es| - 1])
    ensures var s, e := DoAll(EMPTY, es[..|es| - 1]), es[|es| - 1];
            Inv(s) && (e.Link? ==> BothIn(s.node.Keys, e))
  {
    AllFitLess(EMPTY, es);
    KnownLess(EMPTY, es);
    RunInv(EMPTY, es[..|es| - 1]);
  }

  lemma CableUsed(ports: Ports, a: (string, int), b: (string, int), n: string)
    requires a !in ports && b !in ports && (a.0 == b.0 ==> a == b)
    ensures |UsedAt(WithCable(ports, a, b), n)| == |UsedAt(ports, n)| + if n == a.0 || n == b.0 then 1 else 0
  {
    UsedMore(ports, a, b, n);
    UsedMore(ports[a := b], b, a, n);
    assert a.1 !in UsedAt(ports, a.0) && b.1 !in UsedAt(ports, b.0);
  }

  lemma OneMoreUsed(s: State, e: Event, n: string)
    requires Inv(s) && Fits(s, e) && (e.Link? ==> BothIn(s.node.Keys, e))
    ensures |UsedAt(Do(s, e).ports, n)| == |UsedAt(s.ports, n)| + if Touches(e, n) then 1 else 0
  {
    if e.Link? {
      LinkAdds(s, e.u, e.v);
      CableUsed(s.ports, (e.u, PortFor(s, e.u, None).value), (e.v, PortFor(s, e.v, None).value), n);
    }
  }

  lemma {:induction false} UsedIsDegree(es: seq<Event>, n: string)
    requires Proper(es)
    ensures |UsedAt(DoAll(EMPTY, es).ports, n)| == Degree(es, n)
  {
    if es == [] {
      assert UsedAt(EMPTY.ports, n) == {};
    } else {
      ProperLess(es);
      UsedIsDegree(es[..|es| - 1], n);
      OneMoreUsed(DoAll(EMPTY, es[..|es| - 1]), es[|es| - 1], n);
    }
  }

  /** In every run a node has a port for each of its links, a switch from 1 and a host from 0 on. */
  lemma PortsNumbered(es: seq<Event>, n: string)
    requires Proper(es) && n in DoAll(EMPTY, es).node
    ensures FirstPorts(DoAll(EMPTY, es), n, Degree(es, n))
  {
    var s, m := DoAll(EMPTY, es), Degree(es, n);
    RunInv(EMPTY, es);
    UsedIsDegree(es, n);
    forall p: int ensures (n, p) in s.ports <==> exists i: nat :: i < m && Follows(s.node, n, i, p) {
      assert Numbered(s.node, s.ports, n, p);
      if (n, p) in s.ports { assert Follows(s.node, n, if s.node[n] then p - 1 else p, p); }
    }
  }

  // ---------------------------------------------------------------------------
  // The ports of a link
  // ---------------------------------------------------------------------------

  /** Some link between the nodes, added from `u` to `v`, has these ports. */
  ghost predicate HasPorts(b: Bonds, u: string, v: string, p: int, q: int) {
    exists k :: k in BondOf(b, (u, v)) && BondOf(b, (u, v))[k] == Info(u, v, p, q)
  }

  lemma HadPorts(s: State, e: Event, u: string, v: string, p: int, q: int)
    requires Inv(s) && Fits(s, e) && (e.Link? ==> BothIn(s.node.Keys, e)) && HasPorts(s.bonds, u, v, p, q)
    ensures HasPorts(Do(s, e).bonds, u, v, p, q)
  {
    var k :| k in BondOf(s.bonds, (u, v)) && BondOf(s.bonds, (u, v))[k] == Info(u, v, p, q);
    if e.Link? {
      LinkAdds(s, e.u, e.v);
      DoLinkBond(s, e.u, e.v, (u, v));
      BondTurned(s.bonds, (u, v));
    }
    assert k in BondOf(Do(s, e).bonds, (u, v)) && BondOf(Do(s, e).bonds, (u, v))[k] == Info(u, v, p, q);
  }

  /** The ports of a link that follows `m` links of `u` and `n` links of `v` */
  ghost predicate Gets(node: map<string, bool>, b: Bonds, u: string, v: string, m: nat, n: nat) {
    exists p, q :: Follows(node, u, m, p) && Follows(node, v, n, q) && HasPorts(b, u, v, p, q)
  }

  lemma NewGets(es: seq<Event>)
    requires Proper(es) && es != [] && es[|es| - 1].Link?
    ensures var less, e := es[..|es| - 1], es[|es| - 1];
            Gets(DoAll(EMPTY, es).node, DoAll(EMPTY, es).bonds, e.u, e.v, Degree(less, e.u), Degree(less, e.v))
  {
    var less, e := es[..|es| - 1], es[|es| - 1];
    var s := DoAll(EMPTY, less);
    ProperLess(es);
    UsedIsDegree(less, e.u);
    UsedIsDegree(less, e.v);
    LinkAdds(s, e.u, e.v);
    DoLinkBond(s, e.u, e.v, (e.u, e.v));
    NewHasPorts(s, e.u, e.v);
  }

  lemma NewHasPorts(s: State, u: string, v: string)
    requires Inv(s) && u in s.node && v in s.node
    ensures var p, q := PortFor(s, u, None).value, PortFor(s, v, None).value;
            && HasPorts(Do(s, Link(u, v)).bonds, u, v, p, q) && Do(s, Link(u, v)).node == s.node
            && Follows(s.node, u, |UsedAt(s.ports, u)|, p) && Follows(s.node, v, |UsedAt(s.ports, v)|, q)
  {
    LinkAdds(s, u, v);
    DoLinkBond(s, u, v, (u, v));
    var k := KeyFor(BondOf(s.bonds, (u, v)), None);
    assert k in BondOf(Do(s, Link(u, v)).bonds, (u, v));
  }

  lemma FollowsOn(s: State, e: Event, n: string, m: nat, p: int)
    requires Fits(s, e) && (e.Link? ==> BothIn(s.node.Keys, e)) && Follows(s.node, n, m, p)
    ensures Follows(Do(s, e).node, n, m, p)
  {
  }

  /** Each link that was added got at either end the port that follows those of the links of that node
      that were added before it, and keeps it. */
  lemma {:induction false} LinkPortsFollow(es: seq<Event>, i: nat)
    requires Proper(es) && i < |es| && es[i].Link?
    ensures var e := es[i];
            Gets(DoAll(EMPTY, es).node, DoAll(EMPTY, es).bonds, e.u, e.v, Degree(es[..i], e.u), Degree(es[..i], e.v))
    decreases |es|
  {
    if i == |es| - 1 {
      NewGets(es);
    } else {
      var less, last, e := es[..|es| - 1], es[|es| - 1], es[i];
      ProperLess(es);
      LinkPortsFollow(less, i);
      assert less[..i] == es[..i];
      var s := DoAll(EMPTY, less);
      var p, q :| Follows(s.node, e.u, Degree(es[..i], e.u), p) && Follows(s.node, e.v, Degree(es[..i], e.v), q)
                  && HasPorts(s.bonds, e.u, e.v, p, q);
      HadPorts(s, last, e.u, e.v, p, q);
      FollowsOn(s, last, e.u, Degree(es[..i], e.u), p);
      FollowsOn(s, last, e.v, Degree(es[..i], e.v), q);
    }
  }
}
