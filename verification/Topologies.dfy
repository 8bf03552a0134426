/**
 What a mininet `Topo` holds (topo.py): nodes, links with their keys and attributes, and ports;
 the operations on it as functions on values, and what runs of them keep.
 */
module Topologies {
  import opened Base
  import opened Text

  datatype Key = Num(n: int) | Other(s: string)

  /** The attributes of a link that addLink sets. */
  datatype Info = Info(node1: string, node2: string, port1: int, port2: int)

  type Bond = map<Key, Info>
  type Bonds = map<(string, string), Bond>
  type Ports = map<(string, int), (string, int)>

  /** `node` says which nodes are switches; `bonds` are the links of each pair of nodes by key;
      ports[(src, sport)] is the node and port at the other end. */
  datatype State = State(node: map<string, bool>, bonds: Bonds, ports: Ports)

  const EMPTY := State(map[], map[], map[])

  function Turn<A, B>(p: (A, B)): (B, A) { (p.1, p.0) }

  function BondOf(b: Bonds, p: (string, string)): Bond {
    if p in b then b[p] else map[]
  }

  // ---------------------------------------------------------------------------
  // Operations
  // ---------------------------------------------------------------------------

  ghost predicate IsMax(ks: set<Key>, n: nat) {
    && (forall k | k in ks && k.Num? :: k.n <= n)
    && (n == 0 || Num(n) in ks)
  }

  /** max([0] + the integer keys). */
  ghost function MaxNum(ks: set<Key>): (n: nat)
    ensures IsMax(ks, n)
  {
    if ks == {} then 0
    else
      var k :| k in ks;
      var rest := MaxNum(ks - {k});
      if k.Num? && k.n > rest then k.n else rest
  }

  ghost function KeyFor(b: Bond, key: Option<Key>): Key {
    if key.Some? then key.value else Num(MaxNum(b.Keys) + 1)
  }

  function WithLink(b: Bonds, p: (string, string), k: Key, info: Info): Bonds {
    var m := BondOf(b, p)[k := info];
    b[p := m][Turn(p) := m]
  }

  /** setdefault of both ends of an edge */
  function WithEnds(node: map<string, bool>, u: string, v: string): map<string, bool> {
    var n := if u in node then node else node[u := false];
    if v in n then n else n[v := false]
  }

  function UsedAt(ports: Ports, n: string): set<int> {
    set e | e in ports && e.0 == n :: e.1
  }

  function BaseOf(node: map<string, bool>, n: string): nat
    requires n in node
  {
    if node[n] then 1 else 0
  }

  /** The port asked for, or the next one; None is the KeyError of isSwitch. */
  function PortFor(s: State, n: string, port: Option<int>): Option<int> {
    if port.Some? then port
    else if n !in s.node then None
    else Some(|UsedAt(s.ports, n)| + BaseOf(s.node, n))
  }

  function WithCable(ports: Ports, a: (string, int), b: (string, int)): Ports {
    ports[a := b][b := a]
  }

  /** addLink; false is an exception. */
  ghost function LinkNodes(s: State, u: string, v: string, port1: Option<int>, port2: Option<int>,
                           key: Option<Key>): (State, bool) {
    var p, q := PortFor(s, u, port1), PortFor(s, v, port2);
    if p.None? || q.None? then (s, false)
    else
      (State(WithEnds(s.node, u, v),
             WithLink(s.bonds, (u, v), KeyFor(BondOf(s.bonds, (u, v)), key), Info(u, v, p.value, q.value)),
             WithCable(s.ports, (u, p.value), (v, q.value))),
       true)
  }

  /** A use of the library that leaves keys and ports to it. */
  datatype Event = Node(name: string, isSwitch: bool) | Link(u: string, v: string)

  ghost function Do(s: State, e: Event): State {
    match e
    case Node(n, sw) => s.(node := s.node[n := sw])
    case Link(u, v) => LinkNodes(s, u, v, None, None, None).0
  }

  ghost function DoAll(s: State, es: seq<Event>): State {
    if es == [] then s else Do(DoAll(s, es[..|es| - 1]), es[|es| - 1])
  }

  lemma {:induction false} DoConcat(s: State, a: seq<Event>, b: seq<Event>)
    ensures DoAll(s, a + b) == DoAll(DoAll(s, a), b)
  {
    if b == [] {
      assert a + b == a;
    } else {
      assert (a + b)[..|a + b| - 1] == a + b[..|b| - 1];
      DoConcat(s, a, b[..|b| - 1]);
    }
  }

  // ---------------------------------------------------------------------------
  // The invariant
  // ---------------------------------------------------------------------------

  ghost predicate Symmetric(b: Bonds) {
    forall p {:trigger Turn(p)} | p in b :: Turn(p) in b && b[Turn(p)] == b[p] && b[p] != map[]
  }

  ghost predicate Among(s: State) {
    && (forall p | p in s.bonds :: p.0 in s.node)
    && (forall e | e in s.ports :: e.0 in s.node)
  }

  /** A port's cable leads to a port whose cable leads back. */
  ghost predicate Involution(ports: Ports) {
    forall e | e in ports :: ports[e] in ports && ports[ports[e]] == e
  }

  /** The ports of a node are numbered from its base on without a gap. */
  ghost predicate Contiguous(node: map<string, bool>, ports: Ports) {
    forall n, p | n in node :: Numbered(node, ports, n, p)
  }

  ghost predicate Numbered(node: map<string, bool>, ports: Ports, n: string, p: int)
    requires n in node
  {
    (n, p) in ports <==> BaseOf(node, n) <= p < BaseOf(node, n) + |UsedAt(ports, n)|
  }

  /** The link `k` between the nodes of `p` ends at `e`. */
  ghost predicate Ends(b: Bonds, p: (string, string), k: Key, e: (string, int)) {
    p in b && k in b[p] && (e == (b[p][k].node1, b[p][k].port1) || e == (b[p][k].node2, b[p][k].port2))
  }

  /** Every link is a cable between its two ports. */
  ghost predicate Cabled(b: Bonds, ports: Ports) {
    forall p, k | p in b && k in b[p] :: Wired(b, ports, p, k)
  }

  ghost predicate Wired(b: Bonds, ports: Ports, p: (string, string), k: Key)
    requires p in b && k in b[p]
  {
    var i := b[p][k];
    && (p == (i.node1, i.node2) || p == (i.node2, i.node1))
    && (i.node1, i.port1) in ports && ports[(i.node1, i.port1)] == (i.node2, i.port2)
  }

  /** Every port in use is the end of a link. */
  ghost predicate InLink(b: Bonds, ports: Ports) {
    forall e {:trigger HasLink(b, e)} | e in ports :: HasLink(b, e)
  }

  ghost predicate HasLink(b: Bonds, e: (string, int)) {
    exists p, k :: Ends(b, p, k, e)
  }

  /** No port is the end of two links. */
  ghost predicate OneLink(b: Bonds) {
    forall p, k, q, l, e | Ends(b, p, k, e) && Ends(b, q, l, e) :: k == l && (p == q || p == Turn(q))
  }

  ghost predicate Inv(s: State) {
    && Symmetric(s.bonds) && Among(s) && Involution(s.ports) && Contiguous(s.node, s.ports)
    && Cabled(s.bonds, s.ports) && InLink(s.bonds, s.ports) && OneLink(s.bonds)
  }

  /** No node changes its kind. */
  ghost predicate Fits(s: State, e: Event) {
    e.Node? && e.name in s.node ==> s.node[e.name] == e.isSwitch
  }

  lemma UsedMore(ports: Ports, e: (string, int), x: (string, int), n: string)
    ensures UsedAt(ports[e := x], n) == if e.0 == n then UsedAt(ports, n) + {e.1} else UsedAt(ports, n)
  {
    var more := ports[e := x];
    assert forall q :: (n, q) in more <==> (n, q) in ports || (n, q) == e;
    assert forall q :: q in UsedAt(ports, n) <==> (n, q) in ports;
    assert forall q :: q in UsedAt(more, n) <==> (n, q) in more;
  }

  ghost predicate Next(node: map<string, bool>, ports: Ports, e: (string, int)) {
    e.0 in node && e.1 == |UsedAt(ports, e.0)| + BaseOf(node, e.0)
  }

  lemma NextIsFree(node: map<string, bool>, ports: Ports, e: (string, int))
    requires Contiguous(node, ports) && Next(node, ports, e)
    ensures e !in ports
  {
    assert Numbered(node, ports, e.0, e.1);
  }

  /** One more port in use, the next of its node. */
  lemma PortMore(node: map<string, bool>, ports: Ports, e: (string, int), x: (string, int))
    requires Contiguous(node, ports) && Next(node, ports, e)
    ensures Contiguous(node, ports[e := x])
  {
    var more := ports[e := x];
    forall n, p | n in node ensures Numbered(node, more, n, p) {
      UsedMore(ports, e, x, n);
      NextIsFree(node, ports, e);
      if n == e.0 { assert e.1 !in UsedAt(ports, n); }
      assert Numbered(node, ports, n, p);
    }
  }

  lemma PortAgain(node: map<string, bool>, ports: Ports, e: (string, int), x: (string, int))
    requires Contiguous(node, ports) && e in ports
    ensures Contiguous(node, ports[e := x])
  {
    var more := ports[e := x];
    forall n, p | n in node ensures Numbered(node, more, n, p) {
      UsedMore(ports, e, x, n);
      if n == e.0 { assert UsedAt(ports, n) + {e.1} == UsedAt(ports, n); }
      assert Numbered(node, ports, n, p);
    }
  }

  lemma CableContiguous(node: map<string, bool>, ports: Ports, a: (string, int), b: (string, int))
    requires Contiguous(node, ports) && Next(node, ports, a) && Next(node, ports, b)
    ensures Contiguous(node, WithCable(ports, a, b))
  {
    PortMore(node, ports, a, b);
    if a == b {
      PortAgain(node, ports[a := b], b, a);
    } else {
      UsedMore(ports, a, b, b.0);
      assert a.0 != b.0;
      PortMore(node, ports[a := b], b, a);
    }
  }

  lemma CableInvolution(ports: Ports, a: (string, int), b: (string, int))
    requires Involution(ports) && a !in ports && b !in ports
    ensures Involution(WithCable(ports, a, b))
  {
  }

  /** The link and its cable are the only things new. */
  ghost predicate Added(s: State, u: string, v: string, k: Key, a: (string, int), b: (string, int), t: State) {
    && a.0 == u && b.0 == v && u in s.node && v in s.node && a !in s.ports && b !in s.ports
    && k !in BondOf(s.bonds, (u, v))
    && t == State(s.node, WithLink(s.bonds, (u, v), k, Info(u, v, a.1, b.1)), WithCable(s.ports, a, b))
  }

  lemma BondTurned(b: Bonds, p: (string, string))
    requires Symmetric(b)
    ensures BondOf(b, Turn(p)) == BondOf(b, p)
  {
    assert Turn(Turn(p)) == p;
    assert p in b ==> Turn(p) in b;
    assert Turn(p) in b ==> Turn(Turn(p)) in b;
  }

  lemma WithLinkSymmetric(b: Bonds, p: (string, string), k: Key, info: Info)
    requires Symmetric(b)
    ensures Symmetric(WithLink(b, p, k, info))
  {
    var c := WithLink(b, p, k, info);
    forall q | q in c ensures Turn(q) in c && c[Turn(q)] == c[q] && c[q] != map[] {
      WithLinkAt(b, p, k, info, q, k);
      WithLinkAt(b, p, k, info, Turn(q), k);
      BondTurned(b, q);
      assert q == p || q == Turn(p) ==> k in c[q];
    }
  }

  lemma WithLinkAt(b: Bonds, p: (string, string), k: Key, info: Info, q: (string, string), l: Key)
    requires Symmetric(b)
    ensures var c := WithLink(b, p, k, info);
            if q == p || q == Turn(p) then q in c && c[q] == BondOf(b, q)[k := info]
            else BondOf(c, q) == BondOf(b, q) && (q in c <==> q in b)
  {
    BondTurned(b, p);
  }

  lemma EndsMore(s: State, u: string, v: string, k: Key, a: (string, int), b: (string, int), t: State,
                 p: (string, string), l: Key, e: (string, int))
    requires Symmetric(s.bonds) && Added(s, u, v, k, a, b, t)
    ensures Ends(t.bonds, p, l, e) <==>
            Ends(s.bonds, p, l, e) || ((p == (u, v) || p == (v, u)) && l == k && (e == a || e == b))
  {
    WithLinkAt(s.bonds, (u, v), k, Info(u, v, a.1, b.1), p, l);
    BondTurned(s.bonds, (u, v));
  }

  lemma AddedInLink(s: State, u: string, v: string, k: Key, a: (string, int), b: (string, int), t: State)
    requires Symmetric(s.bonds) && InLink(s.bonds, s.ports) && Added(s, u, v, k, a, b, t)
    ensures InLink(t.bonds, t.ports)
  {
    forall e | e in t.ports ensures HasLink(t.bonds, e) {
      if e in s.ports {
        assert HasLink(s.bonds, e);
        var p, l :| Ends(s.bonds, p, l, e);
        EndsMore(s, u, v, k, a, b, t, p, l, e);
      } else {
        EndsMore(s, u, v, k, a, b, t, (u, v), k, e);
      }
    }
  }

  /** An old link's end is not an end of the new one. */
  lemma EndsApart(s: State, u: string, v: string, k: Key, a: (string, int), b: (string, int), t: State,
                  p: (string, string), l: Key, e: (string, int))
    requires Symmetric(s.bonds) && Involution(s.ports) && Cabled(s.bonds, s.ports) && Added(s, u, v, k, a, b, t)
    requires Ends(t.bonds, p, l, e)
    ensures if e == a || e == b then l == k && (p == (u, v) || p == (v, u)) else Ends(s.bonds, p, l, e)
  {
    EndsMore(s, u, v, k, a, b, t, p, l, e);
  }

  lemma AddedOneLink(s: State, u: string, v: string, k: Key, a: (string, int), b: (string, int), t: State)
    requires Symmetric(s.bonds) && Involution(s.ports) && Cabled(s.bonds, s.ports) && OneLink(s.bonds)
             && Added(s, u, v, k, a, b, t)
    ensures OneLink(t.bonds)
  {
    forall p, l, q, m, e | Ends(t.bonds, p, l, e) && Ends(t.bonds, q, m, e) ensures l == m && (p == q || p == Turn(q)) {
      EndsApart(s, u, v, k, a, b, t, p, l, e);
      EndsApart(s, u, v, k, a, b, t, q, m, e);
    }
  }

  lemma AddedCabled(s: State, u: string, v: string, k: Key, a: (string, int), b: (string, int), t: State)
    requires Symmetric(s.bonds) && Cabled(s.bonds, s.ports) && Added(s, u, v, k, a, b, t)
    ensures Cabled(t.bonds, t.ports)
  {
    forall p, l | p in t.bonds && l in t.bonds[p] ensures Wired(t.bonds, t.ports, p, l) {
      WithLinkAt(s.bonds, (u, v), k, Info(u, v, a.1, b.1), p, l);
      if p in s.bonds && l in s.bonds[p] { assert Wired(s.bonds, s.ports, p, l); }
    }
  }

  lemma AddedKeeps(s: State, u: string, v: string, k: Key, a: (string, int), b: (string, int), t: State)
    requires Inv(s) && Added(s, u, v, k, a, b, t) && Next(s.node, s.ports, a) && Next(s.node, s.ports, b)
    ensures Inv(t)
  {
    WithLinkSymmetric(s.bonds, (u, v), k, Info(u, v, a.1, b.1));
    AddedInLink(s, u, v, k, a, b, t);
    AddedOneLink(s, u, v, k, a, b, t);
    AddedCabled(s, u, v, k, a, b, t);
    CableContiguous(s.node, s.ports, a, b);
    CableInvolution(s.ports, a, b);
  }

  /** addLink with neither key nor ports given: a fresh key, and two ports nothing used before. */
  lemma LinkAdds(s: State, u: string, v: string)
    requires Contiguous(s.node, s.ports) && u in s.node && v in s.node
    ensures var a, b := (u, PortFor(s, u, None).value), (v, PortFor(s, v, None).value);
            && Next(s.node, s.ports, a) && Next(s.node, s.ports, b)
            && Added(s, u, v, KeyFor(BondOf(s.bonds, (u, v)), None), a, b, Do(s, Link(u, v)))
  {
    var ks := BondOf(s.bonds, (u, v)).Keys;
    assert IsMax(ks, MaxNum(ks));
    NextIsFree(s.node, s.ports, (u, PortFor(s, u, None).value));
    NextIsFree(s.node, s.ports, (v, PortFor(s, v, None).value));
  }

  lemma DoKeeps(s: State, e: Event)
    requires Inv(s) && Fits(s, e)
    ensures Inv(Do(s, e))
  {
    if e.Node? {
      NodeKeeps(s, e.name, e.isSwitch);
    } else if e.u in s.node && e.v in s.node {
      LinkAdds(s, e.u, e.v);
      AddedKeeps(s, e.u, e.v, KeyFor(BondOf(s.bonds, (e.u, e.v)), None), (e.u, PortFor(s, e.u, None).value),
                 (e.v, PortFor(s, e.v, None).value), Do(s, e));
    }
  }

  lemma NodeKeeps(s: State, n: string, isSwitch: bool)
    requires Inv(s) && Fits(s, Node(n, isSwitch))
    ensures Inv(s.(node := s.node[n := isSwitch]))
  {
    NodeContiguous(s, n, isSwitch);
    assert Among(s.(node := s.node[n := isSwitch]));
  }

  lemma NodeContiguous(s: State, n: string, isSwitch: bool)
    requires Among(s) && Contiguous(s.node, s.ports) && Fits(s, Node(n, isSwitch))
    ensures Contiguous(s.node[n := isSwitch], s.ports)
  {
    var node := s.node[n := isSwitch];
    forall m, p | m in node ensures Numbered(node, s.ports, m, p) {
      if m in s.node {
        assert Numbered(s.node, s.ports, m, p);
      } else {
        assert forall e | e in s.ports :: e.0 != n;
        assert UsedAt(s.ports, n) == {};
      }
    }
  }

  ghost predicate AllFit(s: State, es: seq<Event>) {
    forall i | 0 <= i < |es| :: Fits(DoAll(s, es[..i]), es[i])
  }

  lemma AllFitLess(s: State, es: seq<Event>)
    requires AllFit(s, es) && es != []
    ensures AllFit(s, es[..|es| - 1]) && Fits(DoAll(s, es[..|es| - 1]), es[|es| - 1])
  {
    var less := es[..|es| - 1];
    forall i | 0 <= i < |less| ensures Fits(DoAll(s, less[..i]), less[i]) {
      assert less[..i] == es[..i];
    }
  }

  /** In every run ports pair up, are numbered without a gap from 1 at switches and from 0 at hosts,
      and belong to one link each. */
  lemma {:induction false} RunInv(s: State, es: seq<Event>)
    requires Inv(s) && AllFit(s, es)
    ensures Inv(DoAll(s, es))
  {
    if es != [] {
      AllFitLess(s, es);
      RunInv(s, es[..|es| - 1]);
      DoKeeps(DoAll(s, es[..|es| - 1]), es[|es| - 1]);
    }
  }

  // ---------------------------------------------------------------------------
  // Links are kept, each once
  // ---------------------------------------------------------------------------

  /** The links added between two nodes, in order. */
  function Between(es: seq<Event>, p: (string, string)): seq<Event> {
    if es == [] then []
    else
      var e := es[|es| - 1];
      Between(es[..|es| - 1], p) + if e.Link? && ((e.u, e.v) == p || (e.v, e.u) == p) then [e] else []
  }

  /** The bond holds the links of the sequence, numbered from 1. */
  ghost predicate Holds(b: Bond, ls: seq<Event>) {
    && (forall k :: k in b <==> k.Num? && 1 <= k.n <= |ls|)
    && (forall i | 0 <= i < |ls| ::
          ls[i].Link? && Num(i + 1) in b && b[Num(i + 1)].node1 == ls[i].u && b[Num(i + 1)].node2 == ls[i].v)
  }

  lemma HoldsMore(b: Bond, ls: seq<Event>, u: string, v: string, info: Info)
    requires Holds(b, ls) && info.node1 == u && info.node2 == v
    ensures Holds(b[KeyFor(b, None) := info], ls + [Link(u, v)])
  {
    if |ls| > 0 { assert Num(|ls| - 1 + 1) in b; }
    assert IsMax(b.Keys, |ls|);
  }

  ghost predicate Known(s: State, es: seq<Event>) {
    forall i | 0 <= i < |es| :: KnownAt(s, es, i)
  }

  ghost predicate KnownAt(s: State, es: seq<Event>, i: nat)
    requires i < |es|
  {
    es[i].Link? ==> BothIn(DoAll(s, es[..i]).node.Keys, es[i])
  }

  predicate BothIn(nodes: set<string>, e: Event)
    requires e.Link?
  {
    e.u in nodes && e.v in nodes
  }

  lemma KnownLess(s: State, es: seq<Event>)
    requires Known(s, es) && es != []
    ensures Known(s, es[..|es| - 1])
    ensures var e := es[|es| - 1];
            e.Link? ==> BothIn(DoAll(s, es[..|es| - 1]).node.Keys, e)
  {
    assert KnownAt(s, es, |es| - 1);
    KnownPrefix(s, es, |es| - 1);
  }

  lemma KnownPrefix(s: State, es: seq<Event>, n: nat)
    requires Known(s, es) && n <= |es|
    ensures Known(s, es[..n])
  {
    forall i | 0 <= i < n ensures KnownAt(s, es[..n], i) {
      assert es[..n][..i] == es[..i];
      assert KnownAt(s, es, i);
    }
  }

  /** No link is lost or overwritten: between two nodes are the links added between them, with the
      keys 1, 2, ... in the order they were added. */
  lemma {:induction false} LinksKept(es: seq<Event>, p: (string, string))
    requires Known(EMPTY, es)
    ensures Holds(BondOf(DoAll(EMPTY, es).bonds, p), Between(es, p))
  {
    if es != [] {
      var less, e := es[..|es| - 1], es[|es| - 1];
      KnownLess(EMPTY, es);
      LinksKept(less, p);
      if e.Link? {
        LinksKept(less, (e.u, e.v));
        BetweenTurned(less, p);
        LinkHeld(DoAll(EMPTY, less), less, e.u, e.v, p);
      }
    }
  }

  lemma LinkBond(b: Bonds, q: (string, string), k: Key, info: Info, p: (string, string))
    ensures BondOf(WithLink(b, q, k, info), p) ==
            if p == q || Turn(p) == q then BondOf(b, q)[k := info] else BondOf(b, p)
  {
    assert Turn(Turn(p)) == p;
  }

  lemma BetweenMore(less: seq<Event>, u: string, v: string, p: (string, string))
    ensures Between(less + [Link(u, v)], p) ==
            if p == (u, v) || Turn(p) == (u, v) then Between(less, p) + [Link(u, v)] else Between(less, p)
  {
    assert (less + [Link(u, v)])[..|less|] == less;
    assert Between(less, p) + [] == Between(less, p);
  }

  ghost function InfoFor(s: State, u: string, v: string): Info
    requires u in s.node && v in s.node
  {
    Info(u, v, PortFor(s, u, None).value, PortFor(s, v, None).value)
  }

  lemma DoLinkBond(s: State, u: string, v: string, p: (string, string))
    requires u in s.node && v in s.node
    ensures var m := BondOf(s.bonds, (u, v));
            BondOf(Do(s, Link(u, v)).bonds, p) ==
            if p == (u, v) || Turn(p) == (u, v) then m[KeyFor(m, None) := InfoFor(s, u, v)] else BondOf(s.bonds, p)
  {
    LinkBond(s.bonds, (u, v), KeyFor(BondOf(s.bonds, (u, v)), None), InfoFor(s, u, v), p);
  }

  lemma LinkHeld(s: State, less: seq<Event>, u: string, v: string, p: (string, string))
    requires u in s.node && v in s.node && Between(less, Turn(p)) == Between(less, p)
    requires Holds(BondOf(s.bonds, p), Between(less, p)) && Holds(BondOf(s.bonds, (u, v)), Between(less, (u, v)))
    ensures Holds(BondOf(Do(s, Link(u, v)).bonds, p), Between(less + [Link(u, v)], p))
  {
    DoLinkBond(s, u, v, p);
    BetweenMore(less, u, v, p);
    var m, ls, info := BondOf(s.bonds, (u, v)), Between(less, (u, v)), InfoFor(s, u, v);
    HoldsMore(m, ls, u, v, info);
    var b, bs := BondOf(Do(s, Link(u, v)).bonds, p), Between(less + [Link(u, v)], p);
    assert (b, bs) == if p == (u, v) || Turn(p) == (u, v) then (m[KeyFor(m, None) := info], ls + [Link(u, v)])
                      else (BondOf(s.bonds, p), Between(less, p));
  }

  lemma {:induction false} BetweenTurned(es: seq<Event>, p: (string, string))
    ensures Between(es, Turn(p)) == Between(es, p)
  {
    if es != [] { BetweenTurned(es[..|es| - 1], p); }
  }

  lemma {:induction false} BetweenConcat(a: seq<Event>, b: seq<Event>, p: (string, string))
    ensures Between(a + b, p) == Between(a, p) + Between(b, p)
  {
    if b == [] {
      assert a + b == a;
    } else {
      assert (a + b)[..|a + b| - 1] == a + b[..|b| - 1];
      BetweenConcat(a, b[..|b| - 1], p);
    }
  }

  lemma {:induction false} InBetween(es: seq<Event>, e: Event)
    requires e in es && e.Link?
    ensures e in Between(es, (e.u, e.v))
  {
    if es[|es| - 1] != e { InBetween(es[..|es| - 1], e); }
  }

  /** Nodes stay nodes and linked pairs stay linked. */
  ghost predicate Grew(s: State, t: State) {
    && s.node.Keys <= t.node.Keys && s.bonds.Keys <= t.bonds.Keys
  }

  lemma {:induction false} NodesAdded(es: seq<Event>, n: string)
    requires Known(EMPTY, es)
    ensures n in DoAll(EMPTY, es).node <==> exists e :: e in es && e.Node? && e.name == n
  {
    if es != [] {
      var less, e := es[..|es| - 1], es[|es| - 1];
      KnownLess(EMPTY, es);
      NodesAdded(less, n);
      assert forall x :: x in es <==> x in less || x == e;
    }
  }

  lemma {:induction false} DoAllGrows(s: State, es: seq<Event>)
    ensures Grew(s, DoAll(s, es))
  {
    if es != [] { DoAllGrows(s, es[..|es| - 1]); }
  }

  lemma KnownConcat(s: State, a: seq<Event>, b: seq<Event>)
    requires Known(s, a) && Known(DoAll(s, a), b)
    ensures Known(s, a + b)
  {
    var c := a + b;
    forall i | 0 <= i < |c| ensures KnownAt(s, c, i) {
      if i < |a| {
        assert c[..i] == a[..i];
        assert KnownAt(s, a, i);
      } else {
        assert c[..i] == a + b[..i - |a|];
        DoConcat(s, a, b[..i - |a|]);
        assert KnownAt(DoAll(s, a), b, i - |a|);
      }
    }
  }

  lemma OneMoreDone(s: State, es: seq<Event>, e: Event)
    ensures DoAll(s, es + [e]) == Do(DoAll(s, es), e)
  {
    assert (es + [e])[..|es|] == es;
  }

  /** One run after another */
  lemma Then(s: State, a: seq<Event>, b: seq<Event>)
    requires Known(s, a) && Known(DoAll(s, a), b)
    ensures Known(s, a + b) && DoAll(s, a + b) == DoAll(DoAll(s, a), b) && Grew(DoAll(s, a), DoAll(s, a + b))
  {
    KnownConcat(s, a, b);
    DoConcat(s, a, b);
    DoAllGrows(DoAll(s, a), b);
  }

  lemma KnownLinks(s: State, es: seq<Event>)
    requires forall e | e in es :: e.Link? && BothIn(s.node.Keys, e)
    ensures Known(s, es)
  {
    forall i | 0 <= i < |es| ensures KnownAt(s, es, i) {
      assert es[i] in es;
      DoAllGrows(s, es[..i]);
    }
  }

  /** A name tells whether it is a switch's: those begin with 's'. */
  ghost predicate Lettered(e: Event) {
    e.Node? ==> e.name != [] && (e.isSwitch <==> e.name[0] == 's')
  }

  lemma {:induction false} KindsAgree(es: seq<Event>)
    requires Known(EMPTY, es) && forall e | e in es :: Lettered(e)
    ensures var s := DoAll(EMPTY, es);
            forall n | n in s.node :: n != [] && (s.node[n] <==> n[0] == 's')
  {
    if es != [] {
      KnownLess(EMPTY, es);
      KindsAgree(es[..|es| - 1]);
      assert Lettered(es[|es| - 1]);
    }
  }

  lemma LetteredFit(es: seq<Event>)
    requires Known(EMPTY, es) && forall e | e in es :: Lettered(e)
    ensures AllFit(EMPTY, es) && Inv(DoAll(EMPTY, es))
  {
    forall i | 0 <= i < |es| ensures Fits(DoAll(EMPTY, es[..i]), es[i]) {
      KnownPrefix(EMPTY, es, i);
      KindsAgree(es[..i]);
      assert Lettered(es[i]);
    }
    RunInv(EMPTY, es);
  }

  /** There is a link between two nodes of a run exactly if one was added. */
  lemma LinkedIffAdded(es: seq<Event>, p: (string, string))
    requires Known(EMPTY, es)
    ensures var s := DoAll(EMPTY, es);
            |BondOf(s.bonds, p)| == |Between(es, p)| && (p in s.bonds <==> Between(es, p) != [])
  {
    var b, ls := BondOf(DoAll(EMPTY, es).bonds, p), Between(es, p);
    LinksKept(es, p);
    HoldsSize(b, ls);
    SomeLink(es, p);
  }

  lemma WithLinkSome(b: Bonds, q: (string, string), k: Key, info: Info, p: (string, string))
    requires p in b ==> b[p] != map[]
    ensures p in WithLink(b, q, k, info) ==> WithLink(b, q, k, info)[p] != map[]
  {
    assert k in BondOf(b, q)[k := info];
  }

  lemma {:induction false} SomeLink(es: seq<Event>, p: (string, string))
    ensures p in DoAll(EMPTY, es).bonds ==> DoAll(EMPTY, es).bonds[p] != map[]
  {
    if es != [] {
      var s, e := DoAll(EMPTY, es[..|es| - 1]), es[|es| - 1];
      SomeLink(es[..|es| - 1], p);
      if e.Link? && e.u in s.node && e.v in s.node {
        WithLinkSome(s.bonds, (e.u, e.v), KeyFor(BondOf(s.bonds, (e.u, e.v)), None), InfoFor(s, e.u, e.v), p);
      }
    }
  }

  lemma {:induction false} HoldsSize(b: Bond, ls: seq<Event>)
    requires Holds(b, ls)
    ensures |b| == |ls|
  {
    if ls == [] {
      assert forall k :: k !in b;
      assert b == map[];
    } else {
      var n := |ls|;
      var c := b - {Num(n)};
      assert Num(n) in b;
      assert b.Keys == c.Keys + {Num(n)};
      var less := ls[..n - 1];
      HoldsSize(c, less);
      assert |b.Keys| == |c.Keys| + 1;
    }
  }

  // ---------------------------------------------------------------------------
  // Looking up links and ports
  // ---------------------------------------------------------------------------

  /** What iterLinks goes over: of the two orders of a pair, the one that is not descending. */
  ghost predicate Listed(b: Bonds, l: (string, string, Key, Info)) {
    (l.0, l.1) in b && !Above(l.0, l.1) && l.2 in b[(l.0, l.1)] && b[(l.0, l.1)][l.2] == l.3
  }

  /** What links() makes of it */
  function Entry(l: (string, string, Key, Info)): (string, string, Key) {
    (l.3.node1, l.3.node2, l.2)
  }

  ghost predicate Given(b: Bonds, x: (string, string, Key)) {
    exists l :: Listed(b, l) && Entry(l) == x
  }

  /** Ends and key tell the link. */
  lemma EntryTells(b: Bonds, ports: Ports, l: (string, string, Key, Info), m: (string, string, Key, Info))
    requires Cabled(b, ports) && Listed(b, l) && Listed(b, m) && l != m
    ensures Entry(l) != Entry(m)
  {
    assert Wired(b, ports, (l.0, l.1), l.2) && Wired(b, ports, (m.0, m.1), m.2);
    AboveTotal(l.0, l.1);
  }

  /** Every link is listed in exactly one of the two orders of its ends. */
  lemma ListedOnce(b: Bonds, p: (string, string), k: Key)
    requires Symmetric(b) && p in b && k in b[p]
    ensures Listed(b, (p.0, p.1, k, b[p][k])) || Listed(b, (p.1, p.0, k, b[p][k]))
    ensures Listed(b, (p.0, p.1, k, b[p][k])) && Listed(b, (p.1, p.0, k, b[p][k])) ==> p.0 == p.1
  {
    AboveTotal(p.0, p.1);
    assert Turn(p) in b;
  }

  /** port(src, dst), as the set of its pairs. */
  function PortsOf(ports: Ports, u: string, v: string): set<(int, int)> {
    set e | e in ports && e.0 == u && ports[e].0 == v :: (e.1, ports[e].1)
  }

  /** The link `k` runs from port `p` of `u` to port `q` of `v`. */
  ghost predicate Runs(b: Bonds, k: Key, u: string, p: int, v: string, q: int) {
    k in BondOf(b, (u, v)) && (b[(u, v)][k] == Info(u, v, p, q) || b[(u, v)][k] == Info(v, u, q, p))
  }

  /** port() gives the port pairs of the links between two nodes, and the other way round the
      same pairs turned. */
  lemma PortsAreLinks(s: State, u: string, v: string, p: int, q: int)
    requires Inv(s)
    ensures (p, q) in PortsOf(s.ports, u, v) <==> exists k :: Runs(s.bonds, k, u, p, v, q)
    ensures (p, q) in PortsOf(s.ports, u, v) <==> (q, p) in PortsOf(s.ports, v, u)
  {
    PortsOfTurned(s.ports, u, v, p, q);
    if k :| Runs(s.bonds, k, u, p, v, q) {
      RunIsPort(s.bonds, s.ports, k, u, p, v, q);
    }
    if (p, q) in PortsOf(s.ports, u, v) {
      var k := PortRuns(s.bonds, s.ports, (u, p));
      assert Runs(s.bonds, k, u, p, v, q);
    }
  }

  lemma PortRuns(b: Bonds, ports: Ports, e: (string, int)) returns (k: Key)
    requires Symmetric(b) && Involution(ports) && Cabled(b, ports) && InLink(b, ports) && e in ports
    ensures Runs(b, k, e.0, e.1, ports[e].0, ports[e].1)
  {
    assert HasLink(b, e);
    var x, l :| Ends(b, x, l, e);
    k := l;
    EndRuns(b, ports, x, l, e);
  }

  lemma PortsOfTurned(ports: Ports, u: string, v: string, p: int, q: int)
    requires Involution(ports)
    ensures (p, q) in PortsOf(ports, u, v) <==> (u, p) in ports && ports[(u, p)] == (v, q)
    ensures (p, q) in PortsOf(ports, u, v) <==> (q, p) in PortsOf(ports, v, u)
  {
    assert (q, p) in PortsOf(ports, v, u) <==> (v, q) in ports && ports[(v, q)] == (u, p);
  }

  lemma RunIsPort(b: Bonds, ports: Ports, k: Key, u: string, p: int, v: string, q: int)
    requires Involution(ports) && Cabled(b, ports) && Runs(b, k, u, p, v, q)
    ensures (u, p) in ports && ports[(u, p)] == (v, q)
  {
    assert Wired(b, ports, (u, v), k);
  }

  lemma EndRuns(b: Bonds, ports: Ports, x: (string, string), k: Key, e: (string, int))
    requires Symmetric(b) && Involution(ports) && Cabled(b, ports) && Ends(b, x, k, e)
    ensures e in ports && Runs(b, k, e.0, e.1, ports[e].0, ports[e].1)
  {
    var i := b[x][k];
    assert Wired(b, ports, x, k);
    assert ports[ports[(i.node1, i.port1)]] == (i.node1, i.port1);
    BondTurned(b, x);
    assert BondOf(b, (i.node1, i.node2)) == b[x] && BondOf(b, (i.node2, i.node1)) == b[x];
  }

  // ---------------------------------------------------------------------------
  // Ports given by the caller
  // ---------------------------------------------------------------------------

  /** A cable between ports of the caller's choice keeps the pairing exactly when neither port has a
      cable to a third one. */
  lemma CableKeepsPairing(ports: Ports, a: (string, int), b: (string, int))
    requires Involution(ports)
    ensures Involution(WithCable(ports, a, b)) <==>
            (a in ports ==> ports[a] == a || ports[a] == b) && (b in ports ==> ports[b] == a || ports[b] == b)
  {
    var t := WithCable(ports, a, b);
    if a in ports && ports[a] != a && ports[a] != b {
      assert t[ports[a]] == a && t[a] == b;
    }
    if b in ports && ports[b] != a && ports[b] != b {
      assert t[ports[b]] == b && t[b] == a;
    }
    if (a in ports ==> ports[a] == a || ports[a] == b) && (b in ports ==> ports[b] == a || ports[b] == b) {
      forall e | e in t ensures t[e] in t && t[t[e]] == e {
        if e != a && e != b { assert ports[ports[e]] == e; }
      }
    }
  }

  /** Leaving out one number is enough to break it: the default is the number of ports in use plus
      the base, so the next link takes the given port again, away from its cable. */
  lemma GivenPortReused(s: State, h: string, x: string, y: string)
    requires Involution(s.ports) && Contiguous(s.node, s.ports)
    requires h in s.node && x in s.node && y in s.node && h != x && h != y && x != y
    ensures var given := PortFor(s, h, None).value + 1;
            var t := LinkNodes(s, h, x, Some(given), None, None).0;
            && Involution(t.ports) && (h, given) in t.ports && t.ports[(h, given)].0 == x
            && PortFor(t, h, None) == Some(given)
            && !Involution(LinkNodes(t, h, y, None, None, None).0.ports)
  {
    var given := PortFor(s, h, None).value + 1;
    var t := LinkNodes(s, h, x, Some(given), None, None).0;
    GivenPortTaken(s, h, x, given);
    LinkPorts(t, h, y, None);
    CableKeepsPairing(t.ports, (h, given), (y, PortFor(t, y, None).value));
  }

  lemma GivenPortTaken(s: State, h: string, x: string, given: int)
    requires Involution(s.ports) && Contiguous(s.node, s.ports) && h in s.node && x in s.node && h != x
    requires given == PortFor(s, h, None).value + 1
    ensures var t := LinkNodes(s, h, x, Some(given), None, None).0;
            && t.node == s.node && Involution(t.ports) && (h, given) in t.ports && t.ports[(h, given)].0 == x
            && PortFor(t, h, None) == Some(given)
  {
    LinkPorts(s, h, x, Some(given));
    FreePorts(s, h, x, given);
    CableTaken(s, LinkNodes(s, h, x, Some(given), None, None).0, (h, given), (x, PortFor(s, x, None).value));
  }

  lemma CableTaken(s: State, t: State, a: (string, int), b: (string, int))
    requires Involution(s.ports) && a.0 in s.node && a.0 != b.0 && a !in s.ports && b !in s.ports
    requires t.node == s.node && t.ports == WithCable(s.ports, a, b) && a.1 == PortFor(s, a.0, None).value + 1
    ensures Involution(t.ports) && a in t.ports && t.ports[a].0 == b.0 && PortFor(t, a.0, None) == Some(a.1)
  {
    OneMorePort(s.ports, a, b);
    CableInvolution(s.ports, a, b);
  }

  lemma FreePorts(s: State, h: string, x: string, given: int)
    requires Contiguous(s.node, s.ports) && h in s.node && x in s.node && given == PortFor(s, h, None).value + 1
    ensures (h, given) !in s.ports && (x, PortFor(s, x, None).value) !in s.ports
  {
    assert Numbered(s.node, s.ports, h, given);
    assert Numbered(s.node, s.ports, x, PortFor(s, x, None).value);
  }

  lemma LinkPorts(s: State, u: string, v: string, port: Option<int>)
    requires u in s.node && v in s.node
    ensures var t := LinkNodes(s, u, v, port, None, None).0;
            t.node == s.node && t.ports
              == WithCable(s.ports, (u, PortFor(s, u, port).value), (v, PortFor(s, v, None).value))
  {
  }

  lemma OneMorePort(ports: Ports, a: (string, int), b: (string, int))
    requires a !in ports && a.0 != b.0
    ensures |UsedAt(WithCable(ports, a, b), a.0)| == |UsedAt(ports, a.0)| + 1
  {
    UsedMore(ports, a, b, a.0);
    UsedMore(ports[a := b], b, a, a.0);
    assert a.1 !in UsedAt(ports, a.0);
  }
}
