/** The tree topology: `TreeTopo.addTree` (topolib.py), and that what it makes is a tree. */
module Tree {
  import opened Base
  import opened Text
  import opened Graphs
  import opened Topologies
  import Topo

  function HostName(i: nat): string { ['h'] + Dec(i) }

  function SwitchName(i: nat): string { ['s'] + Dec(i) }

  /** What a call of addTree does and returns, and the counters after it. */
  datatype Grown = Grown(events: seq<Event>, root: string, hostNum: nat, switchNum: nat)

  /** addTree(depth, fanout) with the counters at `h` and `s` */
  function Grow(depth: nat, fanout: nat, h: nat, s: nat): Grown
    decreases depth, 0
  {
    if depth == 0 then Grown([Node(HostName(h), false)], HostName(h), h + 1, s)
    else
      var kids := Kids(depth - 1, fanout, fanout, SwitchName(s), h, s + 1);
      kids.(events := [Node(SwitchName(s), true)] + kids.events)
  }

  /** `k` subtrees, each linked to `node` once it is there */
  function Kids(depth: nat, fanout: nat, k: nat, node: string, h: nat, s: nat): (r: Grown)
    ensures r.root == node
    decreases depth, k + 1
  {
    if k == 0 then Grown([], node, h, s)
    else
      var before := Kids(depth, fanout, k - 1, node, h, s);
      var child := Grow(depth, fanout, before.hostNum, before.switchNum);
      Grown(before.events + child.events + [Link(node, child.root)], node, child.hostNum, child.switchNum)
  }

  // ---------------------------------------------------------------------------
  // How many nodes and links
  // ---------------------------------------------------------------------------

  function Pow(f: nat, d: nat): nat {
    if d == 0 then 1 else f * Pow(f, d - 1)
  }

  /** The sum of f^k for k < d */
  function Sum(f: nat, d: nat): nat {
    if d == 0 then 0 else Sum(f, d - 1) + Pow(f, d - 1)
  }

  lemma {:induction false} SumFromRoot(f: nat, d: nat)
    requires d > 0
    ensures Sum(f, d) == 1 + f * Sum(f, d - 1)
  {
    if d > 1 {
      SumFromRoot(f, d - 1);
      assert f * Sum(f, d - 1) == f * Sum(f, d - 2) + f * Pow(f, d - 2);
    }
  }

  lemma {:induction false} GrowCounts(depth: nat, fanout: nat, h: nat, s: nat)
    ensures var r := Grow(depth, fanout, h, s);
            r.hostNum == h + Pow(fanout, depth) && r.switchNum == s + Sum(fanout, depth)
    decreases depth, 0
  {
    if depth > 0 {
      KidsCount(depth - 1, fanout, fanout, SwitchName(s), h, s + 1);
      SumFromRoot(fanout, depth);
    }
  }

  lemma {:induction false} KidsCount(depth: nat, fanout: nat, k: nat, node: string, h: nat, s: nat)
    ensures var r := Kids(depth, fanout, k, node, h, s);
            r.hostNum == h + k * Pow(fanout, depth) && r.switchNum == s + k * Sum(fanout, depth)
    decreases depth, k + 1
  {
    if k > 0 {
      KidsCount(depth, fanout, k - 1, node, h, s);
      var before := Kids(depth, fanout, k - 1, node, h, s);
      GrowCounts(depth, fanout, before.hostNum, before.switchNum);
      assert k * Pow(fanout, depth) == (k - 1) * Pow(fanout, depth) + Pow(fanout, depth);
      assert k * Sum(fanout, depth) == (k - 1) * Sum(fanout, depth) + Sum(fanout, depth);
    }
  }

  /** The names of the hosts, or of the switches, that are added, in order */
  function Added(es: seq<Event>, isSwitch: bool): seq<string> {
    if es == [] then []
    else
      var e := es[|es| - 1];
      Added(es[..|es| - 1], isSwitch) + if e.Node? && e.isSwitch == isSwitch then [e.name] else []
  }

  function LinkCount(es: seq<Event>): nat {
    if es == [] then 0 else LinkCount(es[..|es| - 1]) + if es[|es| - 1].Link? then 1 else 0
  }

  lemma {:induction false} CountConcat(a: seq<Event>, b: seq<Event>, isSwitch: bool)
    ensures Added(a + b, isSwitch) == Added(a, isSwitch) + Added(b, isSwitch)
    ensures LinkCount(a + b) == LinkCount(a) + LinkCount(b)
  {
    if b == [] {
      assert a + b == a;
    } else {
      assert (a + b)[..|a + b| - 1] == a + b[..|b| - 1];
      CountConcat(a, b[..|b| - 1], isSwitch);
    }
  }

  lemma CountOne(e: Event, isSwitch: bool)
    ensures Added([e], isSwitch) == if e.Node? && e.isSwitch == isSwitch then [e.name] else []
    ensures LinkCount([e]) == if e.Link? then 1 else 0
  {
    assert [e][..0] == [];
  }

  /** The names numbered from `i` up to but without `j` */
  function Numbered(isSwitch: bool, i: nat, j: nat): seq<string>
    requires i <= j
  {
    seq(j - i, n requires 0 <= n < j - i => if isSwitch then SwitchName(i + n) else HostName(i + n))
  }

  /** The events add the hosts from `h` to `h'` and the switches from `s` to `s'`, each once and in
      order, and `extra` more nodes than links. */
  ghost predicate Adds(es: seq<Event>, h: nat, h': nat, s: nat, s': nat, extra: nat) {
    && h <= h' && s <= s'
    && Added(es, false) == Numbered(false, h, h') && Added(es, true) == Numbered(true, s, s')
    && LinkCount(es) + extra == (h' - h) + (s' - s)
  }

  lemma AddsConcat(a: seq<Event>, b: seq<Event>, h: nat, h': nat, h'': nat, s: nat, s': nat, s'': nat, m: nat, n: nat)
    requires Adds(a, h, h', s, s', m) && Adds(b, h', h'', s', s'', n)
    ensures Adds(a + b, h, h'', s, s'', m + n)
  {
    CountConcat(a, b, false);
    CountConcat(a, b, true);
  }

  lemma AddsSwitch(h: nat, s: nat)
    ensures Adds([Node(SwitchName(s), true)], h, h, s, s + 1, 1)
  {
    CountOne(Node(SwitchName(s), true), false);
    CountOne(Node(SwitchName(s), true), true);
  }

  /** A subtree has the names from the counters on, each once, and one link less than nodes. */
  lemma {:induction false} GrowAdds(depth: nat, fanout: nat, h: nat, s: nat)
    ensures var r := Grow(depth, fanout, h, s);
            Adds(r.events, h, r.hostNum, s, r.switchNum, 1)
    decreases depth, 0
  {
    if depth == 0 {
    } else {
      var kids := Kids(depth - 1, fanout, fanout, SwitchName(s), h, s + 1);
      KidsAdd(depth - 1, fanout, fanout, SwitchName(s), h, s + 1);
      AddsSwitch(h, s);
      AddsConcat([Node(SwitchName(s), true)], kids.events, h, h, kids.hostNum, s, s + 1, kids.switchNum, 1, 0);
    }
  }

  lemma {:induction false} KidsAdd(depth: nat, fanout: nat, k: nat, node: string, h: nat, s: nat)
    ensures var r := Kids(depth, fanout, k, node, h, s);
            Adds(r.events, h, r.hostNum, s, r.switchNum, 0)
    decreases depth, k + 1
  {
    if k == 0 {
    } else {
      var before := Kids(depth, fanout, k - 1, node, h, s);
      var child := Grow(depth, fanout, before.hostNum, before.switchNum);
      KidsAdd(depth, fanout, k - 1, node, h, s);
      GrowAdds(depth, fanout, before.hostNum, before.switchNum);
      AddsConcat(before.events, child.events, h, before.hostNum, child.hostNum, s, before.switchNum, child.switchNum,
        0, 1);
    }
  }

  // ---------------------------------------------------------------------------
  // Connected
  // ---------------------------------------------------------------------------

  /** Every node that is added can be reached from `root`. */
  ghost predicate Hang(t: State, es: seq<Event>, root: string) {
    forall e | e in es && e.Node? :: Reaches(t.bonds.Keys, root, e.name)
  }

  lemma ReachesMore(s: State, t: State, u: string, v: string)
    requires Grew(s, t) && Reaches(s.bonds.Keys, u, v)
    ensures Reaches(t.bonds.Keys, u, v)
  {
    var p :| Connects(s.bonds.Keys, u, v, p);
    assert Connects(t.bonds.Keys, u, v, p);
  }

  /** The run links only nodes there are, and joins what it adds to `root`. */
  ghost predicate Sprouts(t: State, es: seq<Event>, root: string) {
    Known(t, es) && root in DoAll(t, es).node && Hang(DoAll(t, es), es, root)
  }

  /** A subtree linked to `node`, after others */
  lemma SproutsMore(t: State, before: seq<Event>, node: string, child: seq<Event>, root: string)
    requires Sprouts(t, before, node) && Sprouts(DoAll(t, before), child, root)
    ensures Sprouts(t, before + child + [Link(node, root)], node)
  {
    var es, l := before + child, [Link(node, root)];
    var t1, t2 := DoAll(t, before), DoAll(t, before + child);
    Then(t, before, child);
    KnownLinks(t2, l);
    Then(t, es, l);
    var t3 := DoAll(t, es + l);
    OneMoreDone(t, es, l[0]);
    assert (node, root) in t3.bonds;
    Here(t3.bonds.Keys, node);
    OneMore(t3.bonds.Keys, node, node, root);
    forall e | e in es + l && e.Node? ensures Reaches(t3.bonds.Keys, node, e.name) {
      if e in before {
        ReachesMore(t1, t3, node, e.name);
      } else {
        assert e in child;
        ReachesMore(t2, t3, root, e.name);
        ReachesOn(t3.bonds.Keys, node, root, e.name);
      }
    }
  }

  lemma SproutsNode(t: State, n: string, isSwitch: bool)
    ensures Sprouts(t, [Node(n, isSwitch)], n)
  {
    var es := [Node(n, isSwitch)];
    OneMoreDone(t, [], es[0]);
    assert [] + es == es;
    Here(DoAll(t, es).bonds.Keys, n);
  }

  lemma SproutsRoot(t: State, node: string, kids: seq<Event>)
    requires Sprouts(t, [Node(node, true)], node) && Sprouts(DoAll(t, [Node(node, true)]), kids, node)
    ensures Sprouts(t, [Node(node, true)] + kids, node)
  {
    var first := [Node(node, true)];
    Then(t, first, kids);
    Here(DoAll(t, first + kids).bonds.Keys, node);
  }

  lemma {:induction false} GrowSprouts(depth: nat, fanout: nat, h: nat, s: nat, t: State)
    ensures var r := Grow(depth, fanout, h, s);
            Sprouts(t, r.events, r.root)
    decreases depth, 0
  {
    if depth == 0 {
      SproutsNode(t, HostName(h), false);
    } else {
      var node := SwitchName(s);
      var kids := Kids(depth - 1, fanout, fanout, node, h, s + 1);
      SproutsNode(t, node, true);
      KidsSprout(depth - 1, fanout, fanout, node, h, s + 1, DoAll(t, [Node(node, true)]));
      SproutsRoot(t, node, kids.events);
    }
  }

  lemma {:induction false} KidsSprout(depth: nat, fanout: nat, k: nat, node: string, h: nat, s: nat, t: State)
    requires node in t.node
    ensures Sprouts(t, Kids(depth, fanout, k, node, h, s).events, node)
    decreases depth, k + 1
  {
    if k == 0 {
    } else {
      var before := Kids(depth, fanout, k - 1, node, h, s);
      var child := Grow(depth, fanout, before.hostNum, before.switchNum);
      KidsSprout(depth, fanout, k - 1, node, h, s, t);
      GrowSprouts(depth, fanout, before.hostNum, before.switchNum, DoAll(t, before.events));
      SproutsMore(t, before.events, node, child.events, child.root);
      OneMoreKid(depth, fanout, k, node, h, s);
    }
  }

  lemma OneMoreKid(depth: nat, fanout: nat, k: nat, node: string, h: nat, s: nat)
    requires k > 0
    ensures var before := Kids(depth, fanout, k - 1, node, h, s);
            var child := Grow(depth, fanout, before.hostNum, before.switchNum);
            Kids(depth, fanout, k, node, h, s).events == before.events + child.events + [Link(node, child.root)]
  {
  }

  // ---------------------------------------------------------------------------
  // The whole
  // ---------------------------------------------------------------------------

  lemma {:induction false} AddedNodes(es: seq<Event>, n: string)
    requires Known(EMPTY, es)
    ensures n in DoAll(EMPTY, es).node <==> n in Added(es, false) || n in Added(es, true)
    ensures n in Added(es, false) || n in Added(es, true) <==> exists e :: e in es && e.Node? && e.name == n
  {
    if es != [] {
      var less, e := es[..|es| - 1], es[|es| - 1];
      KnownLess(EMPTY, es);
      AddedNodes(less, n);
      assert forall x :: x in es <==> x in less || x == e;
    }
  }

  lemma NameInjective(i: nat, j: nat)
    ensures HostName(i) == HostName(j) <==> i == j
    ensures SwitchName(i) == SwitchName(j) <==> i == j
    ensures HostName(i) != SwitchName(j)
  {
    DecInjective(i, j);
    assert HostName(i)[1..] == Dec(i) && HostName(j)[1..] == Dec(j);
    assert SwitchName(i)[1..] == Dec(i) && SwitchName(j)[1..] == Dec(j);
    assert HostName(i)[0] != SwitchName(j)[0];
  }

  lemma {:induction false} DistinctSize(q: seq<string>)
    requires Distinct(q)
    ensures |set x | x in q| == |q|
  {
    var all := set x | x in q;
    if q == [] {
      assert all == {};
    } else {
      var less, last := q[..|q| - 1], q[|q| - 1];
      var rest := set x | x in less;
      DistinctSize(less);
      assert last !in rest;
      assert all == rest + {last};
    }
  }

  lemma NumberedIs(isSwitch: bool, i: nat, j: nat)
    requires i <= j
    ensures var q := Numbered(isSwitch, i, j);
            && Distinct(q)
            && forall n: nat ::
                 (HostName(n) in q <==> !isSwitch && i <= n < j) && (SwitchName(n) in q <==> isSwitch && i <= n < j)
  {
    var q := Numbered(isSwitch, i, j);
    forall a, b | 0 <= a < b < |q| ensures q[a] != q[b] {
      NameInjective(i + a, i + b);
    }
    forall n: nat
      ensures (HostName(n) in q <==> !isSwitch && i <= n < j) && (SwitchName(n) in q <==> isSwitch && i <= n < j) {
      forall a | 0 <= a < |q|
        ensures (q[a] == HostName(n) <==> !isSwitch && i + a == n)
                && (q[a] == SwitchName(n) <==> isSwitch && i + a == n) {
        NameInjective(i + a, n);
        NameInjective(n, i + a);
      }
      if i <= n < j { assert q[n - i] in q; }
    }
  }

  /** The number of nodes is the number of names added. */
  lemma NodeCount(es: seq<Event>, h': nat, s': nat)
    requires Known(EMPTY, es) && Adds(es, 1, h', 1, s', 1)
    ensures |DoAll(EMPTY, es).node| == (h' - 1) + (s' - 1)
    ensures LinkCount(es) == |DoAll(EMPTY, es).node| - 1
    ensures forall n: nat :: HostName(n) in DoAll(EMPTY, es).node <==> 1 <= n < h'
    ensures forall n: nat :: SwitchName(n) in DoAll(EMPTY, es).node <==> 1 <= n < s'
  {
    var node := DoAll(EMPTY, es).node;
    var hs, ss := Numbered(false, 1, h'), Numbered(true, 1, s');
    var H, S := set x | x in hs, set x | x in ss;
    NumberedIs(false, 1, h');
    NumberedIs(true, 1, s');
    forall n ensures n in node <==> n in hs || n in ss { AddedNodes(es, n); }
    DistinctSize(hs);
    DistinctSize(ss);
    forall n | n in H ensures n !in S {}
    assert node.Keys == H + S;
    assert |node.Keys| == |node|;
  }

  lemma {:induction false} GrowLettered(depth: nat, fanout: nat, h: nat, s: nat)
    ensures forall e | e in Grow(depth, fanout, h, s).events :: Lettered(e)
    decreases depth, 0
  {
    if depth > 0 { KidsLettered(depth - 1, fanout, fanout, SwitchName(s), h, s + 1); }
  }

  lemma {:induction false} KidsLettered(depth: nat, fanout: nat, k: nat, node: string, h: nat, s: nat)
    ensures forall e | e in Kids(depth, fanout, k, node, h, s).events :: Lettered(e)
    decreases depth, k + 1
  {
    if k > 0 {
      var before := Kids(depth, fanout, k - 1, node, h, s);
      KidsLettered(depth, fanout, k - 1, node, h, s);
      GrowLettered(depth, fanout, before.hostNum, before.switchNum);
    }
  }

  /** TreeTopo(depth, fanout) has the hosts h1, h2, ... and the switches s1, s2, ... in the numbers
      of a full tree, one link less than nodes, and a way between any two: it is a tree. */
  lemma IsTree(depth: nat, fanout: nat)
    ensures var es := Grow(depth, fanout, 1, 1).events;
            var s := DoAll(EMPTY, es);
            && Inv(s) && |s.node| == Pow(fanout, depth) + Sum(fanout, depth) && LinkCount(es) == |s.node| - 1
            && (forall n: nat :: HostName(n) in s.node <==> 1 <= n <= Pow(fanout, depth))
            && (forall n: nat :: SwitchName(n) in s.node <==> 1 <= n <= Sum(fanout, depth))
            && forall u, v | u in s.node && v in s.node :: Reaches(s.bonds.Keys, u, v)
  {
    var r := Grow(depth, fanout, 1, 1);
    var s := DoAll(EMPTY, r.events);
    GrowSprouts(depth, fanout, 1, 1, EMPTY);
    GrowLettered(depth, fanout, 1, 1);
    LetteredFit(r.events);
    GrowAdds(depth, fanout, 1, 1);
    GrowCounts(depth, fanout, 1, 1);
    NodeCount(r.events, r.hostNum, r.switchNum);
    forall u, v | u in s.node && v in s.node ensures Reaches(s.bonds.Keys, u, v) {
      BothHang(r.events, r.root, u, v);
    }
  }

  lemma BothHang(es: seq<Event>, root: string, u: string, v: string)
    requires Known(EMPTY, es) && Hang(DoAll(EMPTY, es), es, root) && Symmetric(DoAll(EMPTY, es).bonds)
    requires u in DoAll(EMPTY, es).node && v in DoAll(EMPTY, es).node
    ensures Reaches(DoAll(EMPTY, es).bonds.Keys, u, v)
  {
    var E := DoAll(EMPTY, es).bonds.Keys;
    AddedNodes(es, u);
    AddedNodes(es, v);
    var p :| Connects(E, root, u, p);
    forall e | e in E ensures (e.1, e.0) in E {
      assert Turn(e) in E;
    }
    WalkBack(E, root, u, p);
    ReachesOn(E, u, root, v);
  }

  // ---------------------------------------------------------------------------
  // The class
  // ---------------------------------------------------------------------------

  function Positive(n: int): nat {
    if n > 0 then n else 0
  }

  class TreeTopo {
    const topo: Topo.Topo
    var hostNum: nat
    var switchNum: nat

    constructor (depth: int, fanout: int)
      ensures var r := Grow(Positive(depth), Positive(fanout), 1, 1);
              topo.State() == DoAll(EMPTY, r.events) && hostNum == r.hostNum && switchNum == r.switchNum
      ensures Inv(topo.State())
    {
      topo := new Topo.Topo();
      hostNum, switchNum := 1, 1;
      new;
      var root := AddTree(depth, fanout);
      IsTree(Positive(depth), Positive(fanout));
    }

    /** From the state `t` the calls of `r` led here, and the counters are as after it. */
    ghost predicate After(t: State, r: Grown)
      reads this`hostNum, this`switchNum, topo`ports, topo.g`node, topo.g`edge, topo.g.edge.Values`links
    {
      topo.State() == DoAll(t, r.events) && hostNum == r.hostNum && switchNum == r.switchNum
    }

    method AddTree(depth: int, fanout: int) returns (node: string)
      requires topo.g.Valid()
      modifies this`hostNum, this`switchNum, topo`ports, topo`portNodes, topo.g`node, topo.g`edge,
        topo.g.edge.Values`links
      ensures topo.g.Valid()
      ensures var r := Grow(Positive(depth), Positive(fanout), old(hostNum), old(switchNum));
              After(old(topo.State()), r) && node == r.root
      ensures forall p | p in topo.g.edge :: topo.g.edge[p] in old(topo.g.edge.Values) || fresh(topo.g.edge[p])
      decreases Positive(depth), 0
    {
      if depth > 0 {
        node := AddSwitch(depth, fanout);
      } else {
        node := HostName(hostNum);
        topo.AddNode(node, false);
        hostNum := hostNum + 1;
      }
    }

    /** addTree with depth > 0 */
    method AddSwitch(depth: nat, fanout: int) returns (node: string)
      requires topo.g.Valid() && depth > 0
      modifies this`hostNum, this`switchNum, topo`ports, topo`portNodes, topo.g`node, topo.g`edge,
        topo.g.edge.Values`links
      ensures topo.g.Valid()
      ensures var r := Grow(depth, Positive(fanout), old(hostNum), old(switchNum));
              After(old(topo.State()), r) && node == r.root
      ensures forall p | p in topo.g.edge :: topo.g.edge[p] in old(topo.g.edge.Values) || fresh(topo.g.edge[p])
      decreases depth, 0, 0
    {
      ghost var was, f, root := topo.State(), Positive(fanout), SwitchName(switchNum);
      ghost var kids := Kids(depth - 1, f, f, root, hostNum, switchNum + 1);
      RootDone(was, root, kids.events);
      node := AddRoot();
      AddKids(node, depth - 1, fanout);
      assert After(Do(was, Node(root, true)), kids);
    }

    method AddRoot() returns (node: string)
      requires topo.g.Valid()
      modifies this`switchNum, topo.g`node
      ensures topo.g.Valid() && node == SwitchName(old(switchNum)) && switchNum == old(switchNum) + 1
      ensures topo.State() == Do(old(topo.State()), Node(node, true))
    {
      node := SwitchName(switchNum);
      topo.AddNode(node, true);
      switchNum := switchNum + 1;
    }

    /** The loop of addTree over the children */
    method AddKids(node: string, depth: nat, fanout: int)
      requires topo.g.Valid()
      modifies this`hostNum, this`switchNum, topo`ports, topo`portNodes, topo.g`node, topo.g`edge,
        topo.g.edge.Values`links
      ensures topo.g.Valid()
      ensures After(old(topo.State()),
              Kids(depth, Positive(fanout), Positive(fanout), node, old(hostNum), old(switchNum)))
      ensures forall p | p in topo.g.edge :: topo.g.edge[p] in old(topo.g.edge.Values) || fresh(topo.g.edge[p])
      decreases depth, 2
    {
      ghost var h, s, t := hostNum, switchNum, topo.State();
      for k := 0 to Positive(fanout)
        invariant topo.g.Valid() && After(t, Kids(depth, Positive(fanout), k, node, h, s))
        invariant forall p | p in topo.g.edge :: topo.g.edge[p] in old(topo.g.edge.Values) || fresh(topo.g.edge[p])
      {
        AddKid(node, depth, fanout, t, k, h, s);
      }
    }

    method AddKid(node: string, depth: nat, fanout: int, ghost t: State, ghost k: nat, ghost h: nat, ghost s: nat)
      requires topo.g.Valid() && After(t, Kids(depth, Positive(fanout), k, node, h, s))
      modifies this`hostNum, this`switchNum, topo`ports, topo`portNodes, topo.g`node, topo.g`edge,
        topo.g.edge.Values`links
      ensures topo.g.Valid() && After(t, Kids(depth, Positive(fanout), k + 1, node, h, s))
      ensures forall p | p in topo.g.edge :: topo.g.edge[p] in old(topo.g.edge.Values) || fresh(topo.g.edge[p])
      decreases depth, 1
    {
      KidDone(t, depth, Positive(fanout), k, node, h, s);
      var child := AddTree(depth, fanout);
      var ok, key := topo.AddLink(node, child, None, None, None);
    }
  }

  lemma RootDone(s: State, node: string, kids: seq<Event>)
    ensures DoAll(s, [Node(node, true)] + kids) == DoAll(Do(s, Node(node, true)), kids)
  {
    OneMoreDone(s, [], Node(node, true));
    assert [] + [Node(node, true)] == [Node(node, true)];
    DoConcat(s, [Node(node, true)], kids);
  }

  lemma KidDone(t: State, depth: nat, fanout: nat, k: nat, node: string, h: nat, s: nat)
    ensures var before := Kids(depth, fanout, k, node, h, s);
            var child := Grow(depth, fanout, before.hostNum, before.switchNum);
            DoAll(t, Kids(depth, fanout, k + 1, node, h, s).events)
            == Do(DoAll(DoAll(t, before.events), child.events), Link(node, child.root))
  {
    var before := Kids(depth, fanout, k, node, h, s);
    var child := Grow(depth, fanout, before.hostNum, before.switchNum);
    DoConcat(t, before.events, child.events);
    OneMoreDone(t, before.events + child.events, Link(node, child.root));
  }
}
