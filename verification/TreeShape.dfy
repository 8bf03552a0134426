/** The shape of the tree topology: how many links each node has, and which way they lead. */
module TreeShape {
  import opened Base
  import opened Topologies
  import opened PortNumbers
  import opened Tree

  lemma {:induction false} DegreeConcat(a: seq<Event>, b: seq<Event>, n: string)
    ensures Degree(a + b, n) == Degree(a, n) + Degree(b, n)
  {
    if b == [] {
      assert a + b == a;
    } else {
      assert (a + b)[..|a + b| - 1] == a + b[..|b| - 1];
      DegreeConcat(a, b[..|b| - 1], n);
    }
  }

  lemma DegreeOne(e: Event, n: string)
    ensures Degree([e], n) == if Touches(e, n) then 1 else 0
  {
    assert [e][..0] == [];
    assert Degree([e], n) == Degree([e][..0], n) + if Touches(e, n) then 1 else 0;
  }

  /** The links that the node has within a subtree of those hosts and switches: those to the `kids` that
      the subtree's switches have each, and to its parent. */
  function Expected(isSwitch: bool, i: nat, first: nat, after: nat, kids: nat): nat {
    if !(first <= i < after) then 0 else if isSwitch then kids + 1 else 1
  }

  /** Within the events each node has the links that are expected, but the `root` has `less` fewer. */
  ghost predicate Shaped(es: seq<Event>, kids: nat, h: nat, h': nat, s: nat, s': nat, root: string, less: nat) {
    && (forall i: nat :: Degree(es, HostName(i)) + (if HostName(i) == root then less else 0)
                         == Expected(false, i, h, h', kids))
    && (forall i: nat :: Degree(es, SwitchName(i)) + (if SwitchName(i) == root then less else 0)
                         == Expected(true, i, s, s', kids))
  }

  /** The root of a subtree has no link to a parent yet. */
  lemma {:induction false} GrowShaped(depth: nat, fanout: nat, h: nat, s: nat)
    ensures var r := Grow(depth, fanout, h, s);
            && h <= r.hostNum && s <= r.switchNum
            && Shaped(r.events, fanout, h, r.hostNum, s, r.switchNum, r.root, 1)
            && RootIn(r, h, s)
    decreases depth, 0
  {
    var r := Grow(depth, fanout, h, s);
    if depth == 0 {
      forall n ensures Degree(r.events, n) == 0 { DegreeOne(r.events[0], n); }
      forall i: nat ensures HostName(i) == r.root <==> i == h { NameInjective(i, h); }
      forall i: nat ensures SwitchName(i) != r.root { NameInjective(h, i); }
    } else {
      KidsShaped(depth - 1, fanout, fanout, s, h, s + 1);
      var kids := Kids(depth - 1, fanout, fanout, SwitchName(s), h, s + 1);
      var first := [Node(SwitchName(s), true)];
      forall n ensures Degree(r.events, n) == Degree(kids.events, n) {
        DegreeConcat(first, kids.events, n);
        DegreeOne(first[0], n);
      }
      RootShaped(r.events, fanout, h, r.hostNum, s, r.switchNum);
    }
  }

  /** The root is the first switch of its subtree, or the only host. */
  ghost predicate RootIn(r: Grown, h: nat, s: nat) {
    || (r.root == HostName(h) && r.hostNum == h + 1 && r.switchNum == s)
    || (r.root == SwitchName(s) && r.switchNum > s)
  }

  /** All switches from `s` on but the first have a parent; the first has its `kids`. */
  ghost predicate Rooted(es: seq<Event>, kids: nat, h: nat, h': nat, s: nat, s': nat, k: nat) {
    && (forall i: nat :: Degree(es, HostName(i)) == Expected(false, i, h, h', kids))
    && (forall i: nat :: Degree(es, SwitchName(i)) == if i == s then k else Expected(true, i, s, s', kids))
  }

  lemma RootShaped(es: seq<Event>, kids: nat, h: nat, h': nat, s: nat, s': nat)
    requires Rooted(es, kids, h, h', s, s', kids) && s < s'
    ensures Shaped(es, kids, h, h', s, s', SwitchName(s), 1)
  {
    forall i: nat ensures HostName(i) != SwitchName(s) { NameInjective(i, s); }
    forall i: nat ensures SwitchName(i) == SwitchName(s) <==> i == s { NameInjective(i, s); }
  }

  /** `k` subtrees below switch `t`, whose number is the one before theirs */
  lemma {:induction false} KidsShaped(depth: nat, fanout: nat, k: nat, t: nat, h: nat, s: nat)
    requires s == t + 1
    ensures var r := Kids(depth, fanout, k, SwitchName(t), h, s);
            h <= r.hostNum && s <= r.switchNum && Rooted(r.events, fanout, h, r.hostNum, t, r.switchNum, k)
    decreases depth, k + 1
  {
    if k > 0 {
      var before := Kids(depth, fanout, k - 1, SwitchName(t), h, s);
      var child := Grow(depth, fanout, before.hostNum, before.switchNum);
      KidsShaped(depth, fanout, k - 1, t, h, s);
      GrowShaped(depth, fanout, before.hostNum, before.switchNum);
      KidLinked(before.events, child.events, fanout, h, before.hostNum, child.hostNum, t, before.switchNum,
                child.switchNum, k - 1, child.root);
    }
  }

  lemma KidLinked(a: seq<Event>, b: seq<Event>, kids: nat, h: nat, h': nat, h'': nat, t: nat, s': nat, s'': nat, k: nat,
                  root: string)
    requires h <= h' <= h'' && t < s' <= s'' && Rooted(a, kids, h, h', t, s', k)
    requires Shaped(b, kids, h', h'', s', s'', root, 1)
    requires root == HostName(h') || root == SwitchName(s')
    ensures Rooted(a + b + [Link(SwitchName(t), root)], kids, h, h'', t, s'', k + 1)
  {
    var e := Link(SwitchName(t), root);
    var es := a + b + [e];
    forall i: nat ensures Degree(es, HostName(i)) == Expected(false, i, h, h'', kids) {
      DegreeMore(a, b, e, HostName(i));
      NameInjective(i, t);
    }
    forall i: nat
      ensures Degree(es, SwitchName(i)) == if i == t then k + 1 else Expected(true, i, t, s'', kids)
    {
      DegreeMore(a, b, e, SwitchName(i));
      NameInjective(i, t);
      NameInjective(h', i);
      NameInjective(i, s');
    }
  }

  lemma DegreeMore(a: seq<Event>, b: seq<Event>, e: Event, n: string)
    ensures Degree(a + b + [e], n) == Degree(a, n) + Degree(b, n) + if Touches(e, n) then 1 else 0
  {
    DegreeConcat(a + b, [e], n);
    DegreeConcat(a, b, n);
    DegreeOne(e, n);
  }

  /** TreeTopo(depth, fanout) is a full tree: with depth above 0 each host has one link, the root switch s1
      `fanout` and every other switch one more. */
  lemma FullTree(depth: nat, fanout: nat)
    requires depth > 0
    ensures var es := Grow(depth, fanout, 1, 1).events;
            && (forall i: nat | 1 <= i <= Pow(fanout, depth) :: Degree(es, HostName(i)) == 1)
            && Degree(es, SwitchName(1)) == fanout
            && forall i: nat | 1 < i <= Sum(fanout, depth) :: Degree(es, SwitchName(i)) == fanout + 1
  {
    var r := Grow(depth, fanout, 1, 1);
    GrowShaped(depth, fanout, 1, 1);
    GrowCounts(depth, fanout, 1, 1);
    forall i: nat ensures HostName(i) != r.root && (SwitchName(i) == r.root <==> i == 1) {
      NameInjective(i, 1);
    }
  }

  // ---------------------------------------------------------------------------
  // From parent to child
  // ---------------------------------------------------------------------------

  /** A link from a switch to a host or to a switch with a greater number */
  ghost predicate Downward(e: Event) {
    e.Link? ==> exists a: nat, b: nat :: Below(e, a, b)
  }

  ghost predicate Below(e: Event, a: nat, b: nat) {
    e.Link? && e.u == SwitchName(a) && (e.v == HostName(b) || (e.v == SwitchName(b) && a < b))
  }

  lemma {:induction false} GrowDownward(depth: nat, fanout: nat, h: nat, s: nat)
    ensures forall e | e in Grow(depth, fanout, h, s).events :: Downward(e)
    decreases depth, 0
  {
    if depth > 0 { KidsDownward(depth - 1, fanout, fanout, s, h, s + 1); }
  }

  lemma {:induction false} KidsDownward(depth: nat, fanout: nat, k: nat, t: nat, h: nat, s: nat)
    requires t < s
    ensures forall e | e in Kids(depth, fanout, k, SwitchName(t), h, s).events :: Downward(e)
    ensures Kids(depth, fanout, k, SwitchName(t), h, s).switchNum >= s
    decreases depth, k + 1
  {
    if k > 0 {
      var before := Kids(depth, fanout, k - 1, SwitchName(t), h, s);
      var child := Grow(depth, fanout, before.hostNum, before.switchNum);
      KidsDownward(depth, fanout, k - 1, t, h, s);
      GrowDownward(depth, fanout, before.hostNum, before.switchNum);
      GrowShaped(depth, fanout, before.hostNum, before.switchNum);
      var e := Link(SwitchName(t), child.root);
      assert Below(e, t, if child.root == HostName(before.hostNum) then before.hostNum else before.switchNum);
    }
  }
}
