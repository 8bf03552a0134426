/**
 Walks and shortest paths in a directed graph given by its edges: what the controllers ask of
 networkx.shortest_path, and a breadth-first search that answers it.
 */
module Graphs {
  import opened Base

  ghost predicate IsWalk<V(!new)>(E: set<(V, V)>, p: seq<V>) {
    |p| > 0 && forall i | 0 <= i < |p| - 1 :: (p[i], p[i + 1]) in E
  }

  ghost predicate Connects<V(!new)>(E: set<(V, V)>, s: V, t: V, p: seq<V>) {
    IsWalk(E, p) && p[0] == s && p[|p| - 1] == t
  }

  ghost predicate Shortest<V(!new)>(E: set<(V, V)>, s: V, t: V, p: seq<V>) {
    Connects(E, s, t, p) && forall q :: Connects(E, s, t, q) ==> |p| <= |q|
  }

  ghost predicate Reaches<V(!new)>(E: set<(V, V)>, s: V, t: V) {
    exists p :: Connects(E, s, t, p)
  }

  ghost predicate Simple<V(!new)>(p: seq<V>) {
    forall i, j | 0 <= i < j < |p| :: p[i] != p[j]
  }

  lemma {:induction false} HasShortest<V(!new)>(E: set<(V, V)>, s: V, t: V, p: seq<V>) returns (q: seq<V>)
    requires Connects(E, s, t, p)
    ensures Shortest(E, s, t, q)
    decreases |p|
  {
    if r :| Connects(E, s, t, r) && |r| < |p| {
      q := HasShortest(E, s, t, r);
    } else {
      q := p;
    }
  }

  /** The number of hops from `s` to `t`. */
  ghost function Dist<V(!new)>(E: set<(V, V)>, s: V, t: V): nat
    requires Reaches(E, s, t)
  {
    ExistsShortest(E, s, t);
    var q :| Shortest(E, s, t, q);
    |q| - 1
  }

  lemma ExistsShortest<V(!new)>(E: set<(V, V)>, s: V, t: V)
    requires Reaches(E, s, t)
    ensures exists q :: Shortest(E, s, t, q)
  {
    var p :| Connects(E, s, t, p);
    var q := HasShortest(E, s, t, p);
  }

  lemma DistOfShortest<V(!new)>(E: set<(V, V)>, s: V, t: V, p: seq<V>)
    requires Shortest(E, s, t, p)
    ensures Reaches(E, s, t) && Dist(E, s, t) == |p| - 1
  {
  }

  lemma PrefixConnects<V(!new)>(E: set<(V, V)>, s: V, t: V, p: seq<V>, i: nat)
    requires Connects(E, s, t, p) && i < |p|
    ensures Connects(E, s, p[i], p[..i + 1])
  {
  }

  lemma SuffixShortest<V(!new)>(E: set<(V, V)>, s: V, t: V, p: seq<V>, i: nat)
    requires Shortest(E, s, t, p) && i < |p|
    ensures Shortest(E, p[i], t, p[i..])
  {
    forall q | Connects(E, p[i], t, q) ensures |p[i..]| <= |q| {
      assert Connects(E, s, t, p[..i] + q);
    }
  }

  lemma Here<V(!new)>(E: set<(V, V)>, s: V)
    ensures Reaches(E, s, s)
  {
    assert Connects(E, s, s, [s]);
  }

  lemma OneMore<V(!new)>(E: set<(V, V)>, s: V, t: V, u: V)
    requires Reaches(E, s, t) && (t, u) in E
    ensures Reaches(E, s, u)
  {
    var p :| Connects(E, s, t, p);
    assert Connects(E, s, u, p + [u]);
  }

  lemma ReachesOn<V(!new)>(E: set<(V, V)>, s: V, t: V, u: V)
    requires Reaches(E, s, t) && Reaches(E, t, u)
    ensures Reaches(E, s, u)
  {
    var p :| Connects(E, s, t, p);
    var q :| Connects(E, t, u, q);
    assert Connects(E, s, u, p[..|p| - 1] + q);
  }

  /** Where every edge goes both ways, so does every walk. */
  lemma {:induction false} WalkBack<V(!new)>(E: set<(V, V)>, s: V, t: V, p: seq<V>)
    requires Connects(E, s, t, p) && forall e | e in E :: (e.1, e.0) in E
    ensures Reaches(E, t, s)
    decreases |p|
  {
    if |p| == 1 {
      Here(E, s);
    } else {
      WalkBack(E, p[1], t, p[1..]);
      assert (p[0], p[0 + 1]) in E;
      OneMore(E, t, p[1], s);
    }
  }

  /** A shortest path repeats no vertex. */
  lemma ShortestSimple<V(!new)>(E: set<(V, V)>, s: V, t: V, p: seq<V>)
    requires Shortest(E, s, t, p)
    ensures Simple(p)
  {
    forall i, j | 0 <= i < j < |p| ensures p[i] != p[j] {
      SuffixShortest(E, s, t, p, i);
      SuffixShortest(E, s, t, p, j);
    }
  }

  // ---------------------------------------------------------------------------
  // Breadth-first search
  // ---------------------------------------------------------------------------

  /** Every vertex within `d` hops of `s` is in `S`. */
  ghost predicate Covers<V(!new)>(E: set<(V, V)>, s: V, d: nat, S: set<V>) {
    forall v, p | Connects(E, s, v, p) && |p| <= d + 1 :: v in S
  }

  /** Whatever an edge leads to from `S` is in `T`. */
  ghost predicate LeadsInto<V(!new)>(E: set<(V, V)>, S: set<V>, T: set<V>) {
    forall e | e in E && e.0 in S :: e.1 in T
  }

  ghost predicate PathsFrom<V(!new)>(E: set<(V, V)>, s: V, found: map<V, seq<V>>) {
    forall v | v in found :: Shortest(E, s, v, found[v])
  }

  lemma CoversNext<V(!new)>(E: set<(V, V)>, s: V, d: nat, S: set<V>, T: set<V>)
    requires Covers(E, s, d, S) && LeadsInto(E, S, T) && S <= T
    ensures Covers(E, s, d + 1, T)
  {
    forall v, p | Connects(E, s, v, p) && |p| <= d + 2 ensures v in T {
      if |p| == d + 2 {
        PrefixConnects(E, s, v, p, d);
        assert p[d] in S && (p[d], p[d + 1]) in E;
        assert (p[d], p[d + 1]).1 in T;
      }
    }
  }

  lemma ExtendShortest<V(!new)>(E: set<(V, V)>, s: V, d: nat, S: set<V>, u: V, v: V, p: seq<V>)
    requires Covers(E, s, d, S) && Connects(E, s, u, p) && |p| == d + 1 && (u, v) in E && v !in S
    ensures Shortest(E, s, v, p + [v])
  {
    var q := p + [v];
    assert forall i | 0 <= i < |q| - 1 :: (q[i], q[i + 1]) == if i < d then (p[i], p[i + 1]) else (u, v);
  }

  lemma {:induction false} ClosedUnreachable<V(!new)>(E: set<(V, V)>, s: V, t: V, S: set<V>, p: seq<V>)
    requires s in S && LeadsInto(E, S, S) && Connects(E, s, t, p)
    ensures t in S
    decreases |p|
  {
    if |p| > 1 {
      PrefixConnects(E, s, t, p, |p| - 2);
      ClosedUnreachable(E, s, p[|p| - 2], S, p[..|p| - 1]);
      assert (p[|p| - 2], t) in E && (p[|p| - 2], t).1 in S;
    }
  }

  /** One level of the search: a path of one more hop to every vertex the frontier leads to. */
  method Level<V(!new, ==)>(E: set<(V, V)>, s: V, ghost d: nat, found: map<V, seq<V>>, frontier: set<V>)
    returns (found': map<V, seq<V>>, next: set<V>)
    requires PathsFrom(E, s, found) && Covers(E, s, d, found.Keys)
    requires frontier <= found.Keys && forall v | v in frontier :: |found[v]| == d + 1
    requires LeadsInto(E, found.Keys - frontier, found.Keys)
    ensures PathsFrom(E, s, found') && found'.Keys == found.Keys + next && found.Keys !! next
    ensures forall v | v in next :: |found'[v]| == d + 2
    ensures LeadsInto(E, found.Keys, found'.Keys)
  {
    var todo := set e | e in E && e.0 in frontier && e.1 !in found;
    found', next := found, {};
    while todo != {}
      invariant todo <= E && forall e | e in todo :: e.0 in frontier && e.1 !in found
      invariant PathsFrom(E, s, found') && found'.Keys == found.Keys + next && found.Keys !! next
      invariant forall v | v in next :: |found'[v]| == d + 2
      invariant forall e | e in E && e.0 in frontier :: e in todo || e.1 in found'
      decreases todo
    {
      var e :| e in todo;
      todo := todo - {e};
      if e.1 !in found' {
        ExtendShortest(E, s, d, found.Keys, e.0, e.1, found[e.0]);
        found' := found'[e.1 := found[e.0] + [e.1]];
        next := next + {e.1};
      }
    }
  }

  /** networkx.shortest_path: a shortest path, or none exactly when there is no path at all. */
  method ShortestPath<V(!new, ==)>(E: set<(V, V)>, s: V, t: V) returns (r: Option<seq<V>>)
    ensures r.Some? ==> Shortest(E, s, t, r.value)
    ensures r.Some? <==> Reaches(E, s, t)
  {
    var found, frontier := map[s := [s]], {s};
    ghost var d := 0;
    assert found.Keys == {s};
    while frontier != {} && t !in found
      invariant s in found && PathsFrom(E, s, found) && Covers(E, s, d, found.Keys)
      invariant frontier <= found.Keys && forall v | v in frontier :: |found[v]| == d + 1
      invariant LeadsInto(E, found.Keys - frontier, found.Keys)
      decreases (set e | e in E && e.1 !in found), frontier != {}
    {
      ghost var open := set e | e in E && e.1 !in found;
      var found', next := Level(E, s, d, found, frontier);
      CoversNext(E, s, d, found.Keys, found'.Keys);
      ReachedByEdge(E, s, found, found', next);
      found, frontier, d := found', next, d + 1;
    }
    if t in found {
      r := Some(found[t]);
    } else {
      r := None;
      forall p | Connects(E, s, t, p) ensures false {
        ClosedUnreachable(E, s, t, found.Keys, p);
      }
    }
  }

  lemma ReachedByEdge<V(!new)>(E: set<(V, V)>, s: V, found: map<V, seq<V>>, found': map<V, seq<V>>, next: set<V>)
    requires PathsFrom(E, s, found') && found'.Keys == found.Keys + next && found.Keys !! next && s in found
    ensures (set e | e in E && e.1 !in found') <= (set e | e in E && e.1 !in found)
    ensures next != {} ==> (set e | e in E && e.1 !in found') != (set e | e in E && e.1 !in found)
  {
    var before, after := (set e | e in E && e.1 !in found), (set e | e in E && e.1 !in found');
    if v :| v in next {
      var p := found'[v];
      assert Shortest(E, s, v, p) && |p| > 1;
      var e := (p[|p| - 2], p[|p| - 1]);
      assert e in E && e in before && e !in after;
    }
  }
}
