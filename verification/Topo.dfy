/**
 The classes of topo.py: `MultiGraph`, where edge[u][v] and edge[v][u] are one shared dictionary,
 and `Topo` with its ports. Every operation is proved against `Topologies`.
 */
module Topo {
  import opened Base
  import opened Text
  import opened T = Topologies

  /** The dictionary that edge[u][v] and edge[v][u] share: the links of two nodes by key. */
  class Entry {
    var links: T.Bond

    constructor ()
      ensures links == map[]
    {
      links := map[];
    }
  }

  class MultiGraph {
    var node: map<string, bool>
    var edge: map<(string, string), Entry>

    constructor ()
      ensures Valid() && node == map[] && edge == map[] && Bonds() == map[]
    {
      node, edge := map[], map[];
    }

    /** Both orders of a pair have the same object, and no other pair has it. */
    ghost predicate Valid()
      reads this`edge
    {
      && (forall p {:trigger T.Turn(p)} | p in edge :: T.Turn(p) in edge && edge[T.Turn(p)] == edge[p])
      && (forall p, q | p in edge && q in edge && edge[p] == edge[q] :: q == p || q == T.Turn(p))
    }

    ghost function Bonds(): T.Bonds
      reads this`edge, edge.Values`links
    {
      map p | p in edge :: edge[p].links
    }

    method AddNode(name: string, isSwitch: bool)
      modifies this`node
      ensures node == old(node)[name := isSwitch]
    {
      node := node[name := isSwitch];
    }

    /** edge[src].setdefault(dst, {}) and the same dictionary for the other order */
    method Entwine(src: string, dst: string) returns (entry: Entry)
      requires Valid()
      modifies this`edge
      ensures Valid() && (src, dst) in edge && (dst, src) in edge
      ensures edge[(src, dst)] == entry && edge[(dst, src)] == entry
      ensures var bond := T.BondOf(old(Bonds()), (src, dst));
              Bonds() == old(Bonds())[(src, dst) := bond][(dst, src) := bond]
      ensures old(edge.Keys) <= edge.Keys && forall p | p in old(edge) :: edge[p] == old(edge)[p]
      ensures forall p | p in edge :: edge[p] in old(edge.Values) || fresh(edge[p])
      ensures (src, dst) !in old(edge) ==> fresh(entry)
    {
      if (src, dst) in edge {
        entry := edge[(src, dst)];
      } else {
        entry := new Entry();
      }
      assert entry.links == T.BondOf(old(Bonds()), (src, dst));
      edge := edge[(src, dst) := entry];
      edge := edge[(dst, src) := entry];
    }

    /** max([0] + the integer keys) + 1 */
    method NextKey(entry: Entry) returns (k: T.Key)
      ensures k == T.KeyFor(entry.links, None)
    {
      var todo := entry.links.Keys;
      var n := 0;
      while todo != {}
        invariant todo <= entry.links.Keys && 0 <= n
        invariant T.IsMax(entry.links.Keys - todo, n)
        decreases todo
      {
        var l :| l in todo;
        todo := todo - {l};
        if l.Num? && l.n > n {
          n := l.n;
        }
      }
      assert entry.links.Keys - todo == entry.links.Keys;
      k := T.Num(n + 1);
    }

    method Choose(entry: Entry, key: Option<T.Key>) returns (k: T.Key)
      ensures k == T.KeyFor(entry.links, key)
    {
      if key.None? {
        k := NextKey(entry);
      } else {
        k := key.value;
      }
    }

    /** entry[key] = attr_dict, seen from both ends */
    method Put(ghost src: string, ghost dst: string, entry: Entry, k: T.Key, info: T.Info)
      requires Valid() && (src, dst) in edge && edge[(src, dst)] == entry
      modifies entry`links
      ensures Bonds() == T.WithLink(old(Bonds()), (src, dst), k, info)
    {
      entry.links := entry.links[k := info];
      assert edge[T.Turn((src, dst))] == entry;
      assert forall p | p in edge && p != (src, dst) && p != T.Turn((src, dst)) :: edge[p] != entry;
    }

    method AddEnds(src: string, dst: string)
      modifies this`node
      ensures node == T.WithEnds(old(node), src, dst)
    {
      if src !in node {
        node := node[src := false];
      }
      if dst !in node {
        node := node[dst := false];
      }
    }

    method AddBond(src: string, dst: string, key: Option<T.Key>, info: T.Info) returns (k: T.Key)
      requires Valid()
      modifies this`edge, edge.Values`links
      ensures Valid() && k == T.KeyFor(T.BondOf(old(Bonds()), (src, dst)), key)
      ensures Bonds() == T.WithLink(old(Bonds()), (src, dst), k, info)
      ensures forall p | p in edge :: edge[p] in old(edge.Values) || fresh(edge[p])
    {
      ghost var was := Bonds();
      var entry := Entwine(src, dst);
      assert entry.links == T.BondOf(was, (src, dst)) by { assert Bonds()[(src, dst)] == T.BondOf(was, (src, dst)); }
      k := Choose(entry, key);
      Put(src, dst, entry, k, info);
      TwiceLinked(was, src, dst, k, info);
    }

    method AddEdge(src: string, dst: string, key: Option<T.Key>, info: T.Info) returns (k: T.Key)
      requires Valid()
      modifies this`node, this`edge, edge.Values`links
      ensures Valid() && node == T.WithEnds(old(node), src, dst)
      ensures k == T.KeyFor(T.BondOf(old(Bonds()), (src, dst)), key)
      ensures Bonds() == T.WithLink(old(Bonds()), (src, dst), k, info)
      ensures forall p | p in edge :: edge[p] in old(edge.Values) || fresh(edge[p])
    {
      AddEnds(src, dst);
      k := AddBond(src, dst, key, info);
    }

    /** edges_iter for one pair of nodes */
    method BondIter(p: (string, string)) returns (r: seq<(string, string, T.Key, T.Info)>)
      requires p in edge
      ensures Distinct(r)
      ensures forall l :: l in r <==> l.0 == p.0 && l.1 == p.1 && l.2 in edge[p].links && edge[p].links[l.2] == l.3
    {
      var links := edge[p].links;
      var todo := links.Keys;
      r := [];
      while todo != {}
        invariant todo <= links.Keys && Distinct(r)
        invariant forall l :: l in r <==> l.0 == p.0 && l.1 == p.1 && l.2 in links && l.2 !in todo && links[l.2] == l.3
        decreases todo
      {
        var k :| k in todo;
        todo := todo - {k};
        DistinctConcat(r, [(p.0, p.1, k, links[k])]);
        r := r + [(p.0, p.1, k, links[k])];
      }
    }

    /** edges_iter(data=True, keys=True): every link once, though every dictionary of links is met
        twice. */
    method EdgesIter() returns (r: seq<(string, string, T.Key, T.Info)>)
      ensures Distinct(r) && forall l :: l in r <==> T.Listed(Bonds(), l)
    {
      var todo := edge.Keys;
      r := [];
      while todo != {}
        invariant todo <= edge.Keys && Distinct(r)
        invariant forall l :: l in r <==> T.Listed(Bonds(), l) && (l.0, l.1) !in todo
        decreases todo
      {
        var p :| p in todo;
        todo := todo - {p};
        if !Above(p.0, p.1) {
          var some := BondIter(p);
          DistinctConcat(r, some);
          r := r + some;
        }
      }
    }
  }

  class Topo {
    const g: MultiGraph
    var ports: T.Ports
    /** The nodes that have a dictionary of ports, be it empty */
    var portNodes: set<string>

    constructor ()
      ensures g.Valid() && State() == T.EMPTY && fresh(g) && g.edge == map[] && portNodes == {}
    {
      ports, portNodes := map[], {};
      g := new MultiGraph();
    }

    ghost function State(): T.State
      reads this`ports, g`node, g`edge, g.edge.Values`links
    {
      T.State(g.node, g.Bonds(), ports)
    }

    /** addHost and addSwitch */
    method AddNode(name: string, isSwitch: bool)
      requires g.Valid()
      modifies g`node
      ensures g.Valid() && State() == T.Do(old(State()), T.Node(name, isSwitch))
    {
      g.AddNode(name, isSwitch);
    }

    /** The number of ports of a node */
    method PortCount(n: string) returns (c: nat)
      ensures c == |T.UsedAt(ports, n)|
    {
      c := |set e | e in ports && e.0 == n :: e.1|;
    }

    /** The default port of a node; None is KeyError. */
    method PortOr(n: string, port: Option<int>) returns (r: Option<int>)
      ensures r == T.PortFor(State(), n, port)
    {
      if port.Some? {
        return port;
      }
      if n !in g.node {
        return None;
      }
      var c := PortCount(n);
      r := Some(c + if g.node[n] then 1 else 0);
    }

    method AddPort(src: string, dst: string, sport: Option<int>, dport: Option<int>) returns (r: Option<(int, int)>)
      modifies this`ports, this`portNodes
      ensures portNodes == old(portNodes) + {src, dst}
      ensures var p, q := T.PortFor(old(State()), src, sport), T.PortFor(old(State()), dst, dport);
              if p.None? || q.None? then r == None && ports == old(ports)
              else r == Some((p.value, q.value)) && ports == T.WithCable(old(ports), (src, p.value), (dst, q.value))
    {
      portNodes := portNodes + {src, dst};
      var p := PortOr(src, sport);
      var q := PortOr(dst, dport);
      if p.None? || q.None? {
        return None;
      }
      ports := ports[(src, p.value) := (dst, q.value)];
      ports := ports[(dst, q.value) := (src, p.value)];
      r := Some((p.value, q.value));
    }

    /** addLink. What it returns is the key it was given, so None unless there was one. */
    method AddLink(node1: string, node2: string, port1: Option<int>, port2: Option<int>, key: Option<T.Key>)
      returns (ok: bool, k: Option<T.Key>)
      requires g.Valid()
      modifies this`ports, this`portNodes, g`node, g`edge, g.edge.Values`links
      ensures portNodes == old(portNodes) + {node1, node2}
      ensures g.Valid() && (State(), ok) == T.LinkNodes(old(State()), node1, node2, port1, port2, key)
      ensures k == key
      ensures forall p | p in g.edge :: g.edge[p] in old(g.edge.Values) || fresh(g.edge[p])
    {
      k := key;
      var r := AddPort(node1, node2, port1, port2);
      ok := r.Some?;
      if ok {
        var made := g.AddEdge(node1, node2, key, T.Info(node1, node2, r.value.0, r.value.1));
      }
    }

    /** links(withKeys=True): the ends in the order they were given to addLink, and each link once. */
    method Links() returns (r: seq<(string, string, T.Key)>)
      ensures forall x :: x in r <==> T.Given(State().bonds, x)
      ensures T.Symmetric(State().bonds) && T.Cabled(State().bonds, ports) ==> Distinct(r)
    {
      var all := g.EdgesIter();
      r := [];
      for i := 0 to |all|
        invariant |r| == i && forall j | 0 <= j < i :: r[j] == T.Entry(all[j])
      {
        r := r + [T.Entry(all[i])];
      }
      if T.Symmetric(g.Bonds()) && T.Cabled(g.Bonds(), ports) {
        EntriesDistinct(g.Bonds(), ports, all, r);
      }
    }

    /** The ports that lead from `src` to `dst`, as pairs of the ports at both */
    method PortPairs(src: string, dst: string) returns (r: seq<(int, int)>)
      ensures Distinct(r) && forall x :: x in r <==> x in T.PortsOf(ports, src, dst)
    {
      var todo := set e | e in ports && e.0 == src;
      ghost var all := todo;
      r := [];
      while todo != {}
        invariant todo <= all && Distinct(r)
        invariant forall x :: x in r <==> (src, x.0) in all - todo && ports[(src, x.0)] == (dst, x.1)
        decreases todo
      {
        var e :| e in todo;
        todo := todo - {e};
        if ports[e].0 == dst {
          DistinctConcat(r, [(e.1, ports[e].1)]);
          r := r + [(e.1, ports[e].1)];
        }
      }
      assert all - todo == all;
    }

    /** port(src, dst): a single pair comes alone, any other number of them as a list; a node raises
        exactly if no call of addPort, failed or not, has named it. */
    method Port(src: string, dst: string) returns (a: PortAnswer)
      ensures a.Unknown? <==> src !in portNodes
      ensures a.Unknown? || (Distinct(Pairs(a)) && forall x :: x in Pairs(a) <==> x in T.PortsOf(ports, src, dst))
      ensures a.Many? ==> |a.pairs| != 1
    {
      if src !in portNodes {
        return Unknown;
      }
      var r := PortPairs(src, dst);
      a := if |r| == 1 then One(r[0]) else Many(r);
      assert |r| == 1 ==> [r[0]] == r;
    }
  }

  /** What port() answers */
  datatype PortAnswer = Unknown | One(pair: (int, int)) | Many(pairs: seq<(int, int)>)

  function Pairs(a: PortAnswer): seq<(int, int)> {
    match a
    case Unknown => []
    case One(x) => [x]
    case Many(r) => r
  }

  lemma DistinctConcat<A(!new)>(a: seq<A>, b: seq<A>)
    requires Distinct(a) && Distinct(b) && forall x | x in a :: x !in b
    ensures Distinct(a + b)
  {
    var s := a + b;
    forall i, j | 0 <= i < j < |s| ensures s[i] != s[j] {
      if i < |a| && j >= |a| { assert a[i] in a && b[j - |a|] in b; }
    }
  }

  lemma EntriesDistinct(b: T.Bonds, ports: T.Ports, all: seq<(string, string, T.Key, T.Info)>,
                        r: seq<(string, string, T.Key)>)
    requires Distinct(all) && (forall l | l in all :: T.Listed(b, l)) && T.Cabled(b, ports)
    requires |r| == |all| && forall i | 0 <= i < |r| :: r[i] == T.Entry(all[i])
    ensures Distinct(r)
  {
    forall i, j | 0 <= i < j < |r| ensures r[i] != r[j] {
      assert all[i] in all && all[j] in all;
      T.EntryTells(b, ports, all[i], all[j]);
    }
  }

  lemma TwiceLinked(b: T.Bonds, u: string, v: string, k: T.Key, info: T.Info)
    ensures var m := T.BondOf(b, (u, v));
            T.WithLink(b[(u, v) := m][(v, u) := m], (u, v), k, info) == T.WithLink(b, (u, v), k, info)
  {
  }
}
