/** The torus topology: `TorusTopo.build` (topolib.py), the links it makes, and how it hangs together. */
module Torus {
  import opened Base
  import opened Text
  import opened Graphs
  import opened Topologies
  import Topo

  type Pos = (nat, nat)

  /** 's%dx%d' */
  function Switch(a: Pos): string {
    ['s'] + Cross(a.0 + 1, a.1 + 1)
  }

  /** 'h%dx%d', or 'h%dx%dx%d' if there is more than one host at a switch */
  function Host(a: Pos, k: nat, n: nat): string {
    if n == 1 then ['h'] + Cross(a.0 + 1, a.1 + 1) else ['h'] + Cross(a.0 + 1, a.1 + 1) + ['x'] + Dec(k + 1)
  }

  function DpidOf(a: Pos): nat {
    (a.0 + 1) * 256 + (a.1 + 1)
  }

  function Right(y: nat, a: Pos): Pos
    requires y > 0
  {
    (a.0, (a.1 + 1) % y)
  }

  function Down(x: nat, a: Pos): Pos
    requires x > 0
  {
    ((a.0 + 1) % x, a.1)
  }

  predicate In(x: nat, y: nat, a: Pos) {
    a.0 < x && a.1 < y
  }

  // ---------------------------------------------------------------------------
  // The calls that build makes
  // ---------------------------------------------------------------------------

  function Leaves(a: Pos, k: nat, n: nat): seq<Event> {
    if k == 0 then [] else Leaves(a, k - 1, n) + [Node(Host(a, k - 1, n), false), Link(Host(a, k - 1, n), Switch(a))]
  }

  function Cell(a: Pos, n: nat): seq<Event> {
    [Node(Switch(a), true)] + Leaves(a, n, n)
  }

  /** What two nested loops make, one cell at a time: `j` cells of row `i` */
  function Row<A>(cell: Pos -> seq<A>, i: nat, j: nat): seq<A> {
    if j == 0 then [] else Row(cell, i, j - 1) + cell((i, j - 1))
  }

  /** `i` rows of `y` cells */
  function Grid<A>(cell: Pos -> seq<A>, i: nat, y: nat): seq<A> {
    if i == 0 then [] else Grid(cell, i - 1, y) + Row(cell, i - 1, y)
  }

  function CellOf(n: nat): Pos -> seq<Event> {
    a => Cell(a, n)
  }

  /** The links of one round of the wiring loop, as pairs of positions */
  function Wire(x: nat, y: nat, a: Pos): seq<(Pos, Pos)>
    requires x > 0 && y > 0
  {
    [(a, Right(y, a)), (a, Down(x, a))]
  }

  function WireOf(x: nat, y: nat): Pos -> seq<(Pos, Pos)>
    requires x > 0 && y > 0
  {
    a => Wire(x, y, a)
  }

  function Calls(ws: seq<(Pos, Pos)>): (r: seq<Event>)
    ensures |r| == |ws|
  {
    seq(|ws|, i requires 0 <= i < |ws| => Link(Switch(ws[i].0), Switch(ws[i].1)))
  }

  function Built(x: nat, y: nat, n: nat): seq<Event>
    requires x > 0 && y > 0
  {
    Grid(CellOf(n), x, y) + Calls(Grid(WireOf(x, y), x, y))
  }

  // ---------------------------------------------------------------------------
  // How many links two switches have
  // ---------------------------------------------------------------------------

  lemma SwitchInjective(a: Pos, b: Pos)
    ensures Switch(a) == Switch(b) <==> a == b
  {
    CrossInjective(a.0 + 1, a.1 + 1, b.0 + 1, b.1 + 1);
    if Switch(a) == Switch(b) {
      assert Switch(a)[1..] == Cross(a.0 + 1, a.1 + 1);
      assert Switch(b)[1..] == Cross(b.0 + 1, b.1 + 1);
    }
  }

  /** The links the loop body makes from `a` to `b`. */
  function Own(x: nat, y: nat, a: Pos, b: Pos): nat
    requires x > 0 && y > 0
  {
    (if Right(y, a) == b then 1 else 0) + if Down(x, a) == b then 1 else 0
  }

  function Names(a: Pos, b: Pos): (string, string) {
    (Switch(a), Switch(b))
  }

  /** No cell links the two nodes. */
  ghost predicate NoneAt(cell: Pos -> seq<Event>, p: (string, string)) {
    forall a :: Between(cell(a), p) == []
  }

  lemma {:induction false} RowNone(cell: Pos -> seq<Event>, i: nat, j: nat, p: (string, string))
    requires NoneAt(cell, p)
    ensures Between(Row(cell, i, j), p) == []
  {
    if j > 0 {
      RowNone(cell, i, j - 1, p);
      BetweenConcat(Row(cell, i, j - 1), cell((i, j - 1)), p);
    }
  }

  lemma {:induction false} GridNone(cell: Pos -> seq<Event>, i: nat, y: nat, p: (string, string))
    requires NoneAt(cell, p)
    ensures Between(Grid(cell, i, y), p) == []
  {
    if i > 0 {
      GridNone(cell, i - 1, y, p);
      RowNone(cell, i - 1, y, p);
      BetweenConcat(Grid(cell, i - 1, y), Row(cell, i - 1, y), p);
    }
  }

  lemma CellNone(c: Pos, n: nat, a: Pos, b: Pos)
    ensures Between(Cell(c, n), Names(a, b)) == []
  {
    var first := [Node(Switch(c), true)];
    LeavesNone(c, n, n, a, b);
    assert Between(first, Names(a, b)) == [] by { assert first[..0] == []; }
    BetweenConcat(first, Leaves(c, n, n), Names(a, b));
  }

  lemma {:induction false} LeavesNone(c: Pos, k: nat, n: nat, a: Pos, b: Pos)
    ensures Between(Leaves(c, k, n), Names(a, b)) == []
  {
    if k > 0 {
      LeavesNone(c, k - 1, n, a, b);
      var h := Host(c, k - 1, n);
      assert h[0] == 'h' && Switch(a)[0] == 's' && Switch(b)[0] == 's';
      var node := Leaves(c, k - 1, n) + [Node(h, false)];
      assert Leaves(c, k, n)[..|Leaves(c, k, n)| - 1] == node;
      assert node[..|node| - 1] == Leaves(c, k - 1, n);
    }
  }

  /** How many of the links join two positions */
  function Count(ws: seq<(Pos, Pos)>, a: Pos, b: Pos): nat {
    if ws == [] then 0
    else
      var w := ws[|ws| - 1];
      Count(ws[..|ws| - 1], a, b) + if w == (a, b) || w == (b, a) then 1 else 0
  }

  lemma {:induction false} CountConcat(v: seq<(Pos, Pos)>, w: seq<(Pos, Pos)>, a: Pos, b: Pos)
    ensures Count(v + w, a, b) == Count(v, a, b) + Count(w, a, b)
  {
    if w == [] {
      assert v + w == v;
    } else {
      assert (v + w)[..|v + w| - 1] == v + w[..|w| - 1];
      CountConcat(v, w[..|w| - 1], a, b);
    }
  }

  lemma {:induction false} CountCalls(ws: seq<(Pos, Pos)>, a: Pos, b: Pos)
    ensures |Between(Calls(ws), Names(a, b))| == Count(ws, a, b)
  {
    if ws != [] {
      var n := |ws| - 1;
      CountCalls(ws[..n], a, b);
      assert Calls(ws)[..n] == Calls(ws[..n]);
      LinkNames(ws[n].0, ws[n].1, a, b);
    }
  }

  lemma LinkNames(c: Pos, d: Pos, a: Pos, b: Pos)
    ensures (Names(c, d) == Names(a, b) || Names(d, c) == Names(a, b)) <==> (c, d) == (a, b) || (c, d) == (b, a)
  {
    SwitchInjective(c, a);
    SwitchInjective(c, b);
    SwitchInjective(d, a);
    SwitchInjective(d, b);
  }

  lemma WireCount(x: nat, y: nat, c: Pos, a: Pos, b: Pos)
    requires x >= 3 && y >= 3 && In(x, y, a) && In(x, y, b)
    ensures Count(Wire(x, y, c), a, b) ==
            (if c == a then Own(x, y, a, b) else 0) + if c == b then Own(x, y, b, a) else 0
  {
    Ring(x, a.0, a.0);
    Ring(y, a.1, a.1);
    var w := Wire(x, y, c);
    assert w[..1] == [w[0]];
    assert Count(w[..1], a, b) == if w[0] == (a, b) || w[0] == (b, a) then 1 else 0;
  }

  /** Cell `c` makes `p` links if it is at `a` and `q` if it is at `b`. */
  ghost predicate Makes(wire: Pos -> seq<(Pos, Pos)>, c: Pos, a: Pos, b: Pos, p: nat, q: nat) {
    Count(wire(c), a, b) == (if c == a then p else 0) + if c == b then q else 0
  }

  lemma {:induction false} RowCount(wire: Pos -> seq<(Pos, Pos)>, i: nat, j: nat, a: Pos, b: Pos, p: nat, q: nat)
    requires forall k: nat | k < j :: Makes(wire, (i, k), a, b, p, q)
    ensures Count(Row(wire, i, j), a, b) ==
            (if a.0 == i && a.1 < j then p else 0) + if b.0 == i && b.1 < j then q else 0
  {
    if j > 0 {
      RowCount(wire, i, j - 1, a, b, p, q);
      assert Makes(wire, (i, j - 1), a, b, p, q);
      CountConcat(Row(wire, i, j - 1), wire((i, j - 1)), a, b);
    }
  }

  lemma {:induction false} GridCount(wire: Pos -> seq<(Pos, Pos)>, i: nat, y: nat, a: Pos, b: Pos, p: nat, q: nat)
    requires a.1 < y && b.1 < y && forall c | In(i, y, c) :: Makes(wire, c, a, b, p, q)
    ensures Count(Grid(wire, i, y), a, b) == (if a.0 < i then p else 0) + if b.0 < i then q else 0
  {
    if i > 0 {
      GridCount(wire, i - 1, y, a, b, p, q);
      var r: nat := i - 1;
      forall k: nat | k < y ensures Makes(wire, (r, k), a, b, p, q) {
        assert In(i, y, (r, k));
      }
      RowCount(wire, i - 1, y, a, b, p, q);
      CountConcat(Grid(wire, i - 1, y), Row(wire, i - 1, y), a, b);
    }
  }

  /** The four switches around a switch. */
  function Around(x: nat, y: nat, a: Pos): set<Pos>
    requires x > 0 && y > 0
  {
    {(a.0, (a.1 + 1) % y), (a.0, (a.1 + y - 1) % y), ((a.0 + 1) % x, a.1), ((a.0 + x - 1) % x, a.1)}
  }

  /** One step forward round a ring is one step backward seen from there. */
  lemma Ring(y: nat, i: nat, j: nat)
    requires y >= 3 && i < y && j < y
    ensures (i + 1) % y == j <==> (j + y - 1) % y == i
    ensures (i + 1) % y == (if i + 1 == y then 0 else i + 1) && (i + y - 1) % y == (if i == 0 then y - 1 else i - 1)
  {
    assert (i + 1) % y == (if i + 1 == y then 0 else i + 1);
    assert (i + y - 1) % y == (if i == 0 then y - 1 else i - 1) by { RingBack(y, i); }
    assert (j + y - 1) % y == (if j == 0 then y - 1 else j - 1) by { RingBack(y, j); }
  }

  lemma RingBack(y: nat, i: nat)
    requires y >= 3 && i < y
    ensures (i + y - 1) % y == if i == 0 then y - 1 else i - 1
  {
    if i > 0 {
      assert i + y - 1 == (i - 1) + y;
      assert ((i - 1) + y) % y == (i - 1) % y;
    }
  }

  /** The switches around a switch are four, all in the grid, and being around goes both ways. */
  lemma FourAround(x: nat, y: nat, a: Pos)
    requires x >= 3 && y >= 3 && In(x, y, a)
    ensures |Around(x, y, a)| == 4 && a !in Around(x, y, a)
    ensures forall b | b in Around(x, y, a) :: In(x, y, b)
  {
    Ring(x, a.0, a.0);
    Ring(y, a.1, a.1);
    var l, r, u, d := (a.0, (a.1 + 1) % y), (a.0, (a.1 + y - 1) % y), ((a.0 + 1) % x, a.1), ((a.0 + x - 1) % x, a.1);
    assert l != r && u != d && l != u && l != d && r != u && r != d;
    assert |{l, r}| == 2 && |{l, r, u}| == 3;
  }

  /** From a switch exactly the four around it are reached by one link, or from them. */
  lemma OwnAround(x: nat, y: nat, a: Pos, b: Pos)
    requires x >= 3 && y >= 3 && In(x, y, a) && In(x, y, b)
    ensures Own(x, y, a, b) + Own(x, y, b, a) == if b in Around(x, y, a) then 1 else 0
  {
    Ring(x, a.0, b.0);
    Ring(y, a.1, b.1);
    Ring(x, b.0, a.0);
    Ring(y, b.1, a.1);
  }

  // ---------------------------------------------------------------------------
  // The run of build
  // ---------------------------------------------------------------------------

  lemma {:induction false} RowLettered(cell: Pos -> seq<Event>, i: nat, j: nat)
    requires forall a, e | e in cell(a) :: Lettered(e)
    ensures forall e | e in Row(cell, i, j) :: Lettered(e)
  {
    if j > 0 { RowLettered(cell, i, j - 1); }
  }

  lemma {:induction false} GridLettered(cell: Pos -> seq<Event>, i: nat, y: nat)
    requires forall a, e | e in cell(a) :: Lettered(e)
    ensures forall e | e in Grid(cell, i, y) :: Lettered(e)
  {
    if i > 0 {
      GridLettered(cell, i - 1, y);
      RowLettered(cell, i - 1, y);
    }
  }

  lemma {:induction false} LeavesLettered(c: Pos, k: nat, n: nat)
    ensures forall e | e in Leaves(c, k, n) :: Lettered(e)
  {
    if k > 0 { LeavesLettered(c, k - 1, n); }
  }

  /** Every link is made between nodes there are. */
  lemma {:induction false} LeavesKnown(s: State, c: Pos, k: nat, n: nat)
    requires Switch(c) in s.node
    ensures Known(s, Leaves(c, k, n))
  {
    if k > 0 {
      var before, h := Leaves(c, k - 1, n), Host(c, k - 1, n);
      LeavesKnown(s, c, k - 1, n);
      DoAllGrows(s, before);
      LeafKnown(DoAll(s, before), h, Switch(c));
      KnownConcat(s, before, [Node(h, false), Link(h, Switch(c))]);
    }
  }

  lemma LeafKnown(t: State, h: string, sw: string)
    requires sw in t.node
    ensures Known(t, [Node(h, false), Link(h, sw)])
  {
    var pair := [Node(h, false), Link(h, sw)];
    OneMoreDone(t, [], pair[0]);
    assert pair[..1] == [] + [pair[0]];
    assert KnownAt(t, pair, 0) && KnownAt(t, pair, 1);
  }

  lemma CellKnown(s: State, a: Pos, n: nat)
    ensures Known(s, Cell(a, n)) && Switch(a) in DoAll(s, Cell(a, n)).node
  {
    var first := [Node(Switch(a), true)];
    OneMoreDone(s, [], first[0]);
    assert [] + first == first;
    LeavesKnown(DoAll(s, first), a, n, n);
    Then(s, first, Leaves(a, n, n));
  }

  /** A cell puts its switch there and links only what is there. */
  ghost predicate Sound(cell: Pos -> seq<Event>, a: Pos) {
    forall s :: SoundAt(cell, a, s)
  }

  ghost predicate SoundAt(cell: Pos -> seq<Event>, a: Pos, s: State) {
    Known(s, cell(a)) && Switch(a) in DoAll(s, cell(a)).node
  }

  ghost predicate RowNodes(i: nat, j: nat, s: State) {
    forall c: nat | c < j :: Switch((i, c)) in s.node
  }

  lemma {:induction false} RowKnown(cell: Pos -> seq<Event>, s: State, i: nat, j: nat)
    requires forall a :: Sound(cell, a)
    ensures Known(s, Row(cell, i, j)) && RowNodes(i, j, DoAll(s, Row(cell, i, j)))
  {
    if j > 0 {
      var before := Row(cell, i, j - 1);
      RowKnown(cell, s, i, j - 1);
      assert Sound(cell, (i, j - 1)) && SoundAt(cell, (i, j - 1), DoAll(s, before));
      RowMore(s, before, cell((i, j - 1)), i, j);
    }
  }

  lemma RowMore(s: State, before: seq<Event>, cell: seq<Event>, i: nat, j: nat)
    requires j > 0 && Known(s, before) && RowNodes(i, j - 1, DoAll(s, before))
    requires Known(DoAll(s, before), cell) && Switch((i, j - 1)) in DoAll(DoAll(s, before), cell).node
    ensures Known(s, before + cell) && RowNodes(i, j, DoAll(s, before + cell))
  {
    Then(s, before, cell);
  }

  ghost predicate GridNodes(x: nat, y: nat, s: State) {
    forall a | In(x, y, a) :: Switch(a) in s.node
  }

  lemma {:induction false} GridKnown(cell: Pos -> seq<Event>, i: nat, y: nat)
    requires forall a :: Sound(cell, a)
    ensures Known(EMPTY, Grid(cell, i, y)) && GridNodes(i, y, DoAll(EMPTY, Grid(cell, i, y)))
  {
    if i > 0 {
      var before := Grid(cell, i - 1, y);
      GridKnown(cell, i - 1, y);
      RowKnown(cell, DoAll(EMPTY, before), i - 1, y);
      GridMore(before, Row(cell, i - 1, y), i, y);
    }
  }

  lemma GridMore(before: seq<Event>, row: seq<Event>, i: nat, y: nat)
    requires i > 0 && Known(EMPTY, before) && GridNodes(i - 1, y, DoAll(EMPTY, before))
    requires Known(DoAll(EMPTY, before), row) && RowNodes(i - 1, y, DoAll(DoAll(EMPTY, before), row))
    ensures Known(EMPTY, before + row) && GridNodes(i, y, DoAll(EMPTY, before + row))
  {
    Then(EMPTY, before, row);
    var s, t := DoAll(EMPTY, before), DoAll(EMPTY, before + row);
    forall a | In(i, y, a) ensures Switch(a) in t.node {
      if a.0 == i - 1 { assert a == (i - 1, a.1); } else { assert In(i - 1, y, a); }
    }
  }

  ghost predicate Inside(x: nat, y: nat, ws: seq<(Pos, Pos)>) {
    forall w | w in ws :: In(x, y, w.0) && In(x, y, w.1)
  }

  lemma {:induction false} RowInside(x: nat, y: nat, wire: Pos -> seq<(Pos, Pos)>, i: nat, j: nat)
    requires i < x && j <= y && forall c | In(x, y, c) :: |wire(c)| == 2 && Inside(x, y, wire(c))
    ensures |Row(wire, i, j)| == 2 * j && Inside(x, y, Row(wire, i, j))
  {
    if j > 0 {
      RowInside(x, y, wire, i, j - 1);
      assert In(x, y, (i, j - 1));
    }
  }

  lemma {:induction false} GridInside(x: nat, y: nat, wire: Pos -> seq<(Pos, Pos)>, i: nat)
    requires i <= x && forall c | In(x, y, c) :: |wire(c)| == 2 && Inside(x, y, wire(c))
    ensures |Grid(wire, i, y)| == 2 * (i * y) && Inside(x, y, Grid(wire, i, y))
  {
    if i > 0 {
      GridInside(x, y, wire, i - 1);
      RowInside(x, y, wire, i - 1, y);
      assert i * y == (i - 1) * y + y;
    }
  }

  lemma WiresInside(x: nat, y: nat)
    requires x >= 3 && y >= 3
    ensures |Grid(WireOf(x, y), x, y)| == 2 * (x * y) && Inside(x, y, Grid(WireOf(x, y), x, y))
  {
    forall c | In(x, y, c) ensures |WireOf(x, y)(c)| == 2 && Inside(x, y, WireOf(x, y)(c)) {
      assert WireOf(x, y)(c) == Wire(x, y, c);
    }
    GridInside(x, y, WireOf(x, y), x);
  }

  lemma CellsKnown(x: nat, y: nat, n: nat)
    ensures var cells := Grid(CellOf(n), x, y);
            Known(EMPTY, cells) && GridNodes(x, y, DoAll(EMPTY, cells)) && forall e | e in cells :: Lettered(e)
  {
    forall a, s ensures SoundAt(CellOf(n), a, s) {
      CellKnown(s, a, n);
    }
    forall a ensures Sound(CellOf(n), a) {}
    GridKnown(CellOf(n), x, y);
    forall a, e | e in CellOf(n)(a) ensures Lettered(e) {
      LeavesLettered(a, n, n);
    }
    GridLettered(CellOf(n), x, y);
  }

  /** build never raises: every node is added before it is linked, and under one kind. So ports and
      links are in order, by `Topologies.Inv`. */
  lemma BuiltSound(x: nat, y: nat, n: nat)
    requires x >= 3 && y >= 3
    ensures Known(EMPTY, Built(x, y, n)) && Inv(DoAll(EMPTY, Built(x, y, n)))
  {
    var cells, ws := Grid(CellOf(n), x, y), Grid(WireOf(x, y), x, y);
    var wires, s := Calls(ws), DoAll(EMPTY, cells);
    CellsKnown(x, y, n);
    WiresInside(x, y);
    forall e | e in wires ensures e.Link? && BothIn(s.node.Keys, e) {
      var i :| 0 <= i < |wires| && wires[i] == e;
      assert ws[i] in ws;
    }
    KnownLinks(s, wires);
    KnownConcat(EMPTY, cells, wires);
    assert forall e | e in wires :: Lettered(e);
    LetteredFit(cells + wires);
  }

  lemma WiresCount(x: nat, y: nat, a: Pos, b: Pos)
    requires x >= 3 && y >= 3 && In(x, y, a) && In(x, y, b)
    ensures Count(Grid(WireOf(x, y), x, y), a, b) == if b in Around(x, y, a) then 1 else 0
  {
    var p, q := Own(x, y, a, b), Own(x, y, b, a);
    forall c | In(x, y, c) ensures Makes(WireOf(x, y), c, a, b, p, q) {
      WireCount(x, y, c, a, b);
    }
    GridCount(WireOf(x, y), x, y, a, b, p, q);
    OwnAround(x, y, a, b);
  }

  /** The torus: two switches, or a switch and itself, have one link if they are next to each other in
      the grid closed to a ring both ways, and none else; build makes 2xy of them. */
  lemma SwitchLinks(x: nat, y: nat, n: nat, a: Pos, b: Pos)
    requires x >= 3 && y >= 3 && In(x, y, a) && In(x, y, b)
    ensures |BondOf(DoAll(EMPTY, Built(x, y, n)).bonds, (Switch(a), Switch(b)))| ==
            if b in Around(x, y, a) then 1 else 0
    ensures |Grid(WireOf(x, y), x, y)| == 2 * (x * y)
  {
    var cells, ws := Grid(CellOf(n), x, y), Grid(WireOf(x, y), x, y);
    BuiltSound(x, y, n);
    LinkedIffAdded(cells + Calls(ws), Names(a, b));
    BetweenConcat(cells, Calls(ws), Names(a, b));
    forall c ensures Between(CellOf(n)(c), Names(a, b)) == [] {
      CellNone(c, n, a, b);
    }
    GridNone(CellOf(n), x, y, Names(a, b));
    CountCalls(ws, a, b);
    WiresCount(x, y, a, b);
    WiresInside(x, y);
  }

  lemma AroundLinked(x: nat, y: nat, n: nat, a: Pos, b: Pos)
    requires x >= 3 && y >= 3 && In(x, y, a) && In(x, y, b) && b in Around(x, y, a)
    ensures (Switch(a), Switch(b)) in DoAll(EMPTY, Built(x, y, n)).bonds
  {
    FourAround(x, y, a);
    SwitchLinks(x, y, n, a, b);
  }

  // ---------------------------------------------------------------------------
  // Connected
  // ---------------------------------------------------------------------------

  function Gap(i: nat, j: nat): nat {
    if i < j then j - i else i - j
  }

  /** The grid neighbour of `b` that is nearer to `a`. */
  function Nearer(a: Pos, b: Pos): Pos
    requires a != b
  {
    if a.0 < b.0 then (b.0 - 1, b.1) else if a.0 > b.0 then (b.0 + 1, b.1)
    else if a.1 < b.1 then (b.0, b.1 - 1) else (b.0, b.1 + 1)
  }

  lemma NearerAround(x: nat, y: nat, a: Pos, b: Pos)
    requires x >= 3 && y >= 3 && In(x, y, a) && In(x, y, b) && a != b
    ensures var c := Nearer(a, b);
            In(x, y, c) && b in Around(x, y, c) && Gap(a.0, c.0) + Gap(a.1, c.1) < Gap(a.0, b.0) + Gap(a.1, b.1)
  {
    var c := Nearer(a, b);
    Ring(x, c.0, b.0);
    Ring(y, c.1, b.1);
  }

  lemma {:induction false} SwitchesConnected(x: nat, y: nat, n: nat, a: Pos, b: Pos)
    requires x >= 3 && y >= 3 && In(x, y, a) && In(x, y, b)
    ensures Reaches(DoAll(EMPTY, Built(x, y, n)).bonds.Keys, Switch(a), Switch(b))
    decreases Gap(a.0, b.0) + Gap(a.1, b.1)
  {
    var E := DoAll(EMPTY, Built(x, y, n)).bonds.Keys;
    if a == b {
      Here(E, Switch(a));
    } else {
      var c := Nearer(a, b);
      NearerAround(x, y, a, b);
      SwitchesConnected(x, y, n, a, c);
      AroundLinked(x, y, n, c, b);
      OneMore(E, Switch(a), Switch(c), Switch(b));
    }
  }

  // ---------------------------------------------------------------------------
  // Dpids
  // ---------------------------------------------------------------------------

  ghost predicate DpidsDiffer(x: nat, y: nat) {
    forall a, b | In(x, y, a) && In(x, y, b) && a != b :: DpidOf(a) != DpidOf(b)
  }

  /** The datapath ids of the switches are distinct exactly when a row has at most 256 of them. */
  lemma DpidsDistinct(x: nat, y: nat)
    requires x >= 3 && y >= 3
    ensures DpidsDiffer(x, y) <==> y <= 256
  {
    if y > 256 {
      assert DpidOf((0, 256)) == DpidOf((1, 0));
      assert In(x, y, (0, 256)) && In(x, y, (1, 0)) && (0, 256) != (1, 0);
    }
  }

  /** A switch's name tells its row and column, counted from 1, and with them its datapath id. */
  lemma SwitchTells(a: Pos)
    ensures Switch(a) != [] && Switch(a)[0] == 's'
    ensures var parts := Split(Switch(a)[1..], 'x');
            && |parts| == 2 && ParseDec(parts[0]) == Some(a.0 + 1) && ParseDec(parts[1]) == Some(a.1 + 1)
            && DpidOf(a) == 256 * ParseDec(parts[0]).value + ParseDec(parts[1]).value
  {
    CrossSplits(a.0 + 1, a.1 + 1);
    ParseOfDec(a.0 + 1);
    ParseOfDec(a.1 + 1);
    assert Switch(a)[1..] == Cross(a.0 + 1, a.1 + 1);
  }

  // ---------------------------------------------------------------------------
  // Hosts
  // ---------------------------------------------------------------------------

  lemma TailOfOne(c: char, s: string)
    ensures ([c] + s)[1..] == s
  {
  }

  lemma TailOfTwo(c: char, i: string, x: string, j: string, k: string)
    ensures ([c] + (i + x + j) + x + k)[1..] == i + x + (j + x + k)
  {
  }

  lemma HostSplits(a: Pos, k: nat, n: nat)
    ensures Split(Host(a, k, n)[1..], 'x') ==
            if n == 1 then [Dec(a.0 + 1), Dec(a.1 + 1)] else [Dec(a.0 + 1), Dec(a.1 + 1), Dec(k + 1)]
  {
    if n == 1 {
      TailOfOne('h', Cross(a.0 + 1, a.1 + 1));
      CrossSplits(a.0 + 1, a.1 + 1);
    } else {
      TailOfTwo('h', Dec(a.0 + 1), ['x'], Dec(a.1 + 1), Dec(k + 1));
      CrossSplitsAfter(a.0 + 1, a.1 + 1, k + 1);
    }
  }

  lemma CrossSplitsAfter(i: nat, j: nat, k: nat)
    ensures Split(Dec(i) + ['x'] + Cross(j, k), 'x') == [Dec(i), Dec(j), Dec(k)]
  {
    ParseOfDec(i);
    SplitAt(Dec(i), 'x', Cross(j, k));
    CrossSplits(j, k);
  }

  /** No two hosts have the same name, and none has a switch's. */
  lemma HostInjective(a: Pos, k: nat, b: Pos, l: nat, n: nat)
    requires k < n && l < n
    ensures Host(a, k, n) == Host(b, l, n) <==> a == b && k == l
    ensures Host(a, k, n) != Switch(b)
  {
    assert Host(a, k, n)[0] == 'h' && Switch(b)[0] == 's';
    if Host(a, k, n) == Host(b, l, n) {
      HostTells(a, k, b, l, n);
    }
  }

  lemma HostTells(a: Pos, k: nat, b: Pos, l: nat, n: nat)
    requires k < n && l < n && Host(a, k, n) == Host(b, l, n)
    ensures a == b && k == l
  {
    var parts := Split(Host(a, k, n)[1..], 'x');
    HostSplits(a, k, n);
    HostSplits(b, l, n);
    assert parts[0] == Dec(a.0 + 1) && parts[0] == Dec(b.0 + 1);
    assert parts[1] == Dec(a.1 + 1) && parts[1] == Dec(b.1 + 1);
    assert n > 1 ==> parts[2] == Dec(k + 1) && parts[2] == Dec(l + 1);
    DecInjective(a.0 + 1, b.0 + 1);
    DecInjective(a.1 + 1, b.1 + 1);
    DecInjective(k + 1, l + 1);
  }

  lemma {:induction false} InLeaves(a: Pos, m: nat, k: nat, n: nat)
    requires k < m
    ensures Link(Host(a, k, n), Switch(a)) in Leaves(a, m, n)
  {
    if k < m - 1 { InLeaves(a, m - 1, k, n); }
  }

  lemma {:induction false} InRow<A>(cell: Pos -> seq<A>, i: nat, j: nat, c: Pos, e: A)
    requires c.0 == i && c.1 < j && e in cell(c)
    ensures e in Row(cell, i, j)
  {
    if c.1 < j - 1 { InRow(cell, i, j - 1, c, e); }
  }

  lemma {:induction false} InGrid<A>(cell: Pos -> seq<A>, i: nat, y: nat, c: Pos, e: A)
    requires In(i, y, c) && e in cell(c)
    ensures e in Grid(cell, i, y)
  {
    assert Grid(cell, i, y) == Grid(cell, i - 1, y) + Row(cell, i - 1, y);
    if c.0 < i - 1 {
      InGrid(cell, i - 1, y, c, e);
    } else {
      InRow(cell, i - 1, y, c, e);
    }
  }

  /** Every host is linked with its switch, so the whole topology hangs together. */
  lemma HostLinked(x: nat, y: nat, n: nat, a: Pos, k: nat)
    requires x >= 3 && y >= 3 && In(x, y, a) && k < n
    ensures (Host(a, k, n), Switch(a)) in DoAll(EMPTY, Built(x, y, n)).bonds
  {
    var es, e := Built(x, y, n), Link(Host(a, k, n), Switch(a));
    InLeaves(a, n, k, n);
    InGrid(CellOf(n), x, y, a, e);
    InBetween(es, e);
    BuiltSound(x, y, n);
    LinkedIffAdded(es, (e.u, e.v));
  }

  /** What a loop over the grid made was made by a cell of it. */
  lemma {:induction false} OfRow<A(!new)>(cell: Pos -> seq<A>, i: nat, j: nat, e: A) returns (c: Pos)
    requires e in Row(cell, i, j)
    ensures c.0 == i && c.1 < j && e in cell(c)
  {
    if e in cell((i, j - 1)) {
      c := (i, j - 1);
    } else {
      c := OfRow(cell, i, j - 1, e);
    }
  }

  lemma {:induction false} OfGrid<A(!new)>(cell: Pos -> seq<A>, i: nat, y: nat, e: A) returns (c: Pos)
    requires e in Grid(cell, i, y)
    ensures In(i, y, c) && e in cell(c)
  {
    var above: nat := i - 1;
    assert Grid(cell, i, y) == Grid(cell, above, y) + Row(cell, above, y);
    if e in Row(cell, above, y) {
      c := OfRow(cell, above, y, e);
    } else {
      c := OfGrid(cell, above, y, e);
    }
  }

  lemma {:induction false} OfLeaves(a: Pos, m: nat, n: nat, e: Event)
    requires e in Leaves(a, m, n) && e.Node?
    ensures exists k: nat :: k < m && e.name == Host(a, k, n)
  {
    if e.name != Host(a, m - 1, n) { OfLeaves(a, m - 1, n, e); }
  }

  /** The node is a switch or hangs on one. */
  lemma NodeAtSwitch(x: nat, y: nat, n: nat, u: string) returns (a: Pos)
    requires x >= 3 && y >= 3 && u in DoAll(EMPTY, Built(x, y, n)).node
    ensures In(x, y, a) && (u == Switch(a) || (u, Switch(a)) in DoAll(EMPTY, Built(x, y, n)).bonds)
  {
    BuiltSound(x, y, n);
    NodesAdded(Built(x, y, n), u);
    var e :| e in Built(x, y, n) && e.Node? && e.name == u;
    a := OfGrid(CellOf(n), x, y, e);
    if u != Switch(a) {
      OfLeaves(a, n, n, e);
      var k: nat :| k < n && e.name == Host(a, k, n);
      HostLinked(x, y, n, a, k);
    }
  }

  /** There is a way between any two nodes of the torus, switches or hosts. */
  lemma TorusConnected(x: nat, y: nat, n: nat, u: string, v: string)
    requires x >= 3 && y >= 3 && u in DoAll(EMPTY, Built(x, y, n)).node && v in DoAll(EMPTY, Built(x, y, n)).node
    ensures Reaches(DoAll(EMPTY, Built(x, y, n)).bonds.Keys, u, v)
  {
    var s := DoAll(EMPTY, Built(x, y, n));
    var a := NodeAtSwitch(x, y, n, u);
    var b := NodeAtSwitch(x, y, n, v);
    BuiltSound(x, y, n);
    assert Turn((v, Switch(b))) == (Switch(b), v);
    Here(s.bonds.Keys, u);
    if u != Switch(a) { OneMore(s.bonds.Keys, u, u, Switch(a)); }
    SwitchesConnected(x, y, n, a, b);
    ReachesOn(s.bonds.Keys, u, Switch(a), Switch(b));
    if v != Switch(b) { OneMore(s.bonds.Keys, u, Switch(b), v); }
  }

  // ---------------------------------------------------------------------------
  // The links one by one
  // ---------------------------------------------------------------------------

  /** A link to the switch that is next in the row or in the column, round the edge of the grid */
  ghost predicate Ahead(x: nat, y: nat, a: Pos, u: string, v: string)
    requires x > 0 && y > 0
  {
    && In(x, y, a) && u == Switch(a)
    && (|| v == Switch((a.0, if a.1 + 1 < y then a.1 + 1 else 0))
        || v == Switch((if a.0 + 1 < x then a.0 + 1 else 0, a.1)))
  }

  /** A link from a host to its switch */
  ghost predicate Hangs(x: nat, y: nat, n: nat, a: Pos, k: nat, u: string, v: string) {
    In(x, y, a) && k < n && u == Host(a, k, n) && v == Switch(a)
  }

  lemma NextInRing(y: nat, i: nat)
    requires i < y
    ensures (i + 1) % y == if i + 1 < y then i + 1 else 0
  {
  }

  lemma {:induction false} LinkOfLeaves(a: Pos, m: nat, n: nat, e: Event)
    requires e in Leaves(a, m, n) && e.Link?
    ensures exists k: nat :: k < m && e == Link(Host(a, k, n), Switch(a))
  {
    if e != Link(Host(a, m - 1, n), Switch(a)) { LinkOfLeaves(a, m - 1, n, e); }
  }

  lemma OfCalls(ws: seq<(Pos, Pos)>, u: string, v: string)
    ensures Link(u, v) in Calls(ws) <==> exists w :: w in ws && u == Switch(w.0) && v == Switch(w.1)
  {
    var cs := Calls(ws);
    if Link(u, v) in cs {
      var i :| 0 <= i < |cs| && cs[i] == Link(u, v);
      assert ws[i] in ws;
    }
    if w :| w in ws && u == Switch(w.0) && v == Switch(w.1) {
      var i :| 0 <= i < |ws| && ws[i] == w;
      assert cs[i] == Link(u, v);
    }
  }

  lemma WireIs(x: nat, y: nat, a: Pos, w: (Pos, Pos))
    requires In(x, y, a)
    ensures w in WireOf(x, y)(a) <==> w.0 == a && (w.1 == Right(y, a) || w.1 == Down(x, a))
    ensures Right(y, a) == (a.0, if a.1 + 1 < y then a.1 + 1 else 0)
    ensures Down(x, a) == (if a.0 + 1 < x then a.0 + 1 else 0, a.1)
  {
    NextInRing(y, a.1);
    NextInRing(x, a.0);
    assert WireOf(x, y)(a) == [(a, Right(y, a)), (a, Down(x, a))];
  }

  /** The links that build makes are exactly those from each host to its switch and from each switch to the
      next in its row and in its column, in that order of their ends. */
  lemma LinksAre(x: nat, y: nat, n: nat, u: string, v: string)
    requires x >= 3 && y >= 3
    ensures Link(u, v) in Built(x, y, n) <==>
            (exists a :: Ahead(x, y, a, u, v)) || exists a, k :: Hangs(x, y, n, a, k, u, v)
  {
    var cells, ws := Grid(CellOf(n), x, y), Grid(WireOf(x, y), x, y);
    OfCalls(ws, u, v);
    if Link(u, v) in cells {
      var a := OfGrid(CellOf(n), x, y, Link(u, v));
      LinkOfLeaves(a, n, n, Link(u, v));
      var k: nat :| k < n && Link(u, v) == Link(Host(a, k, n), Switch(a));
      assert Hangs(x, y, n, a, k, u, v);
    } else if Link(u, v) in Calls(ws) {
      var w :| w in ws && u == Switch(w.0) && v == Switch(w.1);
      var a := OfGrid(WireOf(x, y), x, y, w);
      WireIs(x, y, a, w);
      assert Ahead(x, y, a, u, v);
    }
    if a :| Ahead(x, y, a, u, v) { AheadBuilt(x, y, n, a, u, v); }
    if a, k :| Hangs(x, y, n, a, k, u, v) {
      InLeaves(a, n, k, n);
      InGrid(CellOf(n), x, y, a, Link(u, v));
    }
  }

  lemma AheadBuilt(x: nat, y: nat, n: nat, a: Pos, u: string, v: string)
    requires x >= 3 && y >= 3 && Ahead(x, y, a, u, v)
    ensures Link(u, v) in Built(x, y, n)
  {
    var ws := Grid(WireOf(x, y), x, y);
    WireIs(x, y, a, (a, Right(y, a)));
    WireIs(x, y, a, (a, Down(x, a)));
    var w := (a, if v == Switch(Right(y, a)) then Right(y, a) else Down(x, a));
    assert w in WireOf(x, y)(a);
    InGrid(WireOf(x, y), x, y, a, w);
    OfCalls(ws, u, v);
  }

  // ---------------------------------------------------------------------------
  // build
  // ---------------------------------------------------------------------------

  /** The dictionary of switches has the name for a position. */
  ghost predicate Has(switches: map<Pos, string>, a: Pos) {
    a in switches && switches[a] == Switch(a)
  }

  ghost predicate HasGrid(switches: map<Pos, string>, i: nat, y: nat) {
    forall a {:trigger Has(switches, a)} | In(i, y, a) :: Has(switches, a)
  }

  ghost predicate HasRow(switches: map<Pos, string>, i: nat, j: nat) {
    forall k: nat {:trigger Has(switches, (i, k))} | k < j :: Has(switches, (i, k))
  }

  lemma HasMore(switches: map<Pos, string>, i: nat, y: nat, j: nat)
    requires HasGrid(switches, i, y) && HasRow(switches, i, j)
    ensures var more := switches[(i, j) := Switch((i, j))];
            HasGrid(more, i, y) && HasRow(more, i, j + 1)
  {
    var more := switches[(i, j) := Switch((i, j))];
    forall a | In(i, y, a) ensures Has(more, a) {
      assert Has(switches, a);
    }
    forall k: nat | k < j + 1 ensures Has(more, (i, k)) {
      assert k < j ==> Has(switches, (i, k));
    }
  }

  method AddLeaf(t: Topo.Topo, host: string, switch: string)
    requires t.g.Valid()
    modifies t`ports, t`portNodes, t.g`node, t.g`edge, t.g.edge.Values`links
    ensures t.g.Valid() && t.State() == Do(Do(old(t.State()), Node(host, false)), Link(host, switch))
    ensures forall p | p in t.g.edge :: t.g.edge[p] in old(t.g.edge.Values) || fresh(t.g.edge[p])
  {
    t.AddNode(host, false);
    var ok, key := t.AddLink(host, switch, None, None, None);
  }

  /** The hosts of one switch */
  method AddHosts(t: Topo.Topo, a: Pos, n: nat)
    requires t.g.Valid() && Switch(a) in t.g.node
    modifies t`ports, t`portNodes, t.g`node, t.g`edge, t.g.edge.Values`links
    ensures t.g.Valid() && t.State() == DoAll(old(t.State()), Leaves(a, n, n))
    ensures forall p | p in t.g.edge :: t.g.edge[p] in old(t.g.edge.Values) || fresh(t.g.edge[p])
  {
    for k := 0 to n
      invariant t.g.Valid() && t.State() == DoAll(old(t.State()), Leaves(a, k, n))
      invariant forall p | p in t.g.edge :: t.g.edge[p] in old(t.g.edge.Values) || fresh(t.g.edge[p])
    {
      var host := Host(a, k, n);
      AddLeaf(t, host, Switch(a));
      TwoMore(old(t.State()), Leaves(a, k, n), Node(host, false), Link(host, Switch(a)));
    }
  }

  lemma TwoMore(s: State, es: seq<Event>, e: Event, f: Event)
    ensures DoAll(s, es + [e, f]) == Do(Do(DoAll(s, es), e), f)
  {
    assert es + [e, f] == es + [e] + [f];
    OneMoreDone(s, es + [e], f);
    OneMoreDone(s, es, e);
  }

  /** One round of the first loop */
  method AddCell(t: Topo.Topo, a: Pos, n: nat)
    requires t.g.Valid()
    modifies t`ports, t`portNodes, t.g`node, t.g`edge, t.g.edge.Values`links
    ensures t.g.Valid() && t.State() == DoAll(old(t.State()), Cell(a, n)) && Switch(a) in t.g.node
    ensures forall p | p in t.g.edge :: t.g.edge[p] in old(t.g.edge.Values) || fresh(t.g.edge[p])
  {
    ghost var s, first := t.State(), [Node(Switch(a), true)];
    t.AddNode(Switch(a), true);
    OneMoreDone(s, [], first[0]);
    assert [] + first == first;
    AddHosts(t, a, n);
    DoConcat(s, first, Leaves(a, n, n));
    CellKnown(s, a, n);
  }

  /** `cell` has the links that each round of the second loop makes. */
  ghost predicate Follows(cell: Pos -> seq<Event>, x: nat, y: nat)
    requires x > 0 && y > 0
  {
    forall a {:trigger Wire(x, y, a)} | In(x, y, a) :: cell(a) == Calls(Wire(x, y, a))
  }

  /** One round of the second loop; `switches` has the names. */
  method AddWires(t: Topo.Topo, x: nat, y: nat, a: Pos, switches: map<Pos, string>, ghost cell: Pos -> seq<Event>)
    requires t.g.Valid() && x >= 3 && y >= 3 && In(x, y, a)
    requires HasGrid(switches, x, y) && Follows(cell, x, y)
    modifies t`ports, t`portNodes, t.g`node, t.g`edge, t.g.edge.Values`links
    ensures t.g.Valid() && t.State() == DoAll(old(t.State()), cell(a))
    ensures forall p | p in t.g.edge :: t.g.edge[p] in old(t.g.edge.Values) || fresh(t.g.edge[p])
  {
    ghost var s := t.State();
    var right: Pos, down: Pos := (a.0, (a.1 + 1) % y), ((a.0 + 1) % x, a.1);
    assert In(x, y, right) && In(x, y, down);
    assert Has(switches, a) && Has(switches, right) && Has(switches, down);
    var ok, key := t.AddLink(switches[a], switches[right], None, None, None);
    ok, key := t.AddLink(switches[a], switches[down], None, None, None);
    TwoMore(s, [], Link(Switch(a), Switch(right)), Link(Switch(a), Switch(down)));
    assert Calls(Wire(x, y, a)) == [] + [Link(Switch(a), Switch(right)), Link(Switch(a), Switch(down))];
  }

  /** Create and wire interior */
  method AddCells(t: Topo.Topo, x: nat, y: nat, n: nat) returns (switches: map<Pos, string>)
    requires t.g.Valid()
    modifies t`ports, t`portNodes, t.g`node, t.g`edge, t.g.edge.Values`links
    ensures t.g.Valid() && t.State() == DoAll(old(t.State()), Grid(CellOf(n), x, y))
    ensures forall p | p in t.g.edge :: t.g.edge[p] in old(t.g.edge.Values) || fresh(t.g.edge[p])
    ensures HasGrid(switches, x, y)
  {
    switches := map[];
    for i := 0 to x
      invariant t.g.Valid() && t.State() == DoAll(old(t.State()), Grid(CellOf(n), i, y))
      invariant forall p | p in t.g.edge :: t.g.edge[p] in old(t.g.edge.Values) || fresh(t.g.edge[p])
      invariant HasGrid(switches, i, y)
    {
      switches := AddRow(t, i, y, n, switches);
      DoConcat(old(t.State()), Grid(CellOf(n), i, y), Row(CellOf(n), i, y));
    }
  }

  method AddRow(t: Topo.Topo, i: nat, y: nat, n: nat, known: map<Pos, string>) returns (switches: map<Pos, string>)
    requires t.g.Valid() && HasGrid(known, i, y)
    modifies t`ports, t`portNodes, t.g`node, t.g`edge, t.g.edge.Values`links
    ensures t.g.Valid() && t.State() == DoAll(old(t.State()), Row(CellOf(n), i, y))
    ensures forall p | p in t.g.edge :: t.g.edge[p] in old(t.g.edge.Values) || fresh(t.g.edge[p])
    ensures HasGrid(switches, i + 1, y)
  {
    ghost var s := t.State();
    switches := known;
    for j := 0 to y
      invariant t.g.Valid() && t.State() == DoAll(s, Row(CellOf(n), i, j))
      invariant forall p | p in t.g.edge :: t.g.edge[p] in old(t.g.edge.Values) || fresh(t.g.edge[p])
      invariant HasGrid(switches, i, y) && HasRow(switches, i, j)
    {
      HasMore(switches, i, y, j);
      switches := switches[(i, j) := Switch((i, j))];
      AddCell(t, (i, j), n);
      RowDone(s, CellOf(n), i, j);
    }
  }

  lemma RowDone(s: State, cell: Pos -> seq<Event>, i: nat, j: nat)
    ensures DoAll(s, Row(cell, i, j + 1)) == DoAll(DoAll(s, Row(cell, i, j)), cell((i, j)))
  {
    DoConcat(s, Row(cell, i, j), cell((i, j)));
  }

  function CallsOf(x: nat, y: nat): Pos -> seq<Event>
    requires x > 0 && y > 0
  {
    a => Calls(Wire(x, y, a))
  }

  ghost predicate CallsEach(wire: Pos -> seq<(Pos, Pos)>, cell: Pos -> seq<Event>) {
    forall a :: cell(a) == Calls(wire(a))
  }

  lemma {:induction false} CallsOfRow(wire: Pos -> seq<(Pos, Pos)>, cell: Pos -> seq<Event>, i: nat, j: nat)
    requires CallsEach(wire, cell)
    ensures Row(cell, i, j) == Calls(Row(wire, i, j))
  {
    if j > 0 {
      CallsOfRow(wire, cell, i, j - 1);
    }
  }

  lemma CallsConcat(a: seq<(Pos, Pos)>, b: seq<(Pos, Pos)>)
    ensures Calls(a + b) == Calls(a) + Calls(b)
  {
  }

  lemma {:induction false} CallsOfGrid(wire: Pos -> seq<(Pos, Pos)>, cell: Pos -> seq<Event>, i: nat, y: nat)
    requires CallsEach(wire, cell)
    ensures Grid(cell, i, y) == Calls(Grid(wire, i, y))
  {
    if i > 0 {
      CallsOfGrid(wire, cell, i - 1, y);
      CallsOfRow(wire, cell, i - 1, y);
      CallsConcat(Grid(wire, i - 1, y), Row(wire, i - 1, y));
    }
  }

  /** Connect switches */
  method Connect(t: Topo.Topo, x: nat, y: nat, switches: map<Pos, string>, ghost cell: Pos -> seq<Event>)
    requires t.g.Valid() && x >= 3 && y >= 3
    requires HasGrid(switches, x, y) && Follows(cell, x, y)
    modifies t`ports, t`portNodes, t.g`node, t.g`edge, t.g.edge.Values`links
    ensures t.g.Valid() && t.State() == DoAll(old(t.State()), Grid(cell, x, y))
    ensures forall p | p in t.g.edge :: t.g.edge[p] in old(t.g.edge.Values) || fresh(t.g.edge[p])
  {
    for i := 0 to x
      invariant t.g.Valid() && t.State() == DoAll(old(t.State()), Grid(cell, i, y))
      invariant forall p | p in t.g.edge :: t.g.edge[p] in old(t.g.edge.Values) || fresh(t.g.edge[p])
    {
      ConnectRow(t, x, y, i, switches, cell);
      DoConcat(old(t.State()), Grid(cell, i, y), Row(cell, i, y));
    }
  }

  method ConnectRow(t: Topo.Topo, x: nat, y: nat, i: nat, switches: map<Pos, string>, ghost cell: Pos -> seq<Event>)
    requires t.g.Valid() && x >= 3 && y >= 3 && i < x
    requires HasGrid(switches, x, y) && Follows(cell, x, y)
    modifies t`ports, t`portNodes, t.g`node, t.g`edge, t.g.edge.Values`links
    ensures t.g.Valid() && t.State() == DoAll(old(t.State()), Row(cell, i, y))
    ensures forall p | p in t.g.edge :: t.g.edge[p] in old(t.g.edge.Values) || fresh(t.g.edge[p])
  {
    ghost var s := t.State();
    for j := 0 to y
      invariant t.g.Valid() && t.State() == DoAll(s, Row(cell, i, j))
      invariant forall p | p in t.g.edge :: t.g.edge[p] in old(t.g.edge.Values) || fresh(t.g.edge[p])
    {
      AddWires(t, x, y, (i, j), switches, cell);
      RowDone(s, cell, i, j);
    }
  }

  /** TorusTopo(x, y, n); false is the exception for a torus that is too small. */
  method Build(x: int, y: int, n: nat) returns (t: Topo.Topo, ok: bool)
    ensures fresh(t) && ok == (x >= 3 && y >= 3)
    ensures t.State() == if ok then DoAll(EMPTY, Built(x, y, n)) else EMPTY
    ensures ok ==> Inv(t.State())
  {
    t := new Topo.Topo();
    ok := x >= 3 && y >= 3;
    if ok {
      var switches := AddCells(t, x, y, n);
      Connect(t, x, y, switches, CallsOf(x, y));
      CallsOfGrid(WireOf(x, y), CallsOf(x, y), x, y);
      DoConcat(EMPTY, Grid(CellOf(n), x, y), Calls(Grid(WireOf(x, y), x, y)));
      BuiltSound(x, y, n);
    }
  }
}
