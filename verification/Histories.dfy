/**
 Where the assumptions about a network come from: in whatever states the runs of the local
 controllers and of the central one have brought them to, what each of them knows fits the cables
 and what the others know.
 */
module Histories {
  import opened Base
  import opened Graphs
  import opened Fabric
  import opened FlowTables
  import opened Delivery
  import opened NetworkRuns
  import opened NetworkMail
  import T = Transit
  import D = DomainGraph
  import S = Stitching
  import L = LocalSteps
  import P = LocalPending
  import V = Discovery
  import B = Borders

  /** The run of a local controller so far */
  datatype History = History(ls: seq<L.Local>, ms: seq<P.Move>)

  type Owner = map<Dpid, Lcid>

  predicate Has(owner: Owner, u: Lcid, d: Dpid) {
    d in owner && owner[d] == u
  }

  /** The switches that connect to a controller and that it discovers are those of its domain. */
  predicate OwnSwitches(owner: Owner, u: Lcid, m: P.Move) {
    match m
    case Features(d) => Has(owner, u, d)
    case Topology(switches, _, links, _, _) =>
      && (forall d | d in switches :: Has(owner, u, d))
      && forall l | l in links :: Has(owner, u, l.src) && Has(owner, u, l.dst)
    case _ => true
  }

  /** A run from the start, with discoveries of the domain's own switches and cables */
  ghost predicate Lawful(h: History, u: Lcid, owner: Owner, wire: T.Wire) {
    && P.Runs(h.ls, h.ms) && h.ls[0].fabric == EMPTY
    && forall i | 0 <= i < |h.ms| :: V.Truthful(wire, h.ms[i]) && OwnSwitches(owner, u, h.ms[i])
  }

  // ---------------------------------------------------------------------------
  // A controller knows switches of its own domain only
  // ---------------------------------------------------------------------------

  ghost predicate Domestic(f: Fabric, owner: Owner, u: Lcid) {
    (forall d | Sw(d) in f.nodes :: Has(owner, u, d)) && forall d | d in f.macs :: Has(owner, u, d)
  }

  lemma LearnDomestic(f: Fabric, d: Dpid, p: Port, h: Mac, owner: Owner, u: Lcid)
    requires Domestic(f, owner, u) && d in f.macs
    ensures Domestic(Learn(f, d, p, h), owner, u)
  {
  }

  lemma DiscoverDomestic(f: Fabric, switches: set<Dpid>, links: seq<Link>, owner: Owner, u: Lcid)
    requires Domestic(f, owner, u) && forall d | d in switches :: Has(owner, u, d)
    requires forall l | l in links :: Has(owner, u, l.src) && Has(owner, u, l.dst)
    ensures Domestic(Discover(f, switches, links), owner, u)
  {
    V.DiscoverFinds(f, switches, links);
    var all := links + Reversed(links);
    forall l | l in all ensures Has(owner, u, l.src) && Has(owner, u, l.dst) {
      var i :| 0 <= i < |all| && all[i] == l;
      assert links[if i < |links| then i else i - |links|] in links;
    }
  }

  lemma ArrivalDomestic(l: L.Local, p: L.Packet, now: int, path: seq<Node>, owner: Owner, u: Lcid)
    requires L.LocalInv(l) && Domestic(l.fabric, owner, u)
    ensures Domestic(L.PacketIn(l, p, now, path).0.fabric, owner, u)
  {
    if p.dpid in l.load && p.dst != L.LLDP_MAC {
      L.HeardLearns(l, p);
      if L.Teaches(l, p) { LearnDomestic(l.fabric, p.dpid, p.inPort, p.src, owner, u); }
    }
  }

  lemma MoveDomestic(l: L.Local, m: P.Move, owner: Owner, u: Lcid)
    requires L.LocalInv(l) && Domestic(l.fabric, owner, u) && OwnSwitches(owner, u, m)
    ensures Domestic(P.Moved(l, m).fabric, owner, u)
  {
    match m
    case Arrives(p, now, path) => ArrivalDomestic(l, p, now, path, owner, u);
    case Topology(switches, _, links, _, _) => DiscoverDomestic(l.fabric, switches, links, owner, u);
    case _ =>
  }

  lemma {:induction false} HistoryDomestic(h: History, u: Lcid, owner: Owner, wire: T.Wire, n: nat)
    requires Lawful(h, u, owner, wire) && n < |h.ls|
    ensures L.LocalInv(h.ls[n]) && Domestic(h.ls[n].fabric, owner, u)
  {
    P.RunKeeps(h.ls, h.ms, n);
    if n > 0 {
      HistoryDomestic(h, u, owner, wire, n - 1);
      MoveDomestic(h.ls[n - 1], h.ms[n - 1], owner, u);
    }
  }

  // ---------------------------------------------------------------------------
  // The network at some time
  // ---------------------------------------------------------------------------

  /** The local controllers as they are after `at` moves each */
  function LocalsAt(hs: map<Lcid, History>, at: Lcid -> nat): (ls: map<Lcid, L.Local>)
    requires forall u | u in hs :: at(u) < |hs[u].ls|
  {
    map u | u in hs :: hs[u].ls[at(u)]
  }

  function NetworkOf(ls: map<Lcid, L.Local>, t: D.Topo, pick: S.Pick, ctrls: set<Lcid>, owner: Owner,
                     wire: T.Wire): Network {
    Network(t, pick, ctrls, map u | u in ls :: Site(ls[u].fabric, ls[u].datapaths), owner, wire)
  }

  /** Runs of all controllers: each local one has made `at` moves, the central one has handled `k` events. */
  ghost predicate Reached(hs: map<Lcid, History>, at: Lcid -> nat, ts: seq<D.Topo>, es: seq<D.Event>, k: nat,
                          owner: Owner, wire: T.Wire) {
    && (forall u | u in hs :: Lawful(hs[u], u, owner, wire) && at(u) < |hs[u].ls|)
    && D.Run(ts, es) && k < |ts| && forall j | 0 <= j < |es| :: Reports(es[j], owner, wire)
  }

  /** A report names home controllers that are those of the domains, and windows that are cables. */
  predicate Reports(e: D.Event, owner: Owner, wire: T.Wire) {
    e.GraphInfo? ==> (forall d | d in e.homes :: Has(owner, e.homes[d], d)) && B.AreCables(wire, e.windows)
  }

  lemma SiteFits(h: History, i: nat, u: Lcid, owner: Owner, wire: T.Wire)
    requires Lawful(h, u, owner, wire) && i < |h.ls|
    ensures L.LocalInv(h.ls[i]) && T.Agrees(h.ls[i].fabric, wire)
    ensures forall d | Sw(d) in h.ls[i].fabric.nodes :: Has(owner, u, d)
  {
    HistoryDomestic(h, u, owner, wire, i);
    V.HandlersAgree(h.ls, h.ms, wire, i);
  }

  /** Runs bring about a consistent network: at any time what the controllers know fits the cables, no
      switch is in two domains, and the edges of the graph of domains are cables between them. */
  lemma ReachedConsistent(hs: map<Lcid, History>, at: Lcid -> nat, ts: seq<D.Topo>, es: seq<D.Event>, k: nat,
                          pick: S.Pick, ctrls: set<Lcid>, owner: Owner, wire: T.Wire, tables: Tables)
    requires Reached(hs, at, ts, es, k, owner, wire)
    ensures var ls := LocalsAt(hs, at);
            var n := NetworkOf(ls, ts[k], pick, ctrls, owner, wire);
            Consistent(n) && Sees(n, World(ls, tables))
  {
    var ls := LocalsAt(hs, at);
    var n := NetworkOf(ls, ts[k], pick, ctrls, owner, wire);
    forall u | u in hs
      ensures L.LocalInv(ls[u]) && T.Agrees(ls[u].fabric, wire)
      ensures forall d | Sw(d) in ls[u].fabric.nodes :: Owns(n, u, d)
    {
      SiteFits(hs[u], at(u), u, owner, wire);
    }
    forall j | 0 <= j < |es| ensures B.Truthful(n, es[j]) {
      assert Reports(es[j], owner, wire);
    }
    B.RunCables(n, ts, es, k);
  }

  /** So after any such runs the queues deliver: nothing is assumed of what the controllers know but how
      they came to know it. */
  lemma ReachedDelivers(hs: map<Lcid, History>, at: Lcid -> nat, ts: seq<D.Topo>, es: seq<D.Event>, k: nat,
                        pick: S.Pick, ctrls: set<Lcid>, owner: Owner, wire: T.Wire, tables: Tables,
                        hosts: map<Mac, Lcid>, start: Lcid, inDpid: Dpid, srcMac: Mac, dstMac: Mac, path: seq<Lcid>,
                        xid: nat, took: seq<Taken>, jobs: seq<Job>)
    returns (visited: seq<Dpid>)
    requires Reached(hs, at, ts, es, k, owner, wire)
    requires var n := NetworkOf(LocalsAt(hs, at), ts[k], pick, ctrls, owner, wire);
             && Asks(n, hosts, start, srcMac, dstMac, path) && S.Agrees(ts[k], pick, path)
             && MailTaken(OrdersFor(n, hosts, start, inDpid, srcMac, dstMac, path), xid, took)
             && AllRead(took, jobs) && AllReady(n, World(LocalsAt(hs, at), tables), jobs) && SamePaths(jobs)
    ensures var n, w := NetworkOf(LocalsAt(hs, at), ts[k], pick, ctrls, owner, wire), World(LocalsAt(hs, at), tables);
            && (forall i | 0 <= i < |jobs| :: Do(After(w, jobs[..i]), jobs[i]).1)
            && Delivers(n, After(w, jobs).tables, path, inDpid, dstMac, visited)
  {
    ReachedConsistent(hs, at, ts, es, k, pick, ctrls, owner, wire, tables);
    visited := QueuesDeliver(NetworkOf(LocalsAt(hs, at), ts[k], pick, ctrls, owner, wire),
                             World(LocalsAt(hs, at), tables), hosts, start, inDpid, srcMac, dstMac, path, xid, took,
                             jobs);
  }
}
