/**
 Mastership of a switch: the generation ids a Datapath object hands out, and the switch that
 rejects stale ones (section 6.3.4 of the OpenFlow Switch Specification 1.3.0).
 */
module Roles {
  import opened Base

  datatype Role = Equal | Master | Slave

  /** The switch's side: the newest generation id it has seen, and the roles of its controllers. */
  datatype Switch = Switch(cached: Option<nat>, roles: map<Lcid, Role>)

  const HALF: nat := 0x8000_0000_0000_0000
  const FULL: nat := 0x1_0000_0000_0000_0000

  /** The distance of two 64-bit ids as a signed number is negative. */
  predicate Stale(gid: nat, cached: nat) {
    (gid - cached) % FULL >= HALF
  }

  function RoleOf(s: Switch, c: Lcid): Role {
    if c in s.roles then s.roles[c] else Equal
  }

  /** OFPT_ROLE_REQUEST with role MASTER: stale ids are refused; otherwise the master so far becomes
      a slave. */
  function RequestMaster(s: Switch, c: Lcid, gid: nat): Switch {
    if s.cached.Some? && Stale(gid, s.cached.value) then s
    else Switch(Some(gid), map x | x in s.roles.Keys + {c} ::
      if x == c then Master else if s.roles[x].Master? then Slave else s.roles[x])
  }

  /** What a switch makes of a role request, by its code: 0 changes nothing, 1 is EQUAL, 2 MASTER and 3
      SLAVE; the last two carry a generation id that must not be stale. */
  function React(s: Switch, c: Lcid, role: int, gid: nat): Switch {
    if role == 1 then s.(roles := s.roles[c := Equal])
    else if role == 2 then RequestMaster(s, c, gid)
    else if role == 3 then
      if s.cached.Some? && Stale(gid, s.cached.value) then s else Switch(Some(gid), s.roles[c := Slave])
    else s
  }

  /** What makes the central controller draw a generation id of a datapath: a ROLE_ASSIGN for a
      controller that connected, or a GID_REPLY. */
  datatype Draw = Assign(lc: Lcid) | Reply

  /** get_generation_id, drawn once per event from 1 on: the role assignments with their ids. */
  function Issued(draws: seq<Draw>): (r: seq<(Lcid, nat)>) {
    if draws == [] then []
    else
      var n := |draws| - 1;
      Issued(draws[..n]) + match draws[n] case Assign(lc) => [(lc, n + 1)] case Reply => []
  }

  lemma IssuedMore(draws: seq<Draw>, lc: Lcid)
    ensures Issued(draws + [Assign(lc)]) == Issued(draws) + [(lc, |draws| + 1)]
  {
    assert (draws + [Assign(lc)])[..|draws|] == draws;
  }

  /** An assignment is issued exactly for each draw for one, with the number of the draw for its id. */
  lemma {:induction false} IssuedExact(draws: seq<Draw>, lc: Lcid, gid: nat)
    ensures (lc, gid) in Issued(draws) <==> 1 <= gid <= |draws| && draws[gid - 1] == Assign(lc)
  {
    if draws != [] {
      IssuedExact(draws[..|draws| - 1], lc, gid);
    }
  }

  /** Strictly increasing while the Datapath object lives. */
  lemma {:induction false} IssuedIncreases(draws: seq<Draw>)
    ensures forall i | 0 <= i < |Issued(draws)| :: 0 < Issued(draws)[i].1 <= |draws|
    ensures forall i, j | 0 <= i < j < |Issued(draws)| :: Issued(draws)[i].1 < Issued(draws)[j].1
    decreases |draws|
  {
    if draws != [] {
      IssuedIncreases(draws[..|draws| - 1]);
    }
  }

  // ---------------------------------------------------------------------------
  // What the switch makes of requests
  // ---------------------------------------------------------------------------

  /** The switch after these requests, the oldest first. */
  function Requests(s: Switch, ms: seq<(Lcid, nat)>): Switch {
    if ms == [] then s
    else
      var m := ms[|ms| - 1];
      RequestMaster(Requests(s, ms[..|ms| - 1]), m.0, m.1)
  }

  lemma {:induction false} RequestsConcat(s: Switch, ms: seq<(Lcid, nat)>, more: seq<(Lcid, nat)>)
    ensures Requests(s, ms + more) == Requests(Requests(s, ms), more)
  {
    if more == [] {
      assert ms + more == ms;
    } else {
      var n := |more| - 1;
      assert (ms + more)[..|ms + more| - 1] == ms + more[..n];
      RequestsConcat(s, ms, more[..n]);
    }
  }

  /** The place of the request with the greatest id, of several the last. */
  function Winner(ms: seq<(Lcid, nat)>): (w: nat)
    requires ms != []
    ensures w < |ms|
  {
    var n := |ms| - 1;
    if n == 0 || ms[n].1 >= ms[Winner(ms[..n])].1 then n else Winner(ms[..n])
  }

  /** No request has a greater id, and no later one has as great an id. */
  ghost predicate LastMax(ms: seq<(Lcid, nat)>, w: nat) {
    && w < |ms| && (forall i | 0 <= i < |ms| :: ms[i].1 <= ms[w].1)
    && (forall i | w < i < |ms| :: ms[i].1 < ms[w].1)
  }

  lemma {:induction false} WinnerIsLastMax(ms: seq<(Lcid, nat)>)
    requires ms != []
    ensures LastMax(ms, Winner(ms))
    decreases |ms|
  {
    if |ms| > 1 { WinnerIsLastMax(ms[..|ms| - 1]); }
  }

  lemma LastMaxOnce(ms: seq<(Lcid, nat)>, v: nat, w: nat)
    requires LastMax(ms, v) && LastMax(ms, w)
    ensures v == w
  {
    assert ms[v].1 == ms[w].1;
  }

  /** Less than 2^63 apart, stale is less. */
  lemma StaleIsLess(gid: nat, cached: nat)
    requires gid < HALF && cached < HALF
    ensures Stale(gid, cached) <==> gid < cached
  {
  }

  ghost predicate NoMaster(roles: map<Lcid, Role>) {
    forall c | c in roles :: !roles[c].Master?
  }

  /** Exactly `c` is master. */
  ghost predicate SoleMaster(s: Switch, c: Lcid) {
    forall x :: RoleOf(s, x).Master? <==> x == c
  }

  ghost predicate Won(s: Switch, m: (Lcid, nat)) {
    s.cached == Some(m.1) && SoleMaster(s, m.0)
  }

  /** One more request, after the one that won so far. */
  lemma RequestAfter(s: Switch, won: (Lcid, nat), m: (Lcid, nat))
    requires Won(s, won) && won.1 < HALF && m.1 < HALF
    ensures var r := RequestMaster(s, m.0, m.1); if m.1 >= won.1 then Won(r, m) else r == s
  {
    StaleIsLess(m.1, won.1);
  }

  lemma FirstRequest(s: Switch, m: (Lcid, nat))
    requires s.cached.None? && NoMaster(s.roles)
    ensures Won(RequestMaster(s, m.0, m.1), m)
  {
  }

  ghost predicate InRange(ms: seq<(Lcid, nat)>) {
    forall i | 0 <= i < |ms| :: ms[i].1 < HALF
  }

  /** Whatever requests reach a switch, of however many Datapath objects for it one after the other
      and in whatever order: the newest id is the greatest, and the controller of the last request
      that has it is the switch's only master. */
  lemma {:induction false} LastMaxIsMaster(roles: map<Lcid, Role>, ms: seq<(Lcid, nat)>)
    requires NoMaster(roles) && ms != [] && InRange(ms)
    ensures Won(Requests(Switch(None, roles), ms), ms[Winner(ms)])
    decreases |ms|
  {
    var n, s := |ms| - 1, Switch(None, roles);
    if n == 0 {
      assert Requests(s, ms[..n]) == s;
      FirstRequest(s, ms[n]);
    } else {
      LastMaxIsMaster(roles, ms[..n]);
      RequestAfter(Requests(s, ms[..n]), ms[..n][Winner(ms[..n])], ms[n]);
    }
  }

  /** So a new request is granted exactly if no id that arrived is greater; else it changes nothing. */
  lemma GrantedIffGreatest(roles: map<Lcid, Role>, ms: seq<(Lcid, nat)>, c: Lcid, gid: nat)
    requires NoMaster(roles) && InRange(ms) && gid < HALF
    ensures var s := Requests(Switch(None, roles), ms);
            var r := RequestMaster(s, c, gid);
            && (Won(r, (c, gid)) <==> forall i | 0 <= i < |ms| :: ms[i].1 <= gid)
            && (r != s ==> Won(r, (c, gid)))
  {
    var s := Requests(Switch(None, roles), ms);
    if ms == [] {
      FirstRequest(s, (c, gid));
    } else {
      LastMaxIsMaster(roles, ms);
      WinnerIsLastMax(ms);
      RequestAfter(s, ms[Winner(ms)], (c, gid));
    }
  }

  /** When the request arrived no id before it was greater. */
  ghost predicate GrantedAt(ms: seq<(Lcid, nat)>, i: nat) {
    i < |ms| && forall j | 0 <= j < i :: ms[j].1 <= ms[i].1
  }

  /** Some request of the controller was granted. */
  ghost predicate EverGranted(ms: seq<(Lcid, nat)>, c: Lcid) {
    exists i :: GrantedTo(ms, i, c)
  }

  ghost predicate GrantedTo(ms: seq<(Lcid, nat)>, i: nat, c: Lcid) {
    GrantedAt(ms, i) && ms[i].0 == c
  }

  lemma GrantedLess(ms: seq<(Lcid, nat)>, i: nat)
    requires i + 1 < |ms|
    ensures GrantedAt(ms[..|ms| - 1], i) <==> GrantedAt(ms, i)
  {
    assert forall j | 0 <= j <= i :: ms[..|ms| - 1][j] == ms[j];
  }

  lemma EverMore(ms: seq<(Lcid, nat)>, c: Lcid)
    requires ms != []
    ensures var n := |ms| - 1;
            EverGranted(ms, c) <==> EverGranted(ms[..n], c) || (GrantedAt(ms, n) && ms[n].0 == c)
  {
    var n := |ms| - 1;
    var less := ms[..n];
    if i: nat :| GrantedTo(less, i, c) {
      GrantedLess(ms, i);
      assert GrantedTo(ms, i, c);
    }
    if i: nat :| GrantedTo(ms, i, c) {
      if i < n {
        GrantedLess(ms, i);
        assert GrantedTo(less, i, c);
      }
    }
    assert GrantedTo(ms, n, c) <==> GrantedAt(ms, n) && ms[n].0 == c;
  }

  lemma GrantChanges(s: Switch, m: (Lcid, nat), c: Lcid)
    requires s.cached.Some? ==> !Stale(m.1, s.cached.value)
    ensures RoleOf(RequestMaster(s, m.0, m.1), c) ==
            if c == m.0 then Master else if RoleOf(s, c).Master? then Slave else RoleOf(s, c)
  {
  }

  /** The role that a controller has after some requests */
  ghost function RoleAfter(roles: map<Lcid, Role>, ms: seq<(Lcid, nat)>, c: Lcid): Role {
    if ms != [] && ms[Winner(ms)].0 == c then Master
    else if EverGranted(ms, c) then Slave
    else RoleOf(Switch(None, roles), c)
  }

  /** The winner's request was granted. */
  lemma WinnerGranted(ms: seq<(Lcid, nat)>)
    requires ms != []
    ensures EverGranted(ms, ms[Winner(ms)].0)
  {
    WinnerIsLastMax(ms);
    assert GrantedTo(ms, Winner(ms), ms[Winner(ms)].0);
  }

  /** Whatever requests arrive: the winner's controller is master, every other of which some request was ever
      granted is slave, and those of which none was keep their roles. */
  lemma {:induction false} RolesTold(roles: map<Lcid, Role>, ms: seq<(Lcid, nat)>, c: Lcid)
    requires NoMaster(roles) && InRange(ms)
    ensures RoleOf(Requests(Switch(None, roles), ms), c) == RoleAfter(roles, ms, c)
    decreases |ms|
  {
    if ms != [] {
      var n := |ms| - 1;
      var less, s := ms[..n], Requests(Switch(None, roles), ms[..n]);
      RolesTold(roles, less, c);
      EverMore(ms, c);
      if n > 0 {
        LastMaxIsMaster(roles, less);
        WinnerIsLastMax(less);
        WinnerGranted(less);
        StaleIsLess(ms[n].1, less[Winner(less)].1);
      }
      if GrantedAt(ms, n) {
        GrantChanges(s, ms[n], c);
      }
    }
  }

  // ---------------------------------------------------------------------------
  // The requests of one Datapath object, and of the one after it
  // ---------------------------------------------------------------------------

  /** The requests that arrive, by their place in the list of those issued: any order, with losses
      and repetitions. */
  function Arrived(log: seq<(Lcid, nat)>, order: seq<nat>): (r: seq<(Lcid, nat)>)
    requires forall i | 0 <= i < |order| :: order[i] < |log|
    ensures |r| == |order|
  {
    seq(|order|, i requires 0 <= i < |order| => log[order[i]])
  }

  ghost predicate Places(draws: seq<Draw>, order: seq<nat>) {
    |draws| < HALF && forall i | 0 <= i < |order| :: order[i] < |Issued(draws)|
  }

  function Newest(order: seq<nat>): nat
    requires order != []
  {
    var n := |order| - 1;
    if n == 0 || order[n] >= Newest(order[..n]) then order[n] else Newest(order[..n])
  }

  lemma {:induction false} NewestIsMax(order: seq<nat>)
    requires order != []
    ensures Newest(order) in order && forall i | 0 <= i < |order| :: order[i] <= Newest(order)
    decreases |order|
  {
    var n := |order| - 1;
    if n > 0 { NewestIsMax(order[..n]); }
  }

  lemma ArrivedInRange(draws: seq<Draw>, order: seq<nat>)
    requires Places(draws, order)
    ensures InRange(Arrived(Issued(draws), order))
  {
    IssuedIncreases(draws);
  }

  /** Of one object's requests the newest has the greatest id. */
  lemma WinnerIsNewest(draws: seq<Draw>, order: seq<nat>)
    requires Places(draws, order) && order != []
    ensures Newest(order) < |Issued(draws)|
    ensures Arrived(Issued(draws), order)[Winner(Arrived(Issued(draws), order))] == Issued(draws)[Newest(order)]
  {
    var log := Issued(draws);
    var ms := Arrived(log, order);
    var w := Winner(ms);
    IssuedIncreases(draws);
    NewestIsMax(order);
    WinnerIsLastMax(ms);
    var i :| 0 <= i < |order| && order[i] == Newest(order);
    assert ms[i].1 <= ms[w].1 && order[w] <= Newest(order);
    if order[w] < Newest(order) { assert false; }
  }

  /** Single master: whatever of one object's requests reaches the switch in whatever order, exactly
      one controller is its master, the one of the newest assignment that arrived. */
  lemma SingleMaster(draws: seq<Draw>, roles: map<Lcid, Role>, order: seq<nat>)
    requires NoMaster(roles) && Places(draws, order) && order != []
    ensures Newest(order) < |Issued(draws)|
    ensures Won(Requests(Switch(None, roles), Arrived(Issued(draws), order)), Issued(draws)[Newest(order)])
  {
    ArrivedInRange(draws, order);
    WinnerIsNewest(draws, order);
    LastMaxIsMaster(roles, Arrived(Issued(draws), order));
  }

  lemma {:induction false} AllRefused(s: Switch, ms: seq<(Lcid, nat)>)
    requires InRange(ms) && s.cached.Some? && s.cached.value < HALF
    requires forall i | 0 <= i < |ms| :: ms[i].1 < s.cached.value
    ensures Requests(s, ms) == s
    decreases |ms|
  {
    if ms != [] {
      AllRefused(s, ms[..|ms| - 1]);
      StaleIsLess(ms[|ms| - 1].1, s.cached.value);
    }
  }

  lemma LastMaxConcat(ms: seq<(Lcid, nat)>, v: nat, more: seq<(Lcid, nat)>, w: nat)
    requires LastMax(ms, v) && LastMax(more, w) && more[w].1 >= ms[v].1
    ensures LastMax(ms + more, |ms| + w)
  {
    var all := ms + more;
    forall i | 0 <= i < |all| ensures all[i].1 <= all[|ms| + w].1 && (|ms| + w < i ==> all[i].1 < all[|ms| + w].1) {
      assert all[i] == if i < |ms| then ms[i] else more[i - |ms|];
    }
  }

  /** The winner of two batches: that of the second, unless the first has a greater id. */
  lemma WinnerOfBoth(ms: seq<(Lcid, nat)>, more: seq<(Lcid, nat)>)
    requires ms != [] && more != [] && more[Winner(more)].1 >= ms[Winner(ms)].1
    ensures (ms + more)[Winner(ms + more)] == more[Winner(more)]
  {
    WinnerIsLastMax(ms);
    WinnerIsLastMax(more);
    WinnerIsLastMax(ms + more);
    LastMaxConcat(ms, Winner(ms), more, Winner(more));
    LastMaxOnce(ms + more, Winner(ms + more), |ms| + Winner(more));
  }

  /** A Datapath object that was deleted and made anew starts again at id 1. Whatever of the new
      object's requests arrives, in whatever order: the newest of them decides exactly if no id of
      the earlier objects is greater than its own; otherwise they are all refused and the switch
      stays with the master it had. */
  lemma RestartRefused(roles: map<Lcid, Role>, ms: seq<(Lcid, nat)>, draws: seq<Draw>, order: seq<nat>)
    requires NoMaster(roles) && ms != [] && InRange(ms) && Places(draws, order) && order != []
    ensures Newest(order) < |Issued(draws)|
    ensures var s := Requests(Switch(None, roles), ms);
            var r := Requests(s, Arrived(Issued(draws), order));
            var newest := Issued(draws)[Newest(order)];
            if forall i | 0 <= i < |ms| :: ms[i].1 <= newest.1 then Won(r, newest) else r == s
  {
    var s, more := Requests(Switch(None, roles), ms), Arrived(Issued(draws), order);
    ArrivedInRange(draws, order);
    WinnerIsNewest(draws, order);
    WinnerIsLastMax(ms);
    WinnerIsLastMax(more);
    LastMaxIsMaster(roles, ms);
    if more[Winner(more)].1 >= ms[Winner(ms)].1 {
      RequestsConcat(Switch(None, roles), ms, more);
      LastMaxIsMaster(roles, ms + more);
      WinnerOfBoth(ms, more);
    } else {
      AllRefused(s, more);
    }
  }
}
