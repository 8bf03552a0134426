/**
 The ids of the local controllers: the central controller numbers the addresses that say hello, and
 begins anew when the numbers are used up.
 */
module Ids {
  import opened Base

  const MAX_ID: nat := 0xffff_ffff

  /** self.glcid and self.lcip_to_lcid */
  datatype Numbers = Numbers(next: Lcid, given: map<nat, Lcid>)

  const START := Numbers(1, map[])

  /** An address says hello: it keeps its id, or gets the next one. */
  function Greeted(s: Numbers, address: nat): Numbers {
    if address in s.given then s
    else Numbers(if s.next + 1 > MAX_ID then 1 else s.next + 1, s.given[address := s.next])
  }

  function GreetedBy(addresses: seq<nat>): Numbers {
    if addresses == [] then START
    else Greeted(GreetedBy(addresses[..|addresses| - 1]), addresses[|addresses| - 1])
  }

  /** The addresses in the order in which they first said hello */
  function Firsts(addresses: seq<nat>): seq<nat> {
    if addresses == [] then []
    else
      var before, a := Firsts(addresses[..|addresses| - 1]), addresses[|addresses| - 1];
      if a in before then before else before + [a]
  }

  lemma {:induction false} FirstsAll(addresses: seq<nat>)
    ensures Distinct(Firsts(addresses)) && forall a :: a in Firsts(addresses) <==> a in addresses
  {
    if addresses != [] {
      var n := |addresses| - 1;
      FirstsAll(addresses[..n]);
      assert addresses == addresses[..n] + [addresses[n]];
    }
  }

  /** The ids count round from 1 to MAX_ID. */
  function IdAt(i: nat): nat {
    i % MAX_ID + 1
  }

  /** They are those of the addresses in their order. */
  ghost predicate Round(s: Numbers, firsts: seq<nat>) {
    && s.next == IdAt(|firsts|)
    && (forall a :: a in s.given <==> a in firsts)
    && forall i: nat | i < |firsts| :: firsts[i] in s.given && s.given[firsts[i]] == IdAt(i)
  }

  lemma NextRound(n: nat)
    ensures IdAt(n + 1) == if IdAt(n) + 1 > MAX_ID then 1 else IdAt(n) + 1
  {
    var q, r := n / MAX_ID, n % MAX_ID;
    assert n == q * MAX_ID + r;
    if r == MAX_ID - 1 { assert n + 1 == (q + 1) * MAX_ID; }
  }

  lemma RoundMore(s: Numbers, firsts: seq<nat>, a: nat)
    requires Round(s, firsts) && a !in firsts
    ensures Round(Greeted(s, a), firsts + [a])
  {
    NextRound(|firsts|);
    var t, more := Greeted(s, a), firsts + [a];
    forall i: nat | i < |more| ensures more[i] in t.given && t.given[more[i]] == IdAt(i) {
      if i < |firsts| { assert firsts[i] in firsts; }
    }
  }

  lemma {:induction false} IdsGoRound(addresses: seq<nat>)
    ensures Round(GreetedBy(addresses), Firsts(addresses))
  {
    if addresses != [] {
      var n := |addresses| - 1;
      IdsGoRound(addresses[..n]);
      var before, a := Firsts(addresses[..n]), addresses[n];
      if a !in before { RoundMore(GreetedBy(addresses[..n]), before, a); }
    }
  }

  lemma SameRemainder(i: nat, j: nat)
    requires i <= j
    ensures i % MAX_ID == j % MAX_ID <==> (j - i) % MAX_ID == 0
  {
    var p, r, q, s := i / MAX_ID, i % MAX_ID, j / MAX_ID, j % MAX_ID;
    assert i == p * MAX_ID + r && j == q * MAX_ID + s;
    var k, t := (j - i) / MAX_ID, (j - i) % MAX_ID;
    assert j - i == k * MAX_ID + t;
    assert (q - p - k) * MAX_ID == t + r - s;
  }

  /** Two controllers have the same id exactly if a multiple of MAX_ID addresses came between them: with
      fewer addresses than that in all, the ids are different. */
  lemma SameIdIff(addresses: seq<nat>, i: nat, j: nat)
    requires i <= j < |Firsts(addresses)|
    ensures var s, a, b := GreetedBy(addresses), Firsts(addresses)[i], Firsts(addresses)[j];
            && a in s.given && b in s.given
            && (s.given[a] == s.given[b] <==> (j - i) % MAX_ID == 0)
  {
    IdsGoRound(addresses);
    SameRemainder(i, j);
  }

  /** An id once given is kept. */
  lemma {:induction false} IdKept(addresses: seq<nat>, more: seq<nat>, a: nat)
    requires a in GreetedBy(addresses).given
    ensures a in GreetedBy(addresses + more).given
            && GreetedBy(addresses + more).given[a] == GreetedBy(addresses).given[a]
    decreases |more|
  {
    if more == [] {
      assert addresses + more == addresses;
    } else {
      var n := |more| - 1;
      IdKept(addresses, more[..n], a);
      assert (addresses + more)[..|addresses + more| - 1] == addresses + more[..n];
    }
  }
}
