/**
 The silence detector of the central controller: three flags per local controller, advanced by the
 timer of _ms_switch_decide and cleared by hellos and echo replies.
 */
module Silence {
  import opened Base

  datatype Flags = Flags(out: bool, first: bool, second: bool)

  const CLEAR := Flags(false, false, false)

  /** One visit of the timer; the result says whether the switch-over is executed. */
  function Tick(f: Flags): (Flags, bool) {
    if f.out then (f, false)
    else if !f.first then (f.(first := true, second := false), false)
    else if f.second then (f.(out := true), true)
    else (f.(second := true), false)
  }

  datatype Event = Timer | Heard

  function Step(f: Flags, e: Event): (Flags, bool) {
    match e
    case Timer => Tick(f)
    case Heard => (CLEAR, false)
  }

  function After(es: seq<Event>): Flags {
    if es == [] then CLEAR else Step(After(es[..|es| - 1]), es[|es| - 1]).0
  }

  /** The switch-over is executed at the last of the events. */
  predicate Executes(es: seq<Event>) {
    es != [] && Step(After(es[..|es| - 1]), es[|es| - 1]).1
  }

  /** How many timer visits there were since the controller was last heard. */
  function Missed(es: seq<Event>): nat {
    if es == [] || es[|es| - 1].Heard? then 0 else Missed(es[..|es| - 1]) + 1
  }

  /** The flags count the missed visits, up to three. */
  function FlagsFor(n: nat): Flags {
    if n == 0 then CLEAR
    else if n == 1 then Flags(false, true, false)
    else if n == 2 then Flags(false, true, true)
    else Flags(true, true, true)
  }

  /** After any events the flags show how long the controller has been silent, the second flag is
      never up without the first, and the switch-over is executed exactly at the third visit in a
      row that finds it silent: once in every silent period. */
  lemma {:induction false} Counts(es: seq<Event>)
    ensures After(es) == FlagsFor(Missed(es))
    ensures After(es).second ==> After(es).first
    ensures Executes(es) <==> Missed(es) == 3
    decreases |es|
  {
    if es != [] {
      Counts(es[..|es| - 1]);
    }
  }

  /** Between two executions the controller was heard. */
  lemma {:induction false} OncePerSilence(es: seq<Event>, i: nat, j: nat)
    requires 0 < i < j <= |es| && Executes(es[..i]) && Executes(es[..j])
    ensures exists k :: i <= k < j && es[k].Heard?
  {
    Counts(es[..i]);
    Counts(es[..j]);
    if forall k | i <= k < j :: es[k].Timer? {
      MissedGrows(es, i, j);
    }
  }

  lemma {:induction false} MissedGrows(es: seq<Event>, i: nat, j: nat)
    requires i <= j <= |es| && forall k | i <= k < j :: es[k].Timer?
    ensures Missed(es[..j]) == Missed(es[..i]) + (j - i)
    decreases j
  {
    if i < j {
      MissedGrows(es, i, j - 1);
      assert es[..j][..j - 1] == es[..j - 1];
    }
  }
}
