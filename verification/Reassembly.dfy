/**
 The receive loops of controller.py and cc_agent.py: bytes arrive in arbitrary pieces and
 leave as dispatched messages.
 */
module Reassembly {
  import opened Base
  import opened Wire

  datatype Status = Reading | Raised | Spinning

  /** The loop's variables, the events dispatched so far, and how the loop stands. */
  datatype Rx = Rx(buf: seq<byte>, required: nat, events: seq<(Msg, nat)>, status: Status)

  const IDLE := Rx([], HEADER_SIZE, [], Reading)

  /** msg_handler[msg_type](...) on the receive buffer. */
  type Handler = seq<byte> -> Dispatched

  function HandlerOf(side: Side): Handler {
    buf => if |buf| < HEADER_SIZE then Raises else Dispatch(side, HeaderType(buf), HeaderXid(buf), buf)
  }

  /** The guard of the inner loop. */
  predicate Continues(rx: Rx) {
    rx.status.Reading? && rx.required >= HEADER_SIZE && |rx.buf| >= rx.required
  }

  /** One pass of the inner loop. */
  function Pass(h: Handler, rx: Rx): Rx
    requires Continues(rx)
  {
    var len := HeaderLen(rx.buf);
    if |rx.buf| < len then rx.(required := len)
    else
      match h(rx.buf)
      case Raises => rx.(required := len, status := Raised)
      case Silent => Rx(rx.buf[len..], HEADER_SIZE, rx.events, Reading)
      case Event(m, xid) => Rx(rx.buf[len..], HEADER_SIZE, rx.events + [(m, xid)], Reading)
  }

  /** The inner loop. A pass that leaves the buffer as it was is repeated forever. */
  function Drain(h: Handler, rx: Rx): (r: Rx)
    decreases |rx.buf|, if rx.required == HEADER_SIZE then 1 else 0
  {
    if !Continues(rx) then rx
    else
      var next := Pass(h, rx);
      if next.status.Raised? then next
      else if |next.buf| < |rx.buf| then Drain(h, next)
      else if next.required > |next.buf| then next
      else next.(status := Spinning)
  }

  /** One round of the outer loop: an empty read closes the connection. */
  function Receive(h: Handler, rx: Rx, chunk: seq<byte>): Rx
    requires rx.status.Reading?
  {
    Drain(h, rx.(buf := rx.buf + chunk))
  }

  function Feed(h: Handler, rx: Rx, chunks: seq<seq<byte>>): Rx
    decreases |chunks|
  {
    if chunks == [] || chunks[0] == [] || !rx.status.Reading? then rx
    else Feed(h, Receive(h, rx, chunks[0]), chunks[1..])
  }

  /** _recv_loop of both ends. `input` lists what the calls of sock.recv return; the loop ends when
      a call returns nothing, when a handler raises, or when it cannot leave its inner loop. */
  method RecvLoop(side: Side, input: seq<seq<byte>>) returns (rx: Rx)
    ensures rx == Feed(HandlerOf(side), IDLE, input)
  {
    var h := HandlerOf(side);
    var buf, required, events: seq<(Msg, nat)> := [], HEADER_SIZE, [];
    var k := 0;
    while k < |input|
      invariant 0 <= k <= |input| && required >= HEADER_SIZE
      invariant Feed(h, Rx(buf, required, events, Reading), input[k..]) == Feed(h, IDLE, input)
    {
      var ret := input[k];
      if ret == [] {
        return Rx(buf, required, events, Reading);
      }
      ghost var full := Rx(buf + ret, required, events, Reading);
      assert input[k..][1..] == input[k + 1..];
      buf := buf + ret;
      while |buf| >= required
        invariant required >= HEADER_SIZE
        invariant Drain(h, Rx(buf, required, events, Reading)) == Drain(h, full)
        decreases |buf|
      {
        ghost var before := Rx(buf, required, events, Reading);
        required := HeaderLen(buf);
        if |buf| < required {
          break;
        }
        var out := h(buf);
        if out.Raises? {
          FeedStops(h, Rx(buf, required, events, Raised), input[k + 1..]);
          return Rx(buf, required, events, Raised);
        }
        if out.Event? {
          events := events + [(out.m, out.xid)];
        }
        if required == 0 {
          FeedStops(h, Rx(buf, HEADER_SIZE, events, Spinning), input[k + 1..]);
          return Rx(buf, HEADER_SIZE, events, Spinning);
        }
        buf := buf[required..];
        required := HEADER_SIZE;
        assert Pass(h, before) == Rx(buf, required, events, Reading);
      }
      k := k + 1;
    }
    assert input[k..] == [];
    rx := Rx(buf, required, events, Reading);
  }

  lemma FeedStops(h: Handler, rx: Rx, chunks: seq<seq<byte>>)
    requires !rx.status.Reading?
    ensures Feed(h, rx, chunks) == rx
  {
  }

  // ---------------------------------------------------------------------------
  // Termination of the inner loop
  // ---------------------------------------------------------------------------

  function Passes(h: Handler, rx: Rx, n: nat): Rx
    decreases n
  {
    if n == 0 || !Continues(rx) then rx else Passes(h, Pass(h, rx), n - 1)
  }

  /** The state `Drain` gives is where the passes lead, if they lead to an end. */
  lemma {:induction false} DrainIsLoop(h: Handler, rx: Rx)
    ensures Drain(h, rx).status.Spinning? && rx.status.Reading? ==> forall n: nat :: Continues(Passes(h, rx, n))
    ensures !Drain(h, rx).status.Spinning? ==>
              exists n: nat :: !Continues(Passes(h, rx, n)) && Passes(h, rx, n) == Drain(h, rx)
    decreases |rx.buf|
  {
    if !Continues(rx) {
      assert Passes(h, rx, 0) == rx;
    } else {
      var next := Pass(h, rx);
      if next.status.Raised? || next.required > |next.buf| {
        assert !Continues(next);
        assert Passes(h, next, 0) == next;
        assert Passes(h, rx, 1) == next;
        assert Drain(h, next) == next;
      } else if |next.buf| < |rx.buf| {
        DrainIsLoop(h, next);
        if Drain(h, next).status.Spinning? {
          forall n: nat ensures Continues(Passes(h, rx, n)) {
            if n > 0 { assert Passes(h, rx, n) == Passes(h, next, n - 1); }
          }
        } else {
          var n: nat :| !Continues(Passes(h, next, n)) && Passes(h, next, n) == Drain(h, next);
          assert Passes(h, rx, n + 1) == Passes(h, next, n);
        }
      } else {
        forall n: nat ensures Continues(Passes(h, rx, n)) {
          ZeroLengthSpins(h, rx, n);
        }
      }
    }
  }

  /** A frame of length zero: dispatched again and again, never consumed. */
  lemma {:induction false} ZeroLengthSpins(h: Handler, rx: Rx, n: nat)
    requires Continues(rx) && HeaderLen(rx.buf) == 0
    requires !h(rx.buf).Raises?
    ensures var p := Passes(h, rx, n); Continues(p) && p.buf == rx.buf
    ensures h(rx.buf).Event? ==>
              |Passes(h, rx, n).events| == |rx.events| + n
    decreases n
  {
    if n > 0 {
      ZeroLengthSpins(h, Pass(h, rx), n - 1);
    }
  }

  /** At the head of the buffer is a complete frame of length zero that its handler accepts. */
  predicate MeetsZero(h: Handler, rx: Rx) {
    Continues(rx) && HeaderLen(rx.buf) == 0 && !h(rx.buf).Raises?
  }

  lemma MeetsLater(h: Handler, rx: Rx, n: nat)
    requires MeetsZero(h, Passes(h, rx, n)) && !MeetsZero(h, rx)
    ensures Continues(rx) && n > 0 && Passes(h, rx, n) == Passes(h, Pass(h, rx), n - 1)
  {
  }

  /** One pass that meets no such frame shortens the buffer, or the loop is about to end. */
  lemma PassGoesOn(h: Handler, rx: Rx)
    requires Continues(rx) && !MeetsZero(h, rx)
    ensures var next := Pass(h, rx);
            if Continues(next) then |next.buf| < |rx.buf| && Drain(h, rx) == Drain(h, next)
            else Drain(h, rx) == next
  {
  }

  ghost predicate EverMeetsZero(h: Handler, rx: Rx) {
    exists n: nat :: MeetsZero(h, Passes(h, rx, n))
  }

  lemma EverLater(h: Handler, rx: Rx)
    requires Continues(rx) && !MeetsZero(h, rx)
    ensures EverMeetsZero(h, rx) <==> EverMeetsZero(h, Pass(h, rx))
  {
    var next := Pass(h, rx);
    if n: nat :| MeetsZero(h, Passes(h, next, n)) {
      assert MeetsZero(h, Passes(h, rx, n + 1));
    }
    if n: nat :| MeetsZero(h, Passes(h, rx, n)) {
      MeetsLater(h, rx, n);
      assert MeetsZero(h, Passes(h, next, n - 1));
    }
  }

  lemma EverNow(h: Handler, rx: Rx)
    ensures MeetsZero(h, rx) ==> EverMeetsZero(h, rx)
    ensures !Continues(rx) ==> !EverMeetsZero(h, rx)
  {
    var n: nat := 0;
    assert Passes(h, rx, n) == rx;
  }

  lemma {:induction false} SpinsIff(h: Handler, rx: Rx)
    requires rx.status.Reading?
    ensures Drain(h, rx).status.Spinning? <==> EverMeetsZero(h, rx)
    decreases |rx.buf|
  {
    EverNow(h, rx);
    if Continues(rx) && !MeetsZero(h, rx) {
      var next := Pass(h, rx);
      PassGoesOn(h, rx);
      EverLater(h, rx);
      EverNow(h, next);
      if Continues(next) {
        SpinsIff(h, next);
      }
    }
  }

  /** The inner loop ends exactly if it meets no complete frame of length zero that its handler
      accepts, and then with the state `Drain` gives. */
  lemma LoopEnds(h: Handler, rx: Rx)
    requires rx.status.Reading?
    ensures (exists n: nat :: !Continues(Passes(h, rx, n))) <==> !EverMeetsZero(h, rx)
    ensures !EverMeetsZero(h, rx) ==>
              exists n: nat :: !Continues(Passes(h, rx, n)) && Passes(h, rx, n) == Drain(h, rx)
  {
    SpinsIff(h, rx);
    DrainIsLoop(h, rx);
  }

  /** In particular it ends if every frame it meets has a length, as every frame that was serialised
      has: at least that of its header. */
  lemma GoodFramesEnd(h: Handler, rx: Rx)
    requires rx.status.Reading?
    requires forall n: nat | Continues(Passes(h, rx, n)) :: HeaderLen(Passes(h, rx, n).buf) >= HEADER_SIZE
    ensures exists n: nat :: !Continues(Passes(h, rx, n)) && Passes(h, rx, n) == Drain(h, rx)
  {
    LoopEnds(h, rx);
  }

  // ---------------------------------------------------------------------------
  // Buffer bound
  // ---------------------------------------------------------------------------

  /** What holds before every recv. */
  predicate Waiting(rx: Rx) {
    rx.status.Reading? ==> HEADER_SIZE <= rx.required <= MAX_LEN && |rx.buf| < rx.required
  }

  /** Every chunk is what sock.recv(required) may return. */
  predicate Granted(h: Handler, rx: Rx, chunks: seq<seq<byte>>)
    decreases |chunks|
  {
    chunks == [] || chunks[0] == [] || !rx.status.Reading? ||
    (|chunks[0]| <= rx.required && Granted(h, Receive(h, rx, chunks[0]), chunks[1..]))
  }

  lemma LenBound(buf: seq<byte>)
    requires |buf| >= HEADER_SIZE
    ensures HeaderLen(buf) <= MAX_LEN
  {
    var s := buf[2..4];
    assert s[..1] == [s[0]];
    OneByte(s[0]);
  }

  lemma {:induction false} DrainWaits(h: Handler, rx: Rx)
    requires HEADER_SIZE <= rx.required <= MAX_LEN
    ensures Waiting(Drain(h, rx)) && |Drain(h, rx).buf| <= |rx.buf|
    decreases |rx.buf|
  {
    if Continues(rx) {
      LenBound(rx.buf);
      var next := Pass(h, rx);
      if !next.status.Raised? && |next.buf| < |rx.buf| {
        DrainWaits(h, next);
      }
    }
  }

  /** On any input bytes at all, the loop waits with fewer bytes than it asked for, and the
      buffer never exceeds 2 * 65535 - 1 bytes. */
  lemma {:induction false} BufferBound(h: Handler, rx: Rx, chunks: seq<seq<byte>>)
    requires Waiting(rx) && (rx.status.Reading? ==> Granted(h, rx, chunks))
    ensures Waiting(Feed(h, rx, chunks))
    ensures rx.status.Reading? && chunks != [] && chunks[0] != [] ==> |rx.buf + chunks[0]| <= 2 * MAX_LEN - 1
    ensures |Feed(h, rx, chunks).buf| <= if |rx.buf| > 2 * MAX_LEN - 1 then |rx.buf| else 2 * MAX_LEN - 1
    decreases |chunks|
  {
    if chunks != [] && chunks[0] != [] && rx.status.Reading? {
      DrainWaits(h, rx.(buf := rx.buf + chunks[0]));
      BufferBound(h, Receive(h, rx, chunks[0]), chunks[1..]);
    }
  }

  // ---------------------------------------------------------------------------
  // Stream round trip
  // ---------------------------------------------------------------------------

  type Sent = (Msg, int)

  type Arrival = (Msg, nat)

  function Join(chunks: seq<seq<byte>>): seq<byte> {
    if chunks == [] then [] else chunks[0] + Join(chunks[1..])
  }

  /** The bytes `f` are a whole frame: at the head of any buffer the loop dispatches `ev` for it. */
  ghost predicate Accepted(h: Handler, f: seq<byte>, ev: Arrival) {
    |f| >= HEADER_SIZE && forall buf {:trigger AcceptedBefore(h, f, ev, buf)} ::
      f <= buf ==> AcceptedBefore(h, f, ev, buf)
  }

  ghost predicate AcceptedBefore(h: Handler, f: seq<byte>, ev: Arrival, buf: seq<byte>)
    requires |f| >= HEADER_SIZE
  {
    |buf| >= |f| && HeaderLen(buf) == |f| && h(buf) == Event(ev.0, ev.1)
  }

  ghost predicate AllAccepted(h: Handler, fs: seq<seq<byte>>, evs: seq<Arrival>) {
    |fs| == |evs| && forall i | 0 <= i < |fs| :: Accepted(h, fs[i], evs[i])
  }

  /** The receiver is in step with the frames still to come: it holds a proper prefix of the next
      one, and has asked either for a header or for that whole frame. */
  ghost predicate InStep(fs: seq<seq<byte>>, rx: Rx) {
    && rx.buf <= Join(fs) && (fs == [] || |rx.buf| < |fs[0]|)
    && Asks(fs, rx)
  }

  ghost predicate Asks(fs: seq<seq<byte>>, rx: Rx) {
    rx.required == HEADER_SIZE || (fs != [] && |rx.buf| >= HEADER_SIZE && rx.required == |fs[0]|)
  }

  lemma {:induction false} JoinSplit(fs: seq<seq<byte>>, k: nat)
    requires k <= |fs|
    ensures Join(fs) == Join(fs[..k]) + Join(fs[k..])
  {
    if k == 0 {
      assert fs[..0] == [] && fs[0..] == fs;
    } else {
      JoinSplit(fs[1..], k - 1);
      assert fs[..k][1..] == fs[1..][..k - 1] && fs[k..] == fs[1..][k - 1..];
      assert Join(fs[..k]) == fs[0] + Join(fs[..k][1..]);
    }
  }

  /** A pass over a buffer that starts with a whole frame. */
  lemma PassOfFrame(h: Handler, f: seq<byte>, ev: Arrival, rx: Rx)
    requires Accepted(h, f, ev) && rx.status.Reading? && f <= rx.buf
    requires rx.required == HEADER_SIZE || rx.required == |f|
    ensures Continues(rx)
    ensures Pass(h, rx) == Rx(rx.buf[|f|..], HEADER_SIZE, rx.events + [ev], Reading)
  {
    assert AcceptedBefore(h, f, ev, rx.buf);
  }

  lemma DrainOfFrame(h: Handler, f: seq<byte>, ev: Arrival, rx: Rx)
    requires Accepted(h, f, ev) && rx.status.Reading? && f <= rx.buf
    requires rx.required == HEADER_SIZE || rx.required == |f|
    ensures Drain(h, rx) == Drain(h, Rx(rx.buf[|f|..], HEADER_SIZE, rx.events + [ev], Reading))
  {
    PassOfFrame(h, f, ev, rx);
  }

  /** Having `bytes` and `events` behind it, the receiver reaches `r`: exactly the first `k` frames
      are dispatched, and `r` is in step with the others. */
  ghost predicate Reached(fs: seq<seq<byte>>, evs: seq<Arrival>, bytes: seq<byte>, events: seq<Arrival>, k: nat, r: Rx)
    requires |fs| == |evs|
  {
    && k <= |fs| && r.status.Reading? && r.events == events + evs[..k]
    && bytes == Join(fs[..k]) + r.buf && InStep(fs[k..], r)
  }

  lemma ReachedNone(fs: seq<seq<byte>>, evs: seq<Arrival>, r: Rx)
    requires |fs| == |evs| && r.status.Reading? && InStep(fs, r)
    ensures Reached(fs, evs, r.buf, r.events, 0, r)
  {
    assert fs[0..] == fs;
  }

  lemma DrainOfPart(h: Handler, fs: seq<seq<byte>>, evs: seq<Arrival>, rx: Rx)
    requires AllAccepted(h, fs, evs) && rx.status.Reading? && InStep(fs, rx)
    ensures Reached(fs, evs, rx.buf, rx.events, 0, Drain(h, rx))
  {
    if Continues(rx) {
      var f := fs[0];
      assert Accepted(h, f, evs[0]) && AcceptedBefore(h, f, evs[0], f);
      assert rx.buf <= f;
      assert rx.buf[2..4] == f[2..4];
    }
    ReachedNone(fs, evs, Drain(h, rx));
  }

  lemma ReachedMore(fs: seq<seq<byte>>, evs: seq<Arrival>, rest: seq<byte>, events: seq<Arrival>, k: nat, r: Rx)
    requires |fs| == |evs| > 0 && Reached(fs[1..], evs[1..], rest, events + [evs[0]], k, r)
    ensures Reached(fs, evs, fs[0] + rest, events, k + 1, r)
  {
    JoinCons(fs, k + 1);
    assert fs[k + 1..] == fs[1..][k..];
    assert evs[..k + 1] == [evs[0]] + evs[1..][..k];
  }

  /** Draining a buffer that holds `k` whole frames dispatches those, in order, and stops. */
  lemma {:induction false} DrainFrames(h: Handler, fs: seq<seq<byte>>, evs: seq<Arrival>, rx: Rx) returns (k: nat)
    requires AllAccepted(h, fs, evs) && rx.status.Reading? && rx.buf <= Join(fs) && Asks(fs, rx)
    ensures Reached(fs, evs, rx.buf, rx.events, k, Drain(h, rx))
    decreases |fs|
  {
    if fs == [] || |rx.buf| < |fs[0]| {
      k := 0;
      DrainOfPart(h, fs, evs, rx);
    } else {
      var f, rest := fs[0], rx.buf[|fs[0]|..];
      assert rx.buf == f + rest;
      PrefixCancels(f, rest, Join(fs[1..]));
      DrainOfFrame(h, f, evs[0], rx);
      k := DrainFrames(h, fs[1..], evs[1..], Rx(rest, HEADER_SIZE, rx.events + [evs[0]], Reading));
      ReachedMore(fs, evs, rest, rx.events, k, Drain(h, rx));
      k := k + 1;
    }
  }

  lemma JoinCons(fs: seq<seq<byte>>, k: nat)
    requires 0 < k <= |fs|
    ensures Join(fs[..k]) == fs[0] + Join(fs[1..][..k - 1])
  {
    assert fs[..k][1..] == fs[1..][..k - 1];
  }

  lemma PrefixCancels(a: seq<byte>, b: seq<byte>, c: seq<byte>)
    requires a + b <= a + c
    ensures b <= c
  {
    assert forall i | 0 <= i < |b| :: b[i] == (a + b)[|a| + i] == (a + c)[|a| + i] == c[i];
  }

  lemma ReachedLater(fs: seq<seq<byte>>, evs: seq<Arrival>, bytes: seq<byte>, events: seq<Arrival>, i: nat,
                     mid: Rx, later: seq<byte>, j: nat, r: Rx)
    requires |fs| == |evs| && Reached(fs, evs, bytes, events, i, mid)
    requires Reached(fs[i..], evs[i..], mid.buf + later, mid.events, j, r)
    ensures Reached(fs, evs, bytes + later, events, i + j, r)
  {
    JoinLater(fs, i, j);
    assert fs[i..][j..] == fs[i + j..];
    assert evs[..i + j] == evs[..i] + evs[i..][..j];
    assert bytes + later == Join(fs[..i]) + (mid.buf + later);
  }

  lemma JoinLater(fs: seq<seq<byte>>, i: nat, j: nat)
    requires i + j <= |fs|
    ensures Join(fs[..i + j]) == Join(fs[..i]) + Join(fs[i..][..j])
  {
    JoinSplit(fs[..i + j], i);
    assert fs[..i + j][..i] == fs[..i] && fs[..i + j][i..] == fs[i..][..j];
  }

  lemma StillPrefix(fs: seq<seq<byte>>, evs: seq<Arrival>, bytes: seq<byte>, events: seq<Arrival>, i: nat, mid: Rx,
                    later: seq<byte>)
    requires |fs| == |evs| && Reached(fs, evs, bytes, events, i, mid) && bytes + later <= Join(fs)
    ensures mid.buf + later <= Join(fs[i..])
  {
    JoinSplit(fs, i);
    assert bytes + later == Join(fs[..i]) + (mid.buf + later);
    PrefixCancels(Join(fs[..i]), mid.buf + later, Join(fs[i..]));
  }

  /** Feeding any non-empty pieces of a prefix of the frames' bytes. */
  lemma {:induction false} FeedFrames(h: Handler, fs: seq<seq<byte>>, evs: seq<Arrival>, rx: Rx, chunks: seq<seq<byte>>)
    returns (k: nat)
    requires AllAccepted(h, fs, evs) && rx.status.Reading? && InStep(fs, rx)
    requires (forall i | 0 <= i < |chunks| :: chunks[i] != []) && rx.buf + Join(chunks) <= Join(fs)
    ensures Reached(fs, evs, rx.buf + Join(chunks), rx.events, k, Feed(h, rx, chunks))
    decreases |chunks|
  {
    if chunks == [] {
      k := 0;
      assert rx.buf + Join(chunks) == rx.buf;
      ReachedNone(fs, evs, rx);
    } else {
      var later, full := Join(chunks[1..]), rx.buf + chunks[0];
      assert rx.buf + Join(chunks) == full + later;
      var i := DrainFrames(h, fs, evs, rx.(buf := full));
      var next := Receive(h, rx, chunks[0]);
      StillPrefix(fs, evs, full, rx.events, i, next, later);
      var j := FeedFrames(h, fs[i..], evs[i..], next, chunks[1..]);
      ReachedLater(fs, evs, full, rx.events, i, next, later, j, Feed(h, rx, chunks));
      k := i + j;
    }
  }

  /** Every message can be serialised and travels towards this side. */
  ghost predicate Sendable(side: Side, ms: seq<Sent>) {
    forall i | 0 <= i < |ms| :: Travels(side, ms[i].0) && Frame(ms[i].0, ms[i].1).Some?
  }

  function Frames(side: Side, ms: seq<Sent>): (fs: seq<seq<byte>>)
    requires Sendable(side, ms)
    ensures |fs| == |ms|
  {
    seq(|ms|, i requires 0 <= i < |ms| => Frame(ms[i].0, ms[i].1).value)
  }

  /** The events the messages must arrive as. */
  function Arrivals(ms: seq<Sent>): (evs: seq<Arrival>)
    ensures |evs| == |ms|
  {
    seq(|ms|, i requires 0 <= i < |ms| => (Carried(ms[i].0), if ms[i].1 >= 0 then ms[i].1 else 0))
  }

  lemma FrameAccepted(side: Side, m: Sent)
    requires Travels(side, m.0) && Frame(m.0, m.1).Some?
    ensures m.1 >= 0 && Accepted(HandlerOf(side), Frame(m.0, m.1).value, (Carried(m.0), m.1))
  {
    var f := Frame(m.0, m.1).value;
    FrameHeader(m.0, m.1, []);
    DispatchOfFrame(side, m.0, m.1, []);
    forall buf | f <= buf ensures AcceptedBefore(HandlerOf(side), f, (Carried(m.0), m.1), buf) {
      var rest := buf[|f|..];
      assert buf == f + rest;
      FrameHeader(m.0, m.1, rest);
      DispatchOfFrame(side, m.0, m.1, rest);
    }
  }

  lemma FramesAccepted(side: Side, ms: seq<Sent>)
    requires Sendable(side, ms)
    ensures AllAccepted(HandlerOf(side), Frames(side, ms), Arrivals(ms))
    ensures forall i | 0 <= i < |ms| :: ms[i].1 >= 0
  {
    forall i | 0 <= i < |ms| ensures ms[i].1 >= 0 && Accepted(HandlerOf(side), Frames(side, ms)[i], Arrivals(ms)[i]) {
      FrameAccepted(side, ms[i]);
    }
  }

  /** The stream round trip. However the bytes of a stream of messages are cut into non-empty
      pieces, and however much of it has arrived, the receiver has dispatched exactly the messages
      whose frames are complete, in order, and holds a proper prefix of the next frame. */
  lemma StreamRoundTrip(side: Side, ms: seq<Sent>, chunks: seq<seq<byte>>) returns (k: nat)
    requires Sendable(side, ms) && forall i | 0 <= i < |chunks| :: chunks[i] != []
    requires Join(chunks) <= Join(Frames(side, ms))
    ensures k <= |ms|
    ensures var r, fs := Feed(HandlerOf(side), IDLE, chunks), Frames(side, ms);
            && r.status.Reading? && r.events == Arrivals(ms)[..k]
            && Join(chunks) == Join(fs[..k]) + r.buf
            && r.buf <= Join(fs[k..]) && (k < |ms| ==> |r.buf| < |fs[k]|)
  {
    FramesAccepted(side, ms);
    var fs := Frames(side, ms);
    assert IDLE.buf + Join(chunks) == Join(chunks);
    k := FeedFrames(HandlerOf(side), fs, Arrivals(ms), IDLE, chunks);
    assert IDLE.events + Arrivals(ms)[..k] == Arrivals(ms)[..k];
  }

  lemma AllArrived(side: Side, ms: seq<Sent>, chunks: seq<seq<byte>>)
    requires Sendable(side, ms) && forall i | 0 <= i < |chunks| :: chunks[i] != []
    requires Join(chunks) == Join(Frames(side, ms))
    ensures var r := Feed(HandlerOf(side), IDLE, chunks);
            r.status.Reading? && r.buf == [] && r.events == Arrivals(ms)
  {
    var k := StreamRoundTrip(side, ms, chunks);
    var fs, buf := Frames(side, ms), Feed(HandlerOf(side), IDLE, chunks).buf;
    JoinSplit(fs, k);
    assert buf == Join(fs[k..]);
    assert Arrivals(ms)[..|ms|] == Arrivals(ms);
  }

  /** When the whole stream has arrived every message has, in order, and nothing is left over;
      and they are the very messages that were sent if their texts have the format's width. */
  lemma WholeStream(side: Side, ms: seq<Sent>, chunks: seq<seq<byte>>)
    requires Sendable(side, ms) && forall i | 0 <= i < |chunks| :: chunks[i] != []
    requires Join(chunks) == Join(Frames(side, ms))
    ensures var r := Feed(HandlerOf(side), IDLE, chunks);
            r.status.Reading? && r.buf == [] && r.events == Arrivals(ms)
    ensures Feed(HandlerOf(side), IDLE, chunks).events == ms <==> forall i | 0 <= i < |ms| :: Exact(ms[i].0)
  {
    AllArrived(side, ms, chunks);
    FramesAccepted(side, ms);
    ArrivalsExact(ms);
  }

  lemma ArrivalsExact(ms: seq<Sent>)
    requires forall i | 0 <= i < |ms| :: ms[i].1 >= 0
    ensures Arrivals(ms) == ms <==> forall i | 0 <= i < |ms| :: Exact(ms[i].0)
  {
    if Arrivals(ms) == ms {
      forall i | 0 <= i < |ms| ensures Exact(ms[i].0) {
        assert Arrivals(ms)[i] == ms[i];
      }
    }
  }
}
