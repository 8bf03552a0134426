/** The messages that the central controller queues for the orders of a request. */
module Mailing {
  import opened Base
  import W = Wire
  import S = Stitching

  /** The FLOW_MOD message of an order. */
  function OrderMsg(o: S.Order): W.Msg {
    W.FlowMod(o.inDpid, o.outDpid, o.outPort, o.dst, o.wildcards)
  }

  /** What controller `c` is sent of some orders. */
  function Mail(os: seq<S.Order>, c: Lcid, xid: nat): seq<(W.Msg, nat)> {
    if os == [] then []
    else
      var n := |os| - 1;
      Mail(os[..n], c, xid) + if os[n].lcid == c then [(OrderMsg(os[n]), xid)] else []
  }

  /** The queues of the controllers with the messages for some orders at their ends. */
  function WithMail(q: map<Lcid, seq<(W.Msg, nat)>>, os: seq<S.Order>, xid: nat): map<Lcid, seq<(W.Msg, nat)>> {
    map c | c in q :: q[c] + Mail(os, c, xid)
  }

  lemma NoMail(q: map<Lcid, seq<(W.Msg, nat)>>, xid: nat)
    ensures WithMail(q, [], xid) == q
  {
    assert forall c | c in q :: q[c] + Mail([], c, xid) == q[c];
  }

  lemma MailMore(q: map<Lcid, seq<(W.Msg, nat)>>, os: seq<S.Order>, o: S.Order, xid: nat)
    requires o.lcid in q
    ensures var r := WithMail(q, os, xid);
            WithMail(q, os + [o], xid) == r[o.lcid := r[o.lcid] + [(OrderMsg(o), xid)]]
  {
    assert (os + [o])[..|os|] == os;
    var r, t := WithMail(q, os, xid), WithMail(q, os + [o], xid);
    forall c | c in q ensures t[c] == r[o.lcid := r[o.lcid] + [(OrderMsg(o), xid)]][c] {
      assert Mail(os + [o], c, xid) == Mail(os, c, xid) + if o.lcid == c then [(OrderMsg(o), xid)] else [];
    }
  }

  /** The message says what the order says, and it is the order of that controller. */
  predicate Tells(c: Lcid, m: W.Msg, o: S.Order) {
    && m.FlowMod? && o.lcid == c
    && m.inDpid == o.inDpid && m.outDpid == o.outDpid && m.outPort == o.outPort && m.dstMac == o.dst
    && m.wildcards == o.wildcards
  }

  /** Each message of a controller's mail tells one of its orders, under the request's xid, and each of
      its orders is told. */
  lemma {:induction false} MailTells(os: seq<S.Order>, c: Lcid, xid: nat)
    ensures forall e | e in Mail(os, c, xid) :: e.1 == xid && exists k :: 0 <= k < |os| && Tells(c, e.0, os[k])
    ensures forall k | 0 <= k < |os| && os[k].lcid == c :: exists e :: e in Mail(os, c, xid) && Tells(c, e.0, os[k])
    decreases |os|
  {
    if os != [] {
      var n := |os| - 1;
      MailTells(os[..n], c, xid);
      var last := (OrderMsg(os[n]), xid);
      forall e | e in Mail(os, c, xid) ensures e.1 == xid && exists k :: 0 <= k < |os| && Tells(c, e.0, os[k]) {
        if e in Mail(os[..n], c, xid) {
          var k :| 0 <= k < n && Tells(c, e.0, os[..n][k]);
          assert Tells(c, e.0, os[k]);
        } else {
          assert Tells(c, e.0, os[n]);
        }
      }
      forall k | 0 <= k < |os| && os[k].lcid == c ensures exists e :: e in Mail(os, c, xid) && Tells(c, e.0, os[k]) {
        if k < n {
          assert os[..n][k] == os[k];
        } else {
          assert last in Mail(os, c, xid) && Tells(c, last.0, os[k]);
        }
      }
    }
  }
}
