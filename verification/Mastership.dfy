/**
 An assignment on its way: the message of the central controller, the role request that the local
 controller makes of it, and what the switch makes of that.
 */
module Mastership {
  import opened Base
  import opened FlowTables
  import W = Wire
  import L = LocalSteps
  import Ro = Roles
  import A = AppManager

  /** The switch `d`, after the role requests among messages of controller `c` */
  function After(s: Ro.Switch, c: Lcid, d: Dpid, msgs: seq<ToSwitch>): Ro.Switch {
    if msgs == [] then s
    else
      var n := |msgs| - 1;
      var m, before := msgs[n], After(s, c, d, msgs[..n]);
      if m.RoleRequest? && m.dpid == d && m.gid >= 0 then Ro.React(before, c, m.role, m.gid) else before
  }

  /** What a local controller makes of an assignment it receives, if the datapath is connected to it */
  function Assigned(l: L.Local, m: W.Msg): L.Local {
    if m.RoleAssign? && m.dpid >= 0 then L.RoleAssign(l, m.dpid, m.role, m.gid).0 else l
  }

  lemma {:induction false} AfterConcat(s: Ro.Switch, c: Lcid, d: Dpid, a: seq<ToSwitch>, m: ToSwitch)
    ensures After(s, c, d, a + [m]) ==
            if m.RoleRequest? && m.dpid == d && m.gid >= 0 then Ro.React(After(s, c, d, a), c, m.role, m.gid)
            else After(s, c, d, a)
  {
    assert (a + [m])[..|a|] == a;
  }

  /** The message with which the central controller appoints a controller asks the switch to make it
      master, under the id that was drawn. */
  lemma AppointmentAsks(s: Ro.Switch, l: L.Local, c: Lcid, d: Dpid, gid: nat)
    requires d in l.datapaths
    ensures After(s, c, d, Assigned(l, A.Appointment(d, c, gid)).out) == Ro.RequestMaster(After(s, c, d, l.out), c, gid)
  {
    AfterConcat(s, c, d, l.out, RoleRequest(d, A.MASTER, gid));
  }
}
