/** Types shared by the controller models. */
module Base {

  /** One element of a Python bytearray or byte string. */
  type byte = x: int | 0 <= x < 256

  datatype Option<+T> = None | Some(value: T)

  /** A MAC address as the code carries it: a Python byte string such as "00:00:00:00:00:01". */
  type Mac = seq<byte>

  type Dpid = nat
  type Port = nat
  type Lcid = nat

  /** No two elements are the same. */
  ghost predicate Distinct<A>(s: seq<A>) {
    forall i, j | 0 <= i < j < |s| :: s[i] != s[j]
  }
}
