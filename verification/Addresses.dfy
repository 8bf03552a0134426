/** Address arithmetic and allocation of mininet (util.py, net.py). */
module Addresses {
  import opened Base
  import opened Text

  /** How many IPv4 addresses there are */
  const SPACE: nat := 0x1_0000_0000

  // ---------------------------------------------------------------------------
  // Python's bit operators on naturals
  // ---------------------------------------------------------------------------

  function Pow2(n: nat): (r: nat)
    ensures r > 0
  {
    if n == 0 then 1 else 2 * Pow2(n - 1)
  }

  function Or(a: nat, b: nat): nat {
    if a == 0 && b == 0 then 0 else 2 * Or(a / 2, b / 2) + if a % 2 == 1 || b % 2 == 1 then 1 else 0
  }

  function And(a: nat, b: nat): nat {
    if a == 0 || b == 0 then 0 else 2 * And(a / 2, b / 2) + if a % 2 == 1 && b % 2 == 1 then 1 else 0
  }

  function Xor(a: nat, b: nat): nat {
    if a == 0 && b == 0 then 0 else 2 * Xor(a / 2, b / 2) + if a % 2 != b % 2 then 1 else 0
  }

  function Shl(a: nat, k: nat): nat {
    a * Pow2(k)
  }

  function Shr(a: nat, k: nat): nat {
    if k == 0 then a else Shr(a / 2, k - 1)
  }

  /** n & 0xff, also of a negative number */
  function Low(n: int): (r: nat)
    ensures r < 256
  {
    n % 256
  }

  lemma Double(a: nat, k: nat)
    requires k > 0
    ensures Shl(a, k) == 2 * Shl(a, k - 1)
  {
    var p := Pow2(k - 1);
    assert a * (2 * p) == 2 * (a * p);
  }

  lemma OrTwice(x: nat, b: nat)
    ensures Or(2 * x, b) == 2 * Or(x, b / 2) + b % 2
  {
  }

  /** Bits below the other's are simply added. */
  lemma {:induction false} OrBelow(a: nat, k: nat, b: nat)
    requires b < Pow2(k)
    ensures Or(Shl(a, k), b) == Shl(a, k) + b
  {
    if k == 0 {
      OrZero(Shl(a, 0));
    } else {
      OrBelow(a, k - 1, b / 2);
      Double(a, k);
      OrTwice(Shl(a, k - 1), b);
    }
  }

  lemma {:induction false} OrZero(a: nat)
    ensures Or(a, 0) == a
  {
    if a > 0 { OrZero(a / 2); }
  }

  lemma {:induction false} ShrOnes(n: nat, k: nat)
    ensures Shr(Pow2(n) - 1, k) == (if k < n then Pow2(n - k) else 1) - 1
  {
    if k > 0 {
      if n == 0 {
        ShrOnes(0, k - 1);
      } else {
        ShrOnes(n - 1, k - 1);
        assert (Pow2(n) - 1) / 2 == Pow2(n - 1) - 1;
      }
    }
  }

  lemma {:induction false} Pow2Order(k: nat, n: nat)
    requires k <= n
    ensures Pow2(k) <= Pow2(n)
  {
    if k > 0 { Pow2Order(k - 1, n - 1); }
  }

  lemma {:induction false} XorZero(a: nat)
    ensures Xor(a, 0) == a
  {
    if a > 0 { XorZero(a / 2); }
  }

  lemma {:induction false} XorOnes(n: nat, k: nat)
    requires k <= n
    ensures Pow2(k) <= Pow2(n) && Xor(Pow2(n) - 1, Pow2(k) - 1) == Pow2(n) - Pow2(k)
  {
    Pow2Order(k, n);
    if k == 0 {
      XorZero(Pow2(n) - 1);
    } else {
      XorOnes(n - 1, k - 1);
      HalfOnes(n);
      HalfOnes(k);
    }
  }

  lemma HalfOnes(n: nat)
    requires n > 0
    ensures (Pow2(n) - 1) / 2 == Pow2(n - 1) - 1 && (Pow2(n) - 1) % 2 == 1
  {
  }

  lemma AndTwice(x: nat, bit: nat, m: nat, one: nat)
    requires bit < 2 && one < 2
    ensures And(2 * x + bit, 2 * m + one) == 2 * And(x, m) + bit * one
  {
  }

  /** A mask of the bits k to n - 1 picks out those bits. */
  lemma {:induction false} AndMask(n: nat, k: nat, q: nat, r: nat, s: nat)
    requires k <= n && r < Pow2(n - k) && s < Pow2(k)
    ensures Pow2(k) <= Pow2(n) && And(Shl(q, n) + Shl(r, k) + s, Pow2(n) - Pow2(k)) == Shl(r, k)
    decreases k
  {
    Pow2Order(k, n);
    if k == 0 {
      AndOnes(n, q, r);
      assert Shl(r, 0) == r && s == 0;
    } else {
      AndMask(n - 1, k - 1, q, r, s / 2);
      AndStep(n, k, q, r, s);
    }
  }

  lemma AndStep(n: nat, k: nat, q: nat, r: nat, s: nat)
    requires 0 < k <= n && Pow2(k - 1) <= Pow2(n - 1)
    requires And(Shl(q, n - 1) + Shl(r, k - 1) + s / 2, Pow2(n - 1) - Pow2(k - 1)) == Shl(r, k - 1)
    ensures And(Shl(q, n) + Shl(r, k) + s, Pow2(n) - Pow2(k)) == Shl(r, k)
  {
    Double(q, n);
    Double(r, k);
    var q1, r1, a, b := Shl(q, n - 1), Shl(r, k - 1), Pow2(n - 1), Pow2(k - 1);
    HalfOf(q1, r1, s);
    AndHalves(Shl(q, n) + Shl(r, k) + s, Pow2(n) - Pow2(k), q1 + r1 + s / 2, a - b);
  }

  lemma HalfOf(q: nat, r: nat, s: nat)
    ensures (2 * q + 2 * r + s) / 2 == q + r + s / 2
  {
  }

  lemma AndHalves(y: nat, w: nat, x: nat, m: nat)
    requires y / 2 == x && w == 2 * m
    ensures And(y, w) == 2 * And(x, m)
  {
  }

  lemma {:induction false} AndOnes(n: nat, q: nat, r: nat)
    requires r < Pow2(n)
    ensures And(Shl(q, n) + r, Pow2(n) - 1) == r
  {
    if n > 0 {
      AndOnes(n - 1, q, r / 2);
      HalfOnes(n);
      Double(q, n);
      AndTwice(Shl(q, n - 1) + r / 2, r % 2, Pow2(n - 1) - 1, 1);
    }
  }

  // ---------------------------------------------------------------------------
  // Dotted addresses
  // ---------------------------------------------------------------------------

  function Dotted(w: nat, x: nat, y: nat, z: nat): string {
    Dec(w) + ['.'] + (Dec(x) + ['.'] + (Dec(y) + ['.'] + Dec(z)))
  }

  /** ipStr: `>>` floors, so a negative or a large number wraps. */
  function IpStr(ip: int): string {
    Dotted(Low(ip / 0x100_0000), Low(ip / 0x1_0000), Low(ip / 0x100), Low(ip))
  }

  function IpNum(w: nat, x: nat, y: nat, z: nat): nat {
    Or(Or(Or(Shl(w, 24), Shl(x, 16)), Shl(y, 8)), z)
  }

  /** The numbers of all parts; None is ValueError. */
  function Ints(parts: seq<string>): Option<seq<nat>> {
    if parts == [] then Some([])
    else
      match (Ints(parts[..|parts| - 1]), ParseDec(parts[|parts| - 1]))
      case (Some(ns), Some(n)) => Some(ns + [n])
      case _ => None
  }

  function Padded(args: seq<nat>): (r: seq<nat>)
    ensures |r| >= 4 && (|args| >= 4 ==> r == args)
    decreases 4 - |args|
  {
    if |args| < 4 then Padded(args + [0]) else args
  }

  /** ipParse; None is an exception: a part that is no number, or more than four parts. */
  function IpParse(s: string): Option<nat> {
    match Ints(Split(s, '.'))
    case None => None
    case Some(args) =>
      var p := Padded(args);
      if |p| > 4 then None else Some(IpNum(p[0], p[1], p[2], p[3]))
  }

  method ParseIp(ip: string) returns (r: Option<nat>)
    ensures r == IpParse(ip)
  {
    var parts := Split(ip, '.');
    var args: seq<nat> := [];
    for i := 0 to |parts|
      invariant Ints(parts[..i]) == Some(args)
    {
      assert parts[..i + 1][..i] == parts[..i];
      var n := ParseDec(parts[i]);
      if n == None {
        IntsNone(parts, i);
        return None;
      }
      args := args + [n.value];
    }
    assert parts[..|parts|] == parts;
    ghost var all := args;
    while |args| < 4
      invariant Padded(args) == Padded(all)
    {
      args := args + [0];
    }
    r := if |args| > 4 then None else Some(IpNum(args[0], args[1], args[2], args[3]));
  }

  lemma {:induction false} IntsNone(parts: seq<string>, i: nat)
    requires i < |parts| && ParseDec(parts[i]) == None
    ensures Ints(parts) == None
  {
    if i < |parts| - 1 { IntsNone(parts[..|parts| - 1], i); }
  }

  lemma IpNumBytes(w: nat, x: nat, y: nat, z: nat)
    requires w < 256 && x < 256 && y < 256 && z < 256
    ensures IpNum(w, x, y, z) == w * 0x100_0000 + x * 0x1_0000 + y * 0x100 + z
  {
    assert Pow2(8) == 0x100 && Pow2(16) == 0x1_0000 && Pow2(24) == 0x100_0000;
    OrBelow(w, 24, Shl(x, 16));
    OrBelow(w * 256 + x, 16, Shl(y, 8));
    OrBelow(w * 0x1_0000 + x * 256 + y, 8, z);
  }

  lemma SplitDotted(w: nat, x: nat, y: nat, z: nat)
    ensures Split(Dotted(w, x, y, z), '.') == [Dec(w), Dec(x), Dec(y), Dec(z)]
  {
    ParseOfDec(w);
    ParseOfDec(x);
    ParseOfDec(y);
    ParseOfDec(z);
    SplitPlain(Dec(z), '.');
    SplitAt(Dec(y), '.', Dec(z));
    SplitAt(Dec(x), '.', Dec(y) + ['.'] + Dec(z));
    SplitAt(Dec(w), '.', Dec(x) + ['.'] + (Dec(y) + ['.'] + Dec(z)));
  }

  lemma IntsMore(parts: seq<string>, ns: seq<nat>, n: nat)
    requires Ints(parts) == Some(ns)
    ensures Ints(parts + [Dec(n)]) == Some(ns + [n])
  {
    ParseOfDec(n);
    assert (parts + [Dec(n)])[..|parts|] == parts;
  }

  lemma IntsOfFour(w: nat, x: nat, y: nat, z: nat)
    ensures Ints([Dec(w), Dec(x), Dec(y), Dec(z)]) == Some([w, x, y, z])
  {
    IntsMore([], [], w);
    IntsMore([] + [Dec(w)], [] + [w], x);
    IntsMore([] + [Dec(w)] + [Dec(x)], [] + [w] + [x], y);
    IntsMore([] + [Dec(w)] + [Dec(x)] + [Dec(y)], [] + [w] + [x] + [y], z);
    assert [Dec(w), Dec(x), Dec(y), Dec(z)] == [] + [Dec(w)] + [Dec(x)] + [Dec(y)] + [Dec(z)];
    assert [w, x, y, z] == [] + [w] + [x] + [y] + [z];
  }

  lemma ByteShifts(ip: int)
    ensures ip / 0x1_0000 == ip / 0x100 / 0x100 && ip / 0x100_0000 == ip / 0x100 / 0x100 / 0x100
  {
  }

  lemma BytesOf(ip: int)
    ensures Low(ip / 0x100_0000) * 0x100_0000 + Low(ip / 0x1_0000) * 0x1_0000 + Low(ip / 0x100) * 0x100 + Low(ip)
            == ip % SPACE
  {
    var a := ip / 0x100;
    var b := a / 0x100;
    var c := b / 0x100;
    var d := c / 0x100;
    ByteShifts(ip);
    assert ip == 0x100 * a + Low(ip) && a == 0x100 * b + Low(a) && b == 0x100 * c + Low(b) && c == 0x100 * d + Low(c);
    Remainder(ip, d, Low(c) * 0x100_0000 + Low(b) * 0x1_0000 + Low(a) * 0x100 + Low(ip));
  }

  lemma Remainder(n: int, d: int, r: nat)
    requires n == d * SPACE + r && r < SPACE
    ensures n % SPACE == r
  {
  }

  /** ipParse undoes ipStr on every 32-bit value, and gives the low 32 bits of any other. */
  lemma ParseOfStr(ip: int)
    ensures IpParse(IpStr(ip)) == Some(ip % SPACE)
  {
    var w, x, y, z := Low(ip / 0x100_0000), Low(ip / 0x1_0000), Low(ip / 0x100), Low(ip);
    SplitDotted(w, x, y, z);
    IntsOfFour(w, x, y, z);
    IpNumBytes(w, x, y, z);
    BytesOf(ip);
  }

  // ---------------------------------------------------------------------------
  // ipAdd
  // ---------------------------------------------------------------------------

  const ALL: nat := 0xffff_ffff

  /** ipAdd; None is an exception: a negative prefix length, or an index beyond the subnet. */
  function IpAdd(i: int, prefixLen: int, base: nat): (r: Option<string>)
  {
    if prefixLen < 0 then None
    else
      var imax := Shr(ALL, prefixLen);
      if i > imax then None else Some(IpStr(And(base, Xor(ALL, imax)) + i))
  }

  /** The number of host bits a prefix leaves */
  function HostBits(prefixLen: nat): (k: nat)
    ensures k <= 32
  {
    if prefixLen < 32 then 32 - prefixLen else 0
  }

  /** What an address has above the host bits, and in them */
  function Prefix(n: nat, k: nat): nat { Quotient(n % SPACE, Pow2(k)) }

  function Quotient(m: nat, d: nat): nat
    requires d > 0
  {
    m / d
  }

  function HostPart(n: nat, k: nat): nat { n % Pow2(k) }

  lemma Order(a: nat, b: nat, d: nat)
    requires a <= b
    ensures a * d <= b * d
  {
    assert b * d - a * d == (b - a) * d;
  }

  lemma SameQuotient(q: nat, i: nat, r: nat, j: nat, d: nat)
    requires i < d && j < d && q * d + i == r * d + j
    ensures q == r && i == j
  {
    assert (q + 1) * d == q * d + d && (r + 1) * d == r * d + d;
    if q < r { Order(q + 1, r, d); }
    if r < q { Order(r + 1, q, d); }
  }

  /** Division by its characteristic property */
  lemma DivIs(q: nat, i: nat, d: nat)
    requires i < d
    ensures (q * d + i) / d == q && (q * d + i) % d == i
  {
    var n := q * d + i;
    assert n == n / d * d + n % d;
    SameQuotient(q, i, n / d, n % d, d);
  }

  lemma SplitNumber(m: nat, d: nat, e: nat) returns (r: nat, s: nat)
    requires d > 0 && m < e * d
    ensures r == m / d && s == m % d && m == r * d + s && r < e && s < d
  {
    r, s := m / d, m % d;
    assert m == r * d + s;
    if e <= r { Order(e, r, d); }
  }

  lemma {:induction false} PowProduct(k: nat, n: nat)
    requires k <= n
    ensures Pow2(n) == Pow2(n - k) * Pow2(k)
  {
    if k > 0 {
      PowProduct(k - 1, n - 1);
      Double(Pow2(n - k), k);
    }
  }

  lemma Pow32()
    ensures Pow2(32) == SPACE
  {
    assert Pow2(8) == 0x100;
    assert Pow2(16) == 0x1_0000;
    assert Pow2(24) == 0x100_0000;
    assert Pow2(28) == 0x1000_0000;
  }

  lemma LowBits(base: nat) returns (q: nat, m: nat)
    ensures m == base % SPACE && base == q * SPACE + m
  {
    q, m := base / SPACE, base % SPACE;
  }

  /** The bits of a base address: beyond 32, of the network, of the host */
  lemma Parts(k: nat, base: nat) returns (q: nat, r: nat, s: nat)
    requires k <= 32
    ensures r < Pow2(32 - k) && s < Pow2(k) && base == Shl(q, 32) + Shl(r, k) + s && r == Prefix(base, k)
  {
    var m;
    Pow32();
    PowProduct(k, 32);
    q, m := LowBits(base);
    r, s := SplitNumber(m, Pow2(k), Pow2(32 - k));
  }

  /** The mask of ipAdd clears exactly the host bits. */
  lemma MaskNetwork(prefixLen: nat, base: nat)
    ensures Shr(ALL, prefixLen) == Pow2(HostBits(prefixLen)) - 1
    ensures And(base, Xor(ALL, Shr(ALL, prefixLen))) == Shl(Prefix(base, HostBits(prefixLen)), HostBits(prefixLen))
  {
    Ones(prefixLen);
    MaskBits(HostBits(prefixLen), base);
  }

  lemma MaskBits(k: nat, base: nat)
    requires k <= 32
    ensures Pow2(k) <= Pow2(32) && And(base, Pow2(32) - Pow2(k)) == Shl(Prefix(base, k), k)
  {
    var q, r, s := Parts(k, base);
    AndMask(32, k, q, r, s);
  }

  lemma Ones(prefixLen: nat)
    ensures Shr(ALL, prefixLen) == Pow2(HostBits(prefixLen)) - 1
    ensures Pow2(HostBits(prefixLen)) <= Pow2(32)
    ensures Xor(ALL, Shr(ALL, prefixLen)) == Pow2(32) - Pow2(HostBits(prefixLen))
  {
    Pow32();
    ShrOnes(32, prefixLen);
    XorOnes(32, HostBits(prefixLen));
  }

  /** The number that the i-th address of a subnet is the name of */
  function Address(prefixLen: nat, base: nat, i: nat): nat {
    Shl(Prefix(base, HostBits(prefixLen)), HostBits(prefixLen)) + i
  }

  lemma AddressParts(prefixLen: nat, base: nat, i: nat)
    requires i < Pow2(HostBits(prefixLen))
    ensures var a, k := Address(prefixLen, base, i), HostBits(prefixLen);
            a < SPACE && Prefix(a, k) == Prefix(base, k) && HostPart(a, k) == i
  {
    var k := HostBits(prefixLen);
    var q, r, s := Parts(k, base);
    InSubnet(k, r, i);
    Small(Address(prefixLen, base, i));
  }

  lemma Below(r: nat, i: nat, e: nat, d: nat)
    requires r < e && i < d
    ensures r * d + i < e * d
  {
    Order(r + 1, e, d);
    assert (r + 1) * d == r * d + d;
  }

  lemma InSubnet(k: nat, r: nat, i: nat)
    requires k <= 32 && r < Pow2(32 - k) && i < Pow2(k)
    ensures Shl(r, k) + i < SPACE
    ensures Quotient(Shl(r, k) + i, Pow2(k)) == r && HostPart(Shl(r, k) + i, k) == i
  {
    Pow32();
    PowProduct(k, 32);
    Below(r, i, Pow2(32 - k), Pow2(k));
    DivIs(r, i, Pow2(k));
  }

  lemma IpAddIs(i: nat, prefixLen: nat, base: nat)
    ensures IpAdd(i, prefixLen, base) ==
            if i < Pow2(HostBits(prefixLen)) then Some(IpStr(Address(prefixLen, base, i))) else None
  {
    MaskNetwork(prefixLen, base);
  }

  lemma AddressParses(prefixLen: nat, base: nat, i: nat)
    requires i < Pow2(HostBits(prefixLen))
    ensures IpParse(IpStr(Address(prefixLen, base, i))) == Some(Address(prefixLen, base, i))
  {
    var a := Address(prefixLen, base, i);
    AddressParts(prefixLen, base, i);
    ParseOfStr(a);
    Small(a);
  }

  lemma Small(a: nat)
    requires a < SPACE
    ensures a % SPACE == a
  {
  }

  /** ipAdd takes the indexes that fit the host bits. It stays in the base's subnet: the bits above
      are the base's, and the host bits are the index. */
  lemma IpAddInSubnet(i: nat, prefixLen: nat, base: nat)
    ensures IpAdd(i, prefixLen, base).Some? <==> i < Pow2(HostBits(prefixLen))
    ensures i < Pow2(HostBits(prefixLen)) ==>
              var a, k := Address(prefixLen, base, i), HostBits(prefixLen);
              && IpParse(IpAdd(i, prefixLen, base).value) == Some(a)
              && Prefix(a, k) == Prefix(base, k) && HostPart(a, k) == i
  {
    IpAddIs(i, prefixLen, base);
    if i < Pow2(HostBits(prefixLen)) {
      AddressParts(prefixLen, base, i);
      AddressParses(prefixLen, base, i);
    }
  }

  /** Different indexes give different addresses. */
  lemma IpAddInjective(i: nat, j: nat, prefixLen: nat, base: nat)
    requires IpAdd(i, prefixLen, base).Some? && IpAdd(j, prefixLen, base).Some?
    ensures IpAdd(i, prefixLen, base) == IpAdd(j, prefixLen, base) <==> i == j
  {
    IpAddInSubnet(i, prefixLen, base);
    IpAddInSubnet(j, prefixLen, base);
  }

  // ---------------------------------------------------------------------------
  // Host addresses
  // ---------------------------------------------------------------------------

  /** netParse: address and prefix length; None is an exception. */
  function NetParse(s: string): Option<(nat, nat)> {
    if '/' in s then
      var parts := Split(s, '/');
      if |parts| != 2 || ParseDec(parts[1]) == None || IpParse(parts[0]) == None then None
      else Some((IpParse(parts[0]).value, ParseDec(parts[1]).value))
    else if IpParse(s) == None then None
    else Some((IpParse(s).value, 24))
  }

  /** The address that addHost gives by default when its counter is at `i`. */
  function HostIp(i: nat, prefixLen: nat, base: nat): Option<string> {
    match IpAdd(i, prefixLen, base)
    case None => None
    case Some(ip) => Some(ip + ['/'] + Dec(prefixLen))
  }

  lemma NoSlash(ip: int)
    ensures '/' !in IpStr(ip)
  {
    var w, x, y, z := Low(ip / 0x100_0000), Low(ip / 0x1_0000), Low(ip / 0x100), Low(ip);
    ParseOfDec(w);
    ParseOfDec(x);
    ParseOfDec(y);
    ParseOfDec(z);
  }

  lemma NetParseOf(ip: string, prefixLen: nat)
    requires '/' !in ip && IpParse(ip).Some?
    ensures NetParse(ip + ['/'] + Dec(prefixLen)) == Some((IpParse(ip).value, prefixLen))
  {
    var s := ip + ['/'] + Dec(prefixLen);
    assert s[|ip|] == '/';
    ParseOfDec(prefixLen);
    SplitAt(ip, '/', Dec(prefixLen));
    SplitPlain(Dec(prefixLen), '/');
  }

  /** A default host address reads back as its number and the net's prefix length. */
  lemma HostIpParses(i: nat, prefixLen: nat, base: nat)
    requires HostIp(i, prefixLen, base).Some?
    ensures NetParse(HostIp(i, prefixLen, base).value) == Some((Address(prefixLen, base, i), prefixLen))
  {
    IpAddIs(i, prefixLen, base);
    AddressParses(prefixLen, base, i);
    NoSlash(Address(prefixLen, base, i));
    NetParseOf(IpStr(Address(prefixLen, base, i)), prefixLen);
  }

  /** A printed address without a prefix length is read with 24. */
  lemma BareParses(ip: int)
    ensures NetParse(IpStr(ip)) == Some((ip % SPACE, 24))
  {
    NoSlash(ip);
    ParseOfStr(ip);
  }

  ghost predicate Allocated(given: seq<string>, prefixLen: nat, base: nat) {
    forall i | 0 <= i < |given| :: HostIp(i + 1, prefixLen, base) == Some(given[i])
  }

  lemma HostIpInjective(i: nat, j: nat, prefixLen: nat, base: nat)
    requires HostIp(i, prefixLen, base).Some? && HostIp(i, prefixLen, base) == HostIp(j, prefixLen, base)
    ensures i == j
  {
    HostIpParses(i, prefixLen, base);
    HostIpParses(j, prefixLen, base);
    assert Address(prefixLen, base, i) == Address(prefixLen, base, j);
  }

  /** Default host addresses are pairwise different. */
  lemma GivenDistinct(given: seq<string>, prefixLen: nat, base: nat, i: nat, j: nat)
    requires Allocated(given, prefixLen, base) && i < j < |given|
    ensures given[i] != given[j]
  {
    assert HostIp(i + 1, prefixLen, base) == Some(given[i]);
    assert HostIp(j + 1, prefixLen, base) == Some(given[j]);
    if given[i] == given[j] {
      HostIpInjective(i + 1, j + 1, prefixLen, base);
    }
  }

  /** The part of Mininet that gives out addresses. `given` are those given so far. */
  class Mininet {
    const ipBaseNum: nat
    const prefixLen: nat
    var nextIP: nat
    ghost var given: seq<string>

    ghost predicate Valid()
      reads this
    {
      nextIP == |given| + 1 && Allocated(given, prefixLen, ipBaseNum)
    }

    constructor (ipBaseNum: nat, prefixLen: nat)
      ensures Valid() && this.ipBaseNum == ipBaseNum && this.prefixLen == prefixLen && given == []
    {
      this.ipBaseNum, this.prefixLen := ipBaseNum, prefixLen;
      nextIP, given := 1, [];
    }

    /** getNextIp; None is the AssertionError of a full subnet. */
    method GetNextIp() returns (ip: Option<string>)
      requires Valid()
      modifies this
      ensures Valid() && ip.Some? == (old(nextIP) < Pow2(HostBits(prefixLen)))
      ensures given == if ip.Some? then old(given) + [ip.value] else old(given)
    {
      ip := HostIp(nextIP, prefixLen, ipBaseNum);
      IpAddIs(nextIP, prefixLen, ipBaseNum);
      if ip.Some? {
        nextIP, given := nextIP + 1, given + [ip.value];
      }
    }

    /** addHost: an address in the parameters is used instead of the default, which is spent anyhow. */
    method AddHost(ip: Option<string>) returns (r: Option<string>)
      requires Valid()
      modifies this
      ensures Valid() && r.Some? == (old(nextIP) < Pow2(HostBits(prefixLen)))
      ensures r.Some? ==> |given| == |old(given)| + 1 && old(given) < given
                          && r.value == if ip.Some? then ip.value else given[|old(given)|]
      ensures r.None? ==> given == old(given)
    {
      r := GetNextIp();
      if r.Some? && ip.Some? {
        r := ip;
      }
    }
  }

  // ---------------------------------------------------------------------------
  // The control network
  // ---------------------------------------------------------------------------

  predicate Usable(n: nat) {
    n % 256 != 0 && n % 256 != 255
  }

  ghost predicate NextUsable(n: nat, m: nat) {
    n < m && Usable(m) && forall k | n < k < m :: !Usable(k)
  }

  /** The numbers of the switches' addresses, from the controller's on */
  ghost predicate Ladder(start: nat, nums: seq<nat>) {
    forall i | 0 <= i < |nums| :: Rung(start, nums, i)
  }

  ghost predicate Rung(start: nat, nums: seq<nat>, i: nat)
    requires i < |nums|
  {
    NextUsable(if i == 0 then start else nums[i - 1], nums[i])
  }

  method Climb(before: nat) returns (snum: nat)
    ensures NextUsable(before, snum)
  {
    snum := before + 1;
    while snum % 256 == 0 || snum % 256 == 255
      invariant before < snum && forall k | before < k < snum :: !Usable(k)
      decreases if snum % 256 == 255 then 2 else if snum % 256 == 0 then 1 else 0
    {
      snum := snum + 1;
    }
  }

  ghost predicate Named(addrs: seq<string>, nums: seq<nat>) {
    |addrs| == |nums| && forall i | 0 <= i < |nums| :: addrs[i] == IpStr(nums[i])
  }

  lemma LadderMore(start: nat, nums: seq<nat>, m: nat)
    requires Ladder(start, nums) && NextUsable(if nums == [] then start else nums[|nums| - 1], m)
    ensures Ladder(start, nums + [m])
  {
    forall i | 0 <= i < |nums + [m]| ensures Rung(start, nums + [m], i) {
      if i < |nums| { assert Rung(start, nums, i); }
    }
  }

  /** The address loop of configureRoutedControlNetwork, for `count` switches. */
  method ControlAddresses(ip: string, count: nat) returns (addrs: Option<seq<string>>, ghost nums: seq<nat>)
    ensures addrs == None <==> IpParse(ip) == None
    ensures addrs.Some? ==>
              |nums| == count && Ladder(IpParse(ip).value, nums) && Named(addrs.value, nums)
  {
    nums := [];
    var start := ParseIp(ip);
    if start == None { return None, []; }
    var snum, out := start.value, [];
    for i := 0 to count
      invariant |nums| == i && Ladder(start.value, nums) && Named(out, nums)
      invariant snum == if nums == [] then start.value else nums[|nums| - 1]
    {
      snum := Climb(snum);
      LadderMore(start.value, nums, snum);
      out, nums := out + [IpStr(snum)], nums + [snum];
    }
    addrs := Some(out);
  }

  /** Each address is at most three above the one before. */
  lemma NextNear(n: nat, m: nat)
    requires NextUsable(n, m)
    ensures m <= n + 3
  {
    assert Usable(n + 1) || Usable(n + 2) || Usable(n + 3);
  }

  lemma {:induction false} LadderClimbs(start: nat, nums: seq<nat>, i: nat)
    requires Ladder(start, nums) && i < |nums|
    ensures start < nums[i] <= start + 3 * (i + 1) && Usable(nums[i])
    ensures forall j | 0 <= j < i :: nums[j] < nums[i]
  {
    assert Rung(start, nums, i);
    NextNear(if i == 0 then start else nums[i - 1], nums[i]);
    if i > 0 { LadderClimbs(start, nums, i - 1); }
  }

  /** As long as there is room, the switches' addresses differ from one another and from the
      controller's, and none ends in 0 or 255. */
  lemma ControlDistinct(start: nat, nums: seq<nat>, i: nat, j: nat)
    requires Ladder(start, nums) && j <= i < |nums| && start + 3 * |nums| < SPACE
    ensures IpStr(nums[i]) != IpStr(start) && (j < i ==> IpStr(nums[i]) != IpStr(nums[j]))
    ensures IpParse(IpStr(nums[i])) == Some(nums[i]) && nums[i] % 256 !in {0, 255}
  {
    LadderClimbs(start, nums, i);
    LadderClimbs(start, nums, j);
    Reads(nums[i]);
    Reads(nums[j]);
    Reads(start);
  }

  lemma Reads(n: nat)
    requires n < SPACE
    ensures IpParse(IpStr(n)) == Some(n)
  {
    ParseOfStr(n);
    Small(n);
  }
}
