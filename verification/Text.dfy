/** Decimal numerals and splitting, as Python's '%i', int() and str.split use them. */
module Text {
  import opened Base

  predicate IsDigit(c: char) { '0' <= c <= '9' }

  function Digit(n: nat): (c: char)
    requires n < 10
    ensures IsDigit(c) && Value(c) == n
  {
    '0' + n as char
  }

  function Value(c: char): (n: nat)
    requires IsDigit(c)
    ensures n < 10
  {
    c as int - '0' as int
  }

  /** '%i' % n */
  function Dec(n: nat): string {
    if n < 10 then [Digit(n)] else Dec(n / 10) + [Digit(n % 10)]
  }

  /** int(s) for a string of digits; None is ValueError. */
  function ParseDec(s: string): Option<nat> {
    if s == [] || !IsDigit(s[|s| - 1]) then None
    else if |s| == 1 then Some(Value(s[0]))
    else
      match ParseDec(s[..|s| - 1])
      case None => None
      case Some(m) => Some(10 * m + Value(s[|s| - 1]))
  }

  lemma {:induction false} ParseOfDec(n: nat)
    ensures ParseDec(Dec(n)) == Some(n)
    ensures forall c | c in Dec(n) :: IsDigit(c)
  {
    if n >= 10 {
      ParseOfDec(n / 10);
      assert Dec(n)[..|Dec(n)| - 1] == Dec(n / 10);
    }
  }

  lemma DecInjective(m: nat, n: nat)
    ensures Dec(m) == Dec(n) <==> m == n
  {
    ParseOfDec(m);
    ParseOfDec(n);
  }

  /** s.split(c) */
  function Split(s: string, c: char): (r: seq<string>)
    ensures r != []
  {
    if s == [] then [[]]
    else
      var rest := Split(s[1..], c);
      if s[0] == c then [[]] + rest else [[s[0]] + rest[0]] + rest[1..]
  }

  lemma {:induction false} SplitPlain(s: string, c: char)
    requires c !in s
    ensures Split(s, c) == [s]
  {
    if s != [] {
      SplitPlain(s[1..], c);
      assert [s[0]] + s[1..] == s;
    }
  }

  lemma {:induction false} SplitAt(a: string, c: char, b: string)
    requires c !in a
    ensures Split(a + [c] + b, c) == [a] + Split(b, c)
  {
    var s := a + [c] + b;
    if a == [] {
      assert s[1..] == b;
    } else {
      SplitAt(a[1..], c, b);
      assert s[1..] == a[1..] + [c] + b;
      assert [a[0]] + a[1..] == a;
    }
  }

  /** The names '%dx%d' tell the numbers. */
  function Cross(i: nat, j: nat): string {
    Dec(i) + ['x'] + Dec(j)
  }

  lemma CrossSplits(i: nat, j: nat)
    ensures Split(Cross(i, j), 'x') == [Dec(i), Dec(j)]
  {
    ParseOfDec(i);
    ParseOfDec(j);
    SplitAt(Dec(i), 'x', Dec(j));
    SplitPlain(Dec(j), 'x');
  }

  lemma CrossInjective(i: nat, j: nat, k: nat, l: nat)
    ensures Cross(i, j) == Cross(k, l) <==> (i, j) == (k, l)
  {
    CrossSplits(i, j);
    CrossSplits(k, l);
    DecInjective(i, k);
    DecInjective(j, l);
  }

  /** Python's order of strings. */
  predicate Above(a: string, b: string) {
    a != [] && (b == [] || a[0] > b[0] || (a[0] == b[0] && Above(a[1..], b[1..])))
  }

  lemma {:induction false} AboveTotal(a: string, b: string)
    ensures Above(a, b) ==> !Above(b, a) && a != b
    ensures !Above(a, b) && !Above(b, a) ==> a == b
  {
    if a != [] && b != [] {
      AboveTotal(a[1..], b[1..]);
      assert a == [a[0]] + a[1..] && b == [b[0]] + b[1..];
    }
  }

  /** After the first `k` characters, which they share, `a` has a greater one or `b` has none. */
  predicate AboveFrom(a: string, b: string, k: nat) {
    k < |a| && k <= |b| && a[..k] == b[..k] && (k == |b| || a[k] > b[k])
  }

  /** Texts are compared where they first differ. */
  lemma {:induction false} AboveIff(a: string, b: string)
    ensures Above(a, b) <==> exists k :: AboveFrom(a, b, k)
  {
    if a != [] && b != [] && a[0] == b[0] {
      var c, d := a[1..], b[1..];
      AboveIff(c, d);
      if k: nat :| AboveFrom(c, d, k) {
        var next := k + 1;
        assert a[..next] == [a[0]] + c[..k] && b[..next] == [b[0]] + d[..k];
        assert AboveFrom(a, b, next);
      }
      if k: nat :| AboveFrom(a, b, k) {
        assert k > 0;
        var less := k - 1;
        assert c[..less] == a[..k][1..] && d[..less] == b[..k][1..];
        assert AboveFrom(c, d, less);
      }
    } else {
      if Above(a, b) { assert AboveFrom(a, b, 0); }
      if k: nat :| AboveFrom(a, b, k) {
        assert k > 0 ==> a[..k][0] == b[..k][0];
      }
    }
  }
}
