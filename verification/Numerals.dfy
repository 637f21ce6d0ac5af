/** Decimal numerals, plain and zero-padded, and the order of strings by code point. */
module Numerals {

  function Digit(d: nat): (c: char)
    requires d < 10
    ensures '0' <= c <= '9'
  {
    ('0' as int + d) as char
  }

  predicate IsDigit(c: char) {
    '0' <= c <= '9'
  }

  function Decimal(n: nat): (s: string)
    ensures s != [] && forall i :: 0 <= i < |s| ==> IsDigit(s[i])
  {
    if n < 10 then [Digit(n)] else Decimal(n / 10) + [Digit(n % 10)]
  }

  /** The value of a numeral; characters other than digits count as zero. */
  function Parse(s: string): nat {
    if s == [] then 0
    else
      var last := s[|s| - 1];
      Parse(s[..|s| - 1]) * 10 + (if IsDigit(last) then last as int - '0' as int else 0)
  }

  lemma {:induction false} ParseDecimal(n: nat)
    ensures Parse(Decimal(n)) == n
  {
    if n >= 10 {
      ParseDecimal(n / 10);
      var s := Decimal(n / 10) + [Digit(n % 10)];
      assert s[..|s| - 1] == Decimal(n / 10);
    } else {
      assert [Digit(n)][..0] == [];
    }
  }

  lemma DecimalInjective(m: nat, n: nat)
    requires Decimal(m) == Decimal(n)
    ensures m == n
  {
    ParseDecimal(m);
    ParseDecimal(n);
  }

  /** A numeral starts with a zero only when it is the zero. */
  lemma {:induction false} NoLeadingZero(n: nat)
    ensures Decimal(n)[0] == '0' ==> n == 0
    ensures n < 10 ==> |Decimal(n)| == 1
  {
    if n >= 10 {
      NoLeadingZero(n / 10);
    }
  }

  function Power10(w: nat): (p: nat)
    ensures p > 0
  {
    if w == 0 then 1 else 10 * Power10(w - 1)
  }

  function Zeros(k: nat): string {
    if k == 0 then [] else Zeros(k - 1) + ['0']
  }

  /** The numeral padded on the left with zeros to at least w characters. */
  function Padded(n: nat, w: nat): string {
    var s := Decimal(n);
    if |s| < w then Zeros(w - |s|) + s else s
  }

  /** The last w digits of n. */
  function Fixed(n: nat, w: nat): (s: string)
    ensures |s| == w && forall i :: 0 <= i < |s| ==> IsDigit(s[i])
  {
    if w == 0 then [] else Fixed(n / 10, w - 1) + [Digit(n % 10)]
  }

  lemma {:induction false} FixedZero(w: nat)
    ensures Fixed(0, w) == Zeros(w)
  {
    if w > 0 {
      FixedZero(w - 1);
    }
  }

  lemma {:induction false} PaddedIsFixed(n: nat, w: nat)
    requires n < Power10(w) && w > 0
    ensures Padded(n, w) == Fixed(n, w)
    ensures |Decimal(n)| <= w
  {
    if n < 10 {
      FixedZero(w - 1);
      assert Fixed(n, w) == Zeros(w - 1) + [Digit(n)];
    } else {
      PaddedIsFixed(n / 10, w - 1);
      var s := Decimal(n / 10);
      assert Decimal(n) == s + [Digit(n % 10)];
      assert Zeros(w - 1 - |s|) + (s + [Digit(n % 10)]) == Zeros(w - 1 - |s|) + s + [Digit(n % 10)];
    }
  }

  lemma {:induction false} ParseFixed(n: nat, w: nat)
    requires n < Power10(w)
    ensures Parse(Fixed(n, w)) == n
  {
    if w > 0 {
      ParseFixed(n / 10, w - 1);
      var s := Fixed(n / 10, w - 1) + [Digit(n % 10)];
      assert s[..|s| - 1] == Fixed(n / 10, w - 1);
    }
  }

  // ------------------------------------------------------------------ order by code point

  predicate Below(a: string, b: string) {
    b != [] && (a == [] || a[0] < b[0] || (a[0] == b[0] && Below(a[1..], b[1..])))
  }

  predicate AtMost(a: string, b: string) {
    a == b || Below(a, b)
  }

  lemma {:induction false} BelowTransitive(a: string, b: string, c: string)
    requires Below(a, b) && Below(b, c)
    ensures Below(a, c)
  {
    if a != [] && a[0] == b[0] == c[0] {
      BelowTransitive(a[1..], b[1..], c[1..]);
    }
  }

  lemma {:induction false} BelowIrreflexive(a: string)
    ensures !Below(a, a)
  {
    if a != [] {
      BelowIrreflexive(a[1..]);
    }
  }

  lemma {:induction false} BelowTotal(a: string, b: string)
    ensures a == b || Below(a, b) || Below(b, a)
  {
    if a != [] && b != [] && a[0] == b[0] {
      BelowTotal(a[1..], b[1..]);
      assert a == [a[0]] + a[1..] && b == [b[0]] + b[1..];
    }
  }

  lemma BelowAsymmetric(a: string, b: string)
    requires Below(a, b)
    ensures !Below(b, a) && a != b
  {
    if Below(b, a) {
      BelowTransitive(a, b, a);
    }
    BelowIrreflexive(a);
  }

  lemma {:induction false} BelowAfterPrefix(p: string, a: string, b: string)
    ensures Below(p + a, p + b) <==> Below(a, b)
  {
    if p == [] {
      assert p + a == a && p + b == b;
    } else {
      assert (p + a)[1..] == p[1..] + a && (p + b)[1..] == p[1..] + b;
      BelowAfterPrefix(p[1..], a, b);
    }
  }

  /** Whatever lies between two strings that share a prefix has that prefix. */
  lemma {:induction false} BetweenSharesPrefix(p: string, a: string, k: string, b: string)
    requires AtMost(p + a, k) && AtMost(k, p + b)
    ensures p <= k
  {
    if p != [] {
      assert (p + a)[1..] == p[1..] + a && (p + b)[1..] == p[1..] + b;
      assert k != [] && k[0] == p[0];
      assert k == [k[0]] + k[1..] && p == [p[0]] + p[1..];
      assert p + a == [p[0]] + (p[1..] + a) && p + b == [p[0]] + (p[1..] + b);
      BetweenSharesPrefix(p[1..], a, k[1..], b);
    }
  }

  lemma {:induction false} BelowSnoc(a: string, x: char, b: string, y: char)
    requires |a| == |b|
    ensures Below(a + [x], b + [y]) <==> Below(a, b) || (a == b && x < y)
  {
    if a != [] {
      assert (a + [x])[1..] == a[1..] + [x] && (b + [y])[1..] == b[1..] + [y];
      BelowSnoc(a[1..], x, b[1..], y);
      assert a == [a[0]] + a[1..] && b == [b[0]] + b[1..];
    }
  }

  /** On numerals of one width the order by code point is the order of the numbers. */
  lemma {:induction false} FixedOrder(m: nat, n: nat, w: nat)
    requires m < Power10(w) && n < Power10(w)
    ensures Below(Fixed(m, w), Fixed(n, w)) <==> m < n
  {
    if w > 0 {
      FixedOrder(m / 10, n / 10, w - 1);
      BelowSnoc(Fixed(m / 10, w - 1), Digit(m % 10), Fixed(n / 10, w - 1), Digit(n % 10));
      ParseFixed(m / 10, w - 1);
      ParseFixed(n / 10, w - 1);
    }
  }
}
