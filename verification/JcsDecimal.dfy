/** Decimal digit strings and the numbers they denote, used by the number
    formatting of tests/unit/_jcs_reference.py. */
module JcsDecimals {

  // ---- powers of ten ----

  function Pow10(e: int): (r: real)
    ensures r > 0.0
    decreases if e < 0 then -e else e
  {
    if e == 0 then 1.0 else if e > 0 then 10.0 * Pow10(e - 1) else Pow10(e + 1) / 10.0
  }

  lemma Pow10Step(e: int)
    ensures Pow10(e + 1) == 10.0 * Pow10(e)
  {
  }

  lemma Pow10Zero()
    ensures Pow10(0) == 1.0
  {
  }

  lemma TenTimes(x: real, a: real, p: real, q: real)
    requires x == a * p && q == 10.0 * p
    ensures 10.0 * x == a * q
  {
  }

  lemma {:induction false} Pow10Sum(a: int, b: nat)
    ensures Pow10(a + b) == Pow10(a) * Pow10(b)
  {
    hide Pow10;
    if b == 0 {
      Pow10Zero();
    } else {
      Pow10Sum(a, b - 1);
      Pow10Step(a + b - 1);
      Pow10Step(b - 1);
      TenTimes(Pow10(a + b - 1), Pow10(a), Pow10(b - 1), Pow10(b));
    }
  }

  lemma {:induction false} Pow10Monotone(a: int, b: int)
    requires a <= b
    ensures Pow10(a) <= Pow10(b)
    decreases b - a
  {
    if a < b {
      Pow10Monotone(a, b - 1);
      Pow10Step(b - 1);
    }
  }

  // ---- digit strings ----

  predicate IsDigit(c: char) {
    '0' <= c <= '9'
  }

  predicate AllDigits(s: string) {
    forall i :: 0 <= i < |s| ==> IsDigit(s[i])
  }

  function DigitOf(c: char): (d: nat)
    requires IsDigit(c)
    ensures d <= 9
  {
    c as int - '0' as int
  }

  function NatOf(s: string): nat
    requires AllDigits(s)
  {
    if s == [] then 0 else 10 * NatOf(s[..|s| - 1]) + DigitOf(s[|s| - 1])
  }

  function Zeros(n: nat): (s: string)
    ensures |s| == n && AllDigits(s) && forall i :: 0 <= i < n ==> s[i] == '0'
  {
    seq(n, _ => '0')
  }

  lemma NatOfSnoc(s: string, c: char)
    requires AllDigits(s) && IsDigit(c)
    ensures AllDigits(s + [c]) && NatOf(s + [c]) == 10 * NatOf(s) + DigitOf(c)
  {
    assert (s + [c])[..|s|] == s;
  }

  /** Leading zeros do not change the number. */
  lemma {:induction false} LeadingZeros(n: nat, s: string)
    requires AllDigits(s)
    ensures AllDigits(Zeros(n) + s) && NatOf(Zeros(n) + s) == NatOf(s)
  {
    if s != [] {
      var init, c := s[..|s| - 1], s[|s| - 1];
      LeadingZeros(n, init);
      assert Zeros(n) + s == (Zeros(n) + init) + [c];
      NatOfSnoc(Zeros(n) + init, c);
    } else if n > 0 {
      LeadingZeros(n - 1, []);
      assert Zeros(n) + [] == (Zeros(n - 1) + []) + ['0'];
      NatOfSnoc(Zeros(n - 1) + [], '0');
    } else {
      assert Zeros(0) + [] == "";
    }
  }

  /** Each trailing zero multiplies by ten. */
  lemma {:induction false} TrailingZeros(s: string, n: nat)
    requires AllDigits(s)
    ensures AllDigits(s + Zeros(n)) && NatOf(s + Zeros(n)) as real == NatOf(s) as real * Pow10(n)
  {
    hide Pow10, NatOf;
    if n == 0 {
      Pow10Zero();
      assert s + Zeros(0) == s;
    } else {
      TrailingZeros(s, n - 1);
      assert s + Zeros(n) == (s + Zeros(n - 1)) + ['0'];
      NatOfSnoc(s + Zeros(n - 1), '0');
      Pow10Step(n - 1);
      TenTimes(NatOf(s + Zeros(n - 1)) as real, NatOf(s) as real, Pow10(n - 1), Pow10(n));
    }
  }

  lemma {:induction false} NatOfBelow(s: string)
    requires AllDigits(s)
    ensures NatOf(s) as real < Pow10(|s|)
    ensures s != [] && s[0] != '0' ==> Pow10(|s| - 1) <= NatOf(s) as real
  {
    if s != [] {
      var init := s[..|s| - 1];
      NatOfBelow(init);
      Pow10Step(|s| - 1);
      WholeBelowPow10(NatOf(init), |init|);
      if |s| > 1 {
        Pow10Step(|s| - 2);
        assert s[0] == init[0];
      }
    }
  }

  lemma {:induction false} WholePow10(n: nat) returns (w: nat)
    ensures w as real == Pow10(n)
  {
    if n == 0 {
      w := 1;
    } else {
      var v := WholePow10(n - 1);
      w := 10 * v;
    }
  }

  lemma WholeBelowPow10(m: nat, n: nat)
    requires m as real < Pow10(n)
    ensures m as real + 1.0 <= Pow10(n)
  {
    hide Pow10;
    var w := WholePow10(n);
    assert m < w;
  }

  /** Digit strings of one length denote one number each. */
  lemma {:induction false} NatOfInjective(s: string, t: string)
    requires AllDigits(s) && AllDigits(t) && |s| == |t| && NatOf(s) == NatOf(t)
    ensures s == t
  {
    if s != [] {
      NatOfInjective(s[..|s| - 1], t[..|t| - 1]);
      assert s == s[..|s| - 1] + [s[|s| - 1]] && t == t[..|t| - 1] + [t[|t| - 1]];
    }
  }

  // ---- 0.digits x 10^n ----

  /** The number 0.digits x 10^n. */
  function Value(digits: string, n: int): real
    requires AllDigits(digits)
  {
    NatOf(digits) as real * Pow10(n - |digits|)
  }

  /** Non-empty, no leading zero, no trailing zero. */
  predicate Canonical(digits: string) {
    AllDigits(digits) && digits != [] && digits[0] != '0' && digits[|digits| - 1] != '0'
  }

  lemma ProductBounds(a: real, lo: real, hi: real, f: real)
    requires lo <= a < hi && f > 0.0
    ensures lo * f <= a * f < hi * f
  {
  }

  /** A canonical 0.digits x 10^n lies in [10^(n-1), 10^n). */
  lemma ValueMagnitude(digits: string, n: int)
    requires Canonical(digits)
    ensures Pow10(n - 1) <= Value(digits, n) < Pow10(n)
  {
    hide Pow10, NatOf;
    NatOfBelow(digits);
    ProductBounds(NatOf(digits) as real, Pow10(|digits| - 1), Pow10(|digits|), Pow10(n - |digits|));
    Pow10Sum(n - |digits|, |digits|);
    Pow10Sum(n - |digits|, |digits| - 1);
    assert n - |digits| + (|digits| - 1) == n - 1 && n - |digits| + |digits| == n;
  }

  lemma CancelFactor(a: real, b: real, f: real)
    requires f > 0.0 && a * f == b * f
    ensures a == b
  {
    assert (a - b) * f == 0.0;
  }

  lemma LongerEndsInZero(d: string, e: string, n: int)
    requires Canonical(d) && Canonical(e) && |d| < |e|
    ensures Value(d, n) != Value(e, n)
  {
    hide Pow10, NatOf;
    var gap := |e| - |d|;
    Pow10Sum(n - |e|, gap);
    TrailingZeros(d, gap);
    Reassociate(NatOf(d) as real, Pow10(n - |e|), Pow10(gap));
    assert n - |e| + gap == n - |d|;
    PaddedValue(NatOf(d) as real, NatOf(d + Zeros(gap)) as real, Pow10(n - |e|), Pow10(gap), Pow10(n - |d|));
    assert (d + Zeros(gap))[|e| - 1] == '0';
    if Value(d, n) == Value(e, n) {
      CancelFactor(NatOf(d + Zeros(gap)) as real, NatOf(e) as real, Pow10(n - |e|));
      NatOfInjective(d + Zeros(gap), e);
    }
  }

  lemma PaddedValue(a: real, padded: real, p: real, q: real, r: real)
    requires padded == a * q && r == p * q
    ensures a * r == padded * p
  {
    Reassociate(a, p, q);
  }

  lemma Reassociate(a: real, b: real, c: real)
    ensures a * (b * c) == (a * c) * b
  {
  }

  /** Main result: a number has at most one canonical (digits, n). */
  lemma CanonicalIsUnique(d: string, n: int, e: string, m: int)
    requires Canonical(d) && Canonical(e) && Value(d, n) == Value(e, m)
    ensures d == e && n == m
  {
    hide Pow10, NatOf;
    ValueMagnitude(d, n);
    ValueMagnitude(e, m);
    if n < m {
      Pow10Monotone(n, m - 1);
    } else if m < n {
      Pow10Monotone(m, n - 1);
    } else if |d| < |e| {
      LongerEndsInZero(d, e, n);
    } else if |e| < |d| {
      LongerEndsInZero(e, d, n);
    } else {
      CancelFactor(NatOf(d) as real, NatOf(e) as real, Pow10(n - |d|));
      NatOfInjective(d, e);
    }
  }

  // ---- decimal text of a whole number ----

  function NatText(n: nat): (s: string)
    ensures s != [] && AllDigits(s)
  {
    if n < 10 then [('0' as int + n) as char] else NatText(n / 10) + [('0' as int + n % 10) as char]
  }

  lemma {:induction false} NatTextDenotes(n: nat)
    ensures NatOf(NatText(n)) == n
  {
    if n >= 10 {
      NatTextDenotes(n / 10);
      NatOfSnoc(NatText(n / 10), ('0' as int + n % 10) as char);
    } else {
      NatOfSnoc([], ('0' as int + n) as char);
      assert [] + [('0' as int + n) as char] == NatText(n);
    }
  }
}
