/** Number text: `_shortest_digits` and `_format_number` of tests/unit/_jcs_reference.py
    (RFC 8785 section 3.2.2.3, ECMA-262 Number::toString). A float is represented by the
    decimal text Python's `repr` gives for its magnitude. */
module JcsNumbers {
  import opened JcsDecimals
  import opened Wrappers

  // ---- decimal text: digits [. digits] [e [sign] digits] ----

  /** whole "." frac "e" exp */
  datatype Parts = Parts(whole: string, frac: string, exp: int)

  predicate IsExponentMark(c: char) {
    c == 'e' || c == 'E'
  }

  function FindExponent(s: string): (i: nat)
    ensures i <= |s| && (i < |s| ==> IsExponentMark(s[i]))
    ensures forall j :: 0 <= j < i ==> !IsExponentMark(s[j])
  {
    if s == [] || IsExponentMark(s[0]) then 0
    else
      var i := FindExponent(s[1..]);
      assert forall j :: 1 <= j < i + 1 ==> s[j] == s[1..][j - 1];
      i + 1
  }

  function FindDot(s: string): (i: nat)
    ensures i <= |s| && (i < |s| ==> s[i] == '.')
    ensures forall j :: 0 <= j < i ==> s[j] != '.'
  {
    if s == [] || s[0] == '.' then 0
    else
      var i := FindDot(s[1..]);
      assert forall j :: 1 <= j < i + 1 ==> s[j] == s[1..][j - 1];
      i + 1
  }

  /** Python's `int` on an optionally signed digit string. */
  function IntOf(s: string): Option<int> {
    if s != [] && s[0] == '-' && s[1..] != [] && AllDigits(s[1..]) then Some(-(NatOf(s[1..]) as int))
    else if s != [] && s[0] == '+' && s[1..] != [] && AllDigits(s[1..]) then Some(NatOf(s[1..]))
    else if s != [] && AllDigits(s) then Some(NatOf(s))
    else None
  }

  /** The parts of a decimal text, or None when it is not one. */
  function PartsOf(text: string): Option<Parts> {
    var e := FindExponent(text);
    var mantissa := text[..e];
    var exp := if e < |text| then IntOf(text[e + 1..]) else Some(0);
    var dot := FindDot(mantissa);
    var whole := mantissa[..dot];
    var frac := if dot < |mantissa| then mantissa[dot + 1..] else "";
    if exp.Some? && whole != [] && AllDigits(whole) && AllDigits(frac) && (dot < |mantissa| ==> frac != [])
    then Some(Parts(whole, frac, exp.value))
    else None
  }

  ghost predicate Digits(p: Parts) {
    p.whole != [] && AllDigits(p.whole) && AllDigits(p.frac)
  }

  /** The number a decimal text denotes. */
  function Denotes(p: Parts): real
    requires AllDigits(p.whole) && AllDigits(p.frac)
  {
    NatOf(p.whole + p.frac) as real * Pow10(p.exp - |p.frac|)
  }

  // ---- _shortest_digits ----

  function LStrip(s: string): string {
    if s != [] && s[0] == '0' then LStrip(s[1..]) else s
  }

  function RStrip(s: string): string {
    if s != [] && s[|s| - 1] == '0' then RStrip(s[..|s| - 1]) else s
  }

  /** The significant digits and the position of the point, None for zero. */
  function ShortestDigits(p: Parts): Option<(string, int)> {
    var all := p.whole + p.frac;
    var stripped := LStrip(all);
    var digits := RStrip(stripped);
    var n := |p.whole| + p.exp - (|all| - |stripped|);
    if digits == [] then None else Some((digits, n))
  }

  lemma {:induction false} LStripRemovesZeros(s: string) returns (z: nat)
    ensures s == Zeros(z) + LStrip(s)
    ensures LStrip(s) != [] ==> LStrip(s)[0] != '0'
  {
    if s != [] && s[0] == '0' {
      var y := LStripRemovesZeros(s[1..]);
      z := y + 1;
      assert s == ['0'] + s[1..];
      assert Zeros(z) == ['0'] + Zeros(y);
    } else {
      z := 0;
    }
  }

  lemma {:induction false} RStripRemovesZeros(s: string) returns (z: nat)
    ensures s == RStrip(s) + Zeros(z)
    ensures RStrip(s) != [] ==> RStrip(s)[|RStrip(s)| - 1] != '0'
  {
    if s != [] && s[|s| - 1] == '0' {
      var y := RStripRemovesZeros(s[..|s| - 1]);
      z := y + 1;
      assert s == s[..|s| - 1] + ['0'];
      assert Zeros(z) == Zeros(y) + ['0'];
    } else {
      z := 0;
    }
  }

  /** Main result: the digits are canonical and denote exactly the number the text
      denotes; there are none exactly when the text denotes zero. */
  lemma ShortestDigitsExact(p: Parts)
    requires Digits(p)
    ensures match ShortestDigits(p)
            case Some((digits, n)) => Canonical(digits) && Value(digits, n) == Denotes(p) && Denotes(p) > 0.0
            case None => Denotes(p) == 0.0
  {
    hide Pow10, NatOf, LStrip, RStrip;
    var all := p.whole + p.frac;
    var stripped := LStrip(all);
    var digits := RStrip(stripped);
    var z := LStripRemovesZeros(all);
    var y := RStripRemovesZeros(stripped);
    assert forall i :: 0 <= i < |stripped| ==> stripped[i] == all[z + i];
    assert forall i :: 0 <= i < |digits| ==> digits[i] == stripped[i];
    LeadingZeros(z, stripped);
    TrailingZeros(digits, y);
    assert NatOf(all) as real == NatOf(digits) as real * Pow10(y);
    if digits == [] {
      NatOfEmpty();
      ZeroTimes(Pow10(y), Pow10(p.exp - |p.frac|));
    } else {
      Pow10Sum(p.exp - |p.frac|, y);
      var n := |p.whole| + p.exp - (|all| - |stripped|);
      assert n - |digits| == p.exp - |p.frac| + y;
      PaddedValue(NatOf(digits) as real, NatOf(all) as real, Pow10(p.exp - |p.frac|), Pow10(y), Pow10(n - |digits|));
      assert digits[0] == stripped[0];
      ValueMagnitude(digits, n);
    }
  }

  lemma NatOfEmpty()
    ensures NatOf([]) == 0
  {
  }

  lemma ZeroTimes(a: real, b: real)
    ensures 0.0 * a == 0.0 && 0.0 * b == 0.0
  {
  }

  // ---- _format_number ----

  /** The exponent suffix of the scientific layout. */
  function ExponentText(e: int): string {
    if e >= 0 then "e+" + NatText(e) else "e-" + NatText(-e)
  }

  /** The four layouts of 0.digits x 10^n. */
  function Layout(digits: string, n: int): string
    requires digits != []
  {
    var k := |digits|;
    if k <= n <= 21 then digits + Zeros(n - k)
    else if 0 < n <= 21 then digits[..n] + "." + digits[n..]
    else if -6 < n <= 0 then "0." + Zeros(-n) + digits
    else if k == 1 then digits + ExponentText(n - 1)
    else [digits[0]] + "." + digits[1..] + ExponentText(n - 1)
  }

  /** The parts a layout is made of. */
  function LayoutParts(digits: string, n: int): Parts
    requires digits != []
  {
    var k := |digits|;
    if k <= n <= 21 then Parts(digits + Zeros(n - k), "", 0)
    else if 0 < n <= 21 then Parts(digits[..n], digits[n..], 0)
    else if -6 < n <= 0 then Parts("0", Zeros(-n) + digits, 0)
    else Parts([digits[0]], digits[1..], n - 1)
  }

  lemma FindExponentAt(mantissa: string, rest: string)
    requires forall i :: 0 <= i < |mantissa| ==> !IsExponentMark(mantissa[i])
    requires rest == [] || IsExponentMark(rest[0])
    ensures FindExponent(mantissa + rest) == |mantissa|
  {
    var text := mantissa + rest;
    assert forall i :: 0 <= i < |mantissa| ==> text[i] == mantissa[i];
    assert rest != [] ==> text[|mantissa|] == rest[0];
  }

  lemma FindDotAt(whole: string, rest: string)
    requires AllDigits(whole) && (rest == [] || rest[0] == '.')
    ensures FindDot(whole + rest) == |whole|
  {
    var text := whole + rest;
    assert forall i :: 0 <= i < |whole| ==> text[i] == whole[i];
    assert rest != [] ==> text[|whole|] == rest[0];
  }

  /** The text of some parts: the exponent text, if any, is given separately. */
  function Mantissa(whole: string, frac: string): string {
    if frac == [] then whole else whole + "." + frac
  }

  /** Splitting a text made of digits, a point, digits and an exponent gives them back. */
  lemma PartsOfText(whole: string, frac: string, exponent: string, exp: int)
    requires whole != [] && AllDigits(whole) && AllDigits(frac)
    requires if exponent == [] then exp == 0 else IsExponentMark(exponent[0]) && IntOf(exponent[1..]) == Some(exp)
    ensures PartsOf(Mantissa(whole, frac) + exponent) == Some(Parts(whole, frac, exp))
  {
    hide IntOf, FindExponent, FindDot;
    var mantissa := Mantissa(whole, frac);
    var text := mantissa + exponent;
    FindExponentAt(mantissa, exponent);
    assert text[..|mantissa|] == mantissa;
    assert exponent != [] ==> text[|mantissa| + 1..] == exponent[1..];
    if frac == [] {
      assert mantissa == whole + [];
      FindDotAt(whole, []);
    } else {
      assert mantissa == whole + ("." + frac);
      FindDotAt(whole, "." + frac);
      assert mantissa[|whole| + 1..] == frac;
    }
    assert mantissa[..|whole|] == whole;
  }

  lemma ExponentTextReads(e: int)
    ensures IsExponentMark(ExponentText(e)[0]) && IntOf(ExponentText(e)[1..]) == Some(e)
  {
    var magnitude: nat := if e >= 0 then e else -e;
    NatTextDenotes(magnitude);
    assert ExponentText(e)[2..] == NatText(magnitude);
    assert ExponentText(e)[1..][1..] == NatText(magnitude);
  }

  /** Every layout is decimal text with the expected parts. */
  lemma LayoutSplits(digits: string, n: int)
    requires AllDigits(digits) && digits != []
    ensures PartsOf(Layout(digits, n)) == Some(LayoutParts(digits, n))
  {
    hide PartsOf, IntOf, NatOf, Pow10, ExponentText;
    var k, p := |digits|, LayoutParts(digits, n);
    if 0 < n <= 21 || -6 < n <= 0 {
      assert Layout(digits, n) == Mantissa(p.whole, p.frac) + [];
      PartsOfText(p.whole, p.frac, [], 0);
    } else {
      ExponentTextReads(n - 1);
      ExponentTextIsLong(n - 1);
      assert k == 1 ==> [digits[0]] == digits && digits[1..] == [];
      assert Layout(digits, n) == Mantissa(p.whole, p.frac) + ExponentText(n - 1);
      PartsOfText(p.whole, p.frac, ExponentText(n - 1), n - 1);
    }
  }

  lemma ExponentTextIsLong(e: int)
    ensures |ExponentText(e)| > 2
  {
  }

  /** Every layout denotes exactly 0.digits x 10^n. */
  lemma LayoutDenotes(digits: string, n: int)
    requires AllDigits(digits) && digits != []
    ensures Digits(LayoutParts(digits, n)) && Denotes(LayoutParts(digits, n)) == Value(digits, n)
  {
    hide Pow10, NatOf;
    var k, p := |digits|, LayoutParts(digits, n);
    if k <= n <= 21 {
      TrailingZeros(digits, n - k);
      Pow10Zero();
      assert p.whole + p.frac == digits + Zeros(n - k);
    } else if 0 < n <= 21 {
      assert p.whole + p.frac == digits;
    } else if -6 < n <= 0 {
      LeadingZeros(1 - n, digits);
      assert Zeros(1 - n) == "0" + Zeros(-n);
      assert p.whole + p.frac == Zeros(1 - n) + digits;
    } else {
      assert p.whole + p.frac == digits;
    }
  }

  type Decimal = s: string | PartsOf(s).Some? witness (ZeroReads(); "0")

  /** A number: its sign and the decimal text of its magnitude. */
  datatype Number = Number(negative: bool, repr: Decimal)

  function FormatNumber(x: Number): string
  {
    match ShortestDigits(PartsOf(x.repr).value)
    case None => "0"
    case Some((digits, n)) =>
      assert digits != [];
      if x.negative then "-" + Layout(digits, n) else Layout(digits, n)
  }

  function NumberValue(x: Number): real
  {
    var magnitude := Denotes(PartsOf(x.repr).value);
    if x.negative then -magnitude else magnitude
  }

  /** How a reader understands number text. */
  function ReadNumber(text: string): Option<Number> {
    if text != [] && text[0] == '-' then
      if PartsOf(text[1..]).Some? then Some(Number(true, text[1..])) else None
    else
      if PartsOf(text).Some? then Some(Number(false, text)) else None
  }

  /** Main result: the printed text reads back as exactly the number printed. */
  lemma FormatDenotes(x: Number)
    ensures ReadNumber(FormatNumber(x)).Some?
    ensures NumberValue(ReadNumber(FormatNumber(x)).value) == NumberValue(x)
  {
    hide Pow10, NatOf, Layout, ShortestDigits, FindExponent, FindDot, IntOf;
    ShortestDigitsExact(PartsOf(x.repr).value);
    match ShortestDigits(PartsOf(x.repr).value)
    case None =>
      ZeroReads();
    case Some((digits, n)) =>
      LayoutSplits(digits, n);
      LayoutDenotes(digits, n);
      LayoutStartsWithDigit(digits, n);
      assert ("-" + Layout(digits, n))[1..] == Layout(digits, n);
  }

  lemma ZeroReads()
    ensures PartsOf("0") == Some(Parts("0", "", 0)) && Denotes(Parts("0", "", 0)) == 0.0
  {
    PartsOfText("0", "", "", 0);
    assert Mantissa("0", "") + "" == "0";
    assert NatOf("0" + "") == 0;
  }

  lemma LayoutStartsWithDigit(digits: string, n: int)
    requires AllDigits(digits) && digits != []
    ensures Layout(digits, n) != [] && IsDigit(Layout(digits, n)[0])
  {
  }

  /** Main result: two numbers print alike exactly when they are equal, so -0 and 0 share
      one text and no two distinct numbers collide. */
  lemma PrintAlikeIffEqual(x: Number, y: Number)
    ensures FormatNumber(x) == FormatNumber(y) <==> NumberValue(x) == NumberValue(y)
  {
    hide Pow10, NatOf, Layout, ShortestDigits, PartsOf, Denotes;
    FormatDenotes(x);
    FormatDenotes(y);
    var p, q := PartsOf(x.repr).value, PartsOf(y.repr).value;
    PartsAreDigits(x.repr);
    PartsAreDigits(y.repr);
    ShortestDigitsExact(p);
    ShortestDigitsExact(q);
    if NumberValue(x) == NumberValue(y) && ShortestDigits(p).Some? && ShortestDigits(q).Some? {
      var (d, n) := ShortestDigits(p).value;
      var (e, m) := ShortestDigits(q).value;
      CanonicalIsUnique(d, n, e, m);
    }
  }

  lemma PartsAreDigits(text: string)
    requires PartsOf(text).Some?
    ensures Digits(PartsOf(text).value)
  {
  }

  ghost predicate HasExponentMark(text: string) {
    exists i :: 0 <= i < |text| && IsExponentMark(text[i])
  }

  /** A nonzero number is printed without an exponent exactly when its magnitude lies in
      [1e-6, 1e21). */
  lemma PlainIffInRange(x: Number)
    requires NumberValue(x) != 0.0
    ensures var magnitude := if x.negative then -NumberValue(x) else NumberValue(x);
            HasExponentMark(FormatNumber(x)) <==> !(Pow10(-6) <= magnitude < Pow10(21))
  {
    hide Pow10, NatOf, ShortestDigits, PartsOf, Denotes, Layout;
    var p := PartsOf(x.repr).value;
    PartsAreDigits(x.repr);
    ShortestDigitsExact(p);
    var (digits, n) := ShortestDigits(p).value;
    ValueMagnitude(digits, n);
    if n <= 21 {
      Pow10Monotone(n, 21);
    } else {
      Pow10Monotone(21, n - 1);
    }
    if n <= -6 {
      Pow10Monotone(n, -6);
    } else {
      Pow10Monotone(-6, n - 1);
    }
    LayoutMark(digits, n);
    MarkAfterSign(Layout(digits, n));
  }

  lemma LayoutMark(digits: string, n: int)
    requires AllDigits(digits) && digits != []
    ensures HasExponentMark(Layout(digits, n)) <==> n > 21 || n <= -6
  {
    hide ExponentText;
    if n > 21 || n <= -6 {
      ExponentTextIsLong(n - 1);
      ExponentTextReads(n - 1);
      var at := if |digits| == 1 then 1 else |digits| + 1;
      assert IsExponentMark(Layout(digits, n)[at]);
    }
  }

  lemma MarkAfterSign(text: string)
    ensures HasExponentMark("-" + text) <==> HasExponentMark(text)
  {
    if HasExponentMark(text) {
      var i :| 0 <= i < |text| && IsExponentMark(text[i]);
      assert ("-" + text)[i + 1] == text[i];
    }
  }

  // ---- the shape of the text ----

  /** No leading zero, unless it is zero itself. */
  predicate PlainWhole(s: string) {
    s != [] && AllDigits(s) && (s[0] == '0' ==> s == "0")
  }

  predicate NoTrailingZero(s: string) {
    AllDigits(s) && (s != [] ==> s[|s| - 1] != '0')
  }

  /** A lower-case mark, a sign in any case, and digits without a leading zero. */
  predicate SignedExponent(s: string) {
    |s| >= 3 && s[0] == 'e' && (s[1] == '+' || s[1] == '-') && PlainWhole(s[2..]) && s[2] != '0'
  }

  lemma {:induction false} NatTextPlain(n: nat)
    ensures PlainWhole(NatText(n)) && (n > 0 ==> NatText(n)[0] != '0')
  {
    if n >= 10 {
      NatTextPlain(n / 10);
    }
  }

  lemma ExponentTextIsSigned(e: int)
    requires e != 0
    ensures SignedExponent(ExponentText(e))
  {
    hide NatText;
    NatTextPlain(if e > 0 then e else -e);
    assert ExponentText(e)[2..] == NatText(if e > 0 then e else -e);
  }

  lemma PartsHaveShape(digits: string, n: int)
    requires Canonical(digits)
    ensures var p := LayoutParts(digits, n); PlainWhole(p.whole) && NoTrailingZero(p.frac)
    ensures var p := LayoutParts(digits, n); !(-6 < n <= 21) ==> |p.whole| == 1 && p.whole[0] != '0'
  {
    hide NatOf, Pow10;
  }

  lemma LayoutIsParts(digits: string, n: int)
    requires Canonical(digits)
    ensures var p := LayoutParts(digits, n);
            Layout(digits, n) == Mantissa(p.whole, p.frac) + if -6 < n <= 21 then "" else ExponentText(n - 1)
  {
    hide NatOf, Pow10, ExponentText;
    var p := LayoutParts(digits, n);
    if -6 < n <= 21 {
      assert Layout(digits, n) == Mantissa(p.whole, p.frac) + "";
    } else if |digits| == 1 {
      assert [digits[0]] == digits && digits[1..] == [];
    }
  }

  lemma LayoutHasShape(digits: string, n: int) returns (whole: string, frac: string, exponent: string)
    requires Canonical(digits)
    ensures Layout(digits, n) == Mantissa(whole, frac) + exponent
    ensures PlainWhole(whole) && NoTrailingZero(frac)
    ensures exponent != [] ==> SignedExponent(exponent) && |whole| == 1 && whole != "0"
  {
    hide Layout, LayoutParts, ExponentText, Mantissa, SignedExponent;
    var p := LayoutParts(digits, n);
    whole, frac := p.whole, p.frac;
    exponent := if -6 < n <= 21 then "" else ExponentText(n - 1);
    PartsHaveShape(digits, n);
    LayoutIsParts(digits, n);
    if !(-6 < n <= 21) {
      ExponentTextIsSigned(n - 1);
    }
  }

  /** Main result: the text is `0`, or an optional minus, a whole part without a leading
      zero, a fraction without a trailing one, and an exponent, if any, with a lower-case
      mark, a sign, no leading zero, and one nonzero digit before the point. */
  lemma FormatHasShape(x: Number) returns (sign: string, whole: string, frac: string, exponent: string)
    ensures FormatNumber(x) == sign + (Mantissa(whole, frac) + exponent)
    ensures sign == (if NumberValue(x) < 0.0 then "-" else "")
    ensures PlainWhole(whole) && NoTrailingZero(frac)
    ensures exponent != [] ==> SignedExponent(exponent) && |whole| == 1 && whole != "0"
  {
    hide Pow10, NatOf, ShortestDigits, PartsOf, Denotes, Layout;
    var p := PartsOf(x.repr).value;
    PartsAreDigits(x.repr);
    ShortestDigitsExact(p);
    match ShortestDigits(p)
    case None =>
      sign, whole, frac, exponent := "", "0", "", "";
      assert Mantissa("0", "") == "0";
    case Some((digits, n)) =>
      whole, frac, exponent := LayoutHasShape(digits, n);
      sign := if x.negative then "-" else "";
      assert "" + Layout(digits, n) == Layout(digits, n);
  }
}
