/** String text of tests/unit/_jcs_reference.py (RFC 8785 section 3.2.2.2). Characters are
    Unicode scalar values. */
module JcsStrings {

  import opened Wrappers

  // ---- _format_string ----

  function HexDigit(d: nat): char
    requires d < 16
  {
    if d < 10 then ('0' as int + d) as char else ('a' as int + d - 10) as char
  }

  /** Four lower-case hexadecimal digits. */
  function Hex4(code: nat): (s: string)
    requires code < 0x10000
    ensures |s| == 4
  {
    [HexDigit(code / 0x1000), HexDigit(code / 0x100 % 0x10), HexDigit(code / 0x10 % 0x10), HexDigit(code % 0x10)]
  }

  function Escaped(c: char): (s: string)
    ensures s != []
  {
    var code := c as int;
    if code == 0x08 then "\\b"
    else if code == 0x09 then "\\t"
    else if code == 0x0A then "\\n"
    else if code == 0x0C then "\\f"
    else if code == 0x0D then "\\r"
    else if code == 0x22 then "\\\""
    else if code == 0x5C then "\\\\"
    else if code < 0x20 then "\\u" + Hex4(code)
    else [c]
  }

  function Body(value: string): string {
    if value == [] then "" else Body(value[..|value| - 1]) + Escaped(value[|value| - 1])
  }

  function FormatString(value: string): string {
    "\"" + Body(value) + "\""
  }

  /** The loop of `_format_string`, character by character. */
  method WriteString(value: string) returns (text: string)
    ensures text == FormatString(value)
  {
    hide Escaped;
    text := "\"";
    for i := 0 to |value|
      invariant text == "\"" + Body(value[..i])
    {
      assert value[..i + 1][..i] == value[..i];
      text := text + Escaped(value[i]);
    }
    assert value[..|value|] == value;
    text := text + "\"";
  }

  // ---- a strict reader ----

  function HexValue(c: char): Option<nat> {
    if '0' <= c <= '9' then Some(c as int - '0' as int)
    else if 'a' <= c <= 'f' then Some(c as int - 'a' as int + 10)
    else if 'A' <= c <= 'F' then Some(c as int - 'A' as int + 10)
    else None
  }

  function ReadHex4(s: string): Option<char>
    requires |s| == 4
  {
    var a, b, c, d := HexValue(s[0]), HexValue(s[1]), HexValue(s[2]), HexValue(s[3]);
    if a.None? || b.None? || c.None? || d.None? then None
    else
      var code := 0x1000 * a.value + 0x100 * b.value + 0x10 * c.value + d.value;
      if code < 0xD800 || 0xE000 <= code < 0x10000 then Some(code as char) else None
  }

  /** One character or escape at the front of `s`: the character and how much text it took. */
  function ReadChar(s: string): (r: Option<(char, nat)>)
    requires s != []
    ensures r.Some? ==> 0 < r.value.1 <= |s|
  {
    if s[0] == '\\' then
      if |s| < 2 then None
      else if s[1] == 'u' then
        if |s| < 6 then None
        else match ReadHex4(s[2..6])
          case Some(c) => Some((c, 6))
          case None => None
      else if s[1] == 'b' then Some((0x08 as char, 2))
      else if s[1] == 't' then Some((0x09 as char, 2))
      else if s[1] == 'n' then Some((0x0A as char, 2))
      else if s[1] == 'f' then Some((0x0C as char, 2))
      else if s[1] == 'r' then Some((0x0D as char, 2))
      else if s[1] == '"' || s[1] == '\\' || s[1] == '/' then Some((s[1], 2))
      else None
    else if s[0] as int < 0x20 then None
    else Some((s[0], 1))
  }

  /** The characters up to the closing quote, and the text after it. */
  function ReadBody(s: string): (r: Option<(string, string)>)
    ensures r.Some? ==> |r.value.1| < |s|
    decreases |s|
  {
    if s == [] then None
    else if s[0] == '"' then Some(("", s[1..]))
    else match ReadChar(s)
      case None => None
      case Some((c, n)) =>
        match ReadBody(s[n..])
        case None => None
        case Some((value, rest)) => Some(([c] + value, rest))
  }

  lemma HexDigitReads(d: nat)
    requires d < 16
    ensures HexValue(HexDigit(d)) == Some(d)
  {
  }

  lemma Hex4Reads(code: nat)
    requires code < 0x20
    ensures ReadHex4(Hex4(code)) == Some(code as char)
  {
    hide HexDigit, HexValue;
    HexDigitReads(0);
    HexDigitReads(code / 0x10);
    HexDigitReads(code % 0x10);
    assert code / 0x1000 == 0 && code / 0x100 % 0x10 == 0 && code / 0x10 % 0x10 == code / 0x10;
  }

  /** An escaped character reads back as itself, taking exactly its own text. */
  lemma EscapedReads(c: char, rest: string)
    ensures var s := Escaped(c) + rest; s[0] != '"' && ReadChar(s) == Some((c, |Escaped(c)|))
  {
    var code, s := c as int, Escaped(c) + rest;
    if code < 0x20 && code !in {0x08, 0x09, 0x0A, 0x0C, 0x0D} {
      Hex4Reads(code);
      assert s[2..6] == Hex4(code);
    }
  }

  predicate IsUpperHex(c: char) {
    'A' <= c <= 'F'
  }

  /** Some text, all of it, reads as the character. */
  predicate Spells(t: string, c: char) {
    t != [] && ReadChar(t) == Some((c, |t|))
  }

  /** Main result: the text of a character is the shortest that spells it, with lower-case
      digits if it needs any; no other text is both. */
  lemma EscapedIsCanonical(c: char, t: string)
    requires Spells(t, c) && t[0] != '"'
    ensures |Escaped(c)| <= |t|
    ensures |t| == |Escaped(c)| && (|t| == 6 ==> forall i :: 2 <= i < 6 ==> !IsUpperHex(t[i])) ==> t == Escaped(c)
  {
    if |t| == 6 && t[0] == '\\' && t[1] == 'u' && |Escaped(c)| == 6 && forall i :: 2 <= i < 6 ==> !IsUpperHex(t[i]) {
      assert t[2..6] == [t[2], t[3], t[4], t[5]];
      LowerHexIsUnique(t[2..6], c);
      assert t == "\\u" + t[2..6];
    }
  }

  lemma LowerHexIsUnique(t: string, c: char)
    requires |t| == 4 && ReadHex4(t) == Some(c) && c as int < 0x20 && forall i :: 0 <= i < 4 ==> !IsUpperHex(t[i])
    ensures t == Hex4(c as int)
  {
    HexDigitIsUnique(t[0]);
    HexDigitIsUnique(t[1]);
    HexDigitIsUnique(t[2]);
    HexDigitIsUnique(t[3]);
  }

  lemma HexDigitIsUnique(c: char)
    requires HexValue(c).Some? && !IsUpperHex(c)
    ensures HexValue(c).value < 16 && HexDigit(HexValue(c).value) == c
  {
  }

  lemma {:induction false} BodyFromFront(c: char, value: string)
    ensures Body([c] + value) == Escaped(c) + Body(value)
  {
    hide Escaped;
    if value == [] {
      assert [c] + value == [c];
      assert Body([c][..0]) == "";
    } else {
      var init := value[..|value| - 1];
      BodyFromFront(c, init);
      assert ([c] + value)[..|value|] == [c] + init;
    }
  }

  /** Main result: every string reads back from its text, whatever follows it. */
  lemma {:induction false} StringReads(value: string, rest: string)
    ensures ReadBody(Body(value) + "\"" + rest) == Some((value, rest))
    decreases |value|
  {
    if value == [] {
      assert Body(value) + "\"" + rest == "\"" + rest;
    } else {
      var c, tail := value[0], value[1..];
      assert value == [c] + tail;
      BodyFromFront(c, tail);
      var after := Body(tail) + "\"" + rest;
      var s := Body(value) + "\"" + rest;
      assert s == Escaped(c) + after;
      EscapedReads(c, after);
      assert s[|Escaped(c)|..] == after;
      StringReads(tail, rest);
    }
  }
}
