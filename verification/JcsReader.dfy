/** A strict reader for canonical JSON text, and the round trip through it. It accepts
    every escape, refuses duplicate names and leading zeros, and skips no white space. */
module JcsReader {
  import opened JcsDecimals
  import opened JcsJson
  import opened JcsNumbers
  import opened JcsOrder
  import opened JcsStrings
  import opened Wrappers

  predicate StartsWith(s: string, p: string) {
    |p| <= |s| && s[..|p|] == p
  }

  predicate IsNumberChar(c: char) {
    IsDigit(c) || c == '+' || c == '-' || c == '.' || c == 'e' || c == 'E'
  }

  function NumberSpan(s: string): (n: nat)
    ensures n <= |s|
  {
    if s != [] && IsNumberChar(s[0]) then 1 + NumberSpan(s[1..]) else 0
  }

  /** No leading zero before another digit. */
  predicate NoLeadingZero(text: string) {
    var body := if text != [] && text[0] == '-' then text[1..] else text;
    |body| > 1 && body[0] == '0' ==> !IsDigit(body[1])
  }

  function ReadNumeral(s: string): (r: Option<(Json, string)>)
    ensures r.Some? ==> |r.value.1| < |s|
  {
    var n := NumberSpan(s);
    if n == 0 || !NoLeadingZero(s[..n]) then None
    else match ReadNumber(s[..n])
      case Some(x) => Some((Num(x), s[n..]))
      case None => None
  }

  function ReadValue(s: string): (r: Option<(Json, string)>)
    ensures r.Some? ==> |r.value.1| < |s|
    decreases |s|, 0
  {
    if s == [] then None
    else if s[0] == '"' then
      match ReadBody(s[1..])
      case Some((value, rest)) => Some((Str(value), rest))
      case None => None
    else if s[0] == '[' then
      if StartsWith(s[1..], "]") then Some((Arr([]), s[2..]))
      else match ReadItems(s[1..])
        case Some((items, rest)) => Some((Arr(items), rest))
        case None => None
    else if s[0] == '{' then
      if StartsWith(s[1..], "}") then Some((Obj([]), s[2..]))
      else match ReadMembers(s[1..])
        case Some((members, rest)) => Some((Obj(members), rest))
        case None => None
    else if StartsWith(s, "null") then Some((Null, s[4..]))
    else if StartsWith(s, "true") then Some((Bool(true), s[4..]))
    else if StartsWith(s, "false") then Some((Bool(false), s[5..]))
    else ReadNumeral(s)
  }

  /** One or more values, up to the closing bracket. */
  function ReadItems(s: string): (r: Option<(seq<Json>, string)>)
    ensures r.Some? ==> |r.value.1| < |s|
    decreases |s|, 1
  {
    match ReadValue(s)
    case None => None
    case Some((v, rest)) =>
      if StartsWith(rest, "]") then Some(([v], rest[1..]))
      else if !StartsWith(rest, ",") then None
      else match ReadItems(rest[1..])
        case Some((vs, rest')) => Some(([v] + vs, rest'))
        case None => None
  }

  /** One name, colon and value. */
  function ReadMember(s: string): (r: Option<(Entry<Json>, string)>)
    ensures r.Some? ==> |r.value.1| < |s|
    decreases |s|, 1
  {
    if !StartsWith(s, "\"") then None
    else match ReadBody(s[1..])
      case None => None
      case Some((name, rest)) =>
        if !StartsWith(rest, ":") then None
        else match ReadValue(rest[1..])
          case Some((v, rest')) => Some((Entry(name, v), rest'))
          case None => None
  }

  /** One or more members with distinct names, up to the closing brace. */
  function ReadMembers(s: string): (r: Option<(seq<Entry<Json>>, string)>)
    ensures r.Some? ==> |r.value.1| < |s|
    decreases |s|, 2
  {
    match ReadMember(s)
    case None => None
    case Some((e, rest)) =>
      if StartsWith(rest, "}") then Some(([e], rest[1..]))
      else if !StartsWith(rest, ",") then None
      else match ReadMembers(rest[1..])
        case Some((es, rest')) =>
          if exists i :: 0 <= i < |es| && es[i].name == e.name then None else Some(([e] + es, rest'))
        case None => None
  }

  /** A whole document: one value and nothing after it. */
  function Read(text: string): Option<Json> {
    match ReadValue(text)
    case Some((v, rest)) => if rest == [] then Some(v) else None
    case None => None
  }

  // ---- numbers read back ----

  ghost predicate NumberChars(s: string) {
    forall i :: 0 <= i < |s| ==> IsNumberChar(s[i])
  }

  /** What may follow a value: nothing, or a character no number contains. */
  ghost predicate Ends(rest: string) {
    rest == [] || !IsNumberChar(rest[0])
  }

  lemma {:induction false} SpanOf(text: string, rest: string)
    requires NumberChars(text) && Ends(rest)
    ensures NumberSpan(text + rest) == |text|
  {
    if text == [] {
      assert text + rest == rest;
    } else {
      assert (text + rest)[1..] == text[1..] + rest;
      SpanOf(text[1..], rest);
    }
  }

  lemma FormatIsStrict(x: Number)
    ensures var text := FormatNumber(x); text != [] && NumberChars(text) && NoLeadingZero(text)
  {
    hide Pow10, NatOf, ShortestDigits, PartsOf, Denotes, Layout;
    var p := PartsOf(x.repr).value;
    PartsAreDigits(x.repr);
    ShortestDigitsExact(p);
    if ShortestDigits(p).Some? {
      var (digits, n) := ShortestDigits(p).value;
      LayoutIsStrict(digits, n);
      assert ("-" + Layout(digits, n))[1..] == Layout(digits, n);
    }
  }

  lemma LayoutIsStrict(digits: string, n: int)
    requires Canonical(digits)
    ensures var text := Layout(digits, n); text != [] && IsDigit(text[0]) && NumberChars(text) && NoLeadingZero(text)
  {
    LayoutChars(digits, n);
    LayoutStartsWithDigit(digits, n);
    LayoutHead(digits, n);
    hide *;
  }

  lemma LayoutChars(digits: string, n: int)
    requires AllDigits(digits) && digits != []
    ensures NumberChars(Layout(digits, n))
  {
    hide ExponentText, NatOf;
    ExponentChars(n - 1);
  }

  lemma ExponentChars(e: int)
    ensures NumberChars(ExponentText(e))
  {
  }

  lemma LayoutHead(digits: string, n: int)
    requires Canonical(digits)
    ensures Layout(digits, n) != [] && (Layout(digits, n)[0] == digits[0] || Layout(digits, n)[..2] == "0.")
    ensures NoLeadingZero(Layout(digits, n))
  {
    hide ExponentText, NatOf;
  }

  // ---- main round trip ----

  /** `v` reads back from its text as its canonical form, whatever may follow. */
  ghost predicate ReadsBack(v: Json) {
    forall rest :: Ends(rest) ==> ReadValue(Text(v) + rest) == Some((Canon(v), rest))
  }

  lemma NumeralReadsBack(x: Number, rest: string)
    requires Ends(rest)
    ensures ReadValue(FormatNumber(x) + rest) == Some((Num(CanonNumber(x)), rest))
  {
    hide FormatNumber, NumberSpan, NoLeadingZero, ReadNumber;
    FormatIsStrict(x);
    FormatDenotes(x);
    var text := FormatNumber(x);
    var s := text + rest;
    SpanOf(text, rest);
    assert s[..|text|] == text && s[|text|..] == rest;
    assert IsNumberChar(s[0]);
    assert !StartsWith(s, "null") by { assert "null"[0] == 'n'; }
    assert !StartsWith(s, "true") by { assert "true"[0] == 't'; }
    assert !StartsWith(s, "false") by { assert "false"[0] == 'f'; }
  }

  lemma StringReadsBack(value: string, rest: string)
    ensures FormatString(value) + rest != [] && (FormatString(value) + rest)[0] == '"'
    ensures ReadBody((FormatString(value) + rest)[1..]) == Some((value, rest))
  {
    hide ReadBody, Body;
    StringReads(value, rest);
    assert (FormatString(value) + rest)[1..] == Body(value) + "\"" + rest;
  }

  lemma JoinedSplit(parts: seq<string>)
    requires parts != []
    ensures Joined(parts) == parts[0] + (if |parts| == 1 then "" else "," + Joined(parts[1..]))
  {
  }

  lemma {:induction false} ItemsReadBack(items: seq<Json>, rest: string)
    requires items != [] && forall i :: 0 <= i < |items| ==> ReadsBack(items[i])
    ensures ReadItems(Joined(Texts(items)) + "]" + rest) == Some((Canons(items), rest))
    decreases |items|
  {
    hide Text, Canon, ReadValue, Joined;
    JoinedSplit(Texts(items));
    var s := Joined(Texts(items)) + "]" + rest;
    var head, tail := items[0], items[1..];
    if tail == [] {
      assert s == Text(head) + ("]" + rest);
      assert ReadsBack(head) && Ends("]" + rest);
      assert ("]" + rest)[..1] == "]" && ("]" + rest)[1..] == rest;
      assert items == [head] && Canons(items) == [Canon(head)];
    } else {
      var after := Joined(Texts(tail)) + "]" + rest;
      assert s == Text(head) + ("," + after);
      assert ReadsBack(head) && Ends("," + after);
      assert ("," + after)[..1] == "," && ("," + after)[1..] == after;
      ItemsReadBack(tail, rest);
    }
  }

  lemma MemberReadsBack(e: Entry<Json>, rest: string)
    requires ReadsBack(e.value) && Ends(rest)
    ensures ReadMember(MemberText(Entry(e.name, Text(e.value))) + rest) == Some((Entry(e.name, Canon(e.value)), rest))
  {
    hide Text, Canon, FormatString, ReadBody, ReadValue;
    var after := ":" + (Text(e.value) + rest);
    var s := MemberText(Entry(e.name, Text(e.value))) + rest;
    assert s == FormatString(e.name) + after;
    StringReadsBack(e.name, after);
    assert after[1..] == Text(e.value) + rest;
    assert s[..1] == "\"";
  }

  lemma {:induction false} MembersReadBack(members: seq<Entry<Json>>, rest: string)
    requires members != [] && DistinctNames(members)
    requires forall i :: 0 <= i < |members| ==> ReadsBack(members[i].value)
    ensures ReadMembers(Joined(MemberTexts(EntryTexts(members))) + "}" + rest) == Some((EntryCanons(members), rest))
    decreases |members|
  {
    hide Text, Canon, MemberText, ReadMember, ReadsBack, ReadValue, Joined;
    JoinedSplit(MemberTexts(EntryTexts(members)));
    var s := Joined(MemberTexts(EntryTexts(members))) + "}" + rest;
    var head, tail := members[0], members[1..];
    var text := MemberText(Entry(head.name, Text(head.value)));
    if tail == [] {
      assert s == text + ("}" + rest);
      MemberReadsBack(head, "}" + rest);
      assert ("}" + rest)[..1] == "}" && ("}" + rest)[1..] == rest;
      assert members == [head] && EntryCanons(members) == [Entry(head.name, Canon(head.value))];
    } else {
      var after := Joined(MemberTexts(EntryTexts(tail))) + "}" + rest;
      assert s == text + ("," + after);
      MemberReadsBack(head, "," + after);
      assert ("," + after)[..1] == "," && ("," + after)[1..] == after;
      MembersReadBack(tail, rest);
    }
  }

  lemma {:induction false} EveryValueReadsBack(v: Json)
    requires WellFormed(v)
    ensures ReadsBack(v)
    decreases v
  {
    forall rest | Ends(rest)
      ensures ReadValue(Text(v) + rest) == Some((Canon(v), rest))
    {
      match v
      case Null => LiteralsReadBack(rest);
      case Bool(b) => LiteralsReadBack(rest);
      case Str(s) => StringReadsBack(s, rest);
      case Num(x) => NumeralReadsBack(x, rest);
      case Arr(items) =>
        forall i | 0 <= i < |items| ensures ReadsBack(items[i]) { EveryValueReadsBack(items[i]); }
        ArrayReadsBack(items, rest);
      case Obj(members) =>
        forall i | 0 <= i < |members| ensures ReadsBack(members[i].value) { EveryValueReadsBack(members[i].value); }
        ObjectReadsBack(members, rest);
    }
  }

  lemma LiteralsReadBack(rest: string)
    ensures ReadValue("null" + rest) == Some((Null, rest))
    ensures ReadValue("true" + rest) == Some((Bool(true), rest))
    ensures ReadValue("false" + rest) == Some((Bool(false), rest))
  {
    assert ("null" + rest)[..4] == "null" && ("null" + rest)[4..] == rest;
    assert ("true" + rest)[..4] == "true" && ("true" + rest)[4..] == rest;
    assert ("false" + rest)[..5] == "false" && ("false" + rest)[5..] == rest;
    assert ("true" + rest)[0] != "null"[0] && ("false" + rest)[0] != "null"[0] && ("false" + rest)[0] != "true"[0];
  }

  lemma TextIsNotClosing(v: Json)
    ensures Text(v) != [] && Text(v)[0] != ']' && Text(v)[0] != '}'
  {
    if v.Num? {
      FormatIsStrict(v.x);
    }
  }

  lemma TextOfArray(items: seq<Json>)
    ensures Text(Arr(items)) == "[" + Joined(Texts(items)) + "]" && Canon(Arr(items)) == Arr(Canons(items))
  {
  }

  lemma ArrayReadsBack(items: seq<Json>, rest: string)
    requires forall i :: 0 <= i < |items| ==> ReadsBack(items[i])
    ensures ReadValue(Text(Arr(items)) + rest) == Some((Canon(Arr(items)), rest))
  {
    hide Text, Canon, ReadItems, ReadMembers, ReadBody, ReadNumeral, ReadsBack;
    TextOfArray(items);
    var s := Text(Arr(items)) + rest;
    if items == [] {
      assert s[1..] == "]" + rest && s[2..] == rest;
    } else {
      var inner := Joined(Texts(items)) + "]" + rest;
      assert s[1..] == inner;
      JoinedSplit(Texts(items));
      TextIsNotClosing(items[0]);
      assert inner[0] == Text(items[0])[0];
      ItemsReadBack(items, rest);
    }
  }

  lemma TextOfObject(members: seq<Entry<Json>>)
    ensures Text(Obj(members)) == "{" + Joined(MemberTexts(EntryTexts(Sort(members)))) + "}"
    ensures Canon(Obj(members)) == Obj(EntryCanons(Sort(members)))
  {
    TextInNameOrder(members);
    CanonInNameOrder(members);
  }

  lemma SortedMembers(members: seq<Entry<Json>>)
    requires DistinctNames(members) && forall i :: 0 <= i < |members| ==> ReadsBack(members[i].value)
    ensures var s := Sort(members);
            |s| == |members| && DistinctNames(s) && forall i :: 0 <= i < |s| ==> ReadsBack(s[i].value)
  {
    hide Sort, ReadsBack;
    var s := Sort(members);
    SortPermutes(members);
    SortSorts(members);
    SortedNamesDiffer(s);
    forall i | 0 <= i < |s|
      ensures ReadsBack(s[i].value)
    {
      assert s[i] in multiset(s);
      assert s[i] in members;
    }
  }

  lemma ObjectReadsBack(members: seq<Entry<Json>>, rest: string)
    requires DistinctNames(members) && forall i :: 0 <= i < |members| ==> ReadsBack(members[i].value)
    ensures ReadValue(Text(Obj(members)) + rest) == Some((Canon(Obj(members)), rest))
  {
    hide Sort, Text, Canon, ReadItems, ReadMembers, ReadBody, ReadNumeral, ReadsBack, DistinctNames, MemberTexts, EntryTexts, EntryCanons;
    var s, sorted := Text(Obj(members)) + rest, Sort(members);
    TextOfObject(members);
    SortedMembers(members);
    if members == [] {
      assert sorted == [] && s[1..] == "}" + rest && s[2..] == rest;
    } else {
      var inner := Joined(MemberTexts(EntryTexts(sorted))) + "}" + rest;
      assert s[1..] == inner;
      JoinedSplit(MemberTexts(EntryTexts(sorted)));
      MembersReadBack(sorted, rest);
      assert inner[..1] != "}" by {
        assert inner[0] == MemberText(EntryTexts(sorted)[0])[0] == '"';
      }
    }
  }

  lemma SortedNamesDiffer<T>(s: seq<Entry<T>>)
    requires Sorted(s)
    ensures DistinctNames(s)
  {
    forall i, j | 0 <= i < j < |s|
      ensures s[i].name != s[j].name
    {
      NameOrderIsStrictTotal(s[i].name, s[j].name);
    }
  }

  /** Main result: the strict reader recovers every value from its canonical text, up to
      member order and number spelling. */
  lemma ReadInvertsText(v: Json)
    requires WellFormed(v)
    ensures Read(Text(v)) == Some(Canon(v)) && Same(Canon(v), v)
  {
    EveryValueReadsBack(v);
    assert Ends([]) && Text(v) + [] == Text(v);
    SameAsCanon(v);
  }

  /** Main result: two values have the same canonical text exactly when they are equal up
      to member order. */
  lemma SameTextIffSame(v: Json, w: Json)
    requires WellFormed(v) && WellFormed(w)
    ensures Text(v) == Text(w) <==> Same(v, w)
  {
    if Text(v) == Text(w) {
      ReadInvertsText(v);
      ReadInvertsText(w);
      SameCanonImpliesSame(v, w);
    }
    if Same(v, w) {
      SameImpliesSameText(v, w);
    }
  }
}
