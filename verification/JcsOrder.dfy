/** The order of object member names in tests/unit/_jcs_reference.py: names are compared
    by their UTF-16-BE bytes (RFC 8785 section 3.2.3). */
module JcsOrder {

  // ---- UTF-16 ----

  /** The UTF-16 code units of one character. */
  function UnitsOf(c: char): (u: seq<nat>)
    ensures |u| == (if c as int < 0x10000 then 1 else 2) && forall i :: 0 <= i < |u| ==> u[i] < 0x10000
  {
    var code := c as int;
    if code < 0x10000 then [code]
    else [0xD800 + (code - 0x10000) / 0x400, 0xDC00 + (code - 0x10000) % 0x400]
  }

  function Utf16(s: string): (u: seq<nat>)
    ensures forall i :: 0 <= i < |u| ==> u[i] < 0x10000
  {
    if s == [] then [] else UnitsOf(s[0]) + Utf16(s[1..])
  }

  /** Big-endian bytes of code units. */
  function BigEndian(units: seq<nat>): seq<nat> {
    if units == [] then [] else [units[0] / 0x100, units[0] % 0x100] + BigEndian(units[1..])
  }

  /** Lexicographic order, a proper prefix coming first. */
  predicate Less(a: seq<nat>, b: seq<nat>) {
    b != [] && (a == [] || a[0] < b[0] || (a[0] == b[0] && Less(a[1..], b[1..])))
  }

  /** The sort key comparison `a.encode("utf-16-be") < b.encode("utf-16-be")`. */
  predicate NameLess(a: string, b: string) {
    Less(BigEndian(Utf16(a)), BigEndian(Utf16(b)))
  }

  lemma LessTail(x: nat, a: seq<nat>, y: nat, b: seq<nat>)
    ensures Less([x] + a, [y] + b) <==> x < y || (x == y && Less(a, b))
  {
    assert ([x] + a)[1..] == a && ([y] + b)[1..] == b;
  }

  /** Main result: comparing UTF-16-BE bytes is comparing code units. */
  lemma {:induction false} ByteOrderIsUnitOrder(a: seq<nat>, b: seq<nat>)
    ensures Less(BigEndian(a), BigEndian(b)) <==> Less(a, b)
  {
    if a != [] && b != [] {
      ByteOrderIsUnitOrder(a[1..], b[1..]);
      var x, y := a[0], b[0];
      var s, t := BigEndian(a[1..]), BigEndian(b[1..]);
      assert BigEndian(a) == [x / 0x100] + ([x % 0x100] + s);
      assert BigEndian(b) == [y / 0x100] + ([y % 0x100] + t);
      LessTail(x / 0x100, [x % 0x100] + s, y / 0x100, [y % 0x100] + t);
      LessTail(x % 0x100, s, y % 0x100, t);
    }
  }

  // ---- a strict total order on names ----

  lemma {:induction false} LessIrreflexive(a: seq<nat>)
    ensures !Less(a, a)
  {
    if a != [] {
      LessIrreflexive(a[1..]);
    }
  }

  lemma {:induction false} LessTransitive(a: seq<nat>, b: seq<nat>, c: seq<nat>)
    requires Less(a, b) && Less(b, c)
    ensures Less(a, c)
  {
    if a != [] && a[0] == b[0] && b[0] == c[0] {
      LessTransitive(a[1..], b[1..], c[1..]);
    }
  }

  lemma {:induction false} LessTotal(a: seq<nat>, b: seq<nat>)
    ensures Less(a, b) || Less(b, a) || a == b
  {
    if a != [] && b != [] {
      LessTotal(a[1..], b[1..]);
      assert a == [a[0]] + a[1..] && b == [b[0]] + b[1..];
    }
  }

  lemma {:induction false} BigEndianInjective(a: seq<nat>, b: seq<nat>)
    requires BigEndian(a) == BigEndian(b)
    ensures a == b
  {
    if a != [] && b != [] {
      var s, t := BigEndian(a), BigEndian(b);
      assert s[0] == a[0] / 0x100 && s[1] == a[0] % 0x100 && t[0] == b[0] / 0x100 && t[1] == b[0] % 0x100;
      assert s[2..] == BigEndian(a[1..]) && t[2..] == BigEndian(b[1..]);
      BigEndianInjective(a[1..], b[1..]);
      assert a == [a[0]] + a[1..] && b == [b[0]] + b[1..];
    }
  }

  lemma UnitsInjective(c: char, d: char)
    requires UnitsOf(c) == UnitsOf(d)
    ensures c == d
  {
  }

  /** The first unit tells how many units the character takes. */
  lemma FirstUnitTellsLength(c: char, d: char)
    requires UnitsOf(c)[0] == UnitsOf(d)[0]
    ensures |UnitsOf(c)| == |UnitsOf(d)|
  {
  }

  lemma {:induction false} Utf16Injective(s: string, t: string)
    requires Utf16(s) == Utf16(t)
    ensures s == t
  {
    if s != [] && t != [] {
      var a, b := UnitsOf(s[0]), UnitsOf(t[0]);
      assert a[0] == Utf16(s)[0] && b[0] == Utf16(t)[0];
      FirstUnitTellsLength(s[0], t[0]);
      assert a == Utf16(s)[..|a|] && b == Utf16(t)[..|b|];
      assert Utf16(s[1..]) == Utf16(s)[|a|..] && Utf16(t[1..]) == Utf16(t)[|b|..];
      UnitsInjective(s[0], t[0]);
      Utf16Injective(s[1..], t[1..]);
      assert s == [s[0]] + s[1..] && t == [t[0]] + t[1..];
    }
  }

  /** Distinct names are ordered one way and never both. */
  lemma NameOrderIsStrictTotal(a: string, b: string)
    ensures NameLess(a, b) || NameLess(b, a) || a == b
    ensures !(NameLess(a, b) && NameLess(b, a)) && !NameLess(a, a)
  {
    var x, y := BigEndian(Utf16(a)), BigEndian(Utf16(b));
    LessTotal(x, y);
    LessIrreflexive(x);
    if Less(x, y) && Less(y, x) {
      LessTransitive(x, y, x);
    }
    if x == y {
      BigEndianInjective(Utf16(a), Utf16(b));
      Utf16Injective(a, b);
    }
  }

  lemma NameLessTransitive(a: string, b: string, c: string)
    requires NameLess(a, b) && NameLess(b, c)
    ensures NameLess(a, c)
  {
    LessTransitive(BigEndian(Utf16(a)), BigEndian(Utf16(b)), BigEndian(Utf16(c)));
  }

  lemma {:induction false} Utf16Concat(a: string, b: string)
    ensures Utf16(a + b) == Utf16(a) + Utf16(b)
  {
    if a == [] {
      assert a + b == b;
    } else {
      hide UnitsOf, Utf16;
      var whole := a + b;
      assert whole[0] == a[0] && whole[1..] == a[1..] + b;
      Utf16Concat(a[1..], b);
      Utf16Head(whole);
      Utf16Head(a);
      assert (UnitsOf(a[0]) + Utf16(a[1..])) + Utf16(b) == UnitsOf(a[0]) + (Utf16(a[1..]) + Utf16(b));
    }
  }

  lemma Utf16Head(s: string)
    requires s != []
    ensures Utf16(s) == UnitsOf(s[0]) + Utf16(s[1..])
  {
  }

  lemma {:induction false} LessAfterCommon(p: seq<nat>, a: seq<nat>, b: seq<nat>)
    ensures Less(p + a, p + b) <==> Less(a, b)
  {
    if p == [] {
      assert p + a == a && p + b == b;
    } else {
      LessAfterCommon(p[1..], a, b);
      LessTail(p[0], p[1..] + a, p[0], p[1..] + b);
      assert p + a == [p[0]] + (p[1..] + a) && p + b == [p[0]] + (p[1..] + b);
    }
  }

  /** Where a character stands: by code point, but characters outside the BMP come after
      U+D7FF and before U+E000. */
  predicate CharLess(c: char, d: char) {
    if c as int >= 0x10000 && d as int < 0x10000 then d as int >= 0xE000
    else if c as int < 0x10000 && d as int >= 0x10000 then c as int < 0xD800
    else c < d
  }

  lemma UnitsOrder(c: char, d: char, a: seq<nat>, b: seq<nat>)
    requires c != d
    ensures Less(UnitsOf(c) + a, UnitsOf(d) + b) <==> CharLess(c, d)
  {
    var u, v := UnitsOf(c), UnitsOf(d);
    assert u + a == [u[0]] + (u[1..] + a) && v + b == [v[0]] + (v[1..] + b);
    LessTail(u[0], u[1..] + a, v[0], v[1..] + b);
    if |u| == 2 && |v| == 2 {
      assert u[1..] + a == [u[1]] + a && v[1..] + b == [v[1]] + b;
      LessTail(u[1], a, v[1], b);
    }
  }

  /** Main result: two names that first differ in the characters c and d are ordered as c and
      d stand; a name that goes on comes after the one that ends. */
  lemma NameOrderIsByFirstDifference(common: string, c: char, d: char, s: string, t: string)
    ensures c != d ==> (NameLess(common + [c] + s, common + [d] + t) <==> CharLess(c, d))
    ensures NameLess(common, common + [c] + s) && !NameLess(common + [c] + s, common)
  {
    var p, x, y := Utf16(common), UnitsOf(c) + Utf16(s), UnitsOf(d) + Utf16(t);
    OneMore(common, c, s);
    OneMore(common, d, t);
    ByteOrderIsUnitOrder(p + x, p + y);
    ByteOrderIsUnitOrder(p, p + x);
    ByteOrderIsUnitOrder(p + x, p);
    LessAfterCommon(p, x, y);
    LessAfterCommon(p, [], x);
    LessAfterCommon(p, x, []);
    assert p + [] == p;
    if c != d {
      UnitsOrder(c, d, Utf16(s), Utf16(t));
    }
  }

  lemma OneMore(common: string, c: char, s: string)
    ensures Utf16(common + [c] + s) == Utf16(common) + (UnitsOf(c) + Utf16(s))
  {
    assert common + [c] + s == common + ([c] + s);
    Utf16Concat(common, [c] + s);
    assert ([c] + s)[1..] == s;
  }

  /** Code-unit order is not code-point order: U+1F600 comes before U+FB33. */
  lemma NotCodePointOrder()
    ensures NameLess("\U{1F600}", "\U{FB33}") && '\U{FB33}' < '\U{1F600}'
  {
    assert UnitsOf('\U{1F600}') == [0xD83D, 0xDE00] && UnitsOf('\U{FB33}') == [0xFB33];
    assert Utf16("\U{1F600}") == [0xD83D, 0xDE00] && Utf16("\U{FB33}") == [0xFB33];
    ByteOrderIsUnitOrder([0xD83D, 0xDE00], [0xFB33]);
  }

  // ---- sorting members by name ----

  datatype Entry<+T> = Entry(name: string, value: T)

  function Insert<T>(e: Entry<T>, s: seq<Entry<T>>): seq<Entry<T>> {
    if s == [] then [e]
    else if NameLess(e.name, s[0].name) then [e] + s
    else [s[0]] + Insert(e, s[1..])
  }

  /** Members in name order. */
  function Sort<T>(s: seq<Entry<T>>): seq<Entry<T>> {
    if s == [] then [] else Insert(s[0], Sort(s[1..]))
  }

  ghost predicate DistinctNames<T>(s: seq<Entry<T>>) {
    forall i, j :: 0 <= i < j < |s| ==> s[i].name != s[j].name
  }

  ghost predicate Sorted<T>(s: seq<Entry<T>>) {
    forall i, j :: 0 <= i < j < |s| ==> NameLess(s[i].name, s[j].name)
  }

  lemma {:induction false} InsertKeeps<T>(e: Entry<T>, s: seq<Entry<T>>)
    ensures multiset(Insert(e, s)) == multiset(s) + multiset{e}
  {
    if s != [] && !NameLess(e.name, s[0].name) {
      InsertKeeps(e, s[1..]);
      assert s == [s[0]] + s[1..];
    }
  }

  lemma HeadApart<T>(s: seq<Entry<T>>)
    requires s != []
    ensures multiset(s) == multiset(s[1..]) + multiset{s[0]}
  {
    assert s == [s[0]] + s[1..];
  }

  lemma SameSize<T>(s: seq<Entry<T>>, t: seq<Entry<T>>)
    requires multiset(s) == multiset(t)
    ensures |s| == |t|
  {
    assert |multiset(s)| == |multiset(t)|;
  }

  /** Sorting permutes. */
  lemma {:induction false} SortPermutes<T>(s: seq<Entry<T>>)
    ensures multiset(Sort(s)) == multiset(s) && |Sort(s)| == |s|
  {
    hide Insert, NameLess;
    if s != [] {
      SortPermutes(s[1..]);
      InsertKeeps(s[0], Sort(s[1..]));
      HeadApart(s);
    }
    SameSize(Sort(s), s);
  }

  lemma {:induction false} InsertSorts<T>(e: Entry<T>, s: seq<Entry<T>>)
    requires Sorted(s) && forall i :: 0 <= i < |s| ==> s[i].name != e.name
    ensures Sorted(Insert(e, s))
    ensures Insert(e, s) != []
    ensures forall n: string :: NameLess(n, e.name) && (s != [] ==> NameLess(n, s[0].name)) ==> NameLess(n, Insert(e, s)[0].name)
  {
    hide NameLess;
    if s == [] {
    } else if NameLess(e.name, s[0].name) {
      forall i | 1 <= i < |s|
        ensures NameLess(e.name, s[i].name)
      {
        NameLessTransitive(e.name, s[0].name, s[i].name);
      }
    } else {
      var tail := s[1..];
      NameOrderIsStrictTotal(e.name, s[0].name);
      InsertSorts(e, tail);
      var t := Insert(e, tail);
      assert t != [] && NameLess(s[0].name, t[0].name);
      forall i | 1 <= i < |t|
        ensures NameLess(s[0].name, t[i].name)
      {
        NameLessTransitive(s[0].name, t[0].name, t[i].name);
      }
    }
  }

  /** Sorting puts distinct names in strictly increasing order. */
  lemma {:induction false} SortSorts<T>(s: seq<Entry<T>>)
    requires DistinctNames(s)
    ensures Sorted(Sort(s))
  {
    if s != [] {
      SortSorts(s[1..]);
      SortPermutes(s[1..]);
      var t := Sort(s[1..]);
      forall i | 0 <= i < |t|
        ensures t[i].name != s[0].name
      {
        assert t[i] in multiset(t);
        assert t[i] in s[1..];
      }
      InsertSorts(s[0], t);
    }
  }

  lemma SortedHeadsAgree<T>(s: seq<Entry<T>>, t: seq<Entry<T>>)
    requires Sorted(s) && Sorted(t) && multiset(s) == multiset(t) && s != []
    ensures t != [] && s[0] == t[0]
  {
    hide NameLess;
    assert |multiset(s)| == |s| && |multiset(t)| == |t|;
    assert s[0] in multiset(t) && t[0] in multiset(s);
    var i :| 0 <= i < |t| && t[i] == s[0];
    var j :| 0 <= j < |s| && s[j] == t[0];
    if i > 0 && j > 0 {
      assert NameLess(t[0].name, t[i].name) && NameLess(s[0].name, s[j].name);
      NameOrderIsStrictTotal(s[0].name, t[0].name);
    }
  }

  lemma TailsAgree<T>(s: seq<Entry<T>>, t: seq<Entry<T>>)
    requires s != [] && t != [] && s[0] == t[0] && multiset(s) == multiset(t)
    ensures multiset(s[1..]) == multiset(t[1..])
  {
    assert s == [s[0]] + s[1..] && t == [t[0]] + t[1..];
    assert multiset(s[1..]) == multiset(s) - multiset{s[0]};
    assert multiset(t[1..]) == multiset(t) - multiset{t[0]};
  }

  lemma EmptyAgrees<T>(t: seq<Entry<T>>)
    requires multiset(t) == multiset{}
    ensures t == []
  {
    assert |multiset(t)| == |t|;
  }

  /** Two sorted arrangements of the same members are the same sequence. */
  lemma {:induction false} SortedIsUnique<T>(s: seq<Entry<T>>, t: seq<Entry<T>>)
    requires Sorted(s) && Sorted(t) && multiset(s) == multiset(t)
    ensures s == t
  {
    hide NameLess;
    if s == [] {
      EmptyAgrees(t);
    } else {
      SortedHeadsAgree(s, t);
      TailsAgree(s, t);
      SortedIsUnique(s[1..], t[1..]);
      assert s == [s[0]] + s[1..] && t == [t[0]] + t[1..];
    }
  }

  /** Sorting forgets the order the members came in. */
  lemma SortForgetsOrder<T>(s: seq<Entry<T>>, t: seq<Entry<T>>)
    requires DistinctNames(s) && DistinctNames(t) && multiset(s) == multiset(t)
    ensures Sort(s) == Sort(t)
  {
    SortSorts(s);
    SortSorts(t);
    SortPermutes(s);
    SortPermutes(t);
    SortedIsUnique(Sort(s), Sort(t));
  }

  function RemoveAt<T>(t: seq<Entry<T>>, j: nat): seq<Entry<T>>
    requires j < |t|
  {
    t[..j] + t[j + 1..]
  }

  lemma RemovedAt<T>(t: seq<Entry<T>>, j: nat, e: Entry<T>)
    requires j < |t|
    ensures multiset(t) == multiset(RemoveAt(t, j)) + multiset{t[j]}
    ensures e in t && e != t[j] ==> e in RemoveAt(t, j)
  {
    assert t == t[..j] + [t[j]] + t[j + 1..];
  }

  /** As many distinct names, each with the same value, make the same members. */
  lemma {:induction false} SameMembersSameMultiset<T>(s: seq<Entry<T>>, t: seq<Entry<T>>)
    requires DistinctNames(s) && |s| == |t| && forall i :: 0 <= i < |s| ==> s[i] in t
    ensures multiset(s) == multiset(t)
  {
    if s != [] {
      var j :| 0 <= j < |t| && t[j] == s[0];
      var tail := s[1..];
      forall i | 0 <= i < |tail|
        ensures tail[i] in RemoveAt(t, j)
      {
        assert tail[i] == s[i + 1];
        RemovedAt(t, j, tail[i]);
      }
      SameMembersSameMultiset(tail, RemoveAt(t, j));
      RemovedAt(t, j, s[0]);
      assert s == [s[0]] + tail;
    }
  }
}
