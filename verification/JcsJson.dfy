/** JSON values, their canonical text, and equality up to member order
    (tests/unit/_jcs_reference.py; RFC 8785 section 3.2). */
module JcsJson {
  import opened JcsNumbers
  import opened JcsStrings
  import opened JcsOrder

  datatype Json =
    | Null
    | Bool(b: bool)
    | Str(s: string)
    | Num(x: Number)
    | Arr(items: seq<Json>)
    | Obj(members: seq<Entry<Json>>)

  /** A Python dict has one value per name. */
  ghost predicate WellFormed(v: Json) {
    match v
    case Arr(items) => forall i :: 0 <= i < |items| ==> WellFormed(items[i])
    case Obj(members) => DistinctNames(members) && forall i :: 0 <= i < |members| ==> WellFormed(members[i].value)
    case _ => true
  }

  // ---- canonical text ----

  function Joined(parts: seq<string>): string {
    if parts == [] then ""
    else if |parts| == 1 then parts[0]
    else parts[0] + "," + Joined(parts[1..])
  }

  function MemberText(e: Entry<string>): string {
    FormatString(e.name) + ":" + e.value
  }

  function MemberTexts(es: seq<Entry<string>>): (r: seq<string>)
    ensures |r| == |es| && forall i :: 0 <= i < |es| ==> r[i] == MemberText(es[i])
  {
    if es == [] then [] else [MemberText(es[0])] + MemberTexts(es[1..])
  }

  function Text(v: Json): string
    decreases v, 1
  {
    match v
    case Null => "null"
    case Bool(b) => if b then "true" else "false"
    case Str(s) => FormatString(s)
    case Num(x) => FormatNumber(x)
    case Arr(items) => "[" + Joined(Texts(items)) + "]"
    case Obj(members) => "{" + Joined(MemberTexts(Sort(EntryTexts(members)))) + "}"
  }

  function Texts(items: seq<Json>): (r: seq<string>)
    ensures |r| == |items| && forall i :: 0 <= i < |items| ==> r[i] == Text(items[i])
    decreases items, 0
  {
    if items == [] then [] else [Text(items[0])] + Texts(items[1..])
  }

  function EntryTexts(members: seq<Entry<Json>>): (r: seq<Entry<string>>)
    ensures |r| == |members|
    ensures forall i :: 0 <= i < |members| ==> r[i] == Entry(members[i].name, Text(members[i].value))
    decreases members, 0
  {
    if members == [] then []
    else [Entry(members[0].name, Text(members[0].value))] + EntryTexts(members[1..])
  }

  // ---- equality up to member order and number text ----

  ghost predicate Same(v: Json, w: Json)
    decreases v
  {
    match (v, w)
    case (Null, Null) => true
    case (Bool(b), Bool(c)) => b == c
    case (Str(s), Str(t)) => s == t
    case (Num(x), Num(y)) => NumberValue(x) == NumberValue(y)
    case (Arr(a), Arr(b)) => |a| == |b| && forall i :: 0 <= i < |a| ==> Same(a[i], b[i])
    case (Obj(m), Obj(n)) =>
      && |m| == |n|
      && forall i :: 0 <= i < |m| ==> exists j :: 0 <= j < |n| && n[j].name == m[i].name && Same(m[i].value, n[j].value)
    case _ => false
  }

  // ---- the value the text stands for ----

  /** A number as its own canonical text. */
  function CanonNumber(x: Number): Number {
    FormatDenotes(x);
    ReadNumber(FormatNumber(x)).value
  }

  /** Numbers in canonical text, members in name order. */
  function Canon(v: Json): Json
    decreases v, 1
  {
    match v
    case Num(x) => Num(CanonNumber(x))
    case Arr(items) => Arr(Canons(items))
    case Obj(members) => Obj(Sort(EntryCanons(members)))
    case _ => v
  }

  function Canons(items: seq<Json>): (r: seq<Json>)
    ensures |r| == |items| && forall i :: 0 <= i < |items| ==> r[i] == Canon(items[i])
    decreases items, 0
  {
    if items == [] then [] else [Canon(items[0])] + Canons(items[1..])
  }

  function EntryCanons(members: seq<Entry<Json>>): (r: seq<Entry<Json>>)
    ensures |r| == |members|
    ensures forall i :: 0 <= i < |members| ==> r[i] == Entry(members[i].name, Canon(members[i].value))
    decreases members, 0
  {
    if members == [] then []
    else [Entry(members[0].name, Canon(members[0].value))] + EntryCanons(members[1..])
  }

  // ---- sorting and mapping commute ----

  ghost predicate Mapped<A, B>(f: A -> B, s: seq<Entry<A>>, t: seq<Entry<B>>) {
    |t| == |s| && forall i :: 0 <= i < |s| ==> t[i] == Entry(s[i].name, f(s[i].value))
  }

  lemma {:induction false} InsertMapped<A, B>(f: A -> B, e: Entry<A>, s: seq<Entry<A>>, t: seq<Entry<B>>)
    requires Mapped(f, s, t)
    ensures Mapped(f, Insert(e, s), Insert(Entry(e.name, f(e.value)), t))
  {
    hide NameLess;
    if s != [] && !NameLess(e.name, s[0].name) {
      InsertMapped(f, e, s[1..], t[1..]);
    }
  }

  lemma {:induction false} SortMapped<A, B>(f: A -> B, s: seq<Entry<A>>, t: seq<Entry<B>>)
    requires Mapped(f, s, t)
    ensures Mapped(f, Sort(s), Sort(t))
  {
    hide Insert;
    if s != [] {
      SortMapped(f, s[1..], t[1..]);
      InsertMapped(f, s[0], Sort(s[1..]), Sort(t[1..]));
    }
  }

  /** The members are written in name order. */
  lemma TextInNameOrder(members: seq<Entry<Json>>)
    ensures Sort(EntryTexts(members)) == EntryTexts(Sort(members))
  {
    hide Sort;
    SortMapped((v: Json) => Text(v), members, EntryTexts(members));
  }

  lemma TextOfSorted(members: seq<Entry<Json>>)
    ensures Text(Obj(members)) == "{" + Joined(MemberTexts(EntryTexts(Sort(members)))) + "}"
  {
    hide NameLess, Joined, MemberTexts, Sort;
    TextInNameOrder(members);
  }

  /** Main result: an object is written with its members in any arrangement of them that is
      in name order — and there is one such arrangement at most. */
  lemma MembersAreInNameOrder(members: seq<Entry<Json>>, ordered: seq<Entry<Json>>)
    requires DistinctNames(members) && multiset(ordered) == multiset(members)
    requires forall i, j :: 0 <= i < j < |ordered| ==> NameLess(ordered[i].name, ordered[j].name)
    ensures Text(Obj(members)) == "{" + Joined(MemberTexts(EntryTexts(ordered))) + "}"
  {
    hide NameLess, Joined, MemberTexts, Sort, Text, EntryTexts;
    TextOfSorted(members);
    SortSorts(members);
    SortPermutes(members);
    SortedIsUnique(Sort(members), ordered);
  }

  lemma CanonInNameOrder(members: seq<Entry<Json>>)
    ensures Sort(EntryCanons(members)) == EntryCanons(Sort(members))
  {
    hide Sort;
    SortMapped((v: Json) => Canon(v), members, EntryCanons(members));
  }

  // ---- equal values have equal text ----

  lemma MapKeepsDistinct<A, B>(s: seq<Entry<A>>, t: seq<Entry<B>>)
    requires DistinctNames(s) && |t| == |s| && forall i :: 0 <= i < |s| ==> t[i].name == s[i].name
    ensures DistinctNames(t)
  {
  }

  /** Values equal up to member order have the same text. */
  lemma {:induction false} SameImpliesSameText(v: Json, w: Json)
    requires WellFormed(v) && WellFormed(w) && Same(v, w)
    ensures Text(v) == Text(w)
    decreases v
  {
    match (v, w)
    case (Num(x), Num(y)) =>
      PrintAlikeIffEqual(x, y);
    case (Arr(a), Arr(b)) =>
      forall i | 0 <= i < |a|
        ensures Text(a[i]) == Text(b[i])
      {
        SameImpliesSameText(a[i], b[i]);
      }
      assert Texts(a) == Texts(b);
    case (Obj(m), Obj(n)) =>
      var s, t := EntryTexts(m), EntryTexts(n);
      forall i | 0 <= i < |m|
        ensures s[i] in t
      {
        var j :| 0 <= j < |n| && n[j].name == m[i].name && Same(m[i].value, n[j].value);
        SameImpliesSameText(m[i].value, n[j].value);
        assert t[j] == s[i];
      }
      MapKeepsDistinct(m, s);
      MapKeepsDistinct(n, t);
      SameMembersSameMultiset(s, t);
      SortForgetsOrder(s, t);
    case _ =>
  }

  lemma CanonNumberIsEqual(x: Number)
    ensures NumberValue(CanonNumber(x)) == NumberValue(x)
  {
    hide NumberValue, FormatNumber;
    FormatDenotes(x);
  }

  lemma SortedAlikeHaveSameMembers<T>(s: seq<Entry<T>>, t: seq<Entry<T>>, e: Entry<T>)
    requires Sort(s) == Sort(t) && e in s
    ensures |s| == |t| && e in t
  {
    hide Sort;
    SortPermutes(s);
    SortPermutes(t);
    assert e in multiset(s) && multiset(s) == multiset(t);
  }

  lemma SortedComesFrom<T>(s: seq<Entry<T>>, i: nat) returns (j: nat)
    requires i < |Sort(s)|
    ensures j < |s| && s[j] == Sort(s)[i] && |Sort(s)| == |s|
  {
    hide Sort;
    SortPermutes(s);
    assert Sort(s)[i] in multiset(Sort(s));
    j :| 0 <= j < |s| && s[j] == Sort(s)[i];
  }

  ghost predicate HasMatch(e: Entry<Json>, n: seq<Entry<Json>>) {
    exists j :: 0 <= j < |n| && n[j].name == e.name && Same(e.value, n[j].value)
  }

  lemma SameObjects(m: seq<Entry<Json>>, n: seq<Entry<Json>>)
    requires |m| == |n| && forall i :: 0 <= i < |m| ==> HasMatch(m[i], n)
    ensures Same(Obj(m), Obj(n))
  {
    forall i | 0 <= i < |m|
      ensures exists j :: 0 <= j < |n| && n[j].name == m[i].name && Same(m[i].value, n[j].value)
    {
      assert HasMatch(m[i], n);
      var j :| 0 <= j < |n| && n[j].name == m[i].name && Same(m[i].value, n[j].value);
    }
    assert Same(Obj(m), Obj(n)) <==>
      |m| == |n| && forall i :: 0 <= i < |m| ==> exists j :: 0 <= j < |n| && n[j].name == m[i].name && Same(m[i].value, n[j].value);
  }

  lemma SameLists(a: seq<Json>, b: seq<Json>)
    requires |a| == |b| && forall i :: 0 <= i < |a| ==> Same(a[i], b[i])
    ensures Same(Arr(a), Arr(b))
  {
  }

  lemma SameKind(v: Json, w: Json)
    requires Canon(v) == Canon(w)
    ensures v.Arr? == w.Arr? && v.Obj? == w.Obj? && v.Num? == w.Num?
    ensures !v.Arr? && !v.Obj? && !v.Num? ==> Same(v, w)
  {
    hide Sort, Canons, EntryCanons, CanonNumber, NumberValue;
  }

  /** Values with one canonical form are equal up to member order. */
  lemma {:induction false} SameCanonImpliesSame(v: Json, w: Json)
    requires Canon(v) == Canon(w)
    ensures Same(v, w)
    decreases v
  {
    hide Sort, NumberValue, CanonNumber, Canons, EntryCanons;
    SameKind(v, w);
    match (v, w)
    case (Num(x), Num(y)) =>
      CanonNumberIsEqual(x);
      CanonNumberIsEqual(y);
    case (Arr(a), Arr(b)) =>
      forall i | 0 <= i < |a|
        ensures Same(a[i], b[i])
      {
        assert Canons(a)[i] == Canons(b)[i];
        SameCanonImpliesSame(a[i], b[i]);
      }
      SameLists(a, b);
    case (Obj(m), Obj(n)) =>
      var s, t := EntryCanons(m), EntryCanons(n);
      SortPermutes(s);
      SortPermutes(t);
      forall i | 0 <= i < |m|
        ensures HasMatch(m[i], n)
      {
        SortedAlikeHaveSameMembers(s, t, s[i]);
        var j :| 0 <= j < |t| && t[j] == s[i];
        SameCanonImpliesSame(m[i].value, n[j].value);
      }
      SameObjects(m, n);
    case _ =>
  }

  /** A value is equal, up to member order and number text, to its canonical form. */
  lemma {:induction false} SameAsCanon(v: Json)
    ensures Same(Canon(v), v)
    decreases v
  {
    hide Sort, NumberValue, CanonNumber, Canons, EntryCanons;
    match v
    case Num(x) =>
      CanonNumberIsEqual(x);
    case Arr(items) =>
      hide Same;
      forall i | 0 <= i < |items|
        ensures Same(Canons(items)[i], items[i])
      {
        SameAsCanon(items[i]);
      }
      SameLists(Canons(items), items);
    case Obj(members) =>
      hide Same;
      var s := EntryCanons(members);
      SortPermutes(s);
      forall i | 0 <= i < |Sort(s)|
        ensures HasMatch(Sort(s)[i], members)
      {
        var j := SortedComesFrom(s, i);
        SameAsCanon(members[j].value);
      }
      SameObjects(Sort(s), members);
    case _ =>
  }
}
