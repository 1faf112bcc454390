/** The recursive walk of `_serialize` with its depth and node limits
    (tests/unit/_jcs_reference.py). */
module JcsSerializer {
  import opened JcsJson
  import opened JcsNumbers
  import opened JcsOrder
  import opened JcsReader
  import opened JcsStrings
  import opened Wrappers

  const MAX_DEPTH: nat := 256
  const MAX_NODES: nat := 200_000

  // ---- what the limits count ----

  /** How many values the walk visits. */
  function Nodes(v: Json): (n: nat)
    ensures n > 0
    decreases v, 1
  {
    match v
    case Arr(items) => 1 + ItemNodes(items)
    case Obj(members) => 1 + MemberNodes(members)
    case _ => 1
  }

  function ItemNodes(items: seq<Json>): nat
    decreases items, 0
  {
    if items == [] then 0 else ItemNodes(items[..|items| - 1]) + Nodes(items[|items| - 1])
  }

  function MemberNodes(members: seq<Entry<Json>>): nat
    decreases members, 0
  {
    if members == [] then 0 else MemberNodes(members[..|members| - 1]) + Nodes(members[|members| - 1].value)
  }

  /** No value nests more than `d` containers deep. */
  predicate Fits(v: Json, d: int)
    decreases v
  {
    && d >= 0
    && match v
       case Arr(items) => forall i :: 0 <= i < |items| ==> Fits(items[i], d - 1)
       case Obj(members) => forall i :: 0 <= i < |members| ==> Fits(members[i].value, d - 1)
       case _ => true
  }

  /** Null inside n arrays, and an array of n nulls. */
  function Nested(n: nat): Json {
    if n == 0 then Null else Arr([Nested(n - 1)])
  }

  function Flat(n: nat): Json {
    Arr(seq(n, _ => Null))
  }

  lemma {:induction false} NestedIs(n: nat, d: int)
    ensures Fits(Nested(n), d) <==> n <= d
    ensures Nodes(Nested(n)) == n + 1
  {
    if n > 0 {
      NestedIs(n - 1, d - 1);
      var items := [Nested(n - 1)];
      assert items[..0] == [];
      assert ItemNodes(items) == ItemNodes([]) + Nodes(items[0]);
    }
  }

  lemma {:induction false} NullNodes(n: nat)
    ensures ItemNodes(seq(n, _ => Null)) == n
  {
    if n > 0 {
      NullNodes(n - 1);
      assert seq(n, _ => Null)[..n - 1] == seq(n - 1, _ => Null);
    }
  }

  lemma FlatIs(n: nat, d: int)
    requires d >= 1
    ensures Fits(Flat(n), d) && Nodes(Flat(n)) == n + 1
  {
    NullNodes(n);
  }

  /** The limits themselves: 256 arrays may be nested, and 199999 nulls may stand in one. */
  lemma LimitsAre(n: nat)
    ensures Fits(Nested(n), MAX_DEPTH) && Nodes(Nested(n)) <= MAX_NODES <==> n <= 256
    ensures Fits(Flat(n), MAX_DEPTH) && Nodes(Flat(n)) <= MAX_NODES <==> n <= 199_999
  {
    hide Fits, Nodes, Nested, Flat;
    NestedIs(n, MAX_DEPTH);
    FlatIs(n, MAX_DEPTH);
  }

  lemma FitsInside(v: Json, d: int)
    ensures v.Arr? ==> (Fits(v, d) <==> d >= 0 && forall i :: 0 <= i < |v.items| ==> Fits(v.items[i], d - 1))
    ensures v.Obj? ==> (Fits(v, d) <==> d >= 0 && forall i :: 0 <= i < |v.members| ==> Fits(v.members[i].value, d - 1))
    ensures !v.Arr? && !v.Obj? ==> (Fits(v, d) <==> d >= 0)
  {
  }

  lemma NodesInside(v: Json)
    ensures Nodes(v) == 1 + if v.Arr? then ItemNodes(v.items) else if v.Obj? then MemberNodes(v.members) else 0
  {
  }

  lemma CanonInside(v: Json)
    ensures Canon(v).Arr? == v.Arr? && Canon(v).Obj? == v.Obj?
    ensures v.Arr? ==> Canon(v) == Arr(Canons(v.items))
    ensures v.Obj? ==> Canon(v) == Obj(Sort(EntryCanons(v.members)))
  {
    hide Sort, CanonNumber;
  }

  // ---- counting does not depend on member order ----

  lemma {:induction false} MemberNodesConcat(a: seq<Entry<Json>>, b: seq<Entry<Json>>)
    ensures MemberNodes(a + b) == MemberNodes(a) + MemberNodes(b)
  {
    if b == [] {
      assert a + b == a;
    } else {
      assert (a + b)[..|a + b| - 1] == a + b[..|b| - 1];
      MemberNodesConcat(a, b[..|b| - 1]);
    }
  }

  lemma MemberNodesOne(e: Entry<Json>)
    ensures MemberNodes([e]) == Nodes(e.value)
  {
    assert [e][..0] == [];
  }

  lemma {:induction false} InsertNodes(e: Entry<Json>, s: seq<Entry<Json>>)
    ensures MemberNodes(Insert(e, s)) == Nodes(e.value) + MemberNodes(s)
  {
    hide NameLess, Nodes, MemberNodes;
    MemberNodesOne(e);
    if s == [] {
      NoMembers();
    } else if NameLess(e.name, s[0].name) {
      MemberNodesConcat([e], s);
    } else {
      InsertNodes(e, s[1..]);
      MemberNodesConcat([s[0]], Insert(e, s[1..]));
      MemberNodesConcat([s[0]], s[1..]);
      assert s == [s[0]] + s[1..];
    }
  }

  lemma NoMembers()
    ensures MemberNodes([]) == 0
  {
  }

  lemma {:induction false} SortKeepsNodes(s: seq<Entry<Json>>)
    ensures MemberNodes(Sort(s)) == MemberNodes(s)
  {
    hide Nodes, MemberNodes, Insert;
    if s != [] {
      SortKeepsNodes(s[1..]);
      InsertNodes(s[0], Sort(s[1..]));
      MemberNodesConcat([s[0]], s[1..]);
      MemberNodesOne(s[0]);
      assert s == [s[0]] + s[1..];
    }
  }

  lemma {:induction false} PrefixNodes(members: seq<Entry<Json>>, i: nat)
    requires i < |members|
    ensures MemberNodes(members[..i]) + Nodes(members[i].value) <= MemberNodes(members)
    ensures MemberNodes(members[..i + 1]) == MemberNodes(members[..i]) + Nodes(members[i].value)
  {
    hide Nodes, MemberNodes;
    MemberNodesConcat(members[..i], [members[i]]);
    MemberNodesOne(members[i]);
    assert members[..i + 1] == members[..i] + [members[i]];
    MemberNodesConcat(members[..i + 1], members[i + 1..]);
    assert members == members[..i + 1] + members[i + 1..];
  }

  lemma {:induction false} ItemPrefixNodes(items: seq<Json>, i: nat)
    requires i < |items|
    ensures ItemNodes(items[..i]) + Nodes(items[i]) <= ItemNodes(items)
    ensures ItemNodes(items[..i + 1]) == ItemNodes(items[..i]) + Nodes(items[i])
    decreases |items|
  {
    assert items[..i + 1][..i] == items[..i];
    if i < |items| - 1 {
      ItemPrefixNodes(items[..|items| - 1], i);
      assert items[..|items| - 1][..i] == items[..i];
    } else {
      assert items[..i + 1] == items;
    }
  }

  lemma {:induction false} CanonKeepsNodes(v: Json)
    ensures Nodes(Canon(v)) == Nodes(v)
    decreases v, 1
  {
    hide Sort, Nodes, Canon;
    CanonInside(v);
    NodesInside(v);
    NodesInside(Canon(v));
    match v
    case Arr(items) =>
      CanonKeepsItemNodes(items);
    case Obj(members) =>
      CanonKeepsMemberNodes(members);
      SortKeepsLimits(EntryCanons(members), 0);
    case _ =>
  }

  lemma {:induction false} CanonKeepsDepth(v: Json, d: int)
    ensures Fits(Canon(v), d) <==> Fits(v, d)
    decreases v
  {
    hide Sort, Nodes, Fits, Canon, ItemNodes, MemberNodes;
    CanonInside(v);
    FitsInside(v, d);
    FitsInside(Canon(v), d);
    match v
    case Arr(items) =>
      forall i | 0 <= i < |items|
        ensures Fits(Canon(items[i]), d - 1) <==> Fits(items[i], d - 1)
      {
        CanonKeepsDepth(items[i], d - 1);
      }
    case Obj(members) =>
      forall i | 0 <= i < |members|
        ensures Fits(Canon(members[i].value), d - 1) <==> Fits(members[i].value, d - 1)
      {
        CanonKeepsDepth(members[i].value, d - 1);
      }
      SortKeepsLimits(EntryCanons(members), d);
    case _ =>
  }

  lemma SortKeepsLimits(members: seq<Entry<Json>>, d: int)
    ensures Nodes(Obj(Sort(members))) == 1 + MemberNodes(members)
    ensures Fits(Obj(Sort(members)), d) <==> d >= 0 && forall i :: 0 <= i < |members| ==> Fits(members[i].value, d - 1)
  {
    hide Sort, Nodes, Fits;
    NodesInside(Obj(Sort(members)));
    FitsInside(Obj(Sort(members)), d);
    SortKeepsNodes(members);
    SortedHaveSameDepth(members, d - 1);
  }

  lemma {:induction false} CanonKeepsItemNodes(items: seq<Json>)
    ensures ItemNodes(Canons(items)) == ItemNodes(items)
    decreases items, 0
  {
    hide Canon, Nodes;
    if items != [] {
      var init := items[..|items| - 1];
      CanonKeepsItemNodes(init);
      CanonKeepsNodes(items[|items| - 1]);
      assert Canons(items)[..|items| - 1] == Canons(init);
    }
  }

  lemma {:induction false} CanonKeepsMemberNodes(members: seq<Entry<Json>>)
    ensures MemberNodes(EntryCanons(members)) == MemberNodes(members)
    decreases members, 0
  {
    hide Canon, Nodes;
    if members != [] {
      var init := members[..|members| - 1];
      CanonKeepsMemberNodes(init);
      CanonKeepsNodes(members[|members| - 1].value);
      assert EntryCanons(members)[..|members| - 1] == EntryCanons(init);
    }
  }

  /** Values equal up to member order meet the limits together, so `dumps` accepts or
      refuses both and, when it accepts, gives both the same text and only them. */
  lemma LimitsAreOrderBlind(v: Json, w: Json)
    requires WellFormed(v) && WellFormed(w) && Same(v, w)
    ensures Nodes(v) == Nodes(w) && (Fits(v, MAX_DEPTH) <==> Fits(w, MAX_DEPTH))
  {
    SameTextIffSame(v, w);
    ReadInvertsText(v);
    ReadInvertsText(w);
    CanonKeepsNodes(v);
    CanonKeepsNodes(w);
    CanonKeepsDepth(v, MAX_DEPTH);
    CanonKeepsDepth(w, MAX_DEPTH);
  }

  // ---- the text grows member by member ----

  lemma {:induction false} JoinedSnoc(parts: seq<string>, part: string)
    ensures Joined(parts + [part]) == (if parts == [] then part else Joined(parts) + "," + part)
  {
    if parts != [] {
      assert (parts + [part])[1..] == parts[1..] + [part];
      JoinedSnoc(parts[1..], part);
    }
  }

  lemma JoinedItems(items: seq<Json>, i: nat)
    requires i < |items|
    ensures Joined(Texts(items[..i + 1]))
            == (if i == 0 then "" else Joined(Texts(items[..i])) + ",") + Text(items[i])
  {
    hide Text, Joined;
    assert Texts(items[..i + 1]) == Texts(items[..i]) + [Text(items[i])];
    JoinedSnoc(Texts(items[..i]), Text(items[i]));
  }

  function MembersText(members: seq<Entry<Json>>): string {
    Joined(MemberTexts(EntryTexts(members)))
  }

  lemma JoinedMembers(members: seq<Entry<Json>>, i: nat)
    requires i < |members|
    ensures MembersText(members[..i + 1])
            == (if i == 0 then "" else MembersText(members[..i]) + ",")
               + FormatString(members[i].name) + ":" + Text(members[i].value)
  {
    hide Text, Joined, FormatString;
    var e := Entry(members[i].name, Text(members[i].value));
    assert EntryTexts(members[..i + 1]) == EntryTexts(members[..i]) + [e];
    assert MemberTexts(EntryTexts(members[..i + 1])) == MemberTexts(EntryTexts(members[..i])) + [MemberText(e)];
    JoinedSnoc(MemberTexts(EntryTexts(members[..i])), MemberText(e));
  }

  lemma ObjectText(members: seq<Entry<Json>>)
    ensures Text(Obj(members)) == "{" + MembersText(Sort(members)) + "}"
  {
    TextInNameOrder(members);
  }

  lemma SortedHaveSameDepth(members: seq<Entry<Json>>, d: int)
    ensures (forall i :: 0 <= i < |members| ==> Fits(members[i].value, d))
            <==> forall i :: 0 <= i < |Sort(members)| ==> Fits(Sort(members)[i].value, d)
    ensures forall i :: 0 <= i < |Sort(members)| ==> Sort(members)[i] in members
  {
    hide Sort, Fits;
    var s := Sort(members);
    SortPermutes(members);
    forall i | 0 <= i < |s|
      ensures s[i] in members
    {
      assert s[i] in multiset(s);
    }
    forall i | 0 <= i < |members|
      ensures members[i] in s
    {
      assert members[i] in multiset(members);
      assert members[i] in multiset(s);
    }
  }

  // ---- the walk ----

  /** The output and the visit counter threaded through the walk. */
  class Serializer {
    var out: string
    var visits: nat

    constructor ()
      ensures out == "" && visits == 0
    {
      out, visits := "", 0;
    }

    /** False once more than `MAX_NODES` values have been visited. */
    method Visit() returns (ok: bool)
      modifies this`visits
      ensures visits == old(visits) + 1 && (ok <==> visits <= MAX_NODES)
    {
      visits := visits + 1;
      ok := visits <= MAX_NODES;
    }

    /** Succeeds exactly when `v` fits the remaining depth and the remaining visits, and
        then appends exactly its canonical text. */
    method Serialize(v: Json, depth: nat) returns (ok: bool)
      modifies this
      ensures ok <==> Fits(v, MAX_DEPTH - depth) && old(visits) + Nodes(v) <= MAX_NODES
      ensures ok ==> out == old(out) + Text(v) && visits == old(visits) + Nodes(v)
      decreases v, 1
    {
      ok := Visit();
      if !ok {
        return;
      }
      if depth > MAX_DEPTH {
        return false;
      }
      match v
      case Null => out := out + "null";
      case Bool(b) => out := out + if b then "true" else "false";
      case Str(s) =>
        var text := WriteString(s);
        out := out + text;
      case Num(x) => out := out + FormatNumber(x);
      case Arr(items) => ok := SerializeItems(items, depth);
      case Obj(members) => ok := SerializeMembers(members, depth);
    }

    /** One array element, after a comma unless it is the first. */
    method SerializeItem(item: Json, first: bool, depth: nat) returns (ok: bool)
      requires depth <= MAX_DEPTH
      modifies this
      ensures ok <==> Fits(item, MAX_DEPTH - depth - 1) && old(visits) + Nodes(item) <= MAX_NODES
      ensures ok ==> out == old(out) + (if first then "" else ",") + Text(item) && visits == old(visits) + Nodes(item)
      decreases item, 2
    {
      hide Text, Nodes, Fits;
      if !first {
        out := out + ",";
      }
      ok := Serialize(item, depth + 1);
    }

    method SerializeItems(items: seq<Json>, depth: nat) returns (ok: bool)
      requires depth <= MAX_DEPTH && visits <= MAX_NODES
      modifies this
      ensures ok <==> Fits(Arr(items), MAX_DEPTH - depth) && old(visits) + ItemNodes(items) <= MAX_NODES
      ensures ok ==> out == old(out) + Text(Arr(items)) && visits == old(visits) + ItemNodes(items)
      decreases items, 0
    {
      hide Text, Nodes, Fits, ItemNodes, Joined;
      NoItems(items);
      out := out + "[";
      ghost var start := out;
      for i := 0 to |items|
        invariant out == start + Joined(Texts(items[..i]))
        invariant visits == old(visits) + ItemNodes(items[..i]) <= MAX_NODES
        invariant forall j :: 0 <= j < i ==> Fits(items[j], MAX_DEPTH - depth - 1)
      {
        ghost var before := Joined(Texts(items[..i]));
        JoinedItems(items, i);
        ItemPrefixNodes(items, i);
        ok := SerializeItem(items[i], i == 0, depth);
        if !ok {
          FitsInside(Arr(items), MAX_DEPTH - depth);
          return;
        }
        assert i > 0 ==> out == start + (before + "," + Text(items[i]));
      }
      FitsInside(Arr(items), MAX_DEPTH - depth);
      assert items[..|items|] == items;
      out := out + "]";
      ArrayText(items);
      ok := true;
    }

    /** One object member, after a comma unless it is the first. */
    method SerializeMember(e: Entry<Json>, first: bool, depth: nat) returns (ok: bool)
      requires depth <= MAX_DEPTH
      modifies this
      ensures ok <==> Fits(e.value, MAX_DEPTH - depth - 1) && old(visits) + Nodes(e.value) <= MAX_NODES
      ensures ok ==> out == old(out) + (if first then "" else ",") + FormatString(e.name) + ":" + Text(e.value)
      ensures ok ==> visits == old(visits) + Nodes(e.value)
      decreases e, 2
    {
      hide Text, Nodes, Fits, FormatString;
      if !first {
        out := out + ",";
      }
      var name := WriteString(e.name);
      out := out + name + ":";
      ok := Serialize(e.value, depth + 1);
    }

    method SerializeMembers(members: seq<Entry<Json>>, depth: nat) returns (ok: bool)
      requires depth <= MAX_DEPTH && visits <= MAX_NODES
      modifies this
      ensures ok <==> Fits(Obj(members), MAX_DEPTH - depth) && old(visits) + MemberNodes(members) <= MAX_NODES
      ensures ok ==> out == old(out) + Text(Obj(members)) && visits == old(visits) + MemberNodes(members)
      decreases members, 0
    {
      hide Text, Nodes, Fits, MemberNodes, MembersText, Sort, FormatString;
      NoMembersText();
      NoMembers();
      var sorted := Sort(members);
      SortKeepsNodes(members);
      SortedHaveSameDepth(members, MAX_DEPTH - depth - 1);
      out := out + "{";
      ghost var start := out;
      for i := 0 to |sorted|
        invariant out == start + MembersText(sorted[..i])
        invariant visits == old(visits) + MemberNodes(sorted[..i]) <= MAX_NODES
        invariant forall j :: 0 <= j < i ==> Fits(sorted[j].value, MAX_DEPTH - depth - 1)
      {
        ghost var before := MembersText(sorted[..i]);
        JoinedMembers(sorted, i);
        PrefixNodes(sorted, i);
        assert sorted[i] in members;
        ok := SerializeMember(sorted[i], i == 0, depth);
        if !ok {
          FitsInside(Obj(members), MAX_DEPTH - depth);
          return;
        }
        assert i > 0 ==> out == start + (before + "," + FormatString(sorted[i].name) + ":" + Text(sorted[i].value));
        assert i == 0 ==> out == start + (FormatString(sorted[i].name) + ":" + Text(sorted[i].value));
      }
      FitsInside(Obj(members), MAX_DEPTH - depth);
      assert sorted[..|sorted|] == sorted;
      out := out + "}";
      ObjectText(members);
      ok := true;
    }
  }

  lemma NoItems(items: seq<Json>)
    ensures items[..0] == [] && ItemNodes([]) == 0 && Joined(Texts([])) == ""
  {
  }

  lemma NoMembersText()
    ensures MembersText([]) == ""
  {
  }

  lemma ArrayText(items: seq<Json>)
    ensures Text(Arr(items)) == "[" + Joined(Texts(items)) + "]"
  {
  }

  /** `dumps`: the canonical text, or None when a limit is exceeded. */
  method Dumps(v: Json) returns (r: Option<string>)
    ensures r == if Fits(v, MAX_DEPTH) && Nodes(v) <= MAX_NODES then Some(Text(v)) else None
  {
    hide Text, Nodes, Fits;
    var walk := new Serializer();
    var ok := walk.Serialize(v, 0);
    assert "" + Text(v) == Text(v);
    r := if ok then Some(walk.out) else None;
  }
}
