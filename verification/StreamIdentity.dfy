/** Stream identifiers `category[:type[+type]]-id[+id]`: building, taking apart, and editing. */
module StreamIdentity {

  const ID_SEPARATOR: char := '-'
  const TYPE_SEPARATOR: char := ':'
  const COMPOUND_SEPARATOR: char := '+'

  // ---- Splitting ----

  function IndexOf(s: string, c: char): (i: nat)
    ensures i <= |s| && c !in s[..i] && (i < |s| ==> s[i] == c)
    ensures i < |s| <==> c in s
  {
    if s == "" || s[0] == c then 0
    else
      var j := IndexOf(s[1..], c);
      assert s[..j + 1] == [s[0]] + s[1..][..j];
      j + 1
  }

  lemma Absent(s: string, c: char, i: nat)
    requires i <= |s| && c !in s[..i]
    ensures forall k :: 0 <= k < i ==> s[k] != c
  {
    assert forall k :: 0 <= k < i ==> s[k] == s[..i][k];
  }

  lemma IndexUnique(s: string, c: char, i: nat)
    requires i < |s| && s[i] == c && c !in s[..i]
    ensures IndexOf(s, c) == i
  {
    Absent(s, c, i);
    Absent(s, c, IndexOf(s, c));
  }

  /** Every piece between occurrences of `c`; the empty string has one empty piece. */
  function Split(s: string, c: char): (r: seq<string>)
    ensures r != []
    decreases |s|
  {
    if c !in s then [s] else [s[..IndexOf(s, c)]] + Split(s[IndexOf(s, c) + 1..], c)
  }

  function Join(xs: seq<string>, c: char): string
    requires xs != []
  {
    if |xs| == 1 then xs[0] else Join(xs[..|xs| - 1], c) + [c] + xs[|xs| - 1]
  }

  lemma SplitAt(head: string, tail: string, c: char)
    requires c !in head
    ensures Split(head + [c] + tail, c) == [head] + Split(tail, c)
  {
    var s := head + [c] + tail;
    assert s[..|head|] == head && s[|head|] == c && s[|head| + 1..] == tail;
    IndexUnique(s, c, |head|);
  }

  lemma Assoc(a: string, b: string, c: string, d: string, e: string)
    ensures a + b + c + d + e == a + b + (c + d + e)
  {
  }

  lemma Cut(s: string, c: char) returns (head: string, tail: string)
    requires c in s
    ensures s == head + [c] + tail && c !in head && |tail| < |s|
  {
    var i := IndexOf(s, c);
    head, tail := s[..i], s[i + 1..];
  }

  /** Appending one more separated piece adds exactly that piece. */
  lemma {:induction false} SplitAppend(s: string, t: string, c: char)
    requires c !in t
    ensures Split(s + [c] + t, c) == Split(s, c) + [t]
    decreases |s|
  {
    if c in s {
      var head, tail := Cut(s, c);
      SplitAppend(tail, t, c);
      SplitAt(head, tail, c);
      Assoc(head, [c], tail, [c], t);
      SplitAt(head, tail + [c] + t, c);
    } else {
      SplitAt(s, t, c);
    }
  }

  /** Splitting inverts joining. */
  lemma {:induction false} SplitJoin(xs: seq<string>, c: char)
    requires xs != [] && forall k :: 0 <= k < |xs| ==> c !in xs[k]
    ensures Split(Join(xs, c), c) == xs
  {
    if |xs| > 1 {
      var front, t := xs[..|xs| - 1], xs[|xs| - 1];
      assert c !in t;
      SplitJoin(front, c);
      SplitAppend(Join(front, c), t, c);
    }
  }

  // ---- Parts ----

  function Category(s: string): string { s[..IndexOf(s, ID_SEPARATOR)] }

  function IdPart(s: string): string { if ID_SEPARATOR in s then s[IndexOf(s, ID_SEPARATOR) + 1..] else "" }

  function Ids(s: string): (r: seq<string>)
    ensures r != []
  {
    Split(IdPart(s), COMPOUND_SEPARATOR)
  }

  function TypePart(s: string): string {
    var cat := Category(s);
    if TYPE_SEPARATOR in cat then cat[IndexOf(cat, TYPE_SEPARATOR) + 1..] else ""
  }

  function Types(s: string): (r: seq<string>)
    ensures r != []
  {
    Split(TypePart(s), COMPOUND_SEPARATOR)
  }

  function Build(category: string, id: string): string { category + ([ID_SEPARATOR] + id) }

  /** Building and taking apart are inverse for every category without a hyphen. */
  lemma BuildParts(category: string, id: string)
    requires ID_SEPARATOR !in category
    ensures Category(Build(category, id)) == category && IdPart(Build(category, id)) == id
  {
    var s := Build(category, id);
    assert s[..|category|] == category && s[|category|] == ID_SEPARATOR && s[|category| + 1..] == id;
    IndexUnique(s, ID_SEPARATOR, |category|);
  }

  lemma PartsBuild(s: string)
    ensures s == if ID_SEPARATOR in s then Build(Category(s), IdPart(s)) else Category(s)
  {
  }

  /** A compound identifier comes back as the list it was built from. */
  lemma IdsRoundTrip(category: string, ids: seq<string>)
    requires ID_SEPARATOR !in category && ids != [] && forall k :: 0 <= k < |ids| ==> COMPOUND_SEPARATOR !in ids[k]
    ensures Ids(Build(category, Join(ids, COMPOUND_SEPARATOR))) == ids
  {
    BuildParts(category, Join(ids, COMPOUND_SEPARATOR));
    SplitJoin(ids, COMPOUND_SEPARATOR);
  }

  // ---- Adding a type ----

  function Insert(s: string, at: nat, t: string): string
    requires at <= |s|
  {
    s[..at] + t + s[at..]
  }

  function Typed(s: string, ty: string): string {
    if ty in Types(s) then s
    else Insert(s, |Category(s)|, Mark(s, ty))
  }

  /** What is inserted: the type behind the separator that the whole string calls for. */
  function Mark(s: string, ty: string): string {
    [if TYPE_SEPARATOR in s then COMPOUND_SEPARATOR else TYPE_SEPARATOR] + ty
  }

  predicate PlainType(ty: string) {
    ID_SEPARATOR !in ty && TYPE_SEPARATOR !in ty && COMPOUND_SEPARATOR !in ty
  }

  /** The category's real types: a category without a type separator has none. */
  function Listed(s: string): seq<string> {
    if TYPE_SEPARATOR in Category(s) then Types(s) else []
  }

  /** The colon that selects the separator is in the category, if there is one at all. */
  predicate ColonInCategory(s: string) {
    TYPE_SEPARATOR in s ==> TYPE_SEPARATOR in Category(s)
  }

  /** Only the category changes. */
  lemma TypedParts(s: string, ty: string)
    requires PlainType(ty) && ty !in Types(s)
    ensures Category(Typed(s, ty)) == Category(s) + Mark(s, ty)
    ensures IdPart(Typed(s, ty)) == IdPart(s) && Ids(Typed(s, ty)) == Ids(s)
  {
    var cat, mark := Category(s), Mark(s, ty);
    PartsBuild(s);
    assert ID_SEPARATOR !in cat + mark;
    if ID_SEPARATOR in s {
      InsertAt(cat, [ID_SEPARATOR] + IdPart(s), mark);
      BuildParts(cat + mark, IdPart(s));
    } else {
      InsertAt(cat, "", mark);
      assert cat + "" == cat && cat + mark + "" == cat + mark;
      PartsBuild(cat + mark);
    }
  }

  lemma InsertAt(front: string, back: string, t: string)
    ensures Insert(front + back, |front|, t) == front + t + back
  {
    assert (front + back)[..|front|] == front && (front + back)[|front|..] == back;
  }

  lemma TypePartOf(name: string, types: string, s: string)
    requires TYPE_SEPARATOR !in name && Category(s) == name + [TYPE_SEPARATOR] + types
    ensures TypePart(s) == types && TYPE_SEPARATOR in Category(s)
  {
    var cat := Category(s);
    assert cat[|name|] == TYPE_SEPARATOR && cat[..|name|] == name && cat[|name| + 1..] == types;
    IndexUnique(cat, TYPE_SEPARATOR, |name|);
  }

  /** With the colon where it belongs, the type is added behind the existing ones and nothing else
      changes. */
  lemma TypeAppended(s: string, ty: string)
    requires PlainType(ty) && ty !in Types(s) && ColonInCategory(s)
    ensures Listed(Typed(s, ty)) == Listed(s) + [ty]
  {
    TypedParts(s, ty);
    if TYPE_SEPARATOR in s {
      var name, types := Cut(Category(s), TYPE_SEPARATOR);
      TypePartOf(name, types, s);
      NestedMark(name, types, ty);
      TypePartOf(name, types + [COMPOUND_SEPARATOR] + ty, Typed(s, ty));
      SplitAppend(types, ty, COMPOUND_SEPARATOR);
    } else {
      FirstMark(Category(s), ty);
      TypePartOf(Category(s), ty, Typed(s, ty));
    }
  }

  lemma FirstMark(name: string, ty: string)
    ensures name + ([TYPE_SEPARATOR] + ty) == name + [TYPE_SEPARATOR] + ty
  {
  }

  lemma NestedMark(name: string, types: string, ty: string)
    ensures name + [TYPE_SEPARATOR] + types + ([COMPOUND_SEPARATOR] + ty) ==
              name + [TYPE_SEPARATOR] + (types + [COMPOUND_SEPARATOR] + ty)
  {
  }

  /** With a colon in the identifier only, the type is glued to the name and never listed. */
  lemma TypeLost(s: string, ty: string)
    requires PlainType(ty) && ty !in Types(s) && !ColonInCategory(s)
    ensures Types(Typed(s, ty)) == [""] && ty !in Types(Typed(s, ty)) && |Typed(s, ty)| > |s|
  {
    TypedParts(s, ty);
    assert TYPE_SEPARATOR !in Category(Typed(s, ty));
  }

  /** A pushed type is found afterwards, and pushing it again changes nothing, exactly when it was
      there already or no colon stands outside the category. */
  lemma PushTypeIff(s: string, ty: string)
    requires PlainType(ty)
    ensures ty in Types(Typed(s, ty)) <==> ty in Types(s) || ColonInCategory(s)
    ensures Typed(Typed(s, ty), ty) == Typed(s, ty) <==> ty in Types(s) || ColonInCategory(s)
  {
    if ty !in Types(s) {
      if ColonInCategory(s) {
        TypeAppended(s, ty);
        assert Listed(Typed(s, ty))[|Listed(s)|] == ty;
      } else {
        TypeLost(s, ty);
        TypedParts(Typed(s, ty), ty);
      }
    }
  }

  class StreamId {
    var inner: string

    constructor FromParts(category: string, id: string)
      ensures inner == Build(category, id)
    {
      inner := category + ([ID_SEPARATOR] + id);
    }

    /** Whatever the stream was before, it keeps its category and gets exactly this identifier. */
    method SetId(id: string)
      modifies this
      ensures inner == Build(Category(old(inner)), id)
    {
      var keep := |Category(inner)| + 1;
      if keep < |inner| {
        inner := inner[..keep];
      }
      PartsBuild(old(inner));
      if inner == "" || inner[|inner| - 1] != ID_SEPARATOR {
        inner := inner + [ID_SEPARATOR];
      }
      inner := inner + id;
    }

    method PushType(ty: string)
      modifies this
      ensures inner == Typed(old(inner), ty)
    {
      if ty in Types(inner) {
        return;
      }
      var at := |Category(inner)|;
      var separator := if TYPE_SEPARATOR in inner then COMPOUND_SEPARATOR else TYPE_SEPARATOR;
      inner := inner[..at] + [separator] + inner[at..];
      inner := inner[..at + 1] + ty + inner[at + 1..];
    }
  }
}
