/** The byte string a content hash is taken over: which notes it tells apart. */
module Hashing {
  import opened Basics
  import opened Sorting

  const NUL := '\U{0}'
  const SOH := '\U{1}'

  predicate Free(s: string, c: char) {
    forall i :: 0 <= i < |s| ==> s[i] != c
  }

  datatype Content = Content(noteType: string, fields: map<string, string>, deck: string, tags: seq<string>)

  const TYPE_TAG := "note_type"
  const FIELD_TAG := "field"
  const DECK_TAG := "deck"
  const TAG_TAG := "tag"

  function FieldPart(name: string, value: string): string {
    FIELD_TAG + [NUL] + name + [NUL] + value
  }

  function FieldParts(names: seq<string>, fields: map<string, string>): seq<string>
    requires forall n :: n in names ==> n in fields
  {
    if names == [] then []
    else
      assert names[0] in names;
      [FieldPart(names[0], fields[names[0]])] + FieldParts(names[1..], fields)
  }

  function TagParts(tags: seq<string>): (r: seq<string>)
    ensures |r| == |tags|
    ensures forall i :: 0 <= i < |tags| ==> r[i] == TAG_TAG + [NUL] + tags[i]
  {
    seq(|tags|, i requires 0 <= i < |tags| => TAG_TAG + [NUL] + tags[i])
  }

  /** Field names in byte order. */
  ghost function Names(fields: map<string, string>): (names: seq<string>)
    ensures forall n :: n in names <==> n in fields
    ensures Ascending(names, Below)
  {
    NamesExist(fields.Keys);
    var names :| (forall n :: n in names <==> n in fields.Keys) && Ascending(names, Below);
    names
  }

  lemma StringOrder()
    ensures Asymmetric(Below) && Transitive(Below)
  {
    forall x, y | Below(x, y) ensures !Below(y, x) { BelowAsymmetric(x, y); }
    forall x, y, z | Below(x, y) && Below(y, z) ensures Below(x, z) { BelowTransitive(x, y, z); }
  }

  lemma {:induction false} NamesExist(keys: set<string>)
    ensures exists names: seq<string> :: (forall n :: n in names <==> n in keys) && Ascending(names, Below)
    decreases |keys|
  {
    EmptyOrInhabited(keys);
    if keys == {} {
      var none: seq<string> := [];
      assert (forall n :: n in none <==> n in keys) && Ascending(none, Below);
    } else {
      var x :| x in keys;
      NamesExist(keys - {x});
      var rest: seq<string> :| (forall n :: n in rest <==> n in keys - {x}) && Ascending(rest, Below);
      StringOrder();
      forall y | y in rest ensures Below(x, y) || Below(y, x) { BelowTotal(x, y); }
      InsertAscending(x, rest, Below);
      var names := Insert(x, rest, Below);
      assert forall n :: n in names <==> n in keys;
    }
  }

  /** The parts of the byte string, in order. */
  ghost function Parts(c: Content): seq<string> {
    [TYPE_TAG + [NUL] + c.noteType] + FieldParts(Names(c.fields), c.fields)
    + [DECK_TAG + [NUL] + c.deck] + TagParts(Sort(c.tags, Below))
  }

  function Flat(parts: seq<string>): string {
    if parts == [] then "" else parts[0] + [SOH] + Flat(parts[1..])
  }

  ghost function Canonical(c: Content): string {
    Flat(Parts(c))
  }

  /** What the parts of a note must be free of for the byte string to tell notes apart. */
  ghost predicate Separable(c: Content) {
    && Free(c.noteType, SOH) && Free(c.deck, SOH)
    && (forall n :: n in c.fields ==> Free(n, NUL) && Free(n, SOH) && Free(c.fields[n], SOH))
    && (forall t :: t in c.tags ==> Free(t, SOH))
  }

  // -------------------------------------------------- the byte string and its parts

  lemma SameHead(a: string, b: string, x: string, y: string, c: char)
    requires Free(a, c) && Free(b, c) && a + [c] + x == b + [c] + y
    ensures a == b && x == y
  {
    var s := a + [c] + x;
    assert s[|a|] == c && s[|b|] == c;
    assert forall i :: 0 <= i < |a| ==> s[i] == a[i];
    assert forall i :: 0 <= i < |b| ==> s[i] == b[i];
    assert |a| == |b|;
    assert a == s[..|a|] && b == s[..|b|];
    assert x == s[|a| + 1..] && y == s[|b| + 1..];
  }

  /** Parts free of the terminator can be read back from the byte string. */
  lemma {:induction false} FlatInjective(a: seq<string>, b: seq<string>)
    requires Flat(a) == Flat(b)
    requires forall p :: p in a ==> Free(p, SOH)
    requires forall p :: p in b ==> Free(p, SOH)
    ensures a == b
    decreases |a|
  {
    if a == [] || b == [] {
      assert a != [] ==> |Flat(a)| > 0;
      assert b != [] ==> |Flat(b)| > 0;
    } else {
      assert a[0] in a && b[0] in b;
      SameHead(a[0], b[0], Flat(a[1..]), Flat(b[1..]), SOH);
      FlatInjective(a[1..], b[1..]);
      assert a == [a[0]] + a[1..] && b == [b[0]] + b[1..];
    }
  }

  lemma Joined(a: string, b: string, c: char)
    ensures Free(a + b, c) <==> Free(a, c) && Free(b, c)
  {
    if Free(a + b, c) {
      assert forall i :: 0 <= i < |a| ==> a[i] == (a + b)[i];
      assert forall i :: 0 <= i < |b| ==> b[i] == (a + b)[|a| + i];
    }
  }

  lemma {:induction false} FieldPartsFree(names: seq<string>, fields: map<string, string>)
    requires forall n :: n in names ==> n in fields && Free(n, SOH) && Free(fields[n], SOH)
    ensures forall p :: p in FieldParts(names, fields) ==> Free(p, SOH)
  {
    if names != [] {
      var n := names[0];
      assert n in names;
      Joined(FIELD_TAG + [NUL] + n + [NUL], fields[n], SOH);
      Joined(FIELD_TAG + [NUL] + n, [NUL], SOH);
      Joined(FIELD_TAG + [NUL], n, SOH);
      FieldPartsFree(names[1..], fields);
    }
  }

  lemma PartsFree(c: Content)
    requires Separable(c)
    ensures forall p :: p in Parts(c) ==> Free(p, SOH)
  {
    FieldPartsFree(Names(c.fields), c.fields);
    Joined(TYPE_TAG + [NUL], c.noteType, SOH);
    Joined(DECK_TAG + [NUL], c.deck, SOH);
    var tags := Sort(c.tags, Below);
    forall p | p in TagParts(tags) ensures Free(p, SOH) {
      var i :| 0 <= i < |tags| && TagParts(tags)[i] == p;
      assert tags[i] in tags;
      Joined(TAG_TAG + [NUL], tags[i], SOH);
    }
  }

  lemma FieldPartInjective(n1: string, v1: string, n2: string, v2: string)
    requires Free(n1, NUL) && Free(n2, NUL) && FieldPart(n1, v1) == FieldPart(n2, v2)
    ensures n1 == n2 && v1 == v2
  {
    var p1 := FieldPart(n1, v1);
    var p2 := FieldPart(n2, v2);
    assert p1[6..] == n1 + [NUL] + v1 && p2[6..] == n2 + [NUL] + v2;
    SameHead(n1, n2, v1, v2, NUL);
  }

  /** The field parts end where the deck part stands, so both lists can be read back. */
  lemma {:induction false} FieldPartsInjective(n1: seq<string>, f1: map<string, string>, n2: seq<string>,
                                               f2: map<string, string>, d1: string, d2: string,
                                               x: seq<string>, y: seq<string>)
    requires forall n :: n in n1 ==> n in f1 && Free(n, NUL)
    requires forall n :: n in n2 ==> n in f2 && Free(n, NUL)
    requires FieldParts(n1, f1) + [DECK_TAG + [NUL] + d1] + x == FieldParts(n2, f2) + [DECK_TAG + [NUL] + d2] + y
    ensures n1 == n2 && (forall n :: n in n1 ==> f1[n] == f2[n]) && d1 == d2 && x == y
    decreases |n1|
  {
    var a := FieldParts(n1, f1) + [DECK_TAG + [NUL] + d1] + x;
    var b := FieldParts(n2, f2) + [DECK_TAG + [NUL] + d2] + y;
    var deck1 := DECK_TAG + [NUL] + d1;
    var deck2 := DECK_TAG + [NUL] + d2;
    Leads(n1, f1, d1, x);
    Leads(n2, f2, d2, y);
    if n1 == [] && n2 == [] {
      assert deck1[5..] == d1 && deck2[5..] == d2;
    } else if n1 != [] && n2 != [] {
      assert n1[0] in n1 && n2[0] in n2;
      FieldPartInjective(n1[0], f1[n1[0]], n2[0], f2[n2[0]]);
      FieldPartsInjective(n1[1..], f1, n2[1..], f2, d1, d2, x, y);
      assert n1 == [n1[0]] + n1[1..] && n2 == [n2[0]] + n2[1..];
    }
  }

  /** What stands first tells a field part from the deck part. */
  lemma Leads(names: seq<string>, fields: map<string, string>, deck: string, x: seq<string>)
    requires forall n :: n in names ==> n in fields
    ensures var a := FieldParts(names, fields) + [DECK_TAG + [NUL] + deck] + x;
      && a[0] != [] && a[0][0] == (if names == [] then 'd' else 'f')
      && (names == [] ==> a[0] == DECK_TAG + [NUL] + deck && a[1..] == x)
      && (names != [] ==> names[0] in names && a[0] == FieldPart(names[0], fields[names[0]])
                          && a[1..] == FieldParts(names[1..], fields) + [DECK_TAG + [NUL] + deck] + x)
  {
    if names == [] {
      assert FieldParts(names, fields) == [];
    } else {
      assert names[0] in names;
    }
  }

  lemma TagPartsInjective(a: seq<string>, b: seq<string>)
    requires TagParts(a) == TagParts(b)
    ensures a == b
  {
    assert |a| == |TagParts(a)| == |b|;
    forall i | 0 <= i < |a| ensures a[i] == b[i] {
      assert TagParts(a)[i][4..] == a[i] && TagParts(b)[i][4..] == b[i];
    }
  }

  // ---------------------------------------------------------- sorting with repeats

  /** Two rising lists of the same elements, counted, are the same list. */
  lemma {:induction false} RisingUnique(a: seq<string>, b: seq<string>)
    requires Rising(a, Below) && Rising(b, Below) && multiset(a) == multiset(b)
    ensures a == b
    decreases |a|
  {
    SameSize(a, b);
    if |a| > 0 {
      assert a == [a[0]] + a[1..] && b == [b[0]] + b[1..];
      SameFirst(a, b);
      assert multiset(a[1..]) == multiset(a) - multiset{a[0]};
      assert multiset(b[1..]) == multiset(b) - multiset{b[0]};
      RisingTail(a);
      RisingTail(b);
      RisingUnique(a[1..], b[1..]);
    }
  }

  lemma SameSize(a: seq<string>, b: seq<string>)
    requires multiset(a) == multiset(b)
    ensures |a| == |b|
  {
    assert |a| == |multiset(a)| && |b| == |multiset(b)|;
  }

  lemma RisingTail(s: seq<string>)
    requires Rising(s, Below) && s != []
    ensures Rising(s[1..], Below)
  {
  }

  lemma SameFirst(a: seq<string>, b: seq<string>)
    requires Rising(a, Below) && Rising(b, Below) && multiset(a) == multiset(b) && a != [] && b != []
    ensures a[0] == b[0]
  {
    hide Below;
    assert a[0] in multiset(a) && b[0] in multiset(b);
    var k :| 0 <= k < |b| && b[k] == a[0];
    var j :| 0 <= j < |a| && a[j] == b[0];
    BelowTotal(a[0], b[0]);
  }

  // ------------------------------------------------------------------ the theorem

  /** Two notes get the same byte string exactly when note type, fields and deck are equal
      and the tags are equal counted but not ordered. Field values and tags may hold NUL. */
  lemma CanonicalTellsApart(a: Content, b: Content)
    requires Separable(a) && Separable(b)
    ensures Canonical(a) == Canonical(b) <==>
            a.noteType == b.noteType && a.fields == b.fields && a.deck == b.deck && multiset(a.tags) == multiset(b.tags)
  {
    BelowWeak();
    SortRising(a.tags, Below);
    SortRising(b.tags, Below);
    if Canonical(a) == Canonical(b) {
      PartsFree(a);
      PartsFree(b);
      FlatInjective(Parts(a), Parts(b));
      PartsInjective(a, b);
    }
    if multiset(a.tags) == multiset(b.tags) {
      RisingUnique(Sort(a.tags, Below), Sort(b.tags, Below));
    }
  }

  lemma PartsInjective(a: Content, b: Content)
    requires Separable(a) && Separable(b) && Parts(a) == Parts(b)
    ensures a.noteType == b.noteType && a.fields == b.fields && a.deck == b.deck
    ensures Sort(a.tags, Below) == Sort(b.tags, Below)
  {
    hide Separable, Names, FieldParts, TagParts, Sort;
    var tail1 := TagParts(Sort(a.tags, Below));
    var tail2 := TagParts(Sort(b.tags, Below));
    FirstPart(a, tail1);
    FirstPart(b, tail2);
    NamesFree(a);
    NamesFree(b);
    FieldPartsInjective(Names(a.fields), a.fields, Names(b.fields), b.fields, a.deck, b.deck, tail1, tail2);
    SameFields(a.fields, b.fields);
    TagPartsInjective(Sort(a.tags, Below), Sort(b.tags, Below));
  }

  lemma FirstPart(c: Content, tail: seq<string>)
    requires tail == TagParts(Sort(c.tags, Below))
    ensures Parts(c)[0] == TYPE_TAG + [NUL] + c.noteType && Parts(c)[0][10..] == c.noteType
    ensures Parts(c)[1..] == FieldParts(Names(c.fields), c.fields) + [DECK_TAG + [NUL] + c.deck] + tail
  {
    hide Names, FieldParts, TagParts, Sort;
  }

  lemma NamesFree(c: Content)
    requires Separable(c)
    ensures forall n :: n in Names(c.fields) ==> n in c.fields && Free(n, NUL)
  {
  }

  lemma SameFields(f: map<string, string>, g: map<string, string>)
    requires Names(f) == Names(g) && forall n :: n in Names(f) ==> n in f && n in g && f[n] == g[n]
    ensures f == g
  {
    assert forall n :: n in f <==> n in Names(f);
    assert forall n :: n in g <==> n in Names(g);
    assert f.Keys == g.Keys;
  }

  /** What the byte string holds between the values of a field and of the next one. */
  function Seam(name: string): string {
    [SOH] + FIELD_TAG + [NUL] + name + [NUL]
  }

  /** The separators are needed: of two fields that follow each other, text that holds what
      the byte string writes between them can be cut there or not, so a part of one value
      may be moved to the other unnoticed, whatever the names and the texts are. */
  lemma ValuesCollide(noteType: string, deck: string, tags: seq<string>, m: string, n: string, x: string, y: string,
                      z: string)
    requires Below(m, n)
    ensures var a := Content(noteType, map[m := x + Seam(n) + y, n := z], deck, tags);
            var b := Content(noteType, map[m := x, n := y + Seam(n) + z], deck, tags);
            a.fields != b.fields && Canonical(a) == Canonical(b)
  {
    hide Names, Flat, TagParts, Sort;
    BelowAsymmetric(m, n);
    var f: map<string, string> := map[m := x + Seam(n) + y, n := z];
    var g: map<string, string> := map[m := x, n := y + Seam(n) + z];
    assert f[m] != g[m] by { assert |f[m]| > |g[m]|; }
    var a, b := Content(noteType, f, deck, tags), Content(noteType, g, deck, tags);
    TwoNames(f, m, n);
    TwoNames(g, m, n);
    TwoFlat(FieldPart(m, f[m]), FieldPart(n, f[n]));
    TwoFlat(FieldPart(m, g[m]), FieldPart(n, g[n]));
    SeamMoves(m, n, x, y, z);
    var head, tail := [TYPE_TAG + [NUL] + noteType], [DECK_TAG + [NUL] + deck] + TagParts(Sort(tags, Below));
    Surrounded(head, FieldParts(Names(f), f), FieldParts(Names(g), g), tail);
    assert Parts(a) == head + FieldParts(Names(f), f) + tail;
    assert Parts(b) == head + FieldParts(Names(g), g) + tail;
  }

  lemma SeamMoves(m: string, n: string, x: string, y: string, z: string)
    ensures FieldPart(m, x + Seam(n) + y) + [SOH] + FieldPart(n, z) ==
              FieldPart(m, x) + [SOH] + FieldPart(n, y + Seam(n) + z)
  {
    var seam := Seam(n);
    SeamAhead(m, n, x + seam + y, z);
    SeamAhead(m, n, x, y + seam + z);
    hide Seam, FieldPart;
    Regrouped(FIELD_TAG + [NUL] + m + [NUL], x, seam, y, z);
  }

  lemma SeamAhead(m: string, n: string, v: string, w: string)
    ensures FieldPart(m, v) + [SOH] + FieldPart(n, w) == FIELD_TAG + [NUL] + m + [NUL] + v + Seam(n) + w
  {
  }

  lemma Regrouped(h: string, x: string, s: string, y: string, z: string)
    ensures h + (x + s + y) + s + z == h + x + s + (y + s + z)
  {
  }

  lemma TwoFlat(p: string, q: string)
    ensures Flat([p, q]) == p + [SOH] + q + [SOH]
  {
    assert [p, q][1..] == [q] && [q][1..] == [];
    assert Flat([q]) == q + [SOH] + Flat([]);
  }

  lemma Surrounded(head: seq<string>, a: seq<string>, b: seq<string>, tail: seq<string>)
    requires Flat(a) == Flat(b)
    ensures Flat(head + a + tail) == Flat(head + b + tail)
  {
    FlatConcat(head + a, tail);
    FlatConcat(head, a);
    FlatConcat(head + b, tail);
    FlatConcat(head, b);
  }

  lemma TwoNames(fields: map<string, string>, m: string, n: string)
    requires fields.Keys == {m, n} && Below(m, n)
    ensures Names(fields) == [m, n]
    ensures FieldParts(Names(fields), fields) == [FieldPart(m, fields[m]), FieldPart(n, fields[n])]
  {
    StringOrder();
    AscendingUnique(Names(fields), [m, n], Below);
    var first, second := FieldPart(m, fields[m]), FieldPart(n, fields[n]);
    assert [n][1..] == [] && FieldParts([n], fields) == [second];
    assert [m, n][1..] == [n] && FieldParts([m, n], fields) == [first] + FieldParts([n], fields);
  }

  // ------------------------------------------------------------------ the builder

  /** The byte string as the program writes it. */
  method Build(noteType: string, fields: map<string, string>, deck: string, tags: seq<string>) returns (b: string)
    ensures b == Canonical(Content(noteType, fields, deck, tags))
  {
    hide Flat, FieldParts, TagParts, Names, Sort, Below, Parts;
    b := TYPE_TAG + [NUL] + noteType + [SOH];
    var names := SortedNames(fields);
    b := WriteFields(b, names, fields);
    b := b + (DECK_TAG + [NUL] + deck + [SOH]);
    b := WriteTags(b, Sort(tags, Below));
    WholeFlat(Content(noteType, fields, deck, tags));
  }

  /** The names in whatever order the map gives them, then sorted. */
  method SortedNames(fields: map<string, string>) returns (names: seq<string>)
    ensures names == Names(fields)
  {
    var fieldNames := [];
    var rest := fields.Keys;
    while rest != {}
      invariant rest <= fields.Keys
      invariant forall n :: n in fieldNames <==> n in fields.Keys - rest
      invariant forall i, j :: 0 <= i < j < |fieldNames| ==> fieldNames[i] != fieldNames[j]
      decreases |rest|
    {
      EmptyOrInhabited(rest);
      var name :| name in rest;
      assert name !in fieldNames;
      forall i | 0 <= i < |fieldNames| ensures fieldNames[i] != name { assert fieldNames[i] in fieldNames; }
      rest, fieldNames := rest - {name}, fieldNames + [name];
    }
    names := Sort(fieldNames, Below);
    NamesSorted(fields, fieldNames);
  }

  method WriteFields(start: string, names: seq<string>, fields: map<string, string>) returns (b: string)
    requires forall n :: n in names ==> n in fields
    ensures b == start + Flat(FieldParts(names, fields))
  {
    hide Flat;
    b := start;
    NothingFlat();
    for i := 0 to |names|
      invariant b == start + Flat(FieldParts(names[..i], fields))
    {
      assert names[i] in names;
      FieldPartsAppend(names, fields, i);
      FlatAppend(FieldParts(names[..i], fields), FieldPart(names[i], fields[names[i]]));
      b := b + (FIELD_TAG + [NUL] + names[i] + [NUL] + fields[names[i]] + [SOH]);
    }
    assert names[..|names|] == names;
  }

  method WriteTags(start: string, tags: seq<string>) returns (b: string)
    ensures b == start + Flat(TagParts(tags))
  {
    hide Flat;
    b := start;
    NothingFlat();
    for i := 0 to |tags|
      invariant b == start + Flat(TagParts(tags[..i]))
    {
      assert TagParts(tags[..i + 1]) == TagParts(tags[..i]) + [TAG_TAG + [NUL] + tags[i]];
      FlatAppend(TagParts(tags[..i]), TAG_TAG + [NUL] + tags[i]);
      b := b + (TAG_TAG + [NUL] + tags[i] + [SOH]);
    }
    assert tags[..|tags|] == tags;
  }

  lemma NothingFlat()
    ensures Flat([]) == ""
  {
  }

  lemma FlatAppend(parts: seq<string>, p: string)
    ensures Flat(parts + [p]) == Flat(parts) + (p + [SOH])
  {
    FlatConcat(parts, [p]);
    assert Flat([p]) == p + [SOH] + Flat([]);
  }

  lemma {:induction false} FieldPartsAppend(names: seq<string>, fields: map<string, string>, i: nat)
    requires i < |names| && forall n :: n in names ==> n in fields
    ensures names[i] in names
    ensures FieldParts(names[..i + 1], fields) ==
              FieldParts(names[..i], fields) + [FieldPart(names[i], fields[names[i]])]
  {
    assert names[i] in names;
    if i > 0 {
      assert names[..i + 1][1..] == names[1..][..i] && names[..i][1..] == names[1..][..i - 1];
      FieldPartsAppend(names[1..], fields, i - 1);
    }
  }

  lemma {:induction false} FlatConcat(a: seq<string>, b: seq<string>)
    ensures Flat(a + b) == Flat(a) + Flat(b)
  {
    if a == [] {
      assert a + b == b;
    } else {
      assert (a + b)[1..] == a[1..] + b;
      FlatConcat(a[1..], b);
    }
  }

  lemma WholeFlat(c: Content)
    ensures Canonical(c) == TYPE_TAG + [NUL] + c.noteType + [SOH] + Flat(FieldParts(Names(c.fields), c.fields))
                            + (DECK_TAG + [NUL] + c.deck + [SOH]) + Flat(TagParts(Sort(c.tags, Below)))
  {
    var f := FieldParts(Names(c.fields), c.fields);
    var t := TagParts(Sort(c.tags, Below));
    var first := [TYPE_TAG + [NUL] + c.noteType];
    var deck := [DECK_TAG + [NUL] + c.deck];
    FlatConcat(first + f + deck, t);
    FlatConcat(first + f, deck);
    FlatConcat(first, f);
  }

  lemma NamesSorted(fields: map<string, string>, names: seq<string>)
    requires forall n :: n in names <==> n in fields.Keys
    requires forall i, j :: 0 <= i < j < |names| ==> names[i] != names[j]
    ensures Sort(names, Below) == Names(fields)
  {
    StringOrder();
    forall i, j | 0 <= i < j < |names| ensures Below(names[i], names[j]) || Below(names[j], names[i]) {
      BelowTotal(names[i], names[j]);
    }
    SortAscending(names, Below);
    AscendingUnique(Sort(names, Below), Names(fields), Below);
  }
}
