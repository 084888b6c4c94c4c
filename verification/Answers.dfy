/** The multiline card: the spans of the answer items, and the text composed from them. */
module Answers {
  import opened Basics
  import opened Lines
  import opened Cloze
  import B = Blocks
  import C = Collapse
  import G = Lists

  // -------------------------------------------- where an item's answer begins

  datatype Kind = OrderedList | Descriptive | OtherKind

  /** The number of digits of a counter cookie at this place. */
  function CookieAt(content: string, i: nat): (digits: Option<nat>)
    requires i <= |content|
    ensures digits.Some? ==> i + 4 + digits.value <= |content|
  {
    if i + 2 > |content| || content[i] != '[' || content[i + 1] != '@' then None
    else
      var d := G.DigitEnd(content, i + 2);
      if d == i + 2 || d + 1 >= |content| || content[d] != ']' || !AsciiSpace(content[d + 1]) then None
      else Some(d - (i + 2))
  }

  function FirstCookie(content: string, i: nat): (digits: Option<nat>)
    requires i <= |content|
    ensures digits.Some? ==> i + 4 + digits.value <= |content|
    decreases |content| - i
  {
    if CookieAt(content, i).Some? then CookieAt(content, i)
    else if i == |content| then None
    else FirstCookie(content, i + 1)
  }

  predicate StatusAt(content: string, i: nat) {
    i + 4 <= |content| && content[i] == '[' && content[i + 1] in " X-" && content[i + 2] == ']'
      && AsciiSpace(content[i + 3])
  }

  predicate HasStatus(content: string) {
    exists i :: 0 <= i < |content| && StatusAt(content, i)
  }

  /** The end of the first description separator from place i on. */
  function FirstSplit(content: string, i: nat): (end: Option<nat>)
    requires i <= |content|
    ensures end.Some? ==> i < end.value <= |content|
    decreases |content| - i
  {
    if i + 3 > |content| then None
    else if AsciiSpace(content[i]) && content[i + 1] == ':' && content[i + 2] == ':'
      && (i + 3 == |content| || AsciiSpace(content[i + 3])) then
      Some(if i + 3 == |content| then i + 3 else i + 4)
    else FirstSplit(content, i + 1)
  }

  /** What the Org parser consumes before the answer: fixed counts from the front, after
      matches found anywhere. They never run past the content. The parser counts bytes where
      this counts characters; the two agree on text of one-byte characters. */
  function AnswerContentOffset(content: string, kind: Kind): (off: nat)
    ensures off <= |content|
  {
    var cookie := if kind == OrderedList && FirstCookie(content, 0).Some? then 4 + FirstCookie(content, 0).value else 0;
    var status := if HasStatus(content[cookie..]) then cookie + 4 else cookie;
    if kind == Descriptive && FirstSplit(content[status..], 0).Some? then
      status + FirstSplit(content[status..], 0).value else status
  }

  // ----------------------------------------------------------- the item spans

  datatype AnswerItem = AnswerItem(start: nat, end: nat)

  datatype AnswerList = AnswerList(containerAt: nat, items: seq<AnswerItem>)

  /** Items gathered so far, and whether the last one still grows. */
  datatype Gathered = Gathered(items: seq<AnswerItem>, growing: bool)

  function ItemAt(ln: Line, kind: Kind): (a: AnswerItem)
    requires ln.end == ln.start + |ln.text|
    ensures ln.start <= a.start <= a.end == ln.end
  {
    var b := G.ReadBullet(ln.text);
    if b.None? then AnswerItem(ln.end, ln.end)
    else AnswerItem(ln.start + b.value.contentStart + AnswerContentOffset(ln.text[b.value.contentStart..], kind),
                    ln.end)
  }

  /** The lines lie in the text one after another. */
  ghost predicate InText(body: string, lines: seq<Line>) {
    && (forall i :: 0 <= i < |lines| ==>
        lines[i].start <= lines[i].end <= |body| && lines[i].text == body[lines[i].start..lines[i].end])
    && (forall i, j :: 0 <= i < j < |lines| ==> lines[i].end < lines[j].start)
  }

  lemma LinesInText(body: string)
    ensures InText(body, LinesOf(body))
  {
    hide LinesFrom, IndentOf, Blank;
    LinesTile(body, 0);
    var lines := LinesOf(body);
    forall i | 0 <= i < |lines|
      ensures lines[i].start <= lines[i].end <= |body| && lines[i].text == body[lines[i].start..lines[i].end]
      ensures forall j :: 0 <= j < i ==> lines[j].end < lines[i].start
    {
      TileAt(body, lines, 0, i);
    }
  }

  ghost predicate Measured(lines: seq<Line>) {
    forall i :: 0 <= i < |lines| ==> lines[i].end == lines[i].start + |lines[i].text|
  }

  lemma InTextMeasured(body: string, lines: seq<Line>)
    requires InText(body, lines)
    ensures Measured(lines)
  {
  }

  function Gather(lines: seq<Line>, visits: seq<G.Visit>, kind: Kind, n: nat): Gathered
    requires n <= |visits| && forall k :: 0 <= k < |visits| ==> visits[k].line < |lines|
    requires Measured(lines)
  {
    if n == 0 then Gathered([], false)
    else
      var before := Gather(lines, visits, kind, n - 1);
      var ln := lines[visits[n - 1].line];
      match visits[n - 1].role
      case BlankLine => before.(growing := false)
      case NestedBullet => before.(growing := false)
      case Item => Gathered(before.items + [ItemAt(ln, kind)], true)
      case Continuation =>
        if before.growing && before.items != [] then
          var last := |before.items| - 1;
          before.(items := before.items[last := before.items[last].(end := ln.end)])
        else before
  }

  /** Spans in order, apart from each other, inside the text. */
  ghost predicate SpansSound(items: seq<AnswerItem>, from: nat, to: nat) {
    && (forall k :: 0 <= k < |items| ==> from <= items[k].start <= items[k].end <= to)
    && (forall k, l :: 0 <= k < l < |items| ==> items[k].end < items[l].start)
  }

  lemma {:induction false} GatherSound(body: string, lines: seq<Line>, visits: seq<G.Visit>, kind: Kind, first: nat,
                                       n: nat)
    requires InText(body, lines) && n <= |visits| && first + |visits| <= |lines|
    requires forall k :: 0 <= k < |visits| ==> visits[k].line == first + k
    requires first < |lines|
    ensures SpansSound(Gather(lines, visits, kind, n).items, lines[first].start, if n == 0 then lines[first].start
                       else lines[first + n - 1].end)
  {
    hide ItemAt, Gather, SpansSound;
    if n == 0 {
      GatherNone(lines, visits, kind, first);
    } else {
      GatherSound(body, lines, visits, kind, first, n - 1);
      GatherStep(lines, visits, kind, n);
      var before, after := Gather(lines, visits, kind, n - 1).items, Gather(lines, visits, kind, n).items;
      var ln := lines[first + n - 1];
      var to := if n == 1 then lines[first].start else lines[first + n - 2].end;
      assert lines[first].start <= to <= ln.start <= ln.end;
      if visits[n - 1].role == G.Item {
        if n == 1 { GatherNone(lines, visits, kind, first); }
        SpansAppend(before, ItemAt(ln, kind), lines[first].start, to, ln.end);
      } else {
        SpansStretch(before, after, lines[first].start, to, ln.end);
      }
    }
  }

  lemma GatherNone(lines: seq<Line>, visits: seq<G.Visit>, kind: Kind, first: nat)
    requires forall k :: 0 <= k < |visits| ==> visits[k].line < |lines|
    requires Measured(lines)
    requires first < |lines|
    ensures Gather(lines, visits, kind, 0).items == []
    ensures SpansSound(Gather(lines, visits, kind, 0).items, lines[first].start, lines[first].start)
  {
  }

  lemma GatherStep(lines: seq<Line>, visits: seq<G.Visit>, kind: Kind, n: nat)
    requires 0 < n <= |visits| && forall k :: 0 <= k < |visits| ==> visits[k].line < |lines|
    requires Measured(lines)
    ensures var before := Gather(lines, visits, kind, n - 1).items;
            var after := Gather(lines, visits, kind, n).items;
            var ln := lines[visits[n - 1].line];
      if visits[n - 1].role == G.Item then after == before + [ItemAt(ln, kind)]
      else after == before || (before != [] && after == before[|before| - 1 := before[|before| - 1].(end := ln.end)])
  {
    hide ItemAt;
  }

  lemma SpansAppend(items: seq<AnswerItem>, a: AnswerItem, from: nat, to: nat, end: nat)
    requires SpansSound(items, from, to) && from <= to <= a.start <= a.end <= end && (items == [] || to < a.start)
    ensures SpansSound(items + [a], from, end)
  {
  }

  lemma SpansStretch(before: seq<AnswerItem>, after: seq<AnswerItem>, from: nat, to: nat, end: nat)
    requires SpansSound(before, from, to) && to <= end
    requires after == before || (before != [] && after == before[|before| - 1 := before[|before| - 1].(end := end)])
    ensures SpansSound(after, from, end)
  {
  }

  /** The first bullet line outside block interiors. */
  function FirstBullet(rows: seq<Row>, blocks: seq<B.Block>, i: nat): (f: nat)
    requires i <= |rows|
    ensures i <= f <= |rows|
    ensures f < |rows| ==> G.ReadBullet(rows[f].text).Some? && !B.Inside(blocks, f)
    ensures forall k :: i <= k < f ==> G.ReadBullet(rows[k].text).None? || B.Inside(blocks, k)
    decreases |rows| - i
  {
    if i == |rows| || (G.ReadBullet(rows[i].text).Some? && !B.Inside(blocks, i)) then i
    else FirstBullet(rows, blocks, i + 1)
  }

  ghost predicate ListSound(body: string, list: AnswerList) {
    && list.containerAt <= |body| && SpansSound(list.items, list.containerAt, |body|) && list.items != []
  }

  /** The answer list: ordered, disjoint spans inside the body, at least one, after the
      place where the container line goes; None exactly when no bullet lies outside blocks. */
  method ScanAnswerList(g: G.Grammar, body: string, kind: Kind) returns (list: Option<AnswerList>)
    ensures list == AnswerListOf(g, body, kind)
    ensures list.Some? ==> ListSound(body, list.value)
    ensures list.None? <==> NoBullet(Rows(LinesOf(body)))
  {
    hide LinesFrom, B.PairsFrom, B.OpenFrom, G.ReadBullet, B.Inside, ListFrom, ListSound, FirstBullet;
    var lines := SplitLines(body);
    LinesInText(body);
    var rows := Rows(lines);
    var first := FindBullet(rows);
    NoBulletIff(rows);
    if first == |rows| { return None; }
    FirstIsBullet(rows);
    G.WalkProgress(g, rows, first);
    var base := G.ReadBullet(rows[first].text).value;
    var visits, end := G.WalkLines(g, rows, first, base);
    var items := GatherItems(lines, visits, kind);
    list := Some(AnswerList(lines[first].start, items));
    ListFromIs(g, lines, rows, kind, first);
    ListFromSound(g, body, kind, first);
  }

  predicate NoBullet(rows: seq<Row>) {
    forall i :: 0 <= i < |rows| ==> G.ReadBullet(rows[i].text).None? || B.Inside(B.PairsFrom(rows, 0), i)
  }

  lemma NoBulletIff(rows: seq<Row>)
    ensures NoBullet(rows) <==> FirstBullet(rows, B.PairsFrom(rows, 0), 0) == |rows|
  {
    hide B.PairsFrom, B.Inside, G.ReadBullet;
  }

  lemma FirstIsBullet(rows: seq<Row>)
    ensures var f := FirstBullet(rows, B.PairsFrom(rows, 0), 0); f < |rows| ==> G.ReadBullet(rows[f].text).Some?
  {
  }

  method FindBullet(rows: seq<Row>) returns (first: nat)
    ensures first == FirstBullet(rows, B.PairsFrom(rows, 0), 0)
  {
    hide B.PairsFrom, B.OpenFrom, G.ReadBullet, B.Inside;
    var interior, open := C.BlockRegions(rows);
    ghost var blocks := B.PairsFrom(rows, 0);
    first := 0;
    while first < |rows| && (interior[first] || G.ReadBullet(rows[first].text).None?)
      invariant 0 <= first <= |rows| && FirstBullet(rows, blocks, 0) == FirstBullet(rows, blocks, first)
    {
      first := first + 1;
    }
  }

  /** The list whose first bullet is at this line. */
  ghost function ListFrom(g: G.Grammar, lines: seq<Line>, kind: Kind, first: nat): AnswerList
    requires first < |lines| && G.ReadBullet(lines[first].text).Some?
    requires Measured(lines)
  {
    G.WalkProgress(g, Rows(lines), first);
    var visits := G.WalkList(g, Rows(lines), first).visits;
    AnswerList(lines[first].start, Gather(lines, visits, kind, |visits|).items)
  }

  lemma ListFromIs(g: G.Grammar, lines: seq<Line>, rows: seq<Row>, kind: Kind, first: nat)
    requires first < |lines| && G.ReadBullet(lines[first].text).Some? && rows == Rows(lines)
    requires Measured(lines)
    ensures forall k :: 0 <= k < |G.WalkList(g, rows, first).visits| ==>
              G.WalkList(g, rows, first).visits[k].line < |lines|
    ensures ListFrom(g, lines, kind, first) ==
            AnswerList(lines[first].start, Gather(lines, G.WalkList(g, rows, first).visits, kind,
                                                  |G.WalkList(g, rows, first).visits|).items)
  {
    hide G.WalkList, G.ReadBullet, Gather;
    G.WalkProgress(g, rows, first);
  }

  lemma ListFromSound(g: G.Grammar, body: string, kind: Kind, first: nat)
    requires InText(body, LinesOf(body))
    requires first < |LinesOf(body)| && G.ReadBullet(LinesOf(body)[first].text).Some?
    ensures ListSound(body, ListFrom(g, LinesOf(body), kind, first))
  {
    hide LinesFrom, G.ReadBullet, G.WalkList, Gather, SpansSound;
    var lines := LinesOf(body);
    var rows := Rows(lines);
    G.WalkProgress(g, rows, first);
    var visits := G.WalkList(g, rows, first).visits;
    GatherSound(body, lines, visits, kind, first, |visits|);
    var items := Gather(lines, visits, kind, |visits|).items;
    WidenSpans(items, lines[first].start, lines[first + |visits| - 1].end, |body|);
    SomeItem(lines, visits, kind, |visits|);
  }

  lemma WidenSpans(items: seq<AnswerItem>, from: nat, to: nat, end: nat)
    requires SpansSound(items, from, to) && to <= end
    ensures SpansSound(items, from, end)
  {
  }

  lemma {:induction false} SomeItem(lines: seq<Line>, visits: seq<G.Visit>, kind: Kind, n: nat)
    requires 0 < n <= |visits| && visits[0].role == G.Item && forall k :: 0 <= k < |visits| ==> visits[k].line < |lines|
    requires Measured(lines)
    ensures Gather(lines, visits, kind, n).items != []
  {
    hide ItemAt;
    if n > 1 { SomeItem(lines, visits, kind, n - 1); }
  }

  ghost function AnswerListOf(g: G.Grammar, body: string, kind: Kind): Option<AnswerList> {
    var lines := LinesOf(body);
    LinesInText(body);
    InTextMeasured(body, lines);
    var first := FirstBullet(Rows(lines), B.PairsFrom(Rows(lines), 0), 0);
    if first == |lines| then None else Some(ListFrom(g, lines, kind, first))
  }

  method GatherItems(lines: seq<Line>, visits: seq<G.Visit>, kind: Kind) returns (items: seq<AnswerItem>)
    requires forall k :: 0 <= k < |visits| ==> visits[k].line < |lines|
    requires Measured(lines)
    ensures items == Gather(lines, visits, kind, |visits|).items
  {
    hide ItemAt;
    items := [];
    var spanOpen := false;
    for k := 0 to |visits|
      invariant Gathered(items, spanOpen) == Gather(lines, visits, kind, k)
      invariant spanOpen ==> items != []
    {
      var ln := lines[visits[k].line];
      match visits[k].role
      case BlankLine => spanOpen := false;
      case Item =>
        items := items + [ItemAt(ln, kind)];
        spanOpen := true;
      case NestedBullet => spanOpen := false;
      case Continuation =>
        if spanOpen {
          var last := |items| - 1;
          items := items[last := items[last].(end := ln.end)];
        }
    }
  }
}
