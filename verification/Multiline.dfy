/** The multiline card: collapse the body, put the container line before the answer list and
    wrap the answers in numbered markers. */
module Multiline {
  import opened Basics
  import opened Lines
  import opened Cloze
  import opened Answers
  import C = Collapse
  import G = Lists

  datatype Direction = NoDirection | Rightward | Leftward | Both

  datatype Options = Options(direction: Direction, incremental: bool)

  predicate WrapsAnswers(o: Options) {
    o.direction != Leftward
  }

  predicate WrapsTitle(o: Options) {
    o.direction == Leftward || o.direction == Both
  }

  predicate Incremental(o: Options) {
    o.incremental && o.direction != Leftward
  }

  const CONTAINER := "#+ATTR_HTML: :class children-list\n"

  function SpanText(s: string, a: AnswerItem): string {
    Cut(s, a.start, a.end)
  }

  predicate Wrapped(s: string, a: AnswerItem, o: Options) {
    WrapsAnswers(o) && Wrappable(SpanText(s, a))
  }

  /** How many of the first n items are wrapped. */
  function WrappedBefore(s: string, items: seq<AnswerItem>, o: Options, n: nat): (count: nat)
    requires n <= |items|
    ensures count <= n
  {
    if n == 0 then 0 else WrappedBefore(s, items, o, n - 1) + if Wrapped(s, items[n - 1], o) then 1 else 0
  }

  /** The number an item carries if it is wrapped. */
  function ItemNumber(s: string, items: seq<AnswerItem>, o: Options, base: int, n: nat): int
    requires n <= |items|
  {
    base + 1 + if Incremental(o) then WrappedBefore(s, items, o, n) else 0
  }

  function Piece(s: string, items: seq<AnswerItem>, o: Options, base: int, k: nat): string
    requires k < |items|
  {
    var span := SpanText(s, items[k]);
    if Wrapped(s, items[k], o) then Marker(Wrap64(ItemNumber(s, items, o, base, k)), span) else span
  }

  /** The text from a place on, with every item's span replaced by its piece. */
  function Replaced(s: string, items: seq<AnswerItem>, o: Options, base: int, k: nat, at: nat): string
    requires k <= |items|
    decreases |items| - k
  {
    if k == |items| then Cut(s, at, |s|)
    else Cut(s, at, items[k].start) + Piece(s, items, o, base, k) + Replaced(s, items, o, base, k + 1, items[k].end)
  }

  /** With nothing replaced the stretches and spans make up the text again. */
  lemma {:induction false} UnreplacedIsText(s: string, items: seq<AnswerItem>, o: Options, base: int, k: nat, at: nat)
    requires k <= |items| && at <= |s| && SpansSound(items, 0, |s|) && (k < |items| ==> at <= items[k].start)
    requires forall i :: k <= i < |items| ==> !Wrapped(s, items[i], o)
    ensures Replaced(s, items, o, base, k, at) == s[at..]
    decreases |items| - k
  {
    hide Wrapped, Marker, SpansSound;
    if k < |items| {
      ItemBounds(items, 0, |s|, k);
      var a := items[k];
      UnreplacedIsText(s, items, o, base, k + 1, a.end);
      assert Piece(s, items, o, base, k) == s[a.start..a.end];
      assert s[at..a.start] + s[a.start..a.end] + s[a.end..] == s[at..];
    }
  }

  function TitleNumber(s: string, items: seq<AnswerItem>, o: Options, base: int): int {
    if Incremental(o) then ItemNumber(s, items, o, base, |items|) else base + 2
  }

  function ComposedTitle(title: string, s: string, items: seq<AnswerItem>, o: Options, base: int): string {
    if WrapsTitle(o) && Wrappable(title) then Marker(Wrap64(TitleNumber(s, items, o, base)), title) else title
  }

  function ComposedBody(s: string, list: AnswerList, o: Options, base: int): string {
    Cut(s, 0, list.containerAt) + CONTAINER + Replaced(s, list.items, o, base, 0, list.containerAt)
  }

  /** The composed title and body, or None for the missing-answer diagnostic. */
  ghost function Composed(g: G.Grammar, kindOf: string -> Kind, title: string, body: string,
                          o: Options): Option<(string, string)> {
    var s := C.CollapsedText(body);
    var list := AnswerListOf(g, s, kindOf(s));
    if list.None? then None
    else
      var base := HighestOf([title, s]);
      Some((ComposedTitle(title, s, list.value.items, o, base), ComposedBody(s, list.value, o, base)))
  }

  method ComposeMultiline(g: G.Grammar, kindOf: string -> Kind, title: string, body: string, o: Options)
    returns (r: Option<(string, string)>)
    ensures r == Composed(g, kindOf, title, body, o)
  {
    hide C.CollapsedText, HighestOf, AnswerListOf, ComposedBody, ComposedTitle, ListSound, ItemNumber;
    var collapsed := C.CollapseBlankRuns(body);
    var kind := kindOf(collapsed);
    var list := ScanAnswerList(g, collapsed, kind);
    if list.None? { return None; }
    ListBounds(collapsed, list.value);
    var base := HighestClozeNumber([title, collapsed]);
    var composedBody, number := WriteAnswers(collapsed, list.value, o, base);
    var incremental := o.incremental && o.direction != Leftward;
    var titleNumber := if incremental then number else base + 2;
    var composedTitle := WriteTitle(title, titleNumber, o);
    assert composedTitle == ComposedTitle(title, collapsed, list.value.items, o, base) by {
      TitleIs(title, collapsed, list.value.items, o, base);
    }
    r := Some((composedTitle, composedBody));
  }

  method WriteTitle(title: string, number: int, o: Options) returns (r: string)
    ensures r == if WrapsTitle(o) && Wrappable(title) then Marker(Wrap64(number), title) else title
  {
    if !WrapsTitle(o) || !Wrappable(title) { return title; }
    MarkerIs(Wrap64(number), title);
    r := "{{c" + Decimal(Wrap64(number)) + "::" + SafeText(title) + "}}";
  }

  lemma TitleIs(title: string, s: string, items: seq<AnswerItem>, o: Options, base: int)
    ensures ComposedTitle(title, s, items, o, base) ==
            if WrapsTitle(o) && Wrappable(title)
            then Marker(Wrap64(if Incremental(o) then ItemNumber(s, items, o, base, |items|) else base + 2), title)
            else title
  {
  }

  lemma MarkerIs(number: int, text: string)
    ensures Marker(number, text) == "{{c" + Decimal(number) + "::" + SafeText(text) + "}}"
  {
  }

  lemma ListBounds(body: string, list: AnswerList)
    requires ListSound(body, list)
    ensures list.containerAt <= |body| && SpansSound(list.items, list.containerAt, |body|)
  {
  }

  /** The composing loop. An item that is not wrapped is left for the next stretch to copy. */
  method WriteAnswers(s: string, list: AnswerList, o: Options, base: nat) returns (b: string, number: int)
    requires list.containerAt <= |s| && SpansSound(list.items, list.containerAt, |s|)
    ensures b == ComposedBody(s, list, o, base)
    ensures Incremental(o) ==> number == ItemNumber(s, list.items, o, base, |list.items|)
  {
    hide Wrappable, Marker, Wrap64, SafeText, Decimal, Replaced, ItemNumber, SpansSound;
    var items := list.items;
    b := s[..list.containerAt] + CONTAINER;
    ghost var head := b;
    var at := list.containerAt;
    number := base + 1;
    Start(s, items, o, base, list.containerAt);
    for k := 0 to |items|
      invariant list.containerAt <= at <= |s| && (k < |items| ==> at <= items[k].start)
      invariant number == ItemNumber(s, items, o, base, k)
      invariant head + Replaced(s, items, o, base, 0, list.containerAt) == b + Replaced(s, items, o, base, k, at)
    {
      ItemBounds(items, list.containerAt, |s|, k);
      var span := s[items[k].start..items[k].end];
      OneItem(s, items, o, base, k, at);
      if WrapsAnswers(o) && Wrappable(span) {
        b := b + (s[at..items[k].start] + ("{{c" + Decimal(Wrap64(number)) + "::" + SafeText(span) + "}}"));
        at := items[k].end;
        if Incremental(o) { number := number + 1; }
      }
    }
    b := b + s[at..];
    Rest(s, items, o, base, at);
  }

  lemma Start(s: string, items: seq<AnswerItem>, o: Options, base: int, at: nat)
    requires SpansSound(items, at, |s|)
    ensures ItemNumber(s, items, o, base, 0) == base + 1
    ensures 0 < |items| ==> at <= items[0].start
  {
  }

  lemma ItemBounds(items: seq<AnswerItem>, from: nat, to: nat, k: nat)
    requires SpansSound(items, from, to) && k < |items|
    ensures from <= items[k].start <= items[k].end <= to
    ensures k + 1 < |items| ==> items[k].end < items[k + 1].start
    ensures SpansSound(items, 0, to)
  {
  }

  lemma Rest(s: string, items: seq<AnswerItem>, o: Options, base: int, at: nat)
    requires at <= |s|
    ensures Replaced(s, items, o, base, |items|, at) == s[at..]
  {
  }

  /** What one item adds to the composed text. */
  lemma OneItem(s: string, items: seq<AnswerItem>, o: Options, base: int, k: nat, at: nat)
    requires k < |items| && SpansSound(items, 0, |s|) && at <= items[k].start
    ensures items[k].start <= items[k].end <= |s|
    ensures var span := s[items[k].start..items[k].end]; var number := ItemNumber(s, items, o, base, k);
      if WrapsAnswers(o) && Wrappable(span) then
        && Replaced(s, items, o, base, k, at) ==
             s[at..items[k].start] + ("{{c" + Decimal(Wrap64(number)) + "::" + SafeText(span) + "}}")
               + Replaced(s, items, o, base, k + 1, items[k].end)
        && ItemNumber(s, items, o, base, k + 1) == (if Incremental(o) then number + 1 else number)
      else
        && Replaced(s, items, o, base, k, at) == Replaced(s, items, o, base, k + 1, at)
        && ItemNumber(s, items, o, base, k + 1) == number
  {
    hide Wrappable, Marker, Wrap64, SafeText, Decimal;
    var span := s[items[k].start..items[k].end];
    assert span == SpanText(s, items[k]);
    MarkerIs(Wrap64(ItemNumber(s, items, o, base, k)), span);
    if !Wrapped(s, items[k], o) { PassOver(s, items, o, base, k, at); }
  }

  /** What is composed from the next item's start on does not depend on where copying began. */
  function FromItem(s: string, items: seq<AnswerItem>, o: Options, base: int, k: nat): string
    requires k <= |items|
  {
    if k == |items| then "" else Piece(s, items, o, base, k) + Replaced(s, items, o, base, k + 1, items[k].end)
  }

  lemma ReplacedFrom(s: string, items: seq<AnswerItem>, o: Options, base: int, k: nat, at: nat)
    requires k <= |items|
    ensures Replaced(s, items, o, base, k, at) ==
            Cut(s, at, if k < |items| then items[k].start else |s|) + FromItem(s, items, o, base, k)
  {
    hide Piece, Cut;
    if k == |items| { assert Cut(s, at, |s|) + "" == Cut(s, at, |s|); }
  }

  /** Copying an unwrapped span together with what follows it. */
  lemma PassOver(s: string, items: seq<AnswerItem>, o: Options, base: int, k: nat, at: nat)
    requires k < |items| && SpansSound(items, 0, |s|) && at <= items[k].start && !Wrapped(s, items[k], o)
    ensures Replaced(s, items, o, base, k, at) == Replaced(s, items, o, base, k + 1, at)
  {
    hide Replaced, FromItem, Wrapped, SpansSound;
    ItemBounds(items, 0, |s|, k);
    var a := items[k];
    var next := if k + 1 < |items| then items[k + 1].start else |s|;
    if k + 1 < |items| { ItemBounds(items, 0, |s|, k + 1); }
    ReplacedFrom(s, items, o, base, k, at);
    ReplacedFrom(s, items, o, base, k + 1, a.end);
    ReplacedFrom(s, items, o, base, k + 1, at);
    assert FromItem(s, items, o, base, k) == s[a.start..a.end] + Replaced(s, items, o, base, k + 1, a.end) by {
      PassedPiece(s, items, o, base, k);
    }
    Rejoined(s, at, a.start, a.end, next, FromItem(s, items, o, base, k + 1));
  }

  lemma Rejoined(s: string, i: nat, j: nat, k: nat, l: nat, rest: string)
    requires i <= j <= k <= l <= |s|
    ensures s[i..j] + (s[j..k] + (s[k..l] + rest)) == s[i..l] + rest
  {
  }

  lemma PassedPiece(s: string, items: seq<AnswerItem>, o: Options, base: int, k: nat)
    requires k < |items| && !Wrapped(s, items[k], o) && items[k].start <= items[k].end <= |s|
    ensures FromItem(s, items, o, base, k) ==
              s[items[k].start..items[k].end] + Replaced(s, items, o, base, k + 1, items[k].end)
  {
    hide Replaced;
  }

  // --------------------------------------------------------------------- laws

  /** Leftward cards leave the body as collapsed, plus the container line. */
  lemma LeftwardBodyUntouched(s: string, list: AnswerList, base: int, incremental: bool)
    requires ListSound(s, list)
    ensures ComposedBody(s, list, Options(Leftward, incremental), base) ==
              s[..list.containerAt] + "#+ATTR_HTML: :class children-list\n" + s[list.containerAt..]
  {
    UnreplacedIsText(s, list.items, Options(Leftward, incremental), base, 0, list.containerAt);
  }

  lemma {:induction false} WrappedGrows(s: string, items: seq<AnswerItem>, o: Options, i: nat, j: nat)
    requires i <= j <= |items|
    ensures WrappedBefore(s, items, o, i) <= WrappedBefore(s, items, o, j)
    ensures i < j && Wrapped(s, items[i], o) ==> WrappedBefore(s, items, o, i) < WrappedBefore(s, items, o, j)
  {
    hide Wrapped;
    if i < j { WrappedGrows(s, items, o, i, j - 1); }
  }

  /** Unless it runs past the largest int, the number of a wrapped answer is above every
      number the author wrote. */
  lemma ItemNumberFresh(title: string, s: string, items: seq<AnswerItem>, o: Options, i: nat)
    requires i < |items| && Wrapped(s, items[i], o) && HighestOf([title, s]) + |items| + 2 <= MAX_INT
    ensures var base := HighestOf([title, s]);
            var number, titleNumber := ItemNumber(s, items, o, base, i), TitleNumber(s, items, o, base);
      && Wrap64(number) == number && number > Highest(title) && number > Highest(s)
      && number < titleNumber
  {
    hide Highest, Wrapped;
    TwoHighest(title, s);
    WrappedGrows(s, items, o, i, |items|);
  }

  /** So is the title's, whatever is wrapped. */
  lemma TitleNumberFresh(title: string, s: string, items: seq<AnswerItem>, o: Options)
    requires HighestOf([title, s]) + |items| + 2 <= MAX_INT
    ensures var number := TitleNumber(s, items, o, HighestOf([title, s]));
      Wrap64(number) == number && number > Highest(title) && number > Highest(s)
  {
    hide Highest, Wrapped;
    TwoHighest(title, s);
  }

  /** The numbers of two wrapped answers rise on an incremental card and are the same on another. */
  lemma ItemNumbersRise(s: string, items: seq<AnswerItem>, o: Options, base: int, i: nat, j: nat)
    requires i < j < |items| && Wrapped(s, items[i], o) && Wrapped(s, items[j], o)
    ensures var ni, nj := ItemNumber(s, items, o, base, i), ItemNumber(s, items, o, base, j);
      if Incremental(o) then ni < nj else ni == nj
  {
    hide Wrapped;
    WrappedGrows(s, items, o, i, j);
  }

  /** Up to the first wrapped answer the next number is the one above the author's. */
  lemma {:induction false} FirstNumber(s: string, items: seq<AnswerItem>, o: Options, base: int, n: nat)
    requires n <= |items| && forall i :: 0 <= i < n ==> !Wrapped(s, items[i], o)
    ensures ItemNumber(s, items, o, base, n) == base + 1
  {
    hide Wrapped;
    if n > 0 { FirstNumber(s, items, o, base, n - 1); }
  }

  /** On an incremental card the next wrapped answer, or the title behind the last one, takes
      the next number; on another all answers share the first and the title takes the second. */
  lemma {:induction false} NextNumber(s: string, items: seq<AnswerItem>, o: Options, base: int, j: nat, n: nat)
    requires j < n <= |items| && Wrapped(s, items[j], o) && forall i :: j < i < n ==> !Wrapped(s, items[i], o)
    ensures o.incremental && o.direction != Leftward ==>
              && ItemNumber(s, items, o, base, n) == ItemNumber(s, items, o, base, j) + 1
              && TitleNumber(s, items, o, base) == ItemNumber(s, items, o, base, |items|)
    ensures !o.incremental || o.direction == Leftward ==>
              && ItemNumber(s, items, o, base, j) == base + 1
              && TitleNumber(s, items, o, base) == base + 2
    decreases n
  {
    hide Wrapped;
    if n > j + 1 { NextNumber(s, items, o, base, j, n - 1); }
  }

  /** The direction says what is asked: answers unless the arrow points at the title alone, the
      title if an arrow points at it. What is asked is wrapped unless it is empty or marked. */
  lemma Asked(title: string, s: string, items: seq<AnswerItem>, o: Options, base: int, a: AnswerItem)
    ensures Wrapped(s, a, o) <==> o.direction != Leftward && SpanText(s, a) != "" && !HasMarker(SpanText(s, a))
    ensures ComposedTitle(title, s, items, o, base) ==
            if (o.direction == Leftward || o.direction == Both) && title != "" && !HasMarker(title) then
              Marker(Wrap64(TitleNumber(s, items, o, base)), title)
            else title
  {
    hide HasMarker, Marker, TitleNumber;
  }

  lemma TwoHighest(a: string, b: string)
    ensures HighestOf([a, b]) == Max(Highest(a), Highest(b))
  {
    assert [a, b][..1] == [a];
    assert [a][..0] == [];
    assert HighestOf([a]) == Max(HighestOf([]), Highest(a));
  }

  /** Each wrapped answer closes at its own generated braces, and keeps its text but for
      added spaces. */
  lemma PieceIsOneMarker(s: string, items: seq<AnswerItem>, o: Options, base: int, k: nat)
    requires k < |items| && Wrapped(s, items[k], o) && 0 <= base && base + |items| + 2 <= MAX_INT
    ensures var span := SpanText(s, items[k]); var piece := Piece(s, items, o, base, k);
              var open := OpeningLength(piece);
      && open > 0 && OpeningNumber(piece) == ItemNumber(s, items, o, base, k)
      && FindClose(piece[open..]) == At(|piece| - open - 2)
      && WithoutSpaces(piece[open..|piece| - 2]) == WithoutSpaces(span)
  {
    hide Wrapped, SafeText, FindClose, Decimal, OpeningLength, OpeningNumber;
    var number := ItemNumber(s, items, o, base, k);
    var span := SpanText(s, items[k]);
    assert Wrap64(number) == number;
    MarkerOpening(number, span, "");
    SafeTextFacts(span);
    var head := "{{c" + Decimal(number) + "::";
    var piece := Piece(s, items, o, base, k);
    assert piece == head + (SafeText(span) + "}}");
    assert piece + "" == piece;
    assert piece[|head|..] == SafeText(span) + "}}";
    assert piece[|head|..|piece| - 2] == SafeText(span);
  }
}
