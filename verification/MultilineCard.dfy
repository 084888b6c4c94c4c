/** What Anki reads in a composed multiline card: the markers the author wrote and one for
    every wrapped answer and a wrapped title, exactly when none of the author's reaches into
    a wrapped answer. */
module MultilineCard {
  import opened Basics
  import opened Lines
  import opened Cloze
  import opened Answers
  import opened Multiline
  import opened Insertions
  import S = Swift
  import C = Collapse
  import B = Blocks
  import G = Lists

  // ----------------------------------------------------- where answers end

  /** The place is the end of a line. */
  predicate AtLineEnd(body: string, end: nat) {
    end <= |body| && (end < |body| ==> body[end] == '\n')
  }

  predicate EndLines(body: string, items: seq<AnswerItem>) {
    forall k :: 0 <= k < |items| ==> AtLineEnd(body, items[k].end)
  }

  /** Every answer ends where a line ends. */
  lemma {:induction false} GatherEnds(body: string, lines: seq<Line>, visits: seq<G.Visit>, kind: Kind, n: nat)
    requires n <= |visits| && forall k :: 0 <= k < |visits| ==> visits[k].line < |lines|
    requires Measured(lines) && forall i :: 0 <= i < |lines| ==> AtLineEnd(body, lines[i].end)
    ensures EndLines(body, Gather(lines, visits, kind, n).items)
  {
    hide ItemAt, Gather;
    if n == 0 {
      NoneGathered(lines, visits, kind);
    } else {
      GatherEnds(body, lines, visits, kind, n - 1);
      GatherStep(lines, visits, kind, n);
      var ln := lines[visits[n - 1].line];
      assert ItemAt(ln, kind).end == ln.end;
    }
  }

  lemma NoneGathered(lines: seq<Line>, visits: seq<G.Visit>, kind: Kind)
    requires Measured(lines) && forall k :: 0 <= k < |visits| ==> visits[k].line < |lines|
    ensures Gather(lines, visits, kind, 0).items == []
  {
  }

  lemma LinesEnd(body: string)
    ensures forall i :: 0 <= i < |LinesOf(body)| ==>
              AtLineEnd(body, LinesOf(body)[i].end) && LineOf(body, LinesOf(body)[i])
  {
    hide LinesFrom, IndentOf, Blank;
    LinesTile(body, 0);
    forall i | 0 <= i < |LinesOf(body)|
      ensures AtLineEnd(body, LinesOf(body)[i].end) && LineOf(body, LinesOf(body)[i])
    {
      TileAt(body, LinesOf(body), 0, i);
    }
  }

  /** What composing relies on: where the container line goes, a line with text starts, and
      answers end lines. */
  ghost predicate Framed(body: string, list: AnswerList) {
    && ListSound(body, list) && EndLines(body, list.items)
    && list.containerAt < |body| && (list.containerAt > 0 ==> body[list.containerAt - 1] == '\n')
  }

  lemma ListFramed(g: G.Grammar, body: string, kind: Kind)
    requires AnswerListOf(g, body, kind).Some?
    ensures Framed(body, AnswerListOf(g, body, kind).value)
  {
    hide LinesFrom, G.ReadBullet, G.WalkList, Gather, B.PairsFrom, B.Inside, ListSound;
    var lines := LinesOf(body);
    LinesInText(body);
    InTextMeasured(body, lines);
    LinesEnd(body);
    var rows := Rows(lines);
    var first := FirstBullet(rows, B.PairsFrom(rows, 0), 0);
    FirstIsBullet(rows);
    ListFromSound(g, body, kind, first);
    ListFromIs(g, lines, rows, kind, first);
    var visits := G.WalkList(g, rows, first).visits;
    GatherEnds(body, lines, visits, kind, |visits|);
    BulletHasText(lines[first].text);
  }

  lemma BulletHasText(text: string)
    requires G.ReadBullet(text).Some?
    ensures text != ""
  {
  }

  // ------------------------------------------------------- the card as edits

  /** The answers from a place on, as edits of the text from there on. */
  function ItemEdits(s: string, items: seq<AnswerItem>, o: Options, base: int, k: nat, at: nat): Edits
    requires k <= |items|
    decreases |items| - k
  {
    if k == |items| then Tail(Cut(s, at, |s|))
    else if Wrapped(s, items[k], o) then
      Wrap(Cut(s, at, items[k].start), SpanText(s, items[k]), Wrap64(ItemNumber(s, items, o, base, k)),
           ItemEdits(s, items, o, base, k + 1, items[k].end))
    else ItemEdits(s, items, o, base, k + 1, at)
  }

  predicate TitleWrapped(title: string, o: Options) {
    WrapsTitle(o) && Wrappable(title)
  }

  /** The whole card: the title, the container line in front of the list, the answers. */
  function CardEdits(title: string, s: string, list: AnswerList, o: Options, base: int): Edits {
    var head, answers := "\n\n" + Cut(s, 0, list.containerAt), ItemEdits(s, list.items, o, base, 0, list.containerAt);
    if TitleWrapped(title, o) then
      Wrap("", title, Wrap64(TitleNumber(s, list.items, o, base)), Insert(head, CONTAINER, answers))
    else Insert(title + head, CONTAINER, answers)
  }

  lemma {:induction false} ItemsAre(s: string, items: seq<AnswerItem>, o: Options, base: int, k: nat, at: nat)
    requires k <= |items| && at <= |s| && SpansSound(items, 0, |s|) && (k < |items| ==> at <= items[k].start)
    ensures Source(ItemEdits(s, items, o, base, k, at)) == s[at..]
    ensures Made(ItemEdits(s, items, o, base, k, at)) == Replaced(s, items, o, base, k, at)
    decreases |items| - k
  {
    hide Wrapped, Marker, SpansSound, ItemNumber;
    if k < |items| {
      ItemBounds(items, 0, |s|, k);
      var a := items[k];
      if Wrapped(s, a, o) {
        ItemsAre(s, items, o, base, k + 1, a.end);
        assert s[at..a.start] + s[a.start..a.end] + s[a.end..] == s[at..];
      } else {
        ItemsAre(s, items, o, base, k + 1, at);
        PassOver(s, items, o, base, k, at);
      }
    }
  }

  lemma StretchStarts(s: string, at: nat)
    requires AtLineEnd(s, at)
    ensures StartsPlain(s[at..])
  {
  }

  /** What is composed behind an answer starts as the text does. */
  lemma {:induction false} ComposedStarts(s: string, items: seq<AnswerItem>, o: Options, base: int, k: nat, at: nat)
    requires k <= |items| && AtLineEnd(s, at) && SpansSound(items, 0, |s|) && (k < |items| ==> at < items[k].start)
    ensures StartsPlain(Made(ItemEdits(s, items, o, base, k, at)))
    decreases |items| - k
  {
    hide Wrapped, Marker, SpansSound, ItemNumber, Sticky, Made;
    if k == |items| {
      StretchStarts(s, at);
      assert Cut(s, at, |s|) == s[at..];
      MadeTail(s[at..]);
    } else {
      ItemBounds(items, 0, |s|, k);
      if Wrapped(s, items[k], o) {
        var rest := ItemEdits(s, items, o, base, k + 1, items[k].end);
        MadeWrap(Cut(s, at, items[k].start), SpanText(s, items[k]), Wrap64(ItemNumber(s, items, o, base, k)), rest);
        NewlineNotSticky();
      } else {
        ComposedStarts(s, items, o, base, k + 1, at);
      }
    }
  }

  lemma MadeTail(text: string)
    ensures Made(Tail(text)) == text
  {
  }

  lemma MadeWrap(kept: string, side: string, number: int, rest: Edits)
    requires kept != ""
    ensures Made(Wrap(kept, side, number, rest)) != "" && Made(Wrap(kept, side, number, rest))[0] == kept[0]
  {
    hide Marker;
  }

  lemma NewlineNotSticky()
    ensures !Sticky('\n')
  {
  }

  lemma WrapSound(kept: string, side: string, number: int, rest: Edits)
    requires Wrappable(side) && StartsPlain(Source(rest)) && StartsPlain(Made(rest)) && Sound(rest)
    ensures Sound(Wrap(kept, side, number, rest))
  {
    hide Source, Made, StartsPlain;
  }

  lemma {:induction false} ItemsSound(s: string, items: seq<AnswerItem>, o: Options, base: int, k: nat, at: nat)
    requires k <= |items| && at <= |s| && SpansSound(items, 0, |s|) && EndLines(s, items)
    requires k < |items| ==> at <= items[k].start
    ensures Sound(ItemEdits(s, items, o, base, k, at))
    decreases |items| - k
  {
    hide SpansSound, ItemNumber, Made, Source, StartsPlain, Sound, Wrappable, SpanText, Cut, AtLineEnd, Replaced;
    if k == |items| {
      TailSound(Cut(s, at, |s|));
    } else {
      ItemBounds(items, 0, |s|, k);
      var a := items[k];
      if Wrapped(s, a, o) {
        ItemsSound(s, items, o, base, k + 1, a.end);
        ItemsAre(s, items, o, base, k + 1, a.end);
        StretchStarts(s, a.end);
        ComposedStarts(s, items, o, base, k + 1, a.end);
        WrapSound(Cut(s, at, a.start), SpanText(s, a), Wrap64(ItemNumber(s, items, o, base, k)),
                  ItemEdits(s, items, o, base, k + 1, a.end));
      } else {
        ItemsSound(s, items, o, base, k + 1, at);
      }
    }
  }

  lemma TailSound(text: string)
    ensures Sound(Tail(text))
  {
  }

  /** An answer is free when it is not wrapped, or no marker of the author's reaches into it
      and its number has not wrapped around. */
  predicate ItemFree(title: string, s: string, items: seq<AnswerItem>, o: Options, base: int, spans: seq<Span>, k: nat)
    requires k < |items|
  {
    Wrapped(s, items[k], o) ==>
      !InsideAnySpan(spans, |title| + 2 + items[k].start) && Wrap64(ItemNumber(s, items, o, base, k)) >= 0
  }

  lemma {:induction false} ItemsFree(title: string, s: string, items: seq<AnswerItem>, o: Options, base: int,
                                     spans: seq<Span>, k: nat, at: nat)
    requires k <= |items| && at <= |s| && SpansSound(items, 0, |s|) && (k < |items| ==> at <= items[k].start)
    ensures Free(ItemEdits(s, items, o, base, k, at), |title| + 2 + at, spans) <==>
            forall j :: k <= j < |items| ==> ItemFree(title, s, items, o, base, spans, j)
    decreases |items| - k
  {
    hide Wrapped, SpansSound, ItemNumber, InsideAnySpan, Wrap64;
    if k < |items| {
      ItemBounds(items, 0, |s|, k);
      var a, p, from := items[k], ItemEdits(s, items, o, base, k, at), |title| + 2 + at;
      ItemsFree(title, s, items, o, base, spans, k + 1, if Wrapped(s, a, o) then a.end else at);
      if Wrapped(s, a, o) {
        assert from + |p.kept| == |title| + 2 + a.start && from + |p.kept| + |p.side| == |title| + 2 + a.end;
        assert Free(p, from, spans) <==>
          ItemFree(title, s, items, o, base, spans, k) && Free(p.rest, |title| + 2 + a.end, spans);
      } else {
        assert ItemFree(title, s, items, o, base, spans, k);
      }
    }
  }

  // ---------------------------------------------------------- the card reads back

  /** What a caller can check beforehand. */
  predicate CardFree(title: string, s: string, list: AnswerList, o: Options, base: int) {
    && (TitleWrapped(title, o) ==> Wrap64(TitleNumber(s, list.items, o, base)) >= 0)
    && forall k :: 0 <= k < |list.items| ==> ItemFree(title, s, list.items, o, base, Spans(S.Combine(title, s)), k)
  }

  lemma ContainerPlain()
    ensures S.NoBraces(CONTAINER) && StartsPlain(CONTAINER) && EndsPlain(CONTAINER)
  {
    assert forall c :: c in CONTAINER ==>
      c in {'#', '+', 'A', 'T', 'R', '_', 'H', 'M', 'L', ':', ' ', 'c', 'l', 'a', 's', 'h', 'i', 'd', 'r', 'e', 'n',
            '-', 't', '\n'};
  }

  lemma PutSound(kept: string, text: string, rest: Edits)
    requires kept != "" && kept[|kept| - 1] == '\n' && S.NoBraces(text) && StartsPlain(text) && EndsPlain(text)
    requires Source(rest) != "" && Sound(rest)
    ensures Sound(Insert(kept, text, rest))
  {
    hide Source, Sticky;
    NewlineNotSticky();
  }

  /** The body: what precedes the list, the container line, the answers. */
  lemma BodyIs(s: string, list: AnswerList, o: Options, base: int)
    requires Framed(s, list)
    ensures var answers := ItemEdits(s, list.items, o, base, 0, list.containerAt);
      && Sound(answers) && Source(answers) == s[list.containerAt..] != ""
      && ComposedBody(s, list, o, base) == s[..list.containerAt] + CONTAINER + Made(answers)
  {
    hide ItemEdits, Replaced, SpansSound, Sound;
    FirstBehind(s, list);
    ItemsSound(s, list.items, o, base, 0, list.containerAt);
    ItemsAre(s, list.items, o, base, 0, list.containerAt);
  }

  /** The body behind a head that ends with the blank line. */
  lemma PutTexts(head: string, s: string, at: nat, answers: Edits, body: string)
    requires at < |s| && Source(answers) == s[at..] && body == s[..at] + CONTAINER + Made(answers)
    ensures Source(Insert(head + s[..at], CONTAINER, answers)) == head + s
    ensures Made(Insert(head + s[..at], CONTAINER, answers)) == head + body
  {
    hide Source, Made;
    assert head + s[..at] + s[at..] == head + s;
    assert head + s[..at] + CONTAINER + Made(answers) == head + body;
    SourceInsert(head + s[..at], CONTAINER, answers);
  }

  lemma SourceInsert(kept: string, text: string, rest: Edits)
    ensures Source(Insert(kept, text, rest)) == kept + Source(rest)
    ensures Made(Insert(kept, text, rest)) == kept + text + Made(rest)
  {
  }

  lemma CardSound(title: string, s: string, list: AnswerList, o: Options, base: int)
    requires Framed(s, list)
    ensures Sound(CardEdits(title, s, list, o, base))
    ensures Source(CardEdits(title, s, list, o, base)) == S.Combine(title, s)
    ensures Made(CardEdits(title, s, list, o, base)) ==
            S.Combine(ComposedTitle(title, s, list.items, o, base), ComposedBody(s, list, o, base))
  {
    hide ItemEdits, Sound, ComposedBody, EndLines, ListSound, Wrappable, TitleNumber, Marker;
    var at := list.containerAt;
    var head, answers, body :=
      "\n\n" + s[..at], ItemEdits(s, list.items, o, base, 0, at), ComposedBody(s, list, o, base);
    BodyIs(s, list, o, base);
    ContainerPlain();
    assert head[|head| - 1] == '\n';
    if TitleWrapped(title, o) {
      var put := Insert(head, CONTAINER, answers);
      PutTexts("\n\n", s, at, answers, body);
      PutSound(head, CONTAINER, answers);
      StartsNewline("\n\n" + s);
      StartsNewline("\n\n" + body);
      WrapSound("", title, Wrap64(TitleNumber(s, list.items, o, base)), put);
      WrapTexts(title, Wrap64(TitleNumber(s, list.items, o, base)), put, s, body);
    } else {
      assert title + head == title + "\n\n" + s[..at];
      PutTexts(title + "\n\n", s, at, answers, body);
      assert (title + head)[|title + head| - 1] == '\n';
      PutSound(title + head, CONTAINER, answers);
    }
  }

  lemma WrapTexts(title: string, number: int, put: Edits, s: string, body: string)
    requires Source(put) == "\n\n" + s && Made(put) == "\n\n" + body
    ensures Source(Wrap("", title, number, put)) == title + "\n\n" + s
    ensures Made(Wrap("", title, number, put)) == Marker(number, title) + "\n\n" + body
  {
    hide Marker;
    assert "" + title + ("\n\n" + s) == title + "\n\n" + s;
    assert "" + Marker(number, title) + ("\n\n" + body) == Marker(number, title) + "\n\n" + body;
  }

  lemma StartsNewline(s: string)
    requires s != "" && s[0] == '\n'
    ensures StartsPlain(s)
  {
  }

  lemma FirstBehind(s: string, list: AnswerList)
    requires Framed(s, list)
    ensures SpansSound(list.items, 0, |s|) && (0 < |list.items| ==> list.containerAt <= list.items[0].start)
  {
  }

  /** A wrapped title starts no marker of the author's. */
  lemma TitleUncovered(title: string, s: string)
    requires title != "" && !HasMarker(title)
    ensures !InsideAnySpan(Spans(S.Combine(title, s)), 0)
  {
    hide Spans, OpeningLength, HasMarker;
    var whole := S.Combine(title, s);
    SpansOrdered(whole);
    assert whole == title + (if s == "" then "" else "\n\n" + s);
    NewlineNotSticky();
    UnmarkedStart(title, if s == "" then "" else "\n\n" + s);
    assert whole[0..] == whole;
  }

  /** The card is free exactly when its edits are. */
  lemma CardFreeEither(title: string, s: string, list: AnswerList, o: Options, base: int)
    requires Framed(s, list)
    ensures Free(CardEdits(title, s, list, o, base), 0, Spans(S.Combine(title, s))) <==>
              CardFree(title, s, list, o, base)
  {
    hide SpansSound, ItemNumber, ItemEdits, HasMarker, Spans, InsideAnySpan, Wrap64, ItemFree, S.Combine;
    var spans := Spans(S.Combine(title, s));
    FirstBehind(s, list);
    ItemsFree(title, s, list.items, o, base, spans, 0, list.containerAt);
    if TitleWrapped(title, o) { TitleUncovered(title, s); }
  }

  /** The read-back law of the multiline card, for every entry that composes: title and body as
      rendered read back as the author's markers and one for each wrapped answer and a wrapped
      title, exactly when no marker of the author's reaches into a wrapped answer and no number
      overflows. */
  lemma MultilineReadBack(g: G.Grammar, kindOf: string -> Kind, title: string, body: string, o: Options)
    requires Composed(g, kindOf, title, body, o).Some?
    ensures var s := C.CollapsedText(body);
            var list, base := AnswerListOf(g, s, kindOf(s)), HighestOf([title, s]);
      && list.Some?
      && var p := CardEdits(title, s, list.value, o, base);
      && Source(p) == S.Combine(title, s)
      && Made(p) == S.Combine(Composed(g, kindOf, title, body, o).value.0, Composed(g, kindOf, title, body, o).value.1)
      && (ReadsBack(p) <==> CardFree(title, s, list.value, o, base))
  {
    hide C.CollapsedText, HighestOf, AnswerListOf, ComposedBody, ComposedTitle, CardEdits, ReadsBack, Framed, Free,
      Sound, CardFree, Source, Made;
    var s := C.CollapsedText(body);
    var list, base := AnswerListOf(g, s, kindOf(s)).value, HighestOf([title, s]);
    ListFramed(g, s, kindOf(s));
    CardSound(title, s, list, o, base);
    CardFreeEither(title, s, list, o, base);
    FramedText(s, list);
    ReadsBackIff(CardEdits(title, s, list, o, base));
  }

  lemma FramedText(s: string, list: AnswerList)
    requires Framed(s, list)
    ensures s != "" && forall title :: S.Combine(title, s) != ""
  {
  }
}
