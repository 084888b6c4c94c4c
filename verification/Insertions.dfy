/** A text in which some stretches are wrapped in numbered markers and plain lines are put
    in: what Anki reads in it, and when that is the author's markers and the generated ones. */
module Insertions {
  import opened Basics
  import opened Cloze
  import opened Swift
  import opened ReadBack

  /** Source text kept, then a side to wrap or a text to put in, and so on to the tail. */
  datatype Edits =
    | Tail(text: string)
    | Wrap(kept: string, side: string, number: int, rest: Edits)
    | Insert(kept: string, text: string, rest: Edits)

  function Source(p: Edits): string {
    match p
    case Tail(text) => text
    case Wrap(kept, side, number, rest) => kept + side + Source(rest)
    case Insert(kept, text, rest) => kept + Source(rest)
  }

  function Made(p: Edits): string {
    match p
    case Tail(text) => text
    case Wrap(kept, side, number, rest) => kept + Marker(number, side) + Made(rest)
    case Insert(kept, text, rest) => kept + text + Made(rest)
  }

  /** The first character of a text cannot be part of a marker token. */
  predicate StartsPlain(s: string) {
    s != "" ==> !Sticky(s[0])
  }

  predicate EndsPlain(s: string) {
    s != "" ==> !Sticky(s[|s| - 1])
  }

  /** Sides have text, no marker, and end where no marker token can go on; texts put in are
      plain and stand at plain seams, before the end. Where a side starts nothing is asked. */
  ghost predicate Sound(p: Edits) {
    match p
    case Tail(_) => true
    case Wrap(kept, side, number, rest) =>
      side != "" && !HasMarker(side) && StartsPlain(Source(rest)) && StartsPlain(Made(rest)) && Sound(rest)
    case Insert(kept, text, rest) =>
      EndsPlain(kept) && NoBraces(text) && StartsPlain(text) && EndsPlain(text) && Source(rest) != "" && Sound(rest)
  }

  /** The place of the source's character x, if the source starts at `at` and the result at
      `out`. Inside a wrapped side it is the end of the marker. */
  function Place(p: Edits, at: int, out: int, x: int): int {
    match p
    case Tail(_) => out + (x - at)
    case Wrap(kept, side, number, rest) =>
      var sideAt, end := at + |kept|, out + |kept| + |Marker(number, side)|;
      if x < sideAt then out + (x - at) else if x < sideAt + |side| then end - 1
      else Place(rest, sideAt + |side|, end, x)
    case Insert(kept, text, rest) =>
      if x < at + |kept| then out + (x - at) else Place(rest, at + |kept|, out + |kept| + |text|, x)
  }

  /** The extents of the generated markers. */
  function Generated(p: Edits, out: int): seq<Span> {
    match p
    case Tail(_) => []
    case Wrap(kept, side, number, rest) =>
      var start := out + |kept|;
      [Span(start, start + |Marker(number, side)|)] + Generated(rest, start + |Marker(number, side)|)
    case Insert(kept, text, rest) => Generated(rest, out + |kept| + |text|)
  }

  /** No marker the author wrote reaches into a side, and no number is negative. */
  predicate FreeIn(p: Edits, at: int, r: Scanned) {
    match p
    case Tail(_) => true
    case Wrap(kept, side, number, rest) => Uncovered(r, at + |kept|) && number >= 0
      && FreeIn(rest, at + |kept| + |side|, r)
    case Insert(kept, text, rest) => FreeIn(rest, at + |kept|, r)
  }

  lemma {:induction false} FreeSuffix(p: Edits, at: int, a: Scanned, b: Scanned)
    requires FreeIn(p, at, Then(a, b))
    ensures FreeIn(p, at, b)
  {
    hide Uncovered, Then;
    match p
    case Tail(_) =>
    case Wrap(kept, side, number, rest) =>
      SuffixUncovered(a, b, at + |kept|);
      FreeSuffix(rest, at + |kept| + |side|, a, b);
    case Insert(kept, text, rest) =>
      FreeSuffix(rest, at + |kept|, a, b);
  }

  // ------------------------------------------------ a cut before a generated opening

  predicate OpensHere(b: string) {
    |b| >= 3 && b[0] == '{' && b[1] == '{' && b[2] == 'c'
  }

  /** No opening runs into a generated one. */
  lemma OpeningAhead(a: string, b: string)
    requires a != "" && OpensHere(b)
    ensures OpeningLength(a + b) == OpeningLength(a)
  {
    if OpeningLength(a + b) > |a| {
      assert (a + b)[|a|] == '{' && (a + b)[|a| + 1] == '{';
      if |a| >= 3 { OpeningTail(a + b, |a|); }
    }
    OpeningWithin(a, b);
  }

  /** Behind its head an opening holds no brace. */
  lemma OpeningTail(s: string, i: nat)
    requires 3 <= i < OpeningLength(s)
    ensures s[i] != '{'
  {
    DigitRunConcat(s[3..], []);
    assert s[3..] + [] == s[3..];
    assert s[i] == s[3..][i - 3];
  }

  /** Whatever stands before a generated opening, the reader comes to it as it leaves that. */
  lemma {:induction false} ScanAhead(m: Mode, a: string, b: string, off: int)
    requires OpensHere(b)
    ensures Scan(m, a + b, off) == Then(Scan(m, a, off), Scan(Scan(m, a, off).mode, b, off + |a|))
    decreases |a|
  {
    hide OpeningLength;
    if a == "" {
      assert a + b == b;
    } else {
      assert (a + b)[1..] == a[1..] + b;
      if m == Outside {
        OpeningAhead(a, b);
        ScanAhead(if OpeningLength(a) > 0 then Inside(off) else Outside, a[1..], b, off + 1);
      } else if Closes(a) {
        assert (a + b)[2..] == a[2..] + b;
        ScanAhead(Outside, a[2..], b, off + 2);
      } else {
        assert !Closes(a + b);
        ScanAhead(m, a[1..], b, off + 1);
      }
    }
  }

  lemma MarkerOpens(number: int, side: string, tail: string)
    ensures OpensHere(Marker(number, side) + tail)
  {
  }

  // ----------------------------------------------------------- reading, from a place on

  /** Reading the kept text and the wrapped side, in the source and in the result. */
  lemma WrapReads(f: int -> int, kept: string, side: string, number: int, after: string, after': string, at: int,
                  out: int, m: Mode)
    requires side != "" && !HasMarker(side) && StartsPlain(after) && StartsPlain(after') && number >= 0
    requires m.Inside? ==> m.open < at
    requires forall x :: at <= x < at + |kept| ==> f(x) == out + (x - at)
    requires Uncovered(Scan(m, kept + side + after, at), at + |kept|)
    ensures var before := Scan(m, kept, at); var start := out + |kept|; var end := start + |Marker(number, side)|;
      && before.mode == Outside
      && Scan(m, kept + side + after, at) == Then(before, Scan(Outside, after, at + |kept| + |side|))
      && Scan(ImageMode(f, m), kept + Marker(number, side) + after', out)
         == Then(Then(Scan(ImageMode(f, m), kept, out), Scanned([Span(start, end)], Outside)),
                 Scan(Outside, after', end))
      && Scan(ImageMode(f, m), kept, out) == Scanned(ImageSpans(f, before.spans), Outside)
  {
    hide Scan, OpeningLength, HasMarker, Marker, Sticky, Uncovered;
    var marker := Marker(number, side);
    assert kept + side + after == kept + (side + after);
    ScanCut(m, kept, side + after, at);
    ScanConcat(Outside, side, after, at + |kept|);
    ScanUnmarked(side, at + |kept|);
    assert kept + marker + after' == kept + (marker + after');
    MarkerOpens(number, side, after');
    ScanMoved(f, m, kept, at, out);
    ScanAhead(ImageMode(f, m), kept, marker + after', out);
    ScanConcat(Outside, marker, after', out + |kept|);
    ScanMarker(number, side, out + |kept|);
  }

  lemma InsertReads(f: int -> int, kept: string, text: string, after: string, after': string, at: int, out: int,
                    m: Mode)
    requires EndsPlain(kept) && NoBraces(text) && StartsPlain(text) && EndsPlain(text)
    requires forall x :: at <= x < at + |kept| ==> f(x) == out + (x - at)
    ensures var before := Scan(m, kept, at);
      && Scan(m, kept + after, at) == Then(before, Scan(before.mode, after, at + |kept|))
      && Scan(ImageMode(f, m), kept + text + after', out)
         == Then(Scanned(ImageSpans(f, before.spans), ImageMode(f, before.mode)),
                 Scan(ImageMode(f, before.mode), after', out + |kept| + |text|))
  {
    hide Scan, OpeningLength, Sticky;
    var before := Scan(m, kept, at);
    ScanConcat(m, kept, after, at);
    ScanMoved(f, m, kept, at, out);
    assert kept + text + after' == kept + (text + after');
    assert Seam(kept, text + after') by { if kept != "" && text + after' != "" { assert !Sticky(kept[|kept| - 1]); } }
    ScanConcat(ImageMode(f, m), kept, text + after', out);
    ScanConcat(ImageMode(f, before.mode), text, after', out + |kept|);
    ScanPlain(ImageMode(f, before.mode), text, out + |kept|);
  }

  lemma KeptOpen(m: Mode, kept: string, at: int)
    requires m.Inside? ==> m.open < at
    ensures Scan(m, kept, at).mode.Inside? ==> Scan(m, kept, at).mode.open < at + |kept|
  {
    hide Scan, OpeningLength;
    if Scan(m, kept, at).mode.Inside? { OpenBounds(m, kept, at); }
  }

  lemma PlaceRest(f: int -> int, p: Edits, at: int, out: int)
    requires forall x :: at <= x ==> f(x) == Place(p, at, out, x)
    ensures p.Wrap? || p.Insert? ==> forall x :: at <= x < at + |p.kept| ==> f(x) == out + (x - at)
    ensures p.Wrap? ==>
              var end := out + |p.kept| + |Marker(p.number, p.side)|;
              forall x :: at + |p.kept| + |p.side| <= x ==> f(x) == Place(p.rest, at + |p.kept| + |p.side|, end, x)
    ensures p.Insert? ==> forall x :: at + |p.kept| <= x ==>
              f(x) == Place(p.rest, at + |p.kept|, out + |p.kept| + |p.text|, x)
    ensures p.Tail? ==> forall x :: at <= x < at + |p.text| ==> f(x) == out + (x - at)
  {
    hide Marker;
  }

  lemma TailReads(f: int -> int, p: Edits, at: int, out: int, m: Mode)
    requires p.Tail? && forall x :: at <= x < at + |p.text| ==> f(x) == out + (x - at)
    ensures ReadsAs(f, Scan(ImageMode(f, m), Made(p), out), Scan(m, Source(p), at), Generated(p, out))
  {
    hide Scan, OpeningLength, ReadsAs;
    ScanMoved(f, m, p.text, at, out);
    var read := ImageSpans(f, Scan(m, p.text, at).spans);
    assert read + [] == read;
    ReadsExactly(f, Scan(ImageMode(f, m), p.text, out), Scan(m, p.text, at), []);
  }

  lemma WrapStep(f: int -> int, p: Edits, at: int, out: int, m: Mode)
    requires p.Wrap? && Sound(p) && (m.Inside? ==> m.open < at)
    requires forall x :: at <= x < at + |p.kept| ==> f(x) == out + (x - at)
    requires p.number >= 0 && Uncovered(Scan(m, Source(p), at), at + |p.kept|)
    ensures var end := out + |p.kept| + |Marker(p.number, p.side)|;
      var after := Scan(Outside, Source(p.rest), at + |p.kept| + |p.side|);
      && Scan(m, Source(p), at) == Then(Scan(m, p.kept, at), after)
      && (ReadsAs(f, Scan(Outside, Made(p.rest), end), after, Generated(p.rest, end)) ==>
            ReadsAs(f, Scan(ImageMode(f, m), Made(p), out), Scan(m, Source(p), at), Generated(p, out)))
  {
    hide Scan, OpeningLength, HasMarker, Marker, Uncovered, ReadsAs, Sticky, ImageSpans, NoBraces, EndsPlain,
      StartsPlain;
    var start, marker := out + |p.kept|, Marker(p.number, p.side);
    var g := [Span(start, start + |marker|)];
    WrapReads(f, p.kept, p.side, p.number, Source(p.rest), Made(p.rest), at, out, m);
    var before, after := Scan(m, p.kept, at), Scan(Outside, Source(p.rest), at + |p.kept| + |p.side|);
    var made := Then(Scan(ImageMode(f, m), p.kept, out), Scanned(g, Outside));
    ReadsExactly(f, made, before, g);
    var made', end := Scan(Outside, Made(p.rest), start + |marker|), start + |marker|;
    if ReadsAs(f, made', after, Generated(p.rest, end)) {
      ReadsThen(f, made, before, g, made', after, Generated(p.rest, end));
    }
  }

  lemma InsertStep(f: int -> int, p: Edits, at: int, out: int, m: Mode)
    requires p.Insert? && Sound(p)
    requires forall x :: at <= x < at + |p.kept| ==> f(x) == out + (x - at)
    ensures var before, end := Scan(m, p.kept, at), out + |p.kept| + |p.text|;
      var after := Scan(before.mode, Source(p.rest), at + |p.kept|);
      && Scan(m, Source(p), at) == Then(before, after)
      && (ReadsAs(f, Scan(ImageMode(f, before.mode), Made(p.rest), end), after, Generated(p.rest, end)) ==>
            ReadsAs(f, Scan(ImageMode(f, m), Made(p), out), Scan(m, Source(p), at), Generated(p, out)))
  {
    hide Scan, OpeningLength, HasMarker, ReadsAs, Sticky, ImageSpans, Then, ImageMode, NoBraces, EndsPlain, StartsPlain;
    InsertReads(f, p.kept, p.text, Source(p.rest), Made(p.rest), at, out, m);
    var before, end := Scan(m, p.kept, at), out + |p.kept| + |p.text|;
    var after := Scan(before.mode, Source(p.rest), at + |p.kept|);
    var made := Scanned(ImageSpans(f, before.spans), ImageMode(f, before.mode));
    assert ImageSpans(f, before.spans) + [] == ImageSpans(f, before.spans);
    ReadsExactly(f, made, before, []);
    var made' := Scan(ImageMode(f, before.mode), Made(p.rest), end);
    if ReadsAs(f, made', after, Generated(p.rest, end)) {
      ReadsThen(f, made, before, [], made', after, Generated(p.rest, end));
      assert [] + Generated(p.rest, end) == Generated(p.rest, end);
    }
  }

  /** From any place on, the result reads as the images of what the author wrote and exactly
      the generated markers. */
  lemma {:induction false} ReadsFrom(f: int -> int, p: Edits, at: int, out: int, m: Mode)
    requires Sound(p) && (m.Inside? ==> m.open < at)
    requires forall x :: at <= x ==> f(x) == Place(p, at, out, x)
    requires FreeIn(p, at, Scan(m, Source(p), at))
    ensures ReadsAs(f, Scan(ImageMode(f, m), Made(p), out), Scan(m, Source(p), at), Generated(p, out))
  {
    hide Scan, OpeningLength, HasMarker, Marker, Uncovered, ReadsAs, Sticky, Place, ImageMode, Then, ImageSpans,
      Source, Made, Generated;
    PlaceRest(f, p, at, out);
    match p
    case Tail(text) =>
      TailReads(f, p, at, out, m);
    case Wrap(kept, side, number, rest) =>
      WrapStep(f, p, at, out, m);
      FreeSuffix(rest, at + |kept| + |side|, Scan(m, kept, at), Scan(Outside, Source(rest), at + |kept| + |side|));
      assert ImageMode(f, Outside) == Outside by { OutsideStays(f); }
      ReadsFrom(f, rest, at + |kept| + |side|, out + |kept| + |Marker(number, side)|, Outside);
    case Insert(kept, text, rest) =>
      InsertStep(f, p, at, out, m);
      KeptOpen(m, kept, at);
      FreeSuffix(rest, at + |kept|, Scan(m, kept, at), Scan(Scan(m, kept, at).mode, Source(rest), at + |kept|));
      ReadsFrom(f, rest, at + |kept|, out + |kept| + |text|, Scan(m, kept, at).mode);
  }

  lemma OutsideStays(f: int -> int)
    ensures ImageMode(f, Outside) == Outside
  {
  }

  // ------------------------------------------------------------------- the whole text

  /** Anki reads exactly the author's markers, each where its text went, and one marker for
      every wrapped side. */
  ghost predicate ReadsBack(p: Edits) {
    multiset(Spans(Made(p))) ==
      multiset(ImageSpans(x => Place(p, 0, 0, x), Spans(Source(p)))) + multiset(Generated(p, 0))
  }

  /** What a caller can check beforehand: no marker the author wrote reaches into a side that
      is to be wrapped, and no number is negative. */
  predicate Free(p: Edits, at: int, spans: seq<Span>) {
    match p
    case Tail(_) => true
    case Wrap(kept, side, number, rest) => !InsideAnySpan(spans, at + |kept|) && number >= 0
      && Free(rest, at + |kept| + |side|, spans)
    case Insert(kept, text, rest) => Free(rest, at + |kept|, spans)
  }

  lemma {:induction false} FreeEither(p: Edits, at: int, s: string)
    requires 0 <= at && Sound(p) && at + |Source(p)| <= |s|
    ensures Free(p, at, Spans(s)) <==> FreeIn(p, at, Scan(Outside, s, 0))
  {
    hide Scan, Uncovered, InsideAnySpan, Spans, HasMarker, Sticky, Marker;
    match p
    case Tail(_) =>
    case Wrap(kept, side, number, rest) =>
      UncoveredIff(s, at + |kept|);
      FreeEither(rest, at + |kept| + |side|, s);
    case Insert(kept, text, rest) =>
      FreeEither(rest, at + |kept|, s);
  }

  /** The last character of the source ends up last. */
  lemma {:induction false} PlaceOfLast(p: Edits, at: int, out: int)
    requires Sound(p) && Source(p) != ""
    ensures Place(p, at, out, at + |Source(p)| - 1) + 1 == out + |Made(p)|
  {
    hide Marker, HasMarker, Sticky;
    match p
    case Tail(_) =>
    case Wrap(kept, side, number, rest) =>
      if Source(rest) != "" {
        PlaceOfLast(rest, at + |kept| + |side|, out + |kept| + |Marker(number, side)|);
      } else {
        NothingMade(rest);
      }
    case Insert(kept, text, rest) =>
      PlaceOfLast(rest, at + |kept|, out + |kept| + |text|);
  }

  lemma NothingMade(p: Edits)
    requires Sound(p) && Source(p) == ""
    ensures Made(p) == ""
  {
    hide HasMarker, Sticky;
  }

  // -------------------------------------------------------- when a marker is lost

  lemma {:induction false} PlaceFrom(p: Edits, at: int, out: int, x: int)
    requires at <= x
    ensures Place(p, at, out, x) >= out
  {
    match p
    case Tail(_) =>
    case Wrap(kept, side, number, rest) =>
      if x >= at + |kept| + |side| { PlaceFrom(rest, at + |kept| + |side|, out + |kept| + |Marker(number, side)|, x); }
    case Insert(kept, text, rest) =>
      if x >= at + |kept| { PlaceFrom(rest, at + |kept|, out + |kept| + |text|, x); }
  }

  /** What a side that is not free shows: its marker g, where it starts in the source (x), and
      the number and text of the marker. */
  ghost predicate Bound(p: Edits, at: int, out: int, spans: seq<Span>, g: Span, x: int, number: int, text: string,
                        tail: string) {
    && g in Generated(p, out)
    && (number < 0 || InsideAnySpan(spans, x))
    && at <= x < at + |Source(p)| && out <= g.start && g.start - out < |Made(p)|
    && OpeningLength(Source(p)[x - at..]) == 0
    && Made(p)[g.start - out..] == Marker(number, text) + tail
    && (forall y :: at <= y < x ==> Place(p, at, out, y) < g.start)
    && (forall y :: x <= y ==> Place(p, at, out, y) >= g.start)
  }

  lemma BoundHere(p: Edits, at: int, out: int, spans: seq<Span>)
    requires p.Wrap? && Sound(p) && (p.number < 0 || InsideAnySpan(spans, at + |p.kept|))
    ensures var start := out + |p.kept|;
      Bound(p, at, out, spans, Span(start, start + |Marker(p.number, p.side)|), at + |p.kept|, p.number, p.side,
            Made(p.rest))
  {
    hide InsideAnySpan, HasMarker, Sticky, Marker, OpeningLength;
    var start, marker, x := out + |p.kept|, Marker(p.number, p.side), at + |p.kept|;
    assert Generated(p, out)[0] == Span(start, start + |marker|);
    assert Source(p)[|p.kept|..] == p.side + Source(p.rest);
    UnmarkedStart(p.side, Source(p.rest));
    assert Made(p)[|p.kept|..] == marker + Made(p.rest);
    MarkerLong(p.number, p.side);
    forall y | x <= y ensures Place(p, at, out, y) >= start {
      if y >= x + |p.side| { PlaceFrom(p.rest, x + |p.side|, start + |marker|, y); }
    }
  }

  /** What is bound behind a piece is bound in the whole. */
  lemma BoundLater(p: Edits, rest: Edits, at: int, out: int, spans: seq<Span>, pre: string, pre': string,
                   g: Span, x: int, number: int, text: string, tail: string)
    requires Bound(rest, at + |pre|, out + |pre'|, spans, g, x, number, text, tail)
    requires Source(p) == pre + Source(rest) && Made(p) == pre' + Made(rest)
    requires forall h :: h in Generated(rest, out + |pre'|) ==> h in Generated(p, out)
    requires forall y :: at + |pre| <= y ==> Place(p, at, out, y) == Place(rest, at + |pre|, out + |pre'|, y)
    requires forall y :: at <= y < at + |pre| ==> Place(p, at, out, y) < out + |pre'|
    ensures Bound(p, at, out, spans, g, x, number, text, tail)
  {
    hide InsideAnySpan, Marker, OpeningLength, Place, Source, Made, Generated;
    assert Source(p)[x - at..] == Source(rest)[x - at - |pre|..];
    assert Made(p)[g.start - out..] == Made(rest)[g.start - out - |pre'|..];
  }

  lemma {:induction false} FirstBound(p: Edits, at: int, out: int, spans: seq<Span>)
    returns (g: Span, x: int, number: int, text: string, tail: string)
    requires Sound(p) && !Free(p, at, spans)
    ensures Bound(p, at, out, spans, g, x, number, text, tail)
  {
    hide InsideAnySpan, HasMarker, Sticky, Marker, OpeningLength, Bound;
    match p
    case Wrap(kept, side, n, rest) =>
      var marker := Marker(n, side);
      if !InsideAnySpan(spans, at + |kept|) && n >= 0 {
        g, x, number, text, tail := FirstBound(rest, at + |kept| + |side|, out + |kept| + |marker|, spans);
        assert Generated(p, out)[1..] == Generated(rest, out + |kept| + |marker|);
        MarkerLong(n, side);
        assert at + |kept + side| == at + |kept| + |side| && out + |kept + marker| == out + |kept| + |marker|;
        BoundLater(p, rest, at, out, spans, kept + side, kept + marker, g, x, number, text, tail);
      } else {
        g, x, number, text, tail := Span(out + |kept|, out + |kept| + |marker|), at + |kept|, n, side, Made(rest);
        BoundHere(p, at, out, spans);
      }
    case Insert(kept, put, rest) =>
      g, x, number, text, tail := FirstBound(rest, at + |kept|, out + |kept| + |put|, spans);
      assert out + |kept + put| == out + |kept| + |put|;
      BoundLater(p, rest, at, out, spans, kept, kept + put, g, x, number, text, tail);
  }

  lemma MarkerLong(number: int, side: string)
    ensures |Marker(number, side)| > 2
  {
  }

  lemma UnmarkedStart(side: string, after: string)
    requires side != "" && !HasMarker(side) && StartsPlain(after)
    ensures OpeningLength(side + after) == 0
  {
    hide OpeningLength, Sticky;
    OpeningSeam(side, after);
  }

  /** The image of a marker that reaches into a side lies across the generated one. */
  lemma ImagesCross(p: Edits, g: Span, x: int)
    requires g in Generated(p, 0) && 0 <= x < |Source(p)| && InsideAnySpan(Spans(Source(p)), x)
    requires OpeningLength(Source(p)[x..]) == 0
    requires forall y :: 0 <= y < x ==> Place(p, 0, 0, y) < g.start
    requires forall y :: x <= y ==> Place(p, 0, 0, y) >= g.start
    ensures !ReadsBack(p)
  {
    hide Spans, OpeningLength, Ordered, Place, Source, Made, Generated;
    var f := y => Place(p, 0, 0, y);
    var sp :| sp in Spans(Source(p)) && Covers(sp, x);
    SpansOrdered(Source(p));
    assert sp.start < x;
    var crossing := ImageSpan(f, sp);
    ImageIn(f, Spans(Source(p)), sp);
    assert crossing.start < g.start < crossing.end;
    if ReadsBack(p) {
      var read := Spans(Made(p));
      assert multiset(read)[crossing] > 0 && multiset(read)[g] > 0;
      SpansOrdered(Made(p));
      NeverCross(read, crossing, g);
    }
  }

  lemma {:induction false} ImageIn(f: int -> int, spans: seq<Span>, sp: Span)
    requires sp in spans
    ensures ImageSpan(f, sp) in ImageSpans(f, spans)
  {
    if sp != spans[0] { ImageIn(f, spans[1..], sp); }
  }

  lemma NeverCross(spans: seq<Span>, a: Span, b: Span)
    requires Ordered(spans) && a in spans && b in spans
    ensures !(a.start < b.start < a.end)
  {
    var i :| 0 <= i < |spans| && spans[i] == a;
    var j :| 0 <= j < |spans| && spans[j] == b;
  }

  /** Where the text is no opening, no marker is read. */
  lemma NumberLost(p: Edits, g: Span, number: int, side: string, tail: string)
    requires g in Generated(p, 0) && 0 <= g.start < |Made(p)| && Made(p)[g.start..] == Marker(number, side) + tail
    requires number < 0
    ensures !ReadsBack(p)
  {
    hide Spans, OpeningLength, Place, Source, Made, Generated, Marker;
    MarkerOpening(number, side, tail);
    SpansOrdered(Made(p));
    assert g !in Spans(Made(p));
    assert multiset(Generated(p, 0))[g] > 0;
    assert multiset(Spans(Made(p)))[g] == 0;
  }

  /** Reading back works exactly when every wrapped side is free. */
  lemma ReadsBackIff(p: Edits)
    requires Sound(p) && Source(p) != ""
    ensures ReadsBack(p) <==> Free(p, 0, Spans(Source(p)))
  {
    hide Scan, Spans, OpeningLength, Source, Made, Generated, Marker, Sound, Free, FreeIn, ReadsAs, InsideAnySpan;
    var s := Source(p);
    FreeEither(p, 0, s);
    if Free(p, 0, Spans(s)) {
      var f := x => Place(p, 0, 0, x);
      ReadsFrom(f, p, 0, 0, Outside);
      PlaceOfLast(p, 0, 0);
      FinishReads(f, s, Made(p), Generated(p, 0));
    } else {
      var g, x, number, side, tail := FirstBound(p, 0, 0, Spans(s));
      if number < 0 {
        NumberLost(p, g, number, side, tail);
      } else {
        ImagesCross(p, g, x);
      }
    }
  }
}
