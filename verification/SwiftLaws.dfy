/** The laws of swift composition: read-back, conservation and positional numbering. */
module SwiftLaws {
  import opened Basics
  import opened Lines
  import opened Cloze
  import opened ArrowLines
  import opened Swift
  import opened ReadBack
  import opened SwiftCard

  // ------------------------------------------ arrow lines in the whole entry

  function Moved(a: Arrow, k: nat): Arrow {
    Arrow(a.line, a.lineEnd + k, a.token, a.leftStart + k, a.leftEnd + k,
          a.tokenStart + k, a.tokenEnd + k, a.rightStart + k, a.rightEnd + k)
  }

  function MovedAll(arrows: seq<Arrow>, k: nat): (r: seq<Arrow>)
    ensures |r| == |arrows|
    ensures forall i :: 0 <= i < |arrows| ==> r[i] == Moved(arrows[i], k)
  {
    seq(|arrows|, i requires 0 <= i < |arrows| => Moved(arrows[i], k))
  }

  lemma SpaceNotSticky(c: char)
    requires UnicodeSpace(c)
    ensures !Sticky(c) && c != '{' && c != '}'
  {
  }

  /** Title and blank line, in front of the body. */
  function Head(title: string): string {
    title + "\n\n"
  }

  lemma NewlinePlain()
    ensures !Sticky('\n')
  {
  }

  /** A blank stretch i..j of a line, placed in the whole entry s, holds nothing a
      marker could be made of. */
  lemma BlankStretch(pre: string, body: string, ln: Line, i: int, j: int)
    requires LineOf(body, ln)
    requires var k := |pre| + ln.start; 0 <= i - k <= j - k <= |ln.text| && BlankBetween(ln.text, i - k, j - k)
    ensures 0 <= i <= j <= |pre + body| && NoBraces((pre + body)[i..j])
    ensures i < j ==> !Sticky((pre + body)[i]) && !Sticky((pre + body)[j - 1])
  {
    hide UnicodeSpace, Sticky, IndentOf, Blank;
    var s, k := pre + body, |pre| + ln.start;
    forall p | i <= p < j ensures !Sticky(s[p]) && s[p] != '{' && s[p] != '}' {
      assert s[p] == ln.text[p - k];
      SpaceNotSticky(ln.text[p - k]);
    }
  }

  lemma TokenTextThere(pre: string, body: string, ln: Line, i: int, t: Token)
    requires LineOf(body, ln)
    requires var p := i - |pre| - ln.start; 0 <= p < |ln.text| && TokenBefore(ln.text[p..]) == Some(t)
    ensures 0 <= i <= i + |TokenText(t)| <= |pre + body| && (pre + body)[i..i + |TokenText(t)|] == TokenText(t)
  {
    hide TokenBefore, IndentOf, Blank, TokenText, LineOf, IsToken;
    var p, n := i - |pre| - ln.start, |TokenText(t)|;
    TokenThere(ln.text[p..]);
    SliceOfSlice(ln.text, p, |ln.text|, 0, n);
    assert ln.text[p..|ln.text|] == ln.text[p..];
    SliceOfLine(pre, body, ln, p, p + n);
  }

  lemma SliceOfSlice(s: string, a: int, b: int, i: int, j: int)
    requires 0 <= a <= b <= |s| && 0 <= i <= j <= b - a
    ensures s[a..b][i..j] == s[a + i..a + j]
  {
    var x, y := s[a..b][i..j], s[a + i..a + j];
    assert |x| == |y|;
    forall k | 0 <= k < |x| ensures x[k] == y[k] {
      assert x[k] == s[a..b][i + k];
    }
  }

  lemma SliceBehind(pre: string, body: string, i: int, j: int)
    requires 0 <= i <= j <= |body|
    ensures (pre + body)[|pre| + i..|pre| + j] == body[i..j]
  {
  }

  /** A stretch of a line is the stretch of the whole entry where it stands. */
  lemma SliceOfLine(pre: string, body: string, ln: Line, i: int, j: int)
    requires LineOf(body, ln) && 0 <= i <= j <= |ln.text|
    ensures var k := |pre| + ln.start; k + j <= |pre + body| && (pre + body)[k + i..k + j] == ln.text[i..j]
  {
    hide IndentOf, Blank;
    SliceOfSlice(body, ln.start, ln.end, i, j);
    SliceBehind(pre, body, ln.start + i, ln.start + j);
  }

  /** The seams of a stretch with the white space around it. */
  lemma LineEdges(pre: string, body: string, ln: Line)
    requires LineOf(body, ln) && pre != "" && !Sticky(pre[|pre| - 1])
    ensures var s := pre + body;
            && !Sticky(s[|pre| + ln.start - 1])
            && |pre| + ln.end <= |s|
            && (|pre| + ln.end < |s| ==> !Sticky(s[|pre| + ln.end]))
  {
    hide Sticky, IndentOf, Blank;
    var s := pre + body;
    NewlinePlain();
    if ln.start > 0 { assert s[|pre| + ln.start - 1] == body[ln.start - 1]; }
    if ln.hasNewline { assert s[|pre| + ln.end] == body[ln.end]; }
  }

  /** What reading a line as an arrow line says, for offsets in a text where the line starts at k. */
  predicate ReadParts(text: string, k: int, b: Arrow) {
    && k <= b.leftStart < b.leftEnd <= b.tokenStart < b.tokenEnd <= b.rightStart < b.rightEnd <= b.lineEnd == k + |text|
    && TokenBefore(text[b.tokenStart - k..]) == Some(b.token)
    && b.tokenEnd == b.tokenStart + |TokenText(b.token)|
    && BlankBetween(text, 0, b.leftStart - k) && BlankBetween(text, b.leftEnd - k, b.tokenStart - k)
    && BlankBetween(text, b.tokenEnd - k, b.rightStart - k) && BlankBetween(text, b.rightEnd - k, |text|)
  }

  lemma MovedParts(ln: Line, line: nat, k: nat)
    requires ReadArrowLine(ln, line).Some? && ln.end == ln.start + |ln.text|
    ensures ReadParts(ln.text, k + ln.start, Moved(ReadArrowLine(ln, line).value, k))
  {
    hide ReadArrowLine, TokenBefore, FirstToken, BlankBetween, TokenText;
    ArrowLineParts(ln, line);
  }

  /** An arrow line read from a line of the body stands in the whole entry with clean seams. */
  lemma PartsPlaced(pre: string, body: string, ln: Line, b: Arrow, at: int)
    requires LineOf(body, ln) && ReadParts(ln.text, |pre| + ln.start, b)
    requires pre != "" && !Sticky(pre[|pre| - 1])
    requires 0 <= at < |pre| + ln.start
    ensures Placed(pre + body, b, at)
  {
    hide LineOf, UnicodeSpace, Sticky, TokenBefore, NoBraces, BlankBetween, TokenText;
    LineLength(body, ln);
    LineEdges(pre, body, ln);
    TokenTextThere(pre, body, ln, b.tokenStart, b.token);
    BlankStretch(pre, body, ln, |pre| + ln.start, b.leftStart);
    BlankStretch(pre, body, ln, b.leftEnd, b.tokenStart);
    BlankStretch(pre, body, ln, b.tokenEnd, b.rightStart);
    BlankStretch(pre, body, ln, b.rightEnd, b.lineEnd);
  }

  lemma ArrowPlaced(pre: string, body: string, ln: Line, line: nat, at: int)
    requires LineOf(body, ln) && ReadArrowLine(ln, line).Some?
    requires pre != "" && !Sticky(pre[|pre| - 1])
    requires 0 <= at < |pre| + ln.start
    ensures Placed(pre + body, Moved(ReadArrowLine(ln, line).value, |pre|), at)
  {
    hide LineOf, ReadArrowLine, Placed, ReadParts, Sticky;
    LineLength(body, ln);
    MovedParts(ln, line, |pre|);
    PartsPlaced(pre, body, ln, Moved(ReadArrowLine(ln, line).value, |pre|), at);
  }

  lemma LineLength(body: string, ln: Line)
    requires LineOf(body, ln)
    ensures |ln.text| == ln.end - ln.start
  {
    hide IndentOf, Blank;
  }

  lemma {:induction false} ChainTail(s: string, a: Arrow, rest: seq<Arrow>, n: nat, at: int)
    requires Chain(s, rest, n, at)
    ensures Chain(s, [a] + rest, n + 1, at)
    decreases |rest| - n
  {
    hide Placed;
    if n < |rest| { ChainTail(s, a, rest, n + 1, rest[n].lineEnd); }
  }

  /** The arrow lines of a body follow one another in the whole entry. */
  lemma {:induction false} ArrowsChain(pre: string, body: string, lines: seq<Line>, excluded: seq<bool>,
                                       spans: seq<Span>, plain: string -> bool, i: nat, at: int)
    requires |excluded| == |lines| && Tile(body, lines, 0)
    requires pre != "" && !Sticky(pre[|pre| - 1])
    requires 0 <= at <= |pre + body|
    requires i < |lines| ==> at < |pre| + lines[i].start
    ensures Chain(pre + body, MovedAll(ArrowsFrom(lines, excluded, spans, |pre|, plain, i), |pre|), 0, at)
    decreases |lines| - i
  {
    hide Placed, Sticky, ReadArrowLine, InsideAnySpan, LineOf, Tile;
    if i < |lines| {
      TileAt(body, lines, 0, i);
      var rest := ArrowsFrom(lines, excluded, spans, |pre|, plain, i + 1);
      NextLine(pre, body, lines, i, at);
      var a := ReadArrowLine(lines[i], i);
      if a.Some? && !excluded[i] && !InsideAnySpan(spans, |pre| + a.value.tokenStart) && plain(lines[i].text) {
        ArrowPlaced(pre, body, lines[i], i, at);
        ArrowEnds(lines[i], i);
        var b := Moved(a.value, |pre|);
        ArrowsChain(pre, body, lines, excluded, spans, plain, i + 1, b.lineEnd);
        assert MovedAll([a.value] + rest, |pre|) == [b] + MovedAll(rest, |pre|);
        ChainTail(pre + body, b, MovedAll(rest, |pre|), 0, b.lineEnd);
      } else {
        ArrowsChain(pre, body, lines, excluded, spans, plain, i + 1, at);
      }
    }
  }

  lemma ArrowEnds(ln: Line, line: nat)
    requires ReadArrowLine(ln, line).Some?
    ensures ReadArrowLine(ln, line).value.lineEnd == ln.end && ReadArrowLine(ln, line).value.line == line
  {
    hide TokenBefore, UnicodeSpace, TrimLeft, TrimRight, FirstToken, TokenText, MatchFrom;
  }

  lemma NextLine(pre: string, body: string, lines: seq<Line>, i: nat, at: int)
    requires i < |lines| && Tile(body, lines, 0)
    requires 0 <= at < |pre| + lines[i].start
    ensures i + 1 < |lines| ==> at < |pre| + lines[i + 1].start && |pre| + lines[i].end < |pre| + lines[i + 1].start
    ensures |pre| + lines[i].end <= |pre + body|
  {
    hide IndentOf, Blank, Tile;
    TileAt(body, lines, 0, i);
  }

  lemma OrderTail(body: string, a: Arrow, rest: seq<Arrow>, n: nat, at: int)
    requires InOrder(body, rest, n, at)
    ensures InOrder(body, [a] + rest, n + 1, at)
    decreases |rest| - n
  {
    if n < |rest| { OrderTail(body, a, rest, n + 1, rest[n].lineEnd); }
  }

  lemma {:induction false} ArrowsInOrder(body: string, lines: seq<Line>, excluded: seq<bool>, spans: seq<Span>,
                                         shift: nat, plain: string -> bool, i: nat, at: int)
    requires |excluded| == |lines| && Tile(body, lines, 0)
    requires 0 <= at <= |body| && (i < |lines| ==> at <= lines[i].start)
    ensures InOrder(body, ArrowsFrom(lines, excluded, spans, shift, plain, i), 0, at)
    decreases |lines| - i
  {
    hide ReadArrowLine, InsideAnySpan, Tile, IndentOf, Blank, TokenBefore, FirstToken, BlankBetween, TokenText;
    if i < |lines| {
      TileAt(body, lines, 0, i);
      LineLength(body, lines[i]);
      if ReadArrowLine(lines[i], i).Some? {
        MovedParts(lines[i], i, 0);
        var a := ReadArrowLine(lines[i], i).value;
        assert Moved(a, 0) == a;
        var rest := ArrowsFrom(lines, excluded, spans, shift, plain, i + 1);
        ArrowsInOrder(body, lines, excluded, spans, shift, plain, i + 1, a.lineEnd);
        OrderTail(body, a, rest, 0, a.lineEnd);
      }
      ArrowsInOrder(body, lines, excluded, spans, shift, plain, i + 1, at);
    }
  }

  /** No arrow line's token sits inside a marker the author wrote. */
  lemma {:induction false} ArrowsClear(lines: seq<Line>, excluded: seq<bool>, spans: seq<Span>, shift: nat,
                                       plain: string -> bool, i: nat, a: Arrow)
    requires |excluded| == |lines|
    requires a in ArrowsFrom(lines, excluded, spans, shift, plain, i)
    ensures !InsideAnySpan(spans, shift + a.tokenStart)
    ensures i <= a.line < |lines| && !excluded[a.line] && plain(lines[a.line].text)
    ensures ReadArrowLine(lines[a.line], a.line) == Some(a)
    decreases |lines| - i
  {
    hide ReadArrowLine, InsideAnySpan;
    var rest := ArrowsFrom(lines, excluded, spans, shift, plain, i + 1);
    if a in rest {
      ArrowsClear(lines, excluded, spans, shift, plain, i + 1, a);
    } else {
      ArrowEnds(lines[i], i);
    }
  }

  // ---------------------------------------------- composing body or whole entry

  lemma CutMoved(pre: string, body: string, i: int, j: int)
    requires 0 <= i
    ensures Cut(pre + body, |pre| + i, |pre| + j) == Cut(body, i, j)
  {
  }

  lemma HalvesMoved(pre: string, body: string, a: Arrow, br: string, at: int, base: int, n: nat)
    requires 0 <= at
    ensures var s, b := pre + body, Moved(a, |pre|);
            && LeftHalf(s, b, |pre| + at, base, n) == LeftHalf(body, a, at, base, n)
            && RightHalf(s, b, br, base, n) == RightHalf(body, a, br, base, n)
            && WrapsLeft(s, b) == WrapsLeft(body, a) && WrapsRight(s, b) == WrapsRight(body, a)
            && LeftSide(s, b) == LeftSide(body, a) && RightSide(s, b) == RightSide(body, a)
  {
    hide Cut, SideText, Snippet, Wraps, LeftNumber, RightNumber;
    CutMoved(pre, body, at, a.leftStart);
    CutMoved(pre, body, a.leftStart, a.leftEnd);
    CutMoved(pre, body, a.leftEnd, a.tokenStart);
    CutMoved(pre, body, a.tokenEnd, a.rightStart);
    CutMoved(pre, body, a.rightStart, a.rightEnd);
    CutMoved(pre, body, a.rightEnd, a.lineEnd);
  }

  lemma {:induction false} ComposeMoved(pre: string, body: string, arrows: seq<Arrow>, n: nat, at: int, base: int)
    requires 0 <= at
    ensures Compose(pre + body, MovedAll(arrows, |pre|), n, |pre| + at, base) == Compose(body, arrows, n, at, base)
    decreases |arrows| - n
  {
    hide LeftHalf, RightHalf, Cut, WrapsLeft, WrapsRight, LeftSide, RightSide;
    if n < |arrows| {
      HalvesMoved(pre, body, arrows[n], Break(arrows, n), at, base, n);
      ComposeMoved(pre, body, arrows, n + 1, arrows[n].lineEnd, base);
    } else {
      CutMoved(pre, body, at, |body|);
    }
  }

  lemma LeftHead(pre: string, body: string, a: Arrow, base: int)
    requires 0 <= a.leftStart <= |body|
    ensures LeftHalf(pre + body, Moved(a, |pre|), 0, base, 0) == pre + LeftHalf(body, a, 0, base, 0)
  {
    hide NewLeft, Snippet;
    var s, b := pre + body, Moved(a, |pre|);
    assert Cut(s, 0, b.leftStart) == pre + Cut(body, 0, a.leftStart);
    NewLeftMoved(pre, body, a, base, 0);
    CutMoved(pre, body, a.leftEnd, a.tokenStart);
    hide Cut;
    HeadOfLeft(pre, Cut(body, 0, a.leftStart), NewLeft(body, a, base, 0), Cut(body, a.leftEnd, a.tokenStart),
               Snippet(a.token));
  }

  /** Composing the whole entry leaves its head alone. */
  lemma ComposeWhole(pre: string, body: string, arrows: seq<Arrow>, base: int)
    requires InOrder(body, arrows, 0, 0)
    ensures Compose(pre + body, MovedAll(arrows, |pre|), 0, 0, base) == pre + Compose(body, arrows, 0, 0, base)
  {
    hide LeftHalf, RightHalf, Break;
    var s, moved := pre + body, MovedAll(arrows, |pre|);
    if |arrows| > 0 {
      var a, br := arrows[0], Break(arrows, 0);
      HalvesMoved(pre, body, a, br, 0, base, 0);
      ComposeMoved(pre, body, arrows, 1, a.lineEnd, base);
      BreakMoved(arrows, |pre|, 0);
      LeftHead(pre, body, a, base);
      HeadOfWhole(pre, LeftHalf(body, a, 0, base, 0), RightHalf(body, a, br, base, 0),
                  Compose(body, arrows, 1, a.lineEnd, base));
    }
  }

  lemma BreakMoved(arrows: seq<Arrow>, k: nat, n: nat)
    requires n < |arrows|
    ensures Break(MovedAll(arrows, k), n) == Break(arrows, n)
  {
  }

  lemma NewLeftMoved(pre: string, body: string, a: Arrow, base: int, n: nat)
    ensures NewLeft(pre + body, Moved(a, |pre|), base, n) == NewLeft(body, a, base, n)
  {
    hide SideText, Cut;
    CutMoved(pre, body, a.leftStart, a.leftEnd);
  }

  lemma HeadOfLeft(pre: string, a: string, b: string, c: string, d: string)
    ensures pre + a + b + c + d == pre + (a + b + c + d)
  {
  }

  lemma HeadOfWhole(pre: string, a: string, b: string, c: string)
    ensures (pre + a) + b + c == pre + (a + b + c)
  {
  }

  // ----------------------------------------------------- what a marker holds

  lemma DropFirst(a: string, b: string)
    ensures (a + b)[|a|..] == b
  {
  }

  /** The text c, from place i on, is this marker and then the tail. */
  predicate TextAt(c: string, i: int, marker: string, tail: string) {
    0 <= i <= |c| && c[i..] == marker + tail
  }

  lemma LeftText(s: string, arrows: seq<Arrow>, n: nat, at: int, out: int, base: int) returns (tail: string)
    requires n < |arrows|
    ensures TextAt(Compose(s, arrows, n, at, base), PlacesOf(s, arrows, n, at, out, base).leftStart - out,
                   NewLeft(s, arrows[n], base, n), tail)
  {
    hide NewLeft, NewRight, Snippet, Break, Cut, RightHalf;
    var a := arrows[n];
    tail := Cut(s, a.leftEnd, a.tokenStart) + Snippet(a.token)
            + (RightHalf(s, a, Break(arrows, n), base, n) + Compose(s, arrows, n + 1, a.lineEnd, base));
    var front := Cut(s, at, a.leftStart);
    assert Compose(s, arrows, n, at, base) == front + (NewLeft(s, a, base, n) + tail);
    DropFirst(front, NewLeft(s, a, base, n) + tail);
  }

  lemma RightText(s: string, arrows: seq<Arrow>, n: nat, at: int, out: int, base: int) returns (tail: string)
    requires n < |arrows|
    ensures TextAt(Compose(s, arrows, n, at, base), PlacesOf(s, arrows, n, at, out, base).rightStart - out,
                   NewRight(s, arrows[n], base, n), tail)
  {
    hide NewLeft, NewRight, Snippet, Break, Cut, LeftHalf;
    var a := arrows[n];
    tail := Cut(s, a.rightEnd, a.lineEnd) + Break(arrows, n) + Compose(s, arrows, n + 1, a.lineEnd, base);
    var front := LeftHalf(s, a, at, base, n) + Cut(s, a.tokenEnd, a.rightStart);
    assert Compose(s, arrows, n, at, base) == front + (NewRight(s, a, base, n) + tail);
    DropFirst(front, NewRight(s, a, base, n) + tail);
  }

  lemma LaterText(s: string, arrows: seq<Arrow>, n: nat, at: int, out: int, base: int, p: int, marker: string,
                  tail: string)
    requires n < |arrows|
    requires var q := PlacesOf(s, arrows, n, at, out, base);
             TextAt(Compose(s, arrows, n + 1, arrows[n].lineEnd, base), p - q.lineEnd, marker, tail)
    ensures TextAt(Compose(s, arrows, n, at, base), p - out, marker, tail)
  {
    hide NewLeft, NewRight, Break, Cut, LeftHalf, RightHalf;
    var q, rest := PlacesOf(s, arrows, n, at, out, base), Compose(s, arrows, n + 1, arrows[n].lineEnd, base);
    assert Compose(s, arrows, n, at, base)[p - out..] == rest[p - q.lineEnd..];
  }

  predicate WrapsSide(s: string, a: Arrow, left: bool) {
    if left then WrapsLeft(s, a) else WrapsRight(s, a)
  }

  function SideNumber(base: int, k: nat, left: bool): int {
    if left then LeftNumber(base, k) else RightNumber(base, k)
  }

  /** The marker generated for one side. */
  function SideMarker(s: string, a: Arrow, base: int, k: nat, left: bool): string {
    Marker(SideNumber(base, k, left), if left then LeftSide(s, a) else RightSide(s, a))
  }

  lemma TextHere(s: string, arrows: seq<Arrow>, n: nat, at: int, out: int, base: int, left: bool)
    returns (g: Span, tail: string)
    requires n < |arrows| && WrapsSide(s, arrows[n], left)
    ensures g in GeneratedAt(s, arrows[n], PlacesOf(s, arrows, n, at, out, base))
    ensures g.end == g.start + |SideMarker(s, arrows[n], base, n, left)|
    ensures TextAt(Compose(s, arrows, n, at, base), g.start - out, SideMarker(s, arrows[n], base, n, left), tail)
  {
    hide SideMarker, WrapsSide, Compose, PlacesOf, GeneratedAt, TextAt, NewLeft, NewRight;
    var a, q := arrows[n], PlacesOf(s, arrows, n, at, out, base);
    SideLengths(s, arrows, n, at, out, base);
    SideWritten(s, a, base, n, left, q);
    if left {
      g := Span(q.leftStart, q.leftEnd);
      tail := LeftText(s, arrows, n, at, out, base);
    } else {
      g := Span(q.rightStart, q.rightEnd);
      tail := RightText(s, arrows, n, at, out, base);
    }
  }

  /** Every wrapped side's generated extent starts with exactly its marker. */
  lemma {:induction false} GeneratedText(s: string, arrows: seq<Arrow>, n: nat, at: int, out: int, base: int,
                                         k: nat, left: bool) returns (g: Span, tail: string)
    requires n <= k < |arrows| && WrapsSide(s, arrows[k], left)
    ensures g in Generated(s, arrows, n, at, out, base)
    ensures g.end == g.start + |SideMarker(s, arrows[k], base, k, left)|
    ensures TextAt(Compose(s, arrows, n, at, base), g.start - out, SideMarker(s, arrows[k], base, k, left), tail)
    decreases k - n
  {
    hide SideMarker, WrapsSide, Compose, PlacesOf, GeneratedAt, TextAt;
    if n < k {
      var a, q := arrows[n], PlacesOf(s, arrows, n, at, out, base);
      g, tail := GeneratedText(s, arrows, n + 1, a.lineEnd, q.lineEnd, base, k, left);
      LaterText(s, arrows, n, at, out, base, g.start, SideMarker(s, arrows[k], base, k, left), tail);
    } else {
      g, tail := TextHere(s, arrows, n, at, out, base, left);
    }
  }

  lemma SideWritten(s: string, a: Arrow, base: int, k: nat, left: bool, q: Places)
    requires WrapsSide(s, a, left)
    ensures (if left then NewLeft(s, a, base, k) else NewRight(s, a, base, k)) == SideMarker(s, a, base, k, left)
    ensures (if left then Span(q.leftStart, q.leftEnd) else Span(q.rightStart, q.rightEnd)) in GeneratedAt(s, a, q)
  {
    hide Marker, LeftNumber, RightNumber, Cut, HasMarker;
    var made := GeneratedAt(s, a, q);
    assert left ==> made[0] == Span(q.leftStart, q.leftEnd);
    assert !left ==> made[|made| - 1] == Span(q.rightStart, q.rightEnd);
  }

  lemma SideLengths(s: string, arrows: seq<Arrow>, n: nat, at: int, out: int, base: int)
    requires n < |arrows|
    ensures var q := PlacesOf(s, arrows, n, at, out, base);
            && q.leftEnd == q.leftStart + |NewLeft(s, arrows[n], base, n)|
            && q.rightEnd == q.rightStart + |NewRight(s, arrows[n], base, n)|
  {
    hide NewLeft, NewRight, LeftHalf, RightHalf, Cut;
  }

  // ------------------------------------------------------------- read-back

  /** What composition makes of the entry: the source text, its arrow lines, the result. */
  datatype Card = Card(source: string, arrows: seq<Arrow>, base: nat)
  {
    function Composed(): string {
      Compose(source, arrows, 0, 0, base)
    }

    function Place(p: int): int {
      Image(source, arrows, 0, 0, 0, base, p)
    }

    function Made(): seq<Span> {
      Generated(source, arrows, 0, 0, 0, base)
    }
  }

  function CardOf(title: string, body: string, excluded: seq<bool>, plain: string -> bool): Card
    requires |excluded| == |LinesOf(body)|
  {
    var arrows := ArrowsOf(title, body, excluded, plain);
    Card(Head(title) + body, MovedAll(arrows, |Head(title)|), BaseNumber(title, body))
  }

  /** Anki reads exactly the author's markers, each where its text went, and one marker
      per wrapped side, from the generated opening to the generated braces. */
  ghost predicate ReadsBack(c: Card) {
    multiset(Spans(c.Composed())) == multiset(ImageSpans(p => c.Place(p), Spans(c.source))) + multiset(c.Made())
  }

  /** What a caller can check beforehand: no marker the author wrote reaches into a side
      that is to be wrapped, and no number runs past the largest int. */
  predicate SidesFree(c: Card) {
    forall k :: 0 <= k < |c.arrows| ==> SideFree(c, k)
  }

  predicate SideFree(c: Card, k: nat)
    requires k < |c.arrows|
  {
    var a := c.arrows[k];
    && (WrapsLeft(c.source, a) ==> !InsideAnySpan(Spans(c.source), a.leftStart) && LeftNumber(c.base, k) >= 0)
    && (WrapsRight(c.source, a) ==> RightNumber(c.base, k) >= 0)
  }

  ghost predicate GoodCard(c: Card) {
    && Chain(c.source, c.arrows, 0, 0)
    && forall k :: 0 <= k < |c.arrows| ==> !InsideAnySpan(Spans(c.source), c.arrows[k].tokenStart)
  }

  lemma {:induction false} ChainBounds(s: string, arrows: seq<Arrow>, n: nat, at: int, k: nat)
    requires n <= k < |arrows| && Chain(s, arrows, n, at)
    ensures arrows[k].leftStart < |s| && arrows[k].tokenStart < |s| && 0 <= at
    decreases k - n
  {
    hide Sticky, NoBraces;
    if n < k { ChainBounds(s, arrows, n + 1, arrows[n].lineEnd, k); }
  }

  /** The lengths of the pieces written for one arrow line. */
  lemma PlaceLengths(s: string, arrows: seq<Arrow>, n: nat, at: int, out: int, base: int)
    requires n < |arrows| && Placed(s, arrows[n], at)
    ensures var a, q := arrows[n], PlacesOf(s, arrows, n, at, out, base);
            && q.leftStart == out + (a.leftStart - at)
            && q.leftEnd == q.leftStart + |NewLeft(s, a, base, n)|
            && q.tokenEnd == q.leftEnd + (a.tokenStart - a.leftEnd) + |Snippet(a.token)|
            && q.rightStart == q.tokenEnd + (a.rightStart - a.tokenEnd)
            && q.rightEnd == q.rightStart + |NewRight(s, a, base, n)|
            && q.lineEnd == q.rightEnd + (a.lineEnd - a.rightEnd) + |Break(arrows, n)|
            && |Compose(s, arrows, n, at, base)| == (q.lineEnd - out) + |Compose(s, arrows, n + 1, a.lineEnd, base)|
  {
    hide Sticky, NoBraces, NewLeft, NewRight, Snippet, Break;
  }

  lemma ComposeLast(s: string, arrows: seq<Arrow>, n: nat, base: int)
    requires n < |arrows| && Chain(s, arrows, n + 1, |s|)
    ensures n + 1 == |arrows| && Break(arrows, n) == "" && Compose(s, arrows, n + 1, |s|, base) == ""
  {
    hide Sticky, NoBraces;
  }

  /** The last character of the text ends up last. */
  lemma {:induction false} ImageEnd(s: string, arrows: seq<Arrow>, n: nat, at: int, out: int, base: int)
    requires Chain(s, arrows, n, at) && at < |s|
    ensures Image(s, arrows, n, at, out, base, |s| - 1) + 1 == out + |Compose(s, arrows, n, at, base)|
    decreases |arrows| - n
  {
    hide Sticky, NoBraces, PlacesOf, Compose, Break, NewLeft, NewRight, Snippet, TokenText;
    if n < |arrows| {
      var a, q := arrows[n], PlacesOf(s, arrows, n, at, out, base);
      PlaceLengths(s, arrows, n, at, out, base);
      if a.lineEnd < |s| {
        ImageEnd(s, arrows, n + 1, a.lineEnd, q.lineEnd, base);
      } else {
        ComposeLast(s, arrows, n, base);
      }
    } else {
      ComposeRest(s, arrows, n, at, base);
    }
  }

  lemma ComposeRest(s: string, arrows: seq<Arrow>, n: nat, at: int, base: int)
    requires 0 <= at <= |s| && n >= |arrows|
    ensures Compose(s, arrows, n, at, base) == s[at..]
  {
  }

  lemma ReadsBackWhenFree(c: Card)
    requires GoodCard(c) && SidesFree(c) && c.source != ""
    ensures ReadsBack(c)
  {
    hide Scan, OpeningLength, Compose, Image, Generated, WrapsLeft, WrapsRight, LeftNumber, RightNumber, Chain,
      InsideAnySpan, Uncovered, ReadsAs;
    var f := p => c.Place(p);
    var s := c.source;
    assert s[0..] == s;
    forall k | 0 <= k < |c.arrows|
      ensures Uncovered(Scan(Outside, s, 0), c.arrows[k].tokenStart)
      ensures SideReadable(s, c.arrows[k], k, Scan(Outside, s, 0), c.base)
    {
      ChainBounds(s, c.arrows, 0, 0, k);
      UncoveredIff(s, c.arrows[k].tokenStart);
      UncoveredIff(s, c.arrows[k].leftStart);
      assert SideFree(c, k);
    }
    ReadBackFrom(f, s, c.arrows, 0, 0, 0, c.base, Outside);
    ImageEnd(s, c.arrows, 0, 0, 0, c.base);
    FinishReads(f, s, c.Composed(), c.Made());
  }

  lemma LostMarker(c: Card, g: Span)
    requires g in c.Made() && g !in Spans(c.Composed())
    ensures !ReadsBack(c)
  {
    hide Spans, Generated, Compose, Image, ImageSpans;
    assert multiset(c.Made())[g] > 0;
    assert multiset(Spans(c.Composed()))[g] == 0;
  }

  /** A number that wrapped around leaves no marker to read. */
  lemma LostByNumber(c: Card, k: nat, left: bool)
    requires k < |c.arrows| && WrapsSide(c.source, c.arrows[k], left) && SideNumber(c.base, k, left) < 0
    ensures !ReadsBack(c)
  {
    hide Spans, Generated, Compose, Image, ImageSpans, SideNumber, Marker, WrapsSide, ReadsBack;
    var g, tail := GeneratedText(c.source, c.arrows, 0, 0, 0, c.base, k, left);
    var side := if left then LeftSide(c.source, c.arrows[k]) else RightSide(c.source, c.arrows[k]);
    MarkerOpening(SideNumber(c.base, k, left), side, tail);
    SpansOrdered(c.Composed());
    LostMarker(c, g);
  }

  lemma NoTwoCover(spans: seq<Span>, x: Span, g: Span)
    requires Ordered(spans) && x in spans && g in spans
    ensures !(x.start < g.start < g.end && g.end == x.end)
  {
    var i :| 0 <= i < |spans| && spans[i] == x;
    var j :| 0 <= j < |spans| && spans[j] == g;
  }

  /** A marker of the author's that reaches into a wrapped side swallows the generated one. */
  lemma LostBySwallowing(c: Card, k: nat)
    requires GoodCard(c) && k < |c.arrows|
    requires forall j :: 0 <= j < k ==> SideFree(c, j)
    requires WrapsLeft(c.source, c.arrows[k]) && InsideAnySpan(Spans(c.source), c.arrows[k].leftStart)
    ensures !ReadsBack(c)
  {
    hide Scan, OpeningLength, Compose, Image, Generated, WrapsLeft, WrapsRight, LeftNumber, RightNumber, Chain,
      InsideAnySpan, Uncovered, ReadsBack, Ordered;
    var f := p => c.Place(p);
    var s := c.source;
    assert s[0..] == s;
    forall j | 0 <= j < |c.arrows|
      ensures Uncovered(Scan(Outside, s, 0), c.arrows[j].tokenStart)
      ensures j < k ==> SideReadable(s, c.arrows[j], j, Scan(Outside, s, 0), c.base)
      ensures j == k ==> !Uncovered(Scan(Outside, s, 0), c.arrows[j].leftStart)
    {
      ChainBounds(s, c.arrows, 0, 0, j);
      UncoveredIff(s, c.arrows[j].tokenStart);
      UncoveredIff(s, c.arrows[j].leftStart);
      if j < k { assert SideFree(c, j); }
    }
    var x, g := SwallowedFrom(f, s, c.arrows, 0, 0, 0, c.base, Outside, k);
    SpansOrdered(c.Composed());
    assert x in Spans(c.Composed());
    var g', tail := GeneratedText(s, c.arrows, 0, 0, 0, c.base, k, true);
    if g in Spans(c.Composed()) { NoTwoCover(Spans(c.Composed()), x, g); }
    LostMarker(c, g);
  }

  /** Read-back holds exactly when every wrapped side is free. */
  lemma ReadBackExactly(c: Card)
    requires GoodCard(c) && c.source != ""
    ensures ReadsBack(c) <==> SidesFree(c)
  {
    hide ReadsBack, GoodCard, Spans, InsideAnySpan, WrapsLeft, WrapsRight, LeftNumber, RightNumber;
    if SidesFree(c) {
      ReadsBackWhenFree(c);
    } else {
      var k := FirstBound(c, 0);
      var a := c.arrows[k];
      if WrapsRight(c.source, a) && RightNumber(c.base, k) < 0 {
        LostByNumber(c, k, false);
      } else if LeftNumber(c.base, k) < 0 {
        LostByNumber(c, k, true);
      } else {
        LostBySwallowing(c, k);
      }
    }
  }

  lemma FirstBound(c: Card, from: nat) returns (k: nat)
    requires !SidesFree(c)
    requires forall j :: 0 <= j < from && j < |c.arrows| ==> SideFree(c, j)
    ensures k < |c.arrows| && !SideFree(c, k) && forall j :: 0 <= j < k ==> SideFree(c, j)
    decreases |c.arrows| - from
  {
    hide SideFree;
    if from < |c.arrows| && !SideFree(c, from) { return from; }
    k := FirstBound(c, from + 1);
  }

  lemma CardToken(title: string, body: string, excluded: seq<bool>, plain: string -> bool, k: nat, p: int)
    requires |excluded| == |LinesOf(body)| && k < |ArrowsOf(title, body, excluded, plain)|
    requires p == CardOf(title, body, excluded, plain).arrows[k].tokenStart
    ensures !InsideAnySpan(Spans(Combine(title, body)), p)
  {
    hide LinesOf, Spans, BaseNumber, ArrowsFrom, Combine;
    var spans := Spans(Combine(title, body));
    var a := ArrowsOf(title, body, excluded, plain)[k];
    ArrowsClear(LinesOf(body), excluded, spans, |title| + 2, plain, 0, a);
    assert CardOf(title, body, excluded, plain).arrows[k] == Moved(a, |Head(title)|);
    assert p == |title| + 2 + a.tokenStart;
    assert !InsideAnySpan(spans, p);
  }

  lemma CardChain(title: string, body: string, excluded: seq<bool>, plain: string -> bool)
    requires |excluded| == |LinesOf(body)|
    ensures var c := CardOf(title, body, excluded, plain); Chain(c.source, c.arrows, 0, 0)
  {
    hide Chain, LinesFrom, LineOf, Spans, BaseNumber, Sticky, ArrowsFrom;
    var lines, spans, pre := LinesOf(body), Spans(Combine(title, body)), Head(title);
    LinesTile(body, 0);
    NewlinePlain();
    if lines != [] { TileAt(body, lines, 0, 0); }
    ArrowsChain(pre, body, lines, excluded, spans, plain, 0, 0);
  }

  /** Every entry gives a card the theorem speaks about. */
  lemma CardIsGood(title: string, body: string, excluded: seq<bool>, plain: string -> bool)
    requires |excluded| == |LinesOf(body)| && body != ""
    ensures var c := CardOf(title, body, excluded, plain);
            GoodCard(c) && c.source == Combine(title, body) && c.source != ""
  {
    hide Chain, LinesOf, InsideAnySpan, Spans, BaseNumber, ArrowsOf;
    CardChain(title, body, excluded, plain);
    var c := CardOf(title, body, excluded, plain);
    forall k | 0 <= k < |c.arrows| ensures !InsideAnySpan(Spans(c.source), c.arrows[k].tokenStart) {
      CardToken(title, body, excluded, plain, k, c.arrows[k].tokenStart);
    }
  }

  /** The read-back law of the swift card, for every entry: the text that reaches Anki's
      reader is the title and the composed body, and it reads back exactly when no marker
      of the author's reaches into a wrapped side and no number overflows. */
  lemma SwiftReadBack(title: string, body: string, excluded: seq<bool>, plain: string -> bool)
    requires |excluded| == |LinesOf(body)| && body != ""
    ensures var c := CardOf(title, body, excluded, plain);
            var arrows := ArrowsOf(title, body, excluded, plain);
            && c.Composed() == Combine(title, Compose(body, arrows, 0, 0, BaseNumber(title, body)))
            && (ReadsBack(c) <==> SidesFree(c))
  {
    hide ReadsBack, SidesFree, Compose, BaseNumber, Chain, InOrder, LinesFrom, ArrowsFrom;
    CardIsGood(title, body, excluded, plain);
    ReadBackExactly(CardOf(title, body, excluded, plain));
    var arrows := ArrowsOf(title, body, excluded, plain);
    LinesTile(body, 0);
    var lines := LinesOf(body);
    if lines != [] { TileAt(body, lines, 0, 0); }
    ArrowsInOrder(body, lines, excluded, Spans(Combine(title, body)), |title| + 2, plain, 0, 0);
    ComposeWhole(Head(title), body, arrows, BaseNumber(title, body));
    ComposeNonempty(body, arrows, BaseNumber(title, body));
  }

  lemma ComposeNonempty(body: string, arrows: seq<Arrow>, base: int)
    requires body != ""
    ensures Compose(body, arrows, 0, 0, base) != ""
  {
    if |arrows| > 0 {
      var c := LeftHalf(body, arrows[0], 0, base, 0);
      assert |Snippet(arrows[0].token)| > 0;
    }
  }
}
