/** What swift composition leaves alone: every character outside sides, tokens and
    appended breaks, and the number of lines. */
module SwiftConserve {
  import opened Basics
  import opened Lines
  import opened Cloze
  import opened ArrowLines
  import opened Swift
  import opened SwiftCard
  import opened SwiftLaws

  /** Position p lies in a token or in a wrapped side of this arrow line. */
  predicate RewrittenBy(s: string, a: Arrow, p: int) {
    || a.tokenStart <= p < a.tokenEnd
    || (WrapsLeft(s, a) && a.leftStart <= p < a.leftEnd)
    || (WrapsRight(s, a) && a.rightStart <= p < a.rightEnd)
  }

  predicate Rewritten(s: string, arrows: seq<Arrow>, n: nat, p: int) {
    exists k :: n <= k < |arrows| && RewrittenBy(s, arrows[k], p)
  }

  predicate CopyAt(c: string, i: int, ch: char) {
    0 <= i < |c| && c[i] == ch
  }

  /** A character of a stretch that is written as it stands. */
  lemma CopiedLeft(s: string, a: Arrow, at: int, base: int, n: nat, p: int)
    requires Placed(s, a, at) && at <= p < a.tokenStart && !RewrittenBy(s, a, p)
    ensures var i := if p < a.leftStart then p - at
              else (a.leftStart - at) + |NewLeft(s, a, base, n)| + (p - a.leftEnd);
            CopyAt(LeftHalf(s, a, at, base, n), i, s[p])
  {
    hide Sticky, NoBraces, Snippet, Marker, HasMarker;
    var pre, side, gap := s[at..a.leftStart], NewLeft(s, a, base, n), s[a.leftEnd..a.tokenStart];
    assert LeftHalf(s, a, at, base, n) == pre + side + gap + Snippet(a.token);
    if a.leftStart <= p < a.leftEnd { assert side == s[a.leftStart..a.leftEnd]; }
  }

  lemma CopiedRight(s: string, a: Arrow, br: string, at: int, base: int, n: nat, p: int)
    requires Placed(s, a, at) && a.tokenEnd <= p < a.lineEnd && !RewrittenBy(s, a, p)
    ensures var i := if p < a.rightStart then p - a.tokenEnd
                     else (a.rightStart - a.tokenEnd) + |NewRight(s, a, base, n)| + (p - a.rightEnd);
            CopyAt(RightHalf(s, a, br, base, n), i, s[p])
  {
    hide Sticky, NoBraces, Marker, HasMarker;
    var gap, side, post := s[a.tokenEnd..a.rightStart], NewRight(s, a, base, n), s[a.rightEnd..a.lineEnd];
    assert RightHalf(s, a, br, base, n) == gap + side + post + br;
    if a.rightStart <= p < a.rightEnd { assert side == s[a.rightStart..a.rightEnd]; }
  }

  lemma InFirst(a: string, b: string, c: string, i: int, ch: char)
    requires CopyAt(a, i, ch)
    ensures CopyAt(a + b + c, i, ch)
  {
  }

  lemma InSecond(a: string, b: string, c: string, i: int, j: int, ch: char)
    requires CopyAt(b, i, ch) && j == |a| + i
    ensures CopyAt(a + b + c, j, ch)
  {
  }

  lemma InLast(a: string, b: string, c: string, i: int, j: int, ch: char)
    requires CopyAt(c, i, ch) && j == |a| + |b| + i
    ensures CopyAt(a + b + c, j, ch)
  {
  }

  /** Every character composition does not rewrite is in the result, at its image. */
  lemma {:induction false} Conserves(s: string, arrows: seq<Arrow>, n: nat, at: int, out: int, base: int, p: int)
    requires Chain(s, arrows, n, at) && 0 <= at <= p < |s| && !Rewritten(s, arrows, n, p)
    ensures CopyAt(Compose(s, arrows, n, at, base), Image(s, arrows, n, at, out, base, p) - out, s[p])
    decreases |arrows| - n
  {
    hide RewrittenBy, Rewritten, Placed, LeftHalf, RightHalf, Break, NewLeft, NewRight, CopyAt;
    if n >= |arrows| {
      CopiedRest(s, arrows, n, at, base, p);
    } else {
      var a, q := arrows[n], PlacesOf(s, arrows, n, at, out, base);
      var c1, c2, c3 := LeftHalf(s, a, at, base, n), RightHalf(s, a, Break(arrows, n), base, n),
                        Compose(s, arrows, n + 1, a.lineEnd, base);
      var j := Image(s, arrows, n, at, out, base, p) - out;
      var c := Compose(s, arrows, n, at, base);
      assert c == c1 + c2 + c3;
      PlacedOrder(s, a, at);
      if p < a.lineEnd {
        var i := CopiedHere(s, arrows, n, at, out, base, p);
        if j == i && CopyAt(c1, i, s[p]) { InFirst(c1, c2, c3, i, s[p]); } else { InSecond(c1, c2, c3, i, j, s[p]); }
      } else {
        LaterRewritten(s, arrows, n, p);
        Conserves(s, arrows, n + 1, a.lineEnd, q.lineEnd, base, p);
        var i := Image(s, arrows, n + 1, a.lineEnd, q.lineEnd, base, p) - q.lineEnd;
        assert j == |c1| + |c2| + i;
        InLast(c1, c2, c3, i, j, s[p]);
      }
    }
  }

  lemma CopiedRest(s: string, arrows: seq<Arrow>, n: nat, at: int, base: int, p: int)
    requires n >= |arrows| && 0 <= at <= p < |s|
    ensures CopyAt(Compose(s, arrows, n, at, base), p - at, s[p])
  {
  }

  /** The place of a character of arrow line n, in the half of it that holds the character. */
  lemma CopiedHere(s: string, arrows: seq<Arrow>, n: nat, at: int, out: int, base: int, p: int) returns (i: int)
    requires n < |arrows| && Placed(s, arrows[n], at) && at <= p < arrows[n].lineEnd && !Rewritten(s, arrows, n, p)
    ensures var a := arrows[n];
            var c1, c2 := LeftHalf(s, a, at, base, n), RightHalf(s, a, Break(arrows, n), base, n);
            || (CopyAt(c1, i, s[p]) && Image(s, arrows, n, at, out, base, p) - out == i)
            || (CopyAt(c2, i, s[p]) && Image(s, arrows, n, at, out, base, p) - out == |c1| + i)
  {
    hide CopyAt, RewrittenBy, LeftHalf, RightHalf, Sticky, NoBraces, Break, NewLeft, NewRight, Snippet;
    var a := arrows[n];
    PlaceLengths(s, arrows, n, at, out, base);
    assert !RewrittenBy(s, a, p);
    if p < a.tokenStart {
      CopiedLeft(s, a, at, base, n, p);
      i := if p < a.leftStart then p - at else (a.leftStart - at) + |NewLeft(s, a, base, n)| + (p - a.leftEnd);
    } else {
      if p < a.tokenEnd { TokenRewritten(s, a, p); }
      CopiedRight(s, a, Break(arrows, n), at, base, n, p);
      i := if p < a.rightStart then p - a.tokenEnd
           else (a.rightStart - a.tokenEnd) + |NewRight(s, a, base, n)| + (p - a.rightEnd);
    }
  }

  lemma TokenRewritten(s: string, a: Arrow, p: int)
    requires a.tokenStart <= p < a.tokenEnd
    ensures RewrittenBy(s, a, p)
  {
  }

  lemma LaterRewritten(s: string, arrows: seq<Arrow>, n: nat, p: int)
    requires !Rewritten(s, arrows, n, p)
    ensures !Rewritten(s, arrows, n + 1, p)
  {
    hide RewrittenBy;
  }

  // ---------------------------------------------------- order of the characters

  lemma {:induction false} SeparateGrows(s: string)
    ensures |Separate(s)| >= |s|
  {
    if |s| >= 2 { SeparateGrows(s[1..]); }
  }

  lemma SideGrows(side: string, number: int, selected: bool)
    ensures |SideText(side, number, selected)| >= |side|
  {
    hide HasMarker, Separate, Decimal;
    SeparateGrows(side);
  }

  lemma SnippetGrows(t: Token)
    ensures |Snippet(t)| >= |TokenText(t)|
  {
  }

  lemma Grows(s: string, arrows: seq<Arrow>, n: nat, at: int, out: int, base: int)
    requires n < |arrows| && Placed(s, arrows[n], at)
    ensures var a, q := arrows[n], PlacesOf(s, arrows, n, at, out, base);
            && q.leftStart == out + (a.leftStart - at)
            && q.leftEnd - q.leftStart >= a.leftEnd - a.leftStart
            && q.tokenEnd - q.leftEnd >= a.tokenEnd - a.leftEnd
            && q.rightStart - q.tokenEnd == a.rightStart - a.tokenEnd
            && q.rightEnd - q.rightStart >= a.rightEnd - a.rightStart
            && q.lineEnd - q.rightEnd >= a.lineEnd - a.rightEnd
  {
    hide Sticky, NoBraces, SideText, Snippet, TokenText, PlacesOf, Compose, Break;
    var a := arrows[n];
    PlaceLengths(s, arrows, n, at, out, base);
    SideGrows(LeftSide(s, a), LeftNumber(base, n), a.token != Rightward);
    SideGrows(RightSide(s, a), RightNumber(base, n), a.token != Leftward);
    SnippetGrows(a.token);
    assert |s[a.tokenStart..a.tokenEnd]| == a.tokenEnd - a.tokenStart;
  }

  lemma {:induction false} ImageAtLeast(s: string, arrows: seq<Arrow>, n: nat, at: int, out: int, base: int, p: int)
    requires Chain(s, arrows, n, at) && at <= p
    ensures Image(s, arrows, n, at, out, base, p) >= out + (p - at)
    decreases |arrows| - n
  {
    hide Sticky, NoBraces, PlacesOf;
    if n < |arrows| {
      var a, q := arrows[n], PlacesOf(s, arrows, n, at, out, base);
      Grows(s, arrows, n, at, out, base);
      if p >= a.lineEnd { ImageAtLeast(s, arrows, n + 1, a.lineEnd, q.lineEnd, base, p); }
    }
  }

  /** Composition keeps the order of the characters. */
  lemma {:induction false} ImageIncreases(s: string, arrows: seq<Arrow>, n: nat, at: int, out: int, base: int,
                                          p: int, r: int)
    requires Chain(s, arrows, n, at) && at <= p < r
    ensures Image(s, arrows, n, at, out, base, p) < Image(s, arrows, n, at, out, base, r)
    decreases |arrows| - n
  {
    hide Sticky, NoBraces, PlacesOf;
    if n < |arrows| {
      var a, q := arrows[n], PlacesOf(s, arrows, n, at, out, base);
      Grows(s, arrows, n, at, out, base);
      if r >= a.lineEnd {
        if p >= a.lineEnd {
          ImageIncreases(s, arrows, n + 1, a.lineEnd, q.lineEnd, base, p, r);
        } else {
          ImageAtLeast(s, arrows, n + 1, a.lineEnd, q.lineEnd, base, r);
        }
      }
    }
  }

  // ------------------------------------------------------------------- lines

  function Newlines(s: string): nat {
    if s == "" then 0 else (if s[0] == '\n' then 1 else 0) + Newlines(s[1..])
  }

  lemma {:induction false} NewlinesConcat(a: string, b: string)
    ensures Newlines(a + b) == Newlines(a) + Newlines(b)
  {
    if a == "" {
      assert a + b == b;
    } else {
      assert (a + b)[1..] == a[1..] + b;
      NewlinesConcat(a[1..], b);
    }
  }

  lemma {:induction false} NoNewlines(s: string)
    requires '\n' !in s
    ensures Newlines(s) == 0
  {
    if s != "" { NoNewlines(s[1..]); }
  }

  lemma SideTextNewlines(side: string, number: int, selected: bool)
    requires '\n' !in side
    ensures Newlines(SideText(side, number, selected)) == 0
  {
    hide HasMarker, SafeText, Digits;
    SafeTextFacts(side);
    var d := Decimal(number);
    assert '\n' !in d;
    NoNewlines(SideText(side, number, selected));
  }

  lemma SnippetNewlines(t: Token)
    ensures Newlines(Snippet(t)) == 0 && Newlines(LINE_BREAK) == 0
  {
    hide Newlines;
    ConstantNewlines();
    NoNewlines(Escaped(t));
    NewlinesConcat(SNIPPET_OPEN + Escaped(t), SNIPPET_CLOSE);
    NewlinesConcat(SNIPPET_OPEN, Escaped(t));
  }

  lemma ConstantNewlines()
    ensures Newlines(SNIPPET_OPEN) == 0 && Newlines(SNIPPET_CLOSE) == 0 && Newlines(LINE_BREAK) == 0
  {
    hide Newlines;
    NoNewlines(SNIPPET_OPEN);
    NoNewlines(SNIPPET_CLOSE);
    NoNewlines(LINE_BREAK);
  }

  lemma NewlinesFour(a: string, b: string, c: string, d: string)
    ensures Newlines(a + b + c + d) == Newlines(a) + Newlines(b) + Newlines(c) + Newlines(d)
  {
    NewlinesConcat(a + b + c, d);
    NewlinesConcat(a + b, c);
    NewlinesConcat(a, b);
  }

  lemma TokenNewlines(t: Token)
    ensures Newlines(TokenText(t)) == 0
  {
    NoNewlines(TokenText(t));
  }

  lemma LineNewlines(s: string, a: Arrow, br: string, at: int, base: int, n: nat)
    requires Placed(s, a, at) && '\n' !in LeftSide(s, a) && '\n' !in RightSide(s, a) && Newlines(br) == 0
    ensures Newlines(LeftHalf(s, a, at, base, n)) + Newlines(RightHalf(s, a, br, base, n)) == Newlines(s[at..a.lineEnd])
  {
    hide Newlines, Sticky, NoBraces, SideText, Snippet, TokenText;
    var left, right := LeftSide(s, a), RightSide(s, a);
    var p, g, h, w := s[at..a.leftStart], s[a.leftEnd..a.tokenStart], s[a.tokenEnd..a.rightStart],
      s[a.rightEnd..a.lineEnd];
    NewlinesFour(p, NewLeft(s, a, base, n), g, Snippet(a.token));
    NewlinesFour(h, NewRight(s, a, base, n), w, br);
    SideTextNewlines(left, LeftNumber(base, n), a.token != Rightward);
    SideTextNewlines(right, RightNumber(base, n), a.token != Leftward);
    SnippetNewlines(a.token);
    TokenNewlines(a.token);
    NoNewlines(left);
    NoNewlines(right);
    assert s[at..a.tokenEnd] == p + left + g + TokenText(a.token);
    NewlinesFour(p, left, g, TokenText(a.token));
    assert s[a.tokenEnd..a.lineEnd] == h + right + w + "";
    NewlinesFour(h, right, w, "");
    NoNewlines("");
    assert s[at..a.lineEnd] == s[at..a.tokenEnd] + s[a.tokenEnd..a.lineEnd];
    NewlinesConcat(s[at..a.tokenEnd], s[a.tokenEnd..a.lineEnd]);
  }

  lemma NewlinesThree(a: string, b: string, c: string)
    ensures Newlines(a + b + c) == Newlines(a) + Newlines(b) + Newlines(c)
  {
    NewlinesConcat(a + b, c);
    NewlinesConcat(a, b);
  }

  lemma BreakNewlines(arrows: seq<Arrow>, n: nat)
    ensures Newlines(Break(arrows, n)) == 0
  {
    hide Newlines;
    SnippetNewlines(Both);
    NoNewlines("");
  }

  lemma NewlinesSplit(s: string, at: int, end: int)
    requires 0 <= at <= end <= |s|
    ensures Newlines(s[at..]) == Newlines(s[at..end]) + Newlines(s[end..])
  {
    assert s[at..] == s[at..end] + s[end..];
    NewlinesConcat(s[at..end], s[end..]);
  }

  /** Composition inserts no line and joins none. */
  lemma {:induction false} LinesKept(s: string, arrows: seq<Arrow>, n: nat, at: int, base: int)
    requires Chain(s, arrows, n, at) && 0 <= at <= |s|
    requires forall a :: a in arrows ==> '\n' !in LeftSide(s, a) && '\n' !in RightSide(s, a)
    ensures Newlines(Compose(s, arrows, n, at, base)) == Newlines(s[at..])
    decreases |arrows| - n
  {
    hide Newlines, LeftHalf, RightHalf, Sticky, NoBraces, LeftSide, RightSide, Break;
    if n < |arrows| {
      var a, br := arrows[n], Break(arrows, n);
      assert a in arrows;
      BreakNewlines(arrows, n);
      LineNewlines(s, a, br, at, base, n);
      LinesKept(s, arrows, n + 1, a.lineEnd, base);
      NewlinesThree(LeftHalf(s, a, at, base, n), RightHalf(s, a, br, base, n),
                    Compose(s, arrows, n + 1, a.lineEnd, base));
      NewlinesSplit(s, at, a.lineEnd);
    } else {
      ComposeRest(s, arrows, n, at, base);
    }
  }

  lemma StretchHasNoNewline(pre: string, body: string, ln: Line, i: int, j: int)
    requires LineOf(body, ln) && |pre| + ln.start <= i <= j <= |pre| + ln.end
    ensures '\n' !in Cut(pre + body, i, j)
  {
    hide IndentOf, Blank;
    var k := |pre| + ln.start;
    SliceOfLine(pre, body, ln, i - k, j - k);
    assert (pre + body)[i..j] == ln.text[i - k..j - k];
  }

  lemma SideHasNoNewline(pre: string, body: string, ln: Line, b: Arrow)
    requires LineOf(body, ln) && ReadParts(ln.text, |pre| + ln.start, b)
    ensures '\n' !in LeftSide(pre + body, b) && '\n' !in RightSide(pre + body, b)
  {
    hide LineOf, TokenBefore, BlankBetween, TokenText, Cut;
    LineLength(body, ln);
    StretchHasNoNewline(pre, body, ln, b.leftStart, b.leftEnd);
    StretchHasNoNewline(pre, body, ln, b.rightStart, b.rightEnd);
  }

  lemma CardSides(title: string, body: string, excluded: seq<bool>, plain: string -> bool, b: Arrow)
    requires |excluded| == |LinesOf(body)| && b in CardOf(title, body, excluded, plain).arrows
    ensures var s := Head(title) + body; '\n' !in LeftSide(s, b) && '\n' !in RightSide(s, b)
  {
    hide LinesFrom, LineOf, Tile, Spans, BaseNumber, ArrowsFrom, Combine, LeftSide, RightSide, ReadParts, ReadArrowLine;
    var lines, arrows := LinesOf(body), ArrowsOf(title, body, excluded, plain);
    var k :| 0 <= k < |arrows| && b == Moved(arrows[k], |Head(title)|);
    var a := arrows[k];
    ArrowsClear(lines, excluded, Spans(Combine(title, body)), |title| + 2, plain, 0, a);
    LinesTile(body, 0);
    TileAt(body, lines, 0, a.line);
    LineLength(body, lines[a.line]);
    MovedParts(lines[a.line], a.line, |Head(title)|);
    SideHasNoNewline(Head(title), body, lines[a.line], b);
  }

  lemma CardConserves(c: Card, p: int)
    requires Chain(c.source, c.arrows, 0, 0) && 0 <= p < |c.source| && !Rewritten(c.source, c.arrows, 0, p)
    ensures CopyAt(c.Composed(), c.Place(p), c.source[p])
  {
    hide Compose, Image, CopyAt, Chain, Rewritten;
    Conserves(c.source, c.arrows, 0, 0, 0, c.base, p);
    assert c.Place(p) == Image(c.source, c.arrows, 0, 0, 0, c.base, p) - 0;
  }

  lemma CardOrder(c: Card, p: int, r: int)
    requires Chain(c.source, c.arrows, 0, 0) && 0 <= p < r
    ensures c.Place(p) < c.Place(r)
  {
    hide Image, Chain;
    ImageIncreases(c.source, c.arrows, 0, 0, 0, c.base, p, r);
  }

  /** Conservation for every entry: each character outside tokens and wrapped sides is in
      the result, in the same order, and the number of lines is the same. */
  lemma SwiftConserves(title: string, body: string, excluded: seq<bool>, plain: string -> bool)
    requires |excluded| == |LinesOf(body)|
    ensures var c := CardOf(title, body, excluded, plain);
            && (forall p :: 0 <= p < |c.source| && !Rewritten(c.source, c.arrows, 0, p)
                  ==> CopyAt(c.Composed(), c.Place(p), c.source[p]))
            && (forall p, r :: 0 <= p < r ==> c.Place(p) < c.Place(r))
            && Newlines(c.Composed()) == Newlines(c.source)
  {
    hide Chain, Compose, Image, Newlines, LeftSide, RightSide, CardOf;
    CardChain(title, body, excluded, plain);
    CardSource(title, body, excluded, plain);
    var c := CardOf(title, body, excluded, plain);
    forall p | 0 <= p < |c.source| && !Rewritten(c.source, c.arrows, 0, p)
      ensures CopyAt(c.Composed(), c.Place(p), c.source[p])
    {
      CardConserves(c, p);
    }
    forall p, r | 0 <= p < r ensures c.Place(p) < c.Place(r) {
      CardOrder(c, p, r);
    }
    forall a | a in c.arrows ensures '\n' !in LeftSide(c.source, a) && '\n' !in RightSide(c.source, a) {
      CardSides(title, body, excluded, plain, a);
    }
    LinesKept(c.source, c.arrows, 0, 0, c.base);
    assert c.source[0..] == c.source;
  }

  lemma CardSource(title: string, body: string, excluded: seq<bool>, plain: string -> bool)
    requires |excluded| == |LinesOf(body)|
    ensures CardOf(title, body, excluded, plain).source == Head(title) + body
  {
  }
}
