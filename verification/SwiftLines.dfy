/** What swift composition makes of each line of a body, told line by line and without
    offsets (composeArrowLines, internal/anki/orgdoc/swift.go). */
module SwiftLines {
  import opened Basics
  import opened Lines
  import opened Cloze
  import opened ArrowLines
  import opened Swift
  import opened ReadBack
  import opened SwiftCard
  import opened SwiftLaws
  import SwiftConserve

  /** A swift entry: title and body, the lines constructs exclude, the Org parser's answers. */
  datatype Entry = Entry(title: string, body: string, excluded: seq<bool>, plain: string -> bool) {
    predicate Fitted() {
      |excluded| == |LinesOf(body)|
    }

    /** Line i carries an arrow: it is not excluded, is plain text and reads as an arrow line
        whose token lies outside every marker the author wrote. */
    predicate Carries(i: nat)
      requires Fitted()
    {
      && i < |excluded| && !excluded[i] && plain(LinesOf(body)[i].text)
      && var a := ReadArrowLine(LinesOf(body)[i], i);
         a.Some? && !InsideAnySpan(Spans(Combine(title, body)), |title| + 2 + a.value.tokenStart)
    }

    /** How many lines before line i carry an arrow. */
    function Before(i: nat): nat
      requires Fitted()
    {
      if i == 0 then 0 else Before(i - 1) + if Carries(i - 1) then 1 else 0
    }

    function From(i: nat): seq<Arrow>
      requires Fitted()
    {
      ArrowsFrom(LinesOf(body), excluded, Spans(Combine(title, body)), |title| + 2, plain, i)
    }
  }

  /** The stretches of an arrow line. */
  datatype Pieces = Pieces(indent: string, left: string, gap: string, token: Token, gap': string, right: string,
                           rest: string)

  predicate Trimmed(side: string) {
    side != "" && !UnicodeSpace(side[0]) && !UnicodeSpace(side[|side| - 1])
  }

  /** The pieces of a line around its first token: two trimmed sides with white space about them. */
  ghost predicate Splits(text: string, p: Pieces) {
    && text == p.indent + p.left + p.gap + TokenText(p.token) + p.gap' + p.right + p.rest
    && Blank(p.indent) && Blank(p.gap) && Blank(p.gap') && Blank(p.rest) && Trimmed(p.left) && Trimmed(p.right)
    && var q := |p.indent + p.left + p.gap|;
       TokenBefore(text[q..]) == Some(p.token) && forall i :: 0 <= i < q ==> !IsToken(text[i..])
  }

  /** A token asks the side it points to. */
  predicate AsksLeft(t: Token) {
    TokenText(t)[1] == '<'
  }

  predicate AsksRight(t: Token) {
    TokenText(t)[|TokenText(t)| - 1] == '>'
  }

  /** The two angle brackets as character entities. */
  function HtmlEscaped(s: string): string {
    if s == "" then ""
    else (if s[0] == '<' then "&lt;" else if s[0] == '>' then "&gt;" else [s[0]]) + HtmlEscaped(s[1..])
  }

  function SideAs(side: string, asked: bool, number: int): string {
    if asked && !HasMarker(side) then "{{c" + Decimal(number) + "::" + SafeText(side) + "}}" else side
  }

  /** An arrow line composed, its right side numbered `right` and its left side one more. */
  function ComposedLine(p: Pieces, right: int): string {
    p.indent + SideAs(p.left, AsksLeft(p.token), Wrap64(right + 1)) + p.gap
    + "@@html:<b class=\"swift-arrow\">" + HtmlEscaped(TokenText(p.token)) + "</b>@@"
    + p.gap' + SideAs(p.right, AsksRight(p.token), Wrap64(right)) + p.rest
  }

  /** What is written for line i: the line itself, or its composed pieces, and behind them a
      break exactly when the next line carries an arrow, too. */
  ghost predicate Composes(e: Entry, i: nat, text: string)
    requires e.Fitted() && i < |LinesOf(e.body)|
  {
    var was := LinesOf(e.body)[i].text;
    if e.Carries(i) then
      exists p :: Splits(was, p) &&
        text == ComposedLine(p, HighestOf([e.title, e.body]) + 2 * e.Before(i) + 1)
                + if e.Carries(i + 1) then "@@html:<br>@@" else ""
    else text == was
  }

  /** The composed body has the lines of the body, each composed as its pieces say. */
  ghost predicate LineByLine(e: Entry, composed: string)
    requires e.Fitted()
  {
    var rows, rows' := Rows(LinesOf(e.body)), Rows(LinesOf(composed));
    && |rows'| == |rows|
    && forall i :: 0 <= i < |rows| ==> rows'[i].newline == rows[i].newline && Composes(e, i, rows'[i].text)
  }

  // ------------------------------------------------------------- pieces of one line

  lemma SnippetEscapes(t: Token)
    ensures Snippet(t) == "@@html:<b class=\"swift-arrow\">" + HtmlEscaped(TokenText(t)) + "</b>@@"
  {
    EscapedRest();
    match t
    case Rightward => EscapedStep(":->"); assert ":->"[1..] == "->";
    case Leftward => EscapedStep(":<-"); assert ":<-"[1..] == "<-";
    case Both => EscapedStep(":<->"); assert ":<->"[1..] == "<->";
  }

  lemma EscapedStep(s: string)
    requires s != ""
    ensures HtmlEscaped(s) ==
            (if s[0] == '<' then "&lt;" else if s[0] == '>' then "&gt;" else [s[0]]) + HtmlEscaped(s[1..])
  {
  }

  lemma EscapedRest()
    ensures HtmlEscaped("->") == "-&gt;" && HtmlEscaped("<-") == "&lt;-" && HtmlEscaped("<->") == "&lt;-&gt;"
  {
    EscapedStep(">");
    EscapedStep("-");
    EscapedStep("->");
    EscapedStep("<-");
    EscapedStep("<->");
    assert ">"[1..] == "" && "-"[1..] == "" && "->"[1..] == ">" && "<-"[1..] == "-" && "<->"[1..] == "->";
  }

  /** The pieces an arrow's offsets cut, the line starting at k. */
  function PiecesOf(text: string, k: nat, a: Arrow): Pieces {
    Pieces(Cut(text, 0, a.leftStart - k), Cut(text, a.leftStart - k, a.leftEnd - k),
           Cut(text, a.leftEnd - k, a.tokenStart - k), a.token, Cut(text, a.tokenEnd - k, a.rightStart - k),
           Cut(text, a.rightStart - k, a.rightEnd - k), Cut(text, a.rightEnd - k, |text|))
  }

  lemma BlankCut(text: string, i: nat, j: nat)
    requires i <= j <= |text| && BlankBetween(text, i, j)
    ensures Blank(Cut(text, i, j))
  {
    hide UnicodeSpace;
  }

  lemma ArrowSplits(ln: Line, line: nat)
    requires ReadArrowLine(ln, line).Some?
    ensures Splits(ln.text, PiecesOf(ln.text, ln.start, ReadArrowLine(ln, line).value))
  {
    hide TokenBefore, IsToken, UnicodeSpace, ReadArrowLine, FirstToken, TokenText, Blank, BlankBetween, Cut, Trimmed,
      StartsWith;
    ArrowLineParts(ln, line);
    var a, k, text := ReadArrowLine(ln, line).value, ln.start, ln.text;
    var p := PiecesOf(text, k, a);
    var q := FirstToken(text, 0);
    TokenThere(text[q..]);
    TokenCut(text, q, TokenText(a.token));
    BlankCut(text, 0, a.leftStart - k);
    BlankCut(text, a.leftEnd - k, q);
    BlankCut(text, a.tokenEnd - k, a.rightStart - k);
    BlankCut(text, a.rightEnd - k, |text|);
    TrimmedCut(text, a.leftStart - k, a.leftEnd - k);
    TrimmedCut(text, a.rightStart - k, a.rightEnd - k);
    ThreeCuts(text, a.leftStart - k, a.leftEnd - k, q);
    SevenCuts(text, a.leftStart - k, a.leftEnd - k, q, a.tokenEnd - k, a.rightStart - k, a.rightEnd - k);
  }

  lemma TokenCut(text: string, q: nat, token: string)
    requires q <= |text| && StartsWith(text[q..], token)
    ensures Cut(text, q, q + |token|) == token
  {
    assert text[q..][..|token|] == text[q..q + |token|];
  }

  lemma TrimmedCut(text: string, i: nat, j: nat)
    requires i < j <= |text| && !UnicodeSpace(text[i]) && !UnicodeSpace(text[j - 1])
    ensures Trimmed(Cut(text, i, j))
  {
    hide UnicodeSpace;
  }

  lemma ThreeCuts(text: string, i: nat, j: nat, k: nat)
    requires i <= j <= k <= |text|
    ensures Cut(text, 0, i) + Cut(text, i, j) + Cut(text, j, k) == Cut(text, 0, k) && |Cut(text, 0, k)| == k
  {
  }

  lemma SevenCuts(text: string, i: nat, j: nat, k: nat, l: nat, m: nat, n: nat)
    requires i <= j <= k <= l <= m <= n <= |text|
    ensures text == Cut(text, 0, i) + Cut(text, i, j) + Cut(text, j, k) + Cut(text, k, l) + Cut(text, l, m)
                    + Cut(text, m, n) + Cut(text, n, |text|)
  {
    ThreeCuts(text, i, j, k);
    ThreeCuts(text, k, l, m);
    ThreeCuts(text, m, n, |text|);
    assert text[..] == text;
  }

  // -------------------------------------------------------------- one line composed

  lemma AskedSides(s: string, a: Arrow, base: int, n: nat)
    requires 0 <= a.leftStart < a.leftEnd <= |s| && 0 <= a.rightStart < a.rightEnd <= |s|
    ensures NewLeft(s, a, base, n) == SideAs(LeftSide(s, a), AsksLeft(a.token), Wrap64(base + 2 * n + 2))
    ensures NewRight(s, a, base, n) == SideAs(RightSide(s, a), AsksRight(a.token), Wrap64(base + 2 * n + 1))
  {
    hide HasMarker, SafeText, Decimal, Wrap64;
  }

  /** The stretch of an arrow line in the composed text. */
  lemma ArrowComposed(s: string, ln: Line, a: Arrow, br: string, base: int, n: nat)
    requires LineOf(s, ln) && ReadArrowLine(ln, a.line) == Some(a)
    ensures LeftHalf(s, a, ln.start, base, n) + RightHalf(s, a, br, base, n)
            == ComposedLine(PiecesOf(ln.text, ln.start, a), base + 2 * n + 1) + br
    ensures a.lineEnd == ln.end && ln.start <= a.leftStart
  {
    hide TokenBefore, IsToken, UnicodeSpace, ReadArrowLine, FirstToken, TokenText, Blank, BlankBetween, IndentOf,
      SideAs, NewLeft, NewRight, HtmlEscaped, Snippet, AsksLeft, AsksRight, Wrap64, Cut;
    ArrowLineParts(ln, a.line);
    AskedSides(s, a, base, n);
    SnippetEscapes(a.token);
    LineLength(s, ln);
    var k, p := ln.start, PiecesOf(ln.text, ln.start, a);
    CutLine(s, ln, k, a.leftStart);
    CutLine(s, ln, a.leftStart, a.leftEnd);
    CutLine(s, ln, a.leftEnd, a.tokenStart);
    CutLine(s, ln, a.tokenEnd, a.rightStart);
    CutLine(s, ln, a.rightStart, a.rightEnd);
    CutLine(s, ln, a.rightEnd, a.lineEnd);
    HalvesJoin(p.indent, NewLeft(s, a, base, n), p.gap, Snippet(a.token), p.gap', NewRight(s, a, base, n), p.rest, br);
    SnippetInLine(p.indent + NewLeft(s, a, base, n) + p.gap, HtmlEscaped(TokenText(a.token)));
  }

  lemma HalvesJoin(a: string, b: string, c: string, d: string, e: string, f: string, g: string, h: string)
    ensures (a + b + c + d) + (e + f + g + h) == a + b + c + d + e + f + g + h
  {
  }

  lemma SnippetInLine(before: string, shown: string)
    ensures before + ("@@html:<b class=\"swift-arrow\">" + shown + "</b>@@")
            == before + "@@html:<b class=\"swift-arrow\">" + shown + "</b>@@"
  {
  }

  lemma CutLine(s: string, ln: Line, i: nat, j: nat)
    requires LineOf(s, ln) && ln.start <= i <= j <= ln.end
    ensures Cut(s, i, j) == Cut(ln.text, i - ln.start, j - ln.start)
  {
    hide IndentOf, Blank;
    SliceOfSlice(s, ln.start, ln.end, i - ln.start, j - ln.start);
  }

  // ----------------------------------------------------------------- the whole body

  /** What is written for line i. */
  function TextOf(e: Entry, i: nat): string
    requires e.Fitted() && i < |LinesOf(e.body)|
  {
    var ln := LinesOf(e.body)[i];
    if !e.Carries(i) then ln.text
    else
      ComposedLine(PiecesOf(ln.text, ln.start, ReadArrowLine(ln, i).value),
                   HighestOf([e.title, e.body]) + 2 * e.Before(i) + 1)
      + if e.Carries(i + 1) then LINE_BREAK else ""
  }

  function RowsFrom(e: Entry, i: nat): (rows: seq<Row>)
    requires e.Fitted() && i <= |LinesOf(e.body)|
    ensures |rows| == |LinesOf(e.body)| - i
    ensures forall j :: i <= j < |LinesOf(e.body)| ==>
              rows[j - i] == Row(TextOf(e, j), LinesOf(e.body)[j].hasNewline)
    decreases |LinesOf(e.body)| - i
  {
    if i == |LinesOf(e.body)| then [] else [Row(TextOf(e, i), LinesOf(e.body)[i].hasNewline)] + RowsFrom(e, i + 1)
  }

  /** The arrow lines from line i on are those behind the arrow lines before it. */
  lemma {:induction false} ArrowsBehind(e: Entry, i: nat)
    requires e.Fitted() && i <= |LinesOf(e.body)|
    ensures e.Before(i) <= |e.From(0)| && e.From(i) == e.From(0)[e.Before(i)..]
  {
    hide LinesFrom, Spans, ReadArrowLine, InsideAnySpan, ArrowsFrom, Entry.Carries, Entry.From;
    if i > 0 {
      ArrowsBehind(e, i - 1);
      FirstArrow(e, i - 1);
      if e.Carries(i - 1) {
        RestBehind(e.From(0), e.Before(i - 1), e.From(i - 1)[0], e.From(i));
      }
    }
  }

  lemma RestBehind(all: seq<Arrow>, n: nat, first: Arrow, rest: seq<Arrow>)
    requires n <= |all| && all[n..] == [first] + rest
    ensures n < |all| && rest == all[n + 1..]
  {
    assert rest == all[n..][1..];
  }

  lemma FirstArrow(e: Entry, i: nat)
    requires e.Fitted() && i < |LinesOf(e.body)|
    ensures e.From(i) == if e.Carries(i) then [ReadArrowLine(LinesOf(e.body)[i], i).value] + e.From(i + 1)
              else e.From(i + 1)
  {
    hide LinesFrom, Spans, ReadArrowLine, InsideAnySpan;
  }

  /** The first arrow line from line i on stands on that line or below it. */
  lemma NoneAbove(e: Entry, i: nat)
    requires e.Fitted() && i < |LinesOf(e.body)| && e.From(i) != []
    ensures var a := e.From(i)[0];
      LinesOf(e.body)[i].start <= a.leftStart <= |e.body| && i <= a.line && (a.line == i <==> e.Carries(i))
  {
    hide LinesFrom, Spans, ReadArrowLine, InsideAnySpan, ArrowsFrom, LineOf, Tile;
    var lines, a := LinesOf(e.body), e.From(i)[0];
    ArrowsClear(lines, e.excluded, Spans(Combine(e.title, e.body)), |e.title| + 2, e.plain, i, a);
    LinesTile(e.body, 0);
    TileAt(e.body, lines, 0, a.line);
    LineInBody(e.body, lines[a.line]);
    TileAt(e.body, lines, 0, i);
    LineInBody(e.body, lines[i]);
    ArrowLineParts(lines[a.line], a.line);
    FirstArrow(e, i);
    if e.Carries(i) { ArrowLineParts(lines[i], i); }
    if a.line == i && !e.Carries(i) {
      ArrowsClear(lines, e.excluded, Spans(Combine(e.title, e.body)), |e.title| + 2, e.plain, i + 1, a);
    }
  }

  lemma LineInBody(s: string, ln: Line)
    requires LineOf(s, ln)
    ensures ln.start <= ln.end <= |s| && |ln.text| == ln.end - ln.start && (!ln.hasNewline ==> ln.end == |s|)
    ensures Written(RowOf(ln)) == s[ln.start..NextStart(ln)]
  {
    hide IndentOf, Blank;
  }

  /** What stands before the next arrow line is copied. */
  lemma ComposeCopies(s: string, arrows: seq<Arrow>, n: nat, at: nat, to: nat, base: int)
    requires at <= to <= |s| && (n < |arrows| ==> to <= arrows[n].leftStart <= |s|)
    ensures Compose(s, arrows, n, at, base) == s[at..to] + Compose(s, arrows, n, to, base)
  {
    hide NewLeft, NewRight, Snippet, Break, RightHalf, LeftHalf, Compose;
    if n < |arrows| {
      var a := arrows[n];
      LeftCopies(s, a, at, to, base, n);
      ComposeStep("", s, arrows, n, at, base);
      ComposeStep(s[at..to], s, arrows, n, to, base);
      Regrouped(s[at..to], LeftHalf(s, a, to, base, n), RightHalf(s, a, Break(arrows, n), base, n),
                Compose(s, arrows, n + 1, a.lineEnd, base));
    } else {
      assert s[at..] == s[at..to] + s[to..];
      ComposeRest(s, arrows, n, at, base);
      ComposeRest(s, arrows, n, to, base);
    }
  }

  lemma Regrouped(a: string, b: string, c: string, d: string)
    ensures "" + ((a + b) + c) + d == a + (b + c) + d
  {
  }

  lemma InThree(a: string, b: string, c: string)
    ensures "" + a + (b + c) == (a + b) + c
  {
  }

  lemma LeftCopies(s: string, a: Arrow, at: nat, to: nat, base: int, n: nat)
    requires at <= to <= a.leftStart <= |s|
    ensures LeftHalf(s, a, at, base, n) == s[at..to] + LeftHalf(s, a, to, base, n)
  {
    hide NewLeft, Snippet;
    assert s[at..a.leftStart] == s[at..to] + s[to..a.leftStart];
  }

  function StartOf(e: Entry, i: nat): nat
    requires i <= |LinesOf(e.body)|
  {
    if i < |LinesOf(e.body)| then LinesOf(e.body)[i].start else |e.body|
  }

  lemma NextStarts(e: Entry, i: nat)
    requires i < |LinesOf(e.body)|
    ensures var ln := LinesOf(e.body)[i];
      && LineOf(e.body, ln) && NextStart(ln) == StartOf(e, i + 1) && ln.end <= NextStart(ln) <= |e.body|
      && (i + 1 < |LinesOf(e.body)| ==> ln.hasNewline)
  {
    hide LinesFrom, IndentOf, Blank, Tile;
    LinesTile(e.body, 0);
    TileAt(e.body, LinesOf(e.body), 0, i);
    if i + 1 < |LinesOf(e.body)| { TileAt(e.body, LinesOf(e.body), 0, i + 1); }
    else { LastEnds(e.body, LinesOf(e.body), 0); }
  }

  lemma {:induction false} LastEnds(s: string, lines: seq<Line>, at: nat)
    requires Tile(s, lines, at) && lines != []
    ensures NextStart(lines[|lines| - 1]) == |s|
  {
    hide LineOf;
    if |lines| > 1 { LastEnds(s, lines[1..], NextStart(lines[0])); }
  }

  function BaseOf(e: Entry): nat {
    HighestOf([e.title, e.body])
  }

  /** One line of the composed text. */
  lemma LineStep(e: Entry, i: nat)
    requires e.Fitted() && i < |LinesOf(e.body)|
    ensures Compose(e.body, e.From(0), e.Before(i), StartOf(e, i), BaseOf(e))
            == Written(Row(TextOf(e, i), LinesOf(e.body)[i].hasNewline))
               + Compose(e.body, e.From(0), e.Before(i + 1), StartOf(e, i + 1), BaseOf(e))
  {
    hide LinesFrom, LineOf, Spans, ReadArrowLine, InsideAnySpan, ArrowsFrom, Compose, HighestOf, PiecesOf, ComposedLine,
      LeftHalf, RightHalf;
    var ln, n, arrows, base := LinesOf(e.body)[i], e.Before(i), e.From(0), BaseOf(e);
    var to := StartOf(e, i + 1);
    NextStarts(e, i);
    LineInBody(e.body, ln);
    ArrowsBehind(e, i);
    ArrowsBehind(e, i + 1);
    FirstArrow(e, i);
    if i + 1 < |LinesOf(e.body)| && e.From(i + 1) != [] { NoneAbove(e, i + 1); } else { NoneBehind(e, i + 1); }
    if e.Carries(i) {
      var a := ReadArrowLine(ln, i).value;
      assert arrows[n] == a && a.line == i by { ArrowLineParts(ln, i); }
      assert arrows[n..] == e.From(i) && arrows[n + 1..] == e.From(i + 1);
      ArrowComposed(e.body, ln, a, Break(arrows, n), base, n);
      ComposeStep("", e.body, arrows, n, ln.start, base);
      ComposeCopies(e.body, arrows, n + 1, ln.end, to, base);
      NextBreak(e, i);
      var c := ComposedLine(PiecesOf(ln.text, ln.start, a), base + 2 * n + 1);
      LineWritten(c, Break(arrows, n), e.body, ln);
      InThree(c + Break(arrows, n), e.body[ln.end..to], Compose(e.body, arrows, n + 1, to, base));
      assert TextOf(e, i) == c + Break(arrows, n);
    } else {
      ComposeCopies(e.body, arrows, n, ln.start, to, base);
    }
  }

  lemma NoneBehind(e: Entry, i: nat)
    requires e.Fitted()
    ensures i >= |LinesOf(e.body)| ==> e.From(i) == []
  {
  }

  /** A break stands behind an arrow line exactly when the next line carries an arrow. */
  lemma NextBreak(e: Entry, i: nat)
    requires e.Fitted() && i < |LinesOf(e.body)| && e.Carries(i)
    ensures Break(e.From(0), e.Before(i)) == if e.Carries(i + 1) then LINE_BREAK else ""
  {
    hide LinesFrom, LineOf, Spans, ReadArrowLine, InsideAnySpan, ArrowsFrom;
    var n, arrows := e.Before(i), e.From(0);
    ArrowsBehind(e, i);
    ArrowsBehind(e, i + 1);
    FirstArrow(e, i);
    assert arrows[n] == e.From(i)[0] && arrows[n + 1..] == e.From(i + 1);
    NoneAbove(e, i);
    if i + 1 < |LinesOf(e.body)| {
      FirstArrow(e, i + 1);
      if e.From(i + 1) != [] {
        assert arrows[n + 1] == e.From(i + 1)[0];
        NoneAbove(e, i + 1);
      }
    } else {
      NoneBehind(e, i + 1);
    }
  }

  lemma LineWritten(text: string, br: string, s: string, ln: Line)
    requires LineOf(s, ln)
    ensures (text + br) + s[ln.end..NextStart(ln)] == Written(Row(text + br, ln.hasNewline))
  {
    hide IndentOf, Blank;
  }

  lemma {:induction false} LinesCompose(e: Entry, i: nat)
    requires e.Fitted() && i <= |LinesOf(e.body)|
    ensures Compose(e.body, e.From(0), e.Before(i), StartOf(e, i), BaseOf(e)) == Join(RowsFrom(e, i))
    decreases |LinesOf(e.body)| - i
  {
    hide LinesFrom, Spans, ReadArrowLine, InsideAnySpan, ArrowsFrom, Compose, HighestOf, TextOf, Written;
    if i < |LinesOf(e.body)| {
      LineStep(e, i);
      LinesCompose(e, i + 1);
      assert RowsFrom(e, i)[1..] == RowsFrom(e, i + 1);
    } else {
      ArrowsBehind(e, i);
      NoneBehind(e, i);
      assert e.Before(i) == |e.From(0)|;
      ComposeRest(e.body, e.From(0), e.Before(i), |e.body|, BaseOf(e));
    }
  }

  lemma TextPlain(e: Entry, i: nat)
    requires e.Fitted() && i < |LinesOf(e.body)|
    ensures '\n' !in TextOf(e, i) && (LinesOf(e.body)[i].text != "" ==> TextOf(e, i) != "")
    ensures Composes(e, i, TextOf(e, i))
  {
    hide LinesFrom, IndentOf, Blank, Tile, Spans, ReadArrowLine, InsideAnySpan, HighestOf, ComposedLine, Splits, LineOf,
      PiecesOf;
    NextStarts(e, i);
    LineIsPlain(e.body, LinesOf(e.body)[i]);
    var ln := LinesOf(e.body)[i];
    if e.Carries(i) {
      var p := PiecesOf(ln.text, ln.start, ReadArrowLine(ln, i).value);
      ArrowSplits(ln, i);
      ComposedPlain(ln.text, p, BaseOf(e) + 2 * e.Before(i) + 1);
    }
  }

  lemma LineIsPlain(s: string, ln: Line)
    requires LineOf(s, ln)
    ensures '\n' !in ln.text
  {
  }

  lemma ComposedPlain(text: string, p: Pieces, number: int)
    requires Splits(text, p) && '\n' !in text
    ensures '\n' !in ComposedLine(p, number) && ComposedLine(p, number) != ""
  {
    hide SideAs, HtmlEscaped, TokenText, AsksLeft, AsksRight, TokenBefore, IsToken, Blank;
    PartsPlain(p);
    SidePlain(p.left, AsksLeft(p.token), Wrap64(number + 1));
    SidePlain(p.right, AsksRight(p.token), Wrap64(number));
    EscapedPlainly(TokenText(p.token));
  }

  lemma PartsPlain(p: Pieces)
    requires '\n' !in p.indent + p.left + p.gap + TokenText(p.token) + p.gap' + p.right + p.rest
    ensures '\n' !in p.indent && '\n' !in p.left && '\n' !in p.gap && '\n' !in TokenText(p.token)
    ensures '\n' !in p.gap' && '\n' !in p.right && '\n' !in p.rest
  {
    hide TokenText;
    PlainParts(p.indent, p.left, p.gap);
    PlainParts(p.indent + p.left + p.gap, TokenText(p.token), p.gap');
    PlainParts(p.indent + p.left + p.gap + TokenText(p.token) + p.gap', p.right, p.rest);
  }

  lemma PlainParts(a: string, b: string, c: string)
    ensures '\n' in a + b + c <==> '\n' in a || '\n' in b || '\n' in c
  {
  }

  lemma SidePlain(side: string, asked: bool, number: int)
    requires '\n' !in side
    ensures '\n' !in SideAs(side, asked, number)
  {
    hide HasMarker, SafeText, Digits;
    SafeTextFacts(side);
    assert '\n' !in Decimal(number);
  }

  lemma {:induction false} EscapedPlainly(s: string)
    requires '\n' !in s
    ensures '\n' !in HtmlEscaped(s)
  {
    if s != "" { EscapedPlainly(s[1..]); }
  }

  /** Composition line by line: every line that carries no arrow stays, every other one is
      its pieces with the sides its token asks wrapped and numbered by its place, and a break
      stands behind it exactly when the next line carries an arrow, too. */
  lemma ComposedLineByLine(e: Entry)
    requires e.Fitted()
    ensures LineByLine(e, Compose(e.body, ArrowsOf(e.title, e.body, e.excluded, e.plain), 0, 0,
                                  BaseNumber(e.title, e.body)))
  {
    hide LinesFrom, Spans, ReadArrowLine, InsideAnySpan, ArrowsFrom, Compose, HighestOf, TextOf, Written, Composes,
      SplitRows, Join;
    LinesCompose(e, 0);
    var rows := RowsFrom(e, 0);
    RowsSplit(e);
    SplitJoin("", rows);
    assert "" + Join(rows) == Join(rows);
    StartZero(e);
    forall i | 0 <= i < |rows| ensures Composes(e, i, rows[i].text) { TextPlain(e, i); }
  }

  lemma StartZero(e: Entry)
    ensures StartOf(e, 0) == 0
  {
    if e.body != "" { assert LinesOf(e.body)[0] == LineAt(e.body, 0); }
  }

  lemma RowsSplit(e: Entry)
    requires e.Fitted()
    ensures SplitRows(RowsFrom(e, 0))
  {
    hide LinesFrom, LineOf, TextOf, Composes;
    var rows := RowsFrom(e, 0);
    JoinLines(e.body, 0);
    var were := Rows(LinesOf(e.body));
    forall i | 0 <= i < |rows|
      ensures '\n' !in rows[i].text && (i < |rows| - 1 ==> rows[i].newline)
      ensures !rows[i].newline ==> rows[i].text != ""
    {
      TextPlain(e, i);
      assert were[i] == RowOf(LinesOf(e.body)[i]);
    }
  }

  lemma {:induction false} NoneBefore(e: Entry, i: nat)
    requires e.Fitted() && i <= |LinesOf(e.body)|
    ensures e.Before(i) == 0 <==> forall j: nat :: j < i ==> !e.Carries(j)
  {
    hide LinesFrom, Spans, ReadArrowLine, InsideAnySpan;
    if i > 0 {
      NoneBefore(e, i - 1);
    }
  }

  /** No arrow line is found exactly when no line carries one. */
  lemma NoCarrier(e: Entry)
    requires e.Fitted()
    ensures ArrowsOf(e.title, e.body, e.excluded, e.plain) == [] <==> forall i: nat :: !e.Carries(i)
  {
    hide LinesFrom, Spans, ReadArrowLine, InsideAnySpan, ArrowsFrom;
    var n := |LinesOf(e.body)|;
    ArrowsBehind(e, n);
    NoneBehind(e, n);
    NoneBefore(e, n);
  }
}
