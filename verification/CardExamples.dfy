/** Cards that do not read back: the author's marker opened in the title closes inside the
    side or answer that gets wrapped. */
module CardExamples {
  import opened Basics
  import opened Lines
  import opened Cloze
  import A = ArrowLines
  import S = Swift
  import SwiftCard
  import SwiftLaws
  import Insertions
  import opened Answers
  import M = Multiline
  import opened MultilineCard
  import B = Blocks
  import C = Collapse
  import G = Lists

  const TITLE := "{{c1::x"

  const CLOSING := "y}}"

  lemma {:induction false} CloseAfter(a: string, b: string)
    requires '}' !in a && Closes(b)
    ensures FindClose(a + b) == At(|a|)
  {
    if a == "" {
      assert a + b == b;
    } else {
      assert (a + b)[1..] == a[1..] + b && (a + b)[0] == a[0];
      CloseAfter(a[1..], b);
    }
  }

  lemma TitleOpens()
    ensures OpeningLength(TITLE) == 6
  {
    var digits := TITLE[3..];
    assert digits == "1::x" && digits[1..] == "::x";
    assert DigitRun("::x") == 0;
    assert DigitRun(digits) == 1;
  }

  lemma {:induction false} NoBraceNoMarker(s: string)
    requires '{' !in s
    ensures !HasMarker(s)
  {
    if s != "" {
      assert s[0] != '{';
      NoBraceNoMarker(s[1..]);
    }
  }

  /** One marker, from the title to the first close behind it. */
  lemma OneMarker(between: string, rest: string)
    requires between != "" && !Sticky(between[0]) && '}' !in between && '{' !in rest
    ensures Spans(TITLE + between + "}}" + rest) == [Span(0, 9 + |between|)]
  {
    hide OpeningLength, FindClose, HasMarker, Sticky;
    var s := TITLE + between + "}}" + rest;
    TitleOpens();
    assert s == TITLE + (between + "}}" + rest);
    OpeningSeam(TITLE, between + "}}" + rest);
    assert s[0..] == s;
    ReadOne(s, 0);
    TitleBehind(between, rest);
    CloseAfter("x" + between, "}}" + rest);
    assert s[9 + |between|..] == rest;
    NoBraceNoMarker(rest);
    ScanUnmarked(rest, 9 + |between|);
  }

  lemma TitleBehind(between: string, rest: string)
    ensures (TITLE + between + "}}" + rest)[6..] == "x" + between + ("}}" + rest)
  {
    assert TITLE == "{{c1::" + "x";
  }

  lemma OneLine(body: string)
    requires body != "" && '\n' !in body
    ensures LinesOf(body) == [Line(0, |body|, body, false, IndentOf(body), Blank(body))]
    ensures Rows(LinesOf(body)) == [Row(body, false)]
  {
    hide IndentOf, Blank;
    var ln := LineAt(body, 0);
    assert body[0..|body|] == body;
    assert LinesFrom(body, |body|) == [];
  }

  // ------------------------------------------------------------------- swift

  const ARROW_BODY := CLOSING + " A :<- B"

  lemma NoTokenBefore(i: nat)
    requires i < 6
    ensures !A.IsToken(ARROW_BODY[i..])
  {
    assert ARROW_BODY == "y}} A :<- B";
    assert ARROW_BODY[i] != ':';
    assert ARROW_BODY[i..][0] != ':';
  }

  /** The body's line is an arrow line whose left side starts at its first character. */
  lemma ArrowRead(ln: Line)
    requires ln.text == ARROW_BODY && ln.start == 0
    ensures var a := A.ReadArrowLine(ln, 0);
      && a.Some? && a.value.token == A.Leftward && a.value.leftStart == 0 && 0 < a.value.leftEnd <= 6
      && a.value.tokenStart == 6
  {
    hide A.ReadArrowLine, A.IsToken;
    var left, right := "y}} A ", " B";
    assert ARROW_BODY == left + A.TokenText(A.Leftward) + right;
    forall i | 0 <= i < |left| ensures !A.IsToken((left + A.TokenText(A.Leftward) + right)[i..]) { NoTokenBefore(i); }
    assert !UnicodeSpace(left[0]) && !UnicodeSpace(right[1]);
    A.RetokenedLine(left, A.Leftward, right, A.Leftward, ln, 0);
    A.ArrowLineParts(ln, 0);
    var a := A.ReadArrowLine(ln, 0).value;
    assert UnicodeSpace(ARROW_BODY[0]) || a.leftStart == 0;
  }

  /** The title opens a marker that closes in the left side: the side is wrapped all the same,
      and the card does not read back. */
  lemma SwiftNotReadBack()
    ensures |LinesOf(ARROW_BODY)| == 1
    ensures var c := SwiftLaws.CardOf(TITLE, ARROW_BODY, [false], text => true);
      SwiftCard.ArrowsOf(TITLE, ARROW_BODY, [false], text => true) != [] && !SwiftLaws.ReadsBack(c)
  {
    hide SwiftLaws.ReadsBack, A.ReadArrowLine, Spans, HasMarker, SwiftCard.BaseNumber, S.LeftNumber;
    var body, plain := ARROW_BODY, (text: string) => true;
    assert '\n' !in body && body == "y}} A :<- B";
    OneLine(body);
    var ln := LinesOf(body)[0];
    ArrowRead(ln);
    WholeSwift();
    var a := A.ReadArrowLine(ln, 0).value;
    var spans := Spans(S.Combine(TITLE, body));
    assert spans == [Span(0, 12)] && |TITLE| + 2 + a.tokenStart == 15;
    assert !InsideAnySpan(spans, 15);
    SwiftCard.ArrowsNext(LinesOf(body), [false], spans, |TITLE| + 2, plain, 0);
    SwiftCard.NoMoreArrows(LinesOf(body), [false], spans, |TITLE| + 2, plain);
    assert SwiftCard.ArrowsOf(TITLE, body, [false], plain) == [a];
    SwiftLaws.SwiftReadBack(TITLE, body, [false], plain);
    SideCovered(a, SwiftLaws.CardOf(TITLE, body, [false], plain));
  }

  lemma WholeSwift()
    ensures S.Combine(TITLE, ARROW_BODY) == TITLE + "\n\n" + ARROW_BODY
    ensures Spans(S.Combine(TITLE, ARROW_BODY)) == [Span(0, 12)]
  {
    hide Spans;
    OneMarker("\n\ny", " A :<- B");
    assert S.Combine(TITLE, ARROW_BODY) == TITLE + "\n\ny" + "}}" + " A :<- B";
  }

  lemma SideCovered(a: A.Arrow, c: SwiftLaws.Card)
    requires a.token == A.Leftward && a.leftStart == 0 && 0 < a.leftEnd <= 6
    requires c.source == TITLE + "\n\n" + ARROW_BODY && c.arrows == [SwiftLaws.Moved(a, 9)]
    requires Spans(c.source) == [Span(0, 12)]
    ensures !SwiftLaws.SidesFree(c)
  {
    hide Spans, HasMarker, S.LeftNumber;
    var b := c.arrows[0];
    assert c.source[b.leftStart..b.leftEnd] == ARROW_BODY[..a.leftEnd];
    assert ARROW_BODY == "y}} A :<- B";
    NoBraceNoMarker(ARROW_BODY[..a.leftEnd]);
    assert S.WrapsLeft(c.source, b);
    assert Covers([Span(0, 12)][0], b.leftStart);
    assert !SwiftLaws.SideFree(c, 0);
  }

  // --------------------------------------------------------------- multiline

  const LIST_BODY := "- " + CLOSING

  const OPTIONS := M.Options(M.Rightward, false)

  lemma BulletRead()
    ensures G.ReadBullet(LIST_BODY) == Some(G.Bullet(0, false, 1, 2))
  {
    var text := "- y}}";
    assert LIST_BODY == text;
    assert text[0] == '-' && text[1] == ' ' && text[2] == 'y';
  }

  lemma {:induction false} OneRowUncollapsed(row: Row)
    ensures B.PairsFrom([row], 0) == [] && C.Collapsed([row]) == [row]
  {
    hide B.BeginName, B.EndName, Blank;
    assert C.Keep([row])[0];
    assert B.Filtered([row], C.Keep([row]), 0) == [];
  }

  /** One answer: the whole line behind its bullet. */
  lemma ListRead(g: G.Grammar)
    ensures C.CollapsedText(LIST_BODY) == LIST_BODY
    ensures AnswerListOf(g, LIST_BODY, OtherKind) == Some(AnswerList(0, [AnswerItem(2, 5)]))
  {
    hide G.ReadBullet, Blank, IndentOf, B.PairsFrom, C.Collapsed;
    assert '\n' !in LIST_BODY && LIST_BODY == "- y}}";
    OneLine(LIST_BODY);
    var lines, rows := LinesOf(LIST_BODY), [Row(LIST_BODY, false)];
    OneRowUncollapsed(rows[0]);
    assert Join(rows) == LIST_BODY by { assert Join(rows[1..]) == ""; }
    BulletRead();
    LinesInText(LIST_BODY);
    InTextMeasured(LIST_BODY, lines);
    assert FirstBullet(rows, B.PairsFrom(rows, 0), 0) == 0;
    G.WalkProgress(g, rows, 0);
    G.BulletNotBlank(LIST_BODY);
    var visits := G.WalkList(g, rows, 0).visits;
    assert visits == [G.Visit(0, G.Item, G.ReadBullet(LIST_BODY))];
    ListFromIs(g, lines, rows, OtherKind, 0);
    ItemRead(lines[0]);
    GatherOne(lines, visits);
  }

  lemma ItemRead(ln: Line)
    requires ln.text == LIST_BODY && ln.start == 0 && ln.end == 5
    ensures ItemAt(ln, OtherKind) == AnswerItem(2, 5)
  {
    hide G.ReadBullet;
    BulletRead();
    assert LIST_BODY[2..] == "y}}";
    assert !HasStatus("y}}");
    assert "y}}"[0..] == "y}}";
  }

  lemma GatherOne(lines: seq<Line>, visits: seq<G.Visit>)
    requires Measured(lines) && |lines| == 1 && |visits| == 1 && visits[0].line == 0 && visits[0].role == G.Item
    ensures Gather(lines, visits, OtherKind, 1).items == [ItemAt(lines[0], OtherKind)]
  {
    hide ItemAt;
    assert Gather(lines, visits, OtherKind, 0).items == [];
  }

  /** The title opens a marker that closes in the answer: the answer is wrapped all the same,
      and the card does not read back. */
  lemma MultilineNotReadBack(g: G.Grammar)
    ensures M.Composed(g, text => OtherKind, TITLE, LIST_BODY, OPTIONS).Some?
    ensures var base := HighestOf([TITLE, LIST_BODY]);
      !Insertions.ReadsBack(CardEdits(TITLE, LIST_BODY, AnswerList(0, [AnswerItem(2, 5)]), OPTIONS, base))
  {
    hide C.CollapsedText, AnswerListOf, HighestOf, Spans, HasMarker, Insertions.ReadsBack, CardEdits, Wrap64;
    ListRead(g);
    MultilineReadBack(g, text => OtherKind, TITLE, LIST_BODY, OPTIONS);
    var list, base := AnswerList(0, [AnswerItem(2, 5)]), HighestOf([TITLE, LIST_BODY]);
    var whole := S.Combine(TITLE, LIST_BODY);
    assert LIST_BODY == "- y}}" && LIST_BODY[2..5] == "y}}";
    AnswerCovered();
    NoBraceNoMarker("y}}");
    assert M.Wrapped(LIST_BODY, list.items[0], OPTIONS);
    assert Covers([Span(0, 14)][0], |TITLE| + 2 + 2);
    assert !ItemFree(TITLE, LIST_BODY, list.items, OPTIONS, base, Spans(whole), 0);
  }

  lemma AnswerCovered()
    ensures Spans(S.Combine(TITLE, LIST_BODY)) == [Span(0, 14)]
  {
    hide Spans;
    OneMarker("\n\n- y", "");
    assert S.Combine(TITLE, LIST_BODY) == TITLE + "\n\n- y" + "}}" + "";
  }
}
