/** The swift card as a whole: finding the arrow lines of an entry, composing them, and
    what Anki reads in the result (internal/anki/orgdoc/swift.go). */
module SwiftCard {
  import opened Basics
  import opened Lines
  import opened Cloze
  import opened ArrowLines
  import opened Swift
  import opened ReadBack

  /** The arrow lines from line i on: not excluded by a construct, outside every marker
      the author wrote, and plain text to the Org parser. */
  function ArrowsFrom(lines: seq<Line>, excluded: seq<bool>, spans: seq<Span>, shift: nat,
                      plain: string -> bool, i: nat): seq<Arrow>
    requires |excluded| == |lines|
    decreases |lines| - i
  {
    if i >= |lines| then [] else
    var rest := ArrowsFrom(lines, excluded, spans, shift, plain, i + 1);
    match ReadArrowLine(lines[i], i)
    case None => rest
    case Some(a) =>
      if excluded[i] || InsideAnySpan(spans, shift + a.tokenStart) || !plain(lines[i].text) then rest else [a] + rest
  }

  function ArrowsOf(title: string, body: string, excluded: seq<bool>, plain: string -> bool): seq<Arrow>
    requires |excluded| == |LinesOf(body)|
  {
    ArrowsFrom(LinesOf(body), excluded, Spans(Combine(title, body)), |title| + 2, plain, 0)
  }

  /** scanArrowLines, given the lines a construct excludes. */
  method ScanArrowLines(title: string, body: string, excluded: seq<bool>, plain: string -> bool)
    returns (arrows: seq<Arrow>)
    requires |excluded| == |LinesOf(body)|
    ensures arrows == ArrowsOf(title, body, excluded, plain)
  {
    hide LinesFrom, Spans, ReadArrowLine, InsideAnySpan, Combine, ArrowsFrom;
    var lines := SplitLines(body);
    var spans := MarkerSpans(Combine(title, body));
    var shift := |title| + |"\n\n"|;
    arrows := [];
    for i := 0 to |lines|
      invariant ArrowsOf(title, body, excluded, plain) == arrows + ArrowsFrom(lines, excluded, spans, shift, plain, i)
    {
      ArrowsNext(lines, excluded, spans, shift, plain, i);
      if excluded[i] { continue; }
      var arrow := ReadArrowLine(lines[i], i);
      if arrow.None? || InsideAnySpan(spans, shift + arrow.value.tokenStart) || !plain(lines[i].text) { continue; }
      arrows := arrows + [arrow.value];
    }
    NoMoreArrows(lines, excluded, spans, shift, plain);
  }

  lemma ArrowsNext(lines: seq<Line>, excluded: seq<bool>, spans: seq<Span>, shift: nat, plain: string -> bool, i: nat)
    requires |excluded| == |lines| && i < |lines|
    ensures var rest := ArrowsFrom(lines, excluded, spans, shift, plain, i + 1);
            var a := ReadArrowLine(lines[i], i);
            ArrowsFrom(lines, excluded, spans, shift, plain, i) ==
            if excluded[i] || a.None? || InsideAnySpan(spans, shift + a.value.tokenStart)
              || !plain(lines[i].text) then rest else [a.value] + rest
  {
    hide ReadArrowLine, InsideAnySpan;
  }

  lemma NoMoreArrows(lines: seq<Line>, excluded: seq<bool>, spans: seq<Span>, shift: nat, plain: string -> bool)
    requires |excluded| == |lines|
    ensures ArrowsFrom(lines, excluded, spans, shift, plain, |lines|) == []
  {
  }

  function BaseNumber(title: string, body: string): nat {
    HighestOf([title, body])
  }

  /** The offsets of the arrow lines run in order through the text. */
  predicate InOrder(body: string, arrows: seq<Arrow>, n: nat, at: int)
    decreases |arrows| - n
  {
    if n >= |arrows| then 0 <= at <= |body| else
    var a := arrows[n];
    && 0 <= at <= a.leftStart <= a.leftEnd <= a.tokenStart <= a.tokenEnd
    && a.tokenEnd <= a.rightStart <= a.rightEnd <= a.lineEnd <= |body|
    && InOrder(body, arrows, n + 1, a.lineEnd)
  }

  method WriteSide(b: string, side: string, number: int, selected: bool) returns (b': string)
    ensures b' == b + SideText(side, number, selected)
  {
    if !selected || side == "" || HasMarker(side) {
      return b + side;
    }
    return b + "{{c" + Decimal(number) + "::" + SafeText(side) + "}}";
  }

  /** One turn of the composing loop: arrow line number n, from position at to its end. */
  method WriteArrow(b: string, body: string, a: Arrow, br: string, at: nat, base: nat, n: nat) returns (b': string)
    requires at <= a.leftStart <= a.leftEnd <= a.tokenStart <= a.tokenEnd
    requires a.tokenEnd <= a.rightStart <= a.rightEnd <= a.lineEnd <= |body|
    ensures b' == b + (LeftHalf(body, a, at, base, n) + RightHalf(body, a, br, base, n))
  {
    hide SideText, Snippet, LeftHalf, RightHalf, Wrap64;
    var i := n + 1;
    b' := b + body[at..a.leftStart];
    b' := WriteSide(b', body[a.leftStart..a.leftEnd], Wrap64(base + 2 * i), a.token != Rightward);
    b' := b' + body[a.leftEnd..a.tokenStart] + Snippet(a.token);
    LeftWritten(b, body, a, at, base, n);
    ghost var middle := b';
    b' := b' + body[a.tokenEnd..a.rightStart];
    b' := WriteSide(b', body[a.rightStart..a.rightEnd], Wrap64(base + 2 * i - 1), a.token != Leftward);
    b' := b' + body[a.rightEnd..a.lineEnd] + br;
    RightWritten(middle, body, a, br, base, n);
  }

  lemma ComposeStep(b: string, body: string, arrows: seq<Arrow>, n: nat, at: int, base: int)
    requires n < |arrows|
    ensures var a := arrows[n];
            b + Compose(body, arrows, n, at, base)
            == b + (LeftHalf(body, a, at, base, n) + RightHalf(body, a, Break(arrows, n), base, n))
               + Compose(body, arrows, n + 1, a.lineEnd, base)
  {
    hide LeftHalf, RightHalf, Break, Cut;
  }

  method ComposeArrowLines(title: string, body: string, arrows: seq<Arrow>) returns (composed: string)
    requires InOrder(body, arrows, 0, 0)
    ensures composed == Compose(body, arrows, 0, 0, BaseNumber(title, body))
  {
    hide LeftHalf, RightHalf, HighestOf, Break;
    if |arrows| == 0 {
      return body;
    }
    var base := HighestClozeNumber([title, body]);
    hide Compose;
    composed := "";
    var at := 0;
    var n := 0;
    ghost var whole := Compose(body, arrows, 0, 0, base);
    while n < |arrows|
      invariant 0 <= n <= |arrows| && InOrder(body, arrows, n, at)
      invariant whole == composed + Compose(body, arrows, n, at, base)
    {
      ComposeStep(composed, body, arrows, n, at, base);
      composed := WriteArrow(composed, body, arrows[n], Break(arrows, n), at, base, n);
      at := arrows[n].lineEnd;
      n := n + 1;
    }
    ComposeEnd(body, arrows, at, base);
    composed := composed + body[at..];
  }

  lemma ComposeEnd(body: string, arrows: seq<Arrow>, at: int, base: int)
    requires 0 <= at <= |body|
    ensures Compose(body, arrows, |arrows|, at, base) == body[at..]
  {
  }

  lemma LeftWritten(b: string, s: string, a: Arrow, at: int, base: int, n: nat)
    requires 0 <= at <= a.leftStart <= a.leftEnd <= a.tokenStart <= |s|
    ensures b + s[at..a.leftStart] + SideText(s[a.leftStart..a.leftEnd], LeftNumber(base, n), a.token != Rightward)
            + s[a.leftEnd..a.tokenStart] + Snippet(a.token)
            == b + LeftHalf(s, a, at, base, n)
  {
    hide SideText, Snippet, LeftNumber;
  }

  lemma RightWritten(b: string, s: string, a: Arrow, br: string, base: int, n: nat)
    requires 0 <= a.tokenEnd <= a.rightStart <= a.rightEnd <= a.lineEnd <= |s|
    ensures b + s[a.tokenEnd..a.rightStart]
              + SideText(s[a.rightStart..a.rightEnd], RightNumber(base, n), a.token != Leftward)
            + s[a.rightEnd..a.lineEnd] + br
            == b + RightHalf(s, a, br, base, n)
  {
    hide SideText, RightNumber;
  }
}
