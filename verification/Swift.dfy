/** Composing a swift card: every arrow line becomes a pair of numbered cloze sides
    (composeArrowLines and writeSide, internal/anki/orgdoc/swift.go). */
module Swift {
  import opened Basics
  import opened Lines
  import opened Cloze
  import opened ArrowLines

  const LINE_BREAK := "@@html:<br>@@"

  const SNIPPET_OPEN := "@@html:<b class=\"swift-arrow\">"
  const SNIPPET_CLOSE := "</b>@@"

  function Escaped(t: Token): string {
    match t
    case Rightward => ":-&gt;"
    case Leftward => ":&lt;-"
    case Both => ":&lt;-&gt;"
  }

  /** The export snippet written for a token: the token, HTML-escaped and emphasised. */
  function Snippet(t: Token): string {
    SNIPPET_OPEN + Escaped(t) + SNIPPET_CLOSE
  }

  function Combine(title: string, body: string): string {
    if body == "" then title else title + "\n\n" + body
  }

  /** Whether composition puts a generated marker around a side. */
  predicate Wraps(side: string, selected: bool) {
    selected && Wrappable(side)
  }

  function SideText(side: string, number: int, selected: bool): string {
    if Wraps(side, selected) then Marker(number, side) else side
  }

  /** Offsets of an arrow line in s, after position at, with nothing at their seams
      that could belong to a marker token. */
  predicate Placed(s: string, a: Arrow, at: int) {
    && 0 <= at < a.leftStart < a.leftEnd <= a.tokenStart < a.tokenEnd <= a.rightStart < a.rightEnd <= a.lineEnd <= |s|
    && s[a.tokenStart..a.tokenEnd] == TokenText(a.token)
    && !Sticky(s[a.leftStart - 1])
    && (a.leftEnd < a.tokenStart ==> !Sticky(s[a.leftEnd]))
    && (a.tokenEnd < a.rightStart ==> !Sticky(s[a.rightStart - 1]))
    && (a.rightEnd < a.lineEnd ==> !Sticky(s[a.rightEnd]))
    && (a.lineEnd < |s| ==> !Sticky(s[a.lineEnd]))
    && NoBraces(s[a.leftEnd..a.tokenStart]) && NoBraces(s[a.tokenEnd..a.rightStart])
    && NoBraces(s[a.rightEnd..a.lineEnd])
  }

  lemma PlacedOrder(s: string, a: Arrow, at: int)
    requires Placed(s, a, at)
    ensures 0 <= at < a.leftStart < a.leftEnd <= a.tokenStart < a.tokenEnd
    ensures a.tokenEnd <= a.rightStart < a.rightEnd <= a.lineEnd <= |s|
  {
    hide Sticky, NoBraces, TokenText;
  }

  predicate NoBraces(s: string) {
    '{' !in s && '}' !in s
  }

  predicate Chain(s: string, arrows: seq<Arrow>, n: nat, at: int)
    decreases |arrows| - n
  {
    if n >= |arrows| then 0 <= at <= |s|
    else Placed(s, arrows[n], at) && Chain(s, arrows, n + 1, arrows[n].lineEnd)
  }

  function LeftNumber(base: int, n: nat): int {
    Wrap64(base + 2 * (n + 1))
  }

  function RightNumber(base: int, n: nat): int {
    Wrap64(base + 2 * (n + 1) - 1)
  }

  function LeftSide(s: string, a: Arrow): string {
    Cut(s, a.leftStart, a.leftEnd)
  }

  function RightSide(s: string, a: Arrow): string {
    Cut(s, a.rightStart, a.rightEnd)
  }

  predicate WrapsLeft(s: string, a: Arrow) {
    Wraps(LeftSide(s, a), a.token != Rightward)
  }

  predicate WrapsRight(s: string, a: Arrow) {
    Wraps(RightSide(s, a), a.token != Leftward)
  }

  function NewLeft(s: string, a: Arrow, base: int, n: nat): string {
    SideText(LeftSide(s, a), LeftNumber(base, n), a.token != Rightward)
  }

  function NewRight(s: string, a: Arrow, base: int, n: nat): string {
    SideText(RightSide(s, a), RightNumber(base, n), a.token != Leftward)
  }

  function Break(arrows: seq<Arrow>, n: nat): string {
    if n + 1 < |arrows| && arrows[n + 1].line == arrows[n].line + 1 then LINE_BREAK else ""
  }

  /** What is written for s[at..] up to the arrow's token and for the token. */
  function LeftHalf(s: string, a: Arrow, at: int, base: int, n: nat): string {
    Cut(s, at, a.leftStart) + NewLeft(s, a, base, n) + Cut(s, a.leftEnd, a.tokenStart) + Snippet(a.token)
  }

  /** What is written for the rest of the arrow's line, and behind it. */
  function RightHalf(s: string, a: Arrow, br: string, base: int, n: nat): string {
    Cut(s, a.tokenEnd, a.rightStart) + NewRight(s, a, base, n) + Cut(s, a.rightEnd, a.lineEnd) + br
  }

  /** The composed text of s[at..], whose first arrow is arrows[n]. */
  function Compose(s: string, arrows: seq<Arrow>, n: nat, at: int, base: int): string
    decreases |arrows| - n
  {
    if n >= |arrows| then Cut(s, at, |s|)
    else
      var a := arrows[n];
      LeftHalf(s, a, at, base, n) + RightHalf(s, a, Break(arrows, n), base, n)
      + Compose(s, arrows, n + 1, a.lineEnd, base)
  }

  // -------------------------------------------------- where characters end up

  /** The places in the composed text of one arrow line's pieces, its stretch starting at out. */
  datatype Places = Places(leftStart: int, leftEnd: int, tokenEnd: int, rightStart: int, rightEnd: int, lineEnd: int)

  function PlacesOf(s: string, arrows: seq<Arrow>, n: nat, at: int, out: int, base: int): Places
    requires n < |arrows|
  {
    var a := arrows[n];
    var leftStart := out + |Cut(s, at, a.leftStart)|;
    var tokenEnd := out + |LeftHalf(s, a, at, base, n)|;
    var rightStart := tokenEnd + |Cut(s, a.tokenEnd, a.rightStart)|;
    Places(leftStart, leftStart + |NewLeft(s, a, base, n)|, tokenEnd,
           rightStart, rightStart + |NewRight(s, a, base, n)|,
           tokenEnd + |RightHalf(s, a, Break(arrows, n), base, n)|)
  }

  /** The place in the composed text of the character at position p of s, when the
      composed text of s[at..] starts at position out. A position inside a rewritten
      side or token counts back from that piece's end. */
  function Image(s: string, arrows: seq<Arrow>, n: nat, at: int, out: int, base: int, p: int): int
    decreases |arrows| - n
  {
    if n >= |arrows| then out + (p - at) else
    var a, q := arrows[n], PlacesOf(s, arrows, n, at, out, base);
    if p < a.leftStart then out + (p - at)
    else if p < a.tokenStart then q.leftEnd + (p - a.leftEnd)
    else if p < a.rightStart then q.tokenEnd + (p - a.tokenEnd)
    else if p < a.lineEnd then q.rightEnd + (p - a.rightEnd)
    else Image(s, arrows, n + 1, a.lineEnd, q.lineEnd, base, p)
  }

  /** The extents of the markers generated for one arrow line. */
  function GeneratedAt(s: string, a: Arrow, q: Places): seq<Span> {
    (if WrapsLeft(s, a) then [Span(q.leftStart, q.leftEnd)] else [])
    + (if WrapsRight(s, a) then [Span(q.rightStart, q.rightEnd)] else [])
  }

  /** The extents of all generated markers from arrow n on, in text order. */
  function Generated(s: string, arrows: seq<Arrow>, n: nat, at: int, out: int, base: int): seq<Span>
    decreases |arrows| - n
  {
    if n >= |arrows| then [] else
    var q := PlacesOf(s, arrows, n, at, out, base);
    GeneratedAt(s, arrows[n], q) + Generated(s, arrows, n + 1, arrows[n].lineEnd, q.lineEnd, base)
  }

  function ImageSpan(f: int -> int, sp: Span): Span {
    Span(f(sp.start), f(sp.end - 1) + 1)
  }

  function ImageSpans(f: int -> int, spans: seq<Span>): (r: seq<Span>)
    ensures |r| == |spans|
  {
    if spans == [] then [] else [ImageSpan(f, spans[0])] + ImageSpans(f, spans[1..])
  }

  function ImageMode(f: int -> int, m: Mode): Mode {
    match m
    case Outside => Outside
    case Inside(o) => Inside(f(o))
  }

  lemma {:induction false} ImageSpansConcat(f: int -> int, a: seq<Span>, b: seq<Span>)
    ensures ImageSpans(f, a + b) == ImageSpans(f, a) + ImageSpans(f, b)
  {
    if a == [] {
      assert a + b == b;
    } else {
      assert (a + b)[1..] == a[1..] + b;
      ImageSpansConcat(f, a[1..], b);
    }
  }

  /** A stretch that moves as a whole reads the same at its new place. */
  lemma {:induction false} ScanMoved(f: int -> int, m: Mode, c: string, off: int, off': int)
    requires forall i :: off <= i < off + |c| ==> f(i) == off' + (i - off)
    ensures var r := Scan(m, c, off);
            Scan(ImageMode(f, m), c, off') == Scanned(ImageSpans(f, r.spans), ImageMode(f, r.mode))
    decreases |c|
  {
    hide OpeningLength;
    if c != [] {
      if m == Outside {
        ScanMoved(f, if OpeningLength(c) > 0 then Inside(off) else Outside, c[1..], off + 1, off' + 1);
      } else if Closes(c) {
        ScanMoved(f, Outside, c[2..], off + 2, off' + 2);
        assert f(off + 1) == off' + 1;
      } else {
        ScanMoved(f, m, c[1..], off + 1, off' + 1);
      }
    }
  }
}
