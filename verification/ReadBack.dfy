/** What Anki reads in a composed swift card: the markers the author wrote and one
    marker for every wrapped side, none inside another. */
module ReadBack {
  import opened Basics
  import opened Lines
  import opened Cloze
  import opened ArrowLines
  import opened Swift

  lemma SnippetPlain(t: Token)
    ensures var s := Snippet(t); NoBraces(s) && s != "" && !Sticky(s[0]) && !Sticky(s[|s| - 1])
  {
    var s := Snippet(t);
    OpenPlain();
    EscapedPlain(t);
    ClosePlain();
    assert s == SNIPPET_OPEN + (Escaped(t) + SNIPPET_CLOSE);
  }

  lemma OpenPlain()
    ensures NoBraces(SNIPPET_OPEN) && SNIPPET_OPEN != "" && !Sticky(SNIPPET_OPEN[0])
  {
  }

  lemma ClosePlain()
    ensures NoBraces(SNIPPET_CLOSE) && SNIPPET_CLOSE != "" && !Sticky(SNIPPET_CLOSE[|SNIPPET_CLOSE| - 1])
  {
  }

  lemma EscapedPlain(t: Token)
    ensures NoBraces(Escaped(t))
  {
  }

  lemma BreakPlain(arrows: seq<Arrow>, n: nat)
    requires n < |arrows|
    ensures var s := Break(arrows, n); NoBraces(s) && (s != "" ==> !Sticky(s[0]) && !Sticky(s[|s| - 1]))
  {
  }

  /** What is read (r') is the image of what was read before (r) and the markers generated. */
  ghost predicate ReadsAs(f: int -> int, r': Scanned, r: Scanned, generated: seq<Span>) {
    && r'.mode == ImageMode(f, r.mode)
    && multiset(r'.spans) == multiset(ImageSpans(f, r.spans)) + multiset(generated)
  }

  lemma ReadsExactly(f: int -> int, r': Scanned, r: Scanned, generated: seq<Span>)
    requires r' == Scanned(ImageSpans(f, r.spans) + generated, ImageMode(f, r.mode))
    ensures ReadsAs(f, r', r, generated)
  {
  }

  lemma ReadsThen(f: int -> int, a': Scanned, a: Scanned, ga: seq<Span>, b': Scanned, b: Scanned, gb: seq<Span>)
    requires ReadsAs(f, a', a, ga) && ReadsAs(f, b', b, gb)
    ensures ReadsAs(f, Then(a', b'), Then(a, b), ga + gb)
  {
    ImageSpansConcat(f, a.spans, b.spans);
  }

  /** What is read of two whole texts. */
  lemma FinishReads(f: int -> int, s: string, s': string, generated: seq<Span>)
    requires ReadsAs(f, Scan(Outside, s', 0), Scan(Outside, s, 0), generated)
    requires s != "" && f(|s| - 1) + 1 == |s'|
    ensures multiset(Spans(s')) == multiset(ImageSpans(f, Spans(s))) + multiset(generated)
  {
    hide Scan, ImageSpans;
    var r, r' := Scan(Outside, s, 0), Scan(Outside, s', 0);
    if r.mode.Inside? {
      var last := Span(r.mode.open, |s|);
      ImageSpansConcat(f, r.spans, [last]);
      ImageOfOne(f, last);
      assert ImageSpan(f, last) == Span(r'.mode.open, |s'|);
    } else {
      assert Spans(s) == r.spans && Spans(s') == r'.spans;
    }
  }

  lemma ImageOfOne(f: int -> int, sp: Span)
    ensures ImageSpans(f, [sp]) == [ImageSpan(f, sp)]
  {
    assert ImageSpans(f, [sp][1..]) == [];
  }

  /** The seams of a side with what stands before and behind it. */
  predicate CleanSeams(pre: string, post: string, suffix: string) {
    && (pre != "" ==> !Sticky(pre[|pre| - 1]))
    && (post != "" ==> !Sticky(post[0]))
    && (suffix != "" ==> !Sticky(suffix[0]))
    && NoBraces(post) && NoBraces(suffix)
  }

  /** A side that is wrapped: its marker is read, and nothing else changes. */
  lemma WrappedReads(f: int -> int, m: Mode, pre: string, side: string, post: string, suffix: string,
                     at: int, out: int, number: int)
    requires CleanSeams(pre, post, suffix)
    requires Scan(m, pre, at).mode == Outside && number >= 0 && side != "" && !HasMarker(side)
    requires forall p :: at <= p < at + |pre| ==> f(p) == out + (p - at)
    ensures var marker := Marker(number, side);
            ReadsAs(f, Scan(ImageMode(f, m), pre + marker + post + suffix, out), Scan(m, pre + side + post, at),
                    [Span(out + |pre|, out + |pre| + |marker|)])
  {
    hide Scan, OpeningLength, HasMarker, Marker, Sticky, ReadsAs, CleanSeams, PlainTail, Seam;
    var marker, tail := Marker(number, side), post + suffix;
    TailPlain(pre, post, suffix, marker);
    SourceReads(m, pre, side, post, suffix, at);
    MarkerReads(number, side, tail, out + |pre|);
    ScanConcat(ImageMode(f, m), pre, marker + tail, out);
    ScanMoved(f, m, pre, at, out);
    assert pre + marker + post + suffix == pre + (marker + tail);
    ReadsExactly(f, Scan(ImageMode(f, m), pre + marker + post + suffix, out), Scan(m, pre + side + post, at),
                 [Span(out + |pre|, out + |pre| + |marker|)]);
  }

  predicate PlainTail(tail: string) {
    NoBraces(tail) && (tail != "" ==> !Sticky(tail[0]))
  }

  /** What stands behind a side stays plain when a break is added. */
  lemma TailPlain(pre: string, post: string, suffix: string, marker: string)
    requires CleanSeams(pre, post, suffix)
    ensures PlainTail(post + suffix) && Seam(pre, marker + (post + suffix))
  {
    hide Sticky;
    var tail := post + suffix;
    assert tail != "" ==> tail[0] == if post != "" then post[0] else suffix[0];
  }

  /** An unmarked side and the stretch behind it add nothing to what is read before them. */
  lemma SourceReads(m: Mode, pre: string, side: string, post: string, suffix: string, at: int)
    requires CleanSeams(pre, post, suffix)
    requires side != "" && !HasMarker(side) && Scan(m, pre, at).mode == Outside
    ensures Scan(m, pre + side + post, at) == Scanned(Scan(m, pre, at).spans, Outside)
  {
    hide Scan, OpeningLength, HasMarker, Sticky;
    assert pre + side + post == pre + (side + post);
    ScanConcat(m, pre, side + post, at);
    ScanConcat(Outside, side, post, at + |pre|);
    ScanUnmarked(side, at + |pre|);
    ScanPlain(Outside, post, at + |pre| + |side|);
  }

  /** A marker and plain text behind it read as that one marker. */
  lemma MarkerReads(number: int, side: string, tail: string, off: int)
    requires number >= 0 && PlainTail(tail)
    ensures Scan(Outside, Marker(number, side) + tail, off) ==
              Scanned([Span(off, off + |Marker(number, side)|)], Outside)
  {
    hide Scan, OpeningLength, Marker, Sticky;
    var marker := Marker(number, side);
    ScanConcat(Outside, marker, tail, off);
    ScanMarker(number, side, off);
    ScanPlain(Outside, tail, off + |marker|);
  }

  /** A side left as it is: only what is written behind it is new. */
  lemma UnwrappedReads(f: int -> int, m: Mode, text: string, suffix: string, at: int, out: int)
    requires suffix != "" ==> !Sticky(suffix[0])
    requires NoBraces(suffix)
    requires forall p :: at <= p < at + |text| ==> f(p) == out + (p - at)
    ensures ReadsAs(f, Scan(ImageMode(f, m), text + suffix, out), Scan(m, text, at), [])
  {
    hide Scan, OpeningLength, Sticky, ReadsAs;
    ScanConcat(ImageMode(f, m), text, suffix, out);
    ScanMoved(f, m, text, at, out);
    ScanPlain(ImageMode(f, Scan(m, text, at).mode), suffix, out + |text|);
    ReadsExactly(f, Scan(ImageMode(f, m), text + suffix, out), Scan(m, text, at), []);
  }

  /** The stretch before a token and the snippet written for the token. */
  lemma LeftReads(f: int -> int, s: string, a: Arrow, at: int, out: int, base: int, n: nat, m: Mode)
    requires Placed(s, a, at)
    requires forall p :: at <= p < a.leftStart ==> f(p) == out + (p - at)
    requires !WrapsLeft(s, a) ==> forall p :: at <= p < a.tokenStart ==> f(p) == out + (p - at)
    requires WrapsLeft(s, a) ==> Scan(m, s[at..a.leftStart], at).mode == Outside && LeftNumber(base, n) >= 0
    ensures var left := out + |Cut(s, at, a.leftStart)|;
            ReadsAs(f, Scan(ImageMode(f, m), LeftHalf(s, a, at, base, n), out), Scan(m, s[at..a.tokenStart], at),
                    if WrapsLeft(s, a) then [Span(left, left + |NewLeft(s, a, base, n)|)] else [])
  {
    hide Scan, OpeningLength, HasMarker, Marker, Sticky, Snippet, LeftNumber, ReadsAs, NoBraces;
    SnippetPlain(a.token);
    var pre, side, gap := s[at..a.leftStart], s[a.leftStart..a.leftEnd], s[a.leftEnd..a.tokenStart];
    PlacedOrder(s, a, at);
    ThreeStretches(s, at, a.leftStart, a.leftEnd, a.tokenStart);
    if WrapsLeft(s, a) {
      WrappedReads(f, m, pre, side, gap, Snippet(a.token), at, out, LeftNumber(base, n));
    } else {
      UnwrappedReads(f, m, pre + side + gap, Snippet(a.token), at, out);
    }
  }

  /** The rest of an arrow line and the break written behind it. */
  lemma RightReads(f: int -> int, s: string, a: Arrow, br: string, at: int, out: int, base: int, n: nat)
    requires Placed(s, a, at)
    requires NoBraces(br) && (br != "" ==> !Sticky(br[0]))
    requires forall p :: a.tokenEnd <= p < a.rightStart ==> f(p) == out + (p - a.tokenEnd)
    requires !WrapsRight(s, a) ==> forall p :: a.tokenEnd <= p < a.lineEnd ==> f(p) == out + (p - a.tokenEnd)
    requires WrapsRight(s, a) ==> RightNumber(base, n) >= 0
    ensures var right := out + |Cut(s, a.tokenEnd, a.rightStart)|;
            ReadsAs(f, Scan(Outside, RightHalf(s, a, br, base, n), out),
                    Scan(Outside, s[a.tokenEnd..a.lineEnd], a.tokenEnd),
                    if WrapsRight(s, a) then [Span(right, right + |NewRight(s, a, base, n)|)] else [])
  {
    hide Scan, OpeningLength, HasMarker, Marker, Sticky, RightNumber, ReadsAs;
    var gap, side, post := s[a.tokenEnd..a.rightStart], s[a.rightStart..a.rightEnd], s[a.rightEnd..a.lineEnd];
    PlacedOrder(s, a, at);
    ThreeStretches(s, a.tokenEnd, a.rightStart, a.rightEnd, a.lineEnd);
    if WrapsRight(s, a) {
      ScanPlain(Outside, gap, a.tokenEnd);
      WrappedReads(f, Outside, gap, side, post, br, a.tokenEnd, out, RightNumber(base, n));
    } else {
      UnwrappedReads(f, Outside, gap + side + post, br, a.tokenEnd, out);
    }
  }

  /** What a side must meet for its generated marker to be read back: no marker the
      author wrote reaches into it, and its number has not wrapped around. */
  predicate SideReadable(s: string, a: Arrow, k: nat, r: Scanned, base: int) {
    && (WrapsLeft(s, a) ==> Uncovered(r, a.leftStart) && LeftNumber(base, k) >= 0)
    && (WrapsRight(s, a) ==> RightNumber(base, k) >= 0)
  }

  /** No token of the arrows from n on is covered by what is read, and every side is readable. */
  predicate AllReadable(s: string, arrows: seq<Arrow>, n: nat, r: Scanned, base: int) {
    forall k :: n <= k < |arrows| ==> Uncovered(r, arrows[k].tokenStart) && SideReadable(s, arrows[k], k, r, base)
  }

  lemma SuffixUncovered(a: Scanned, b: Scanned, p: int)
    requires Uncovered(Then(a, b), p)
    ensures Uncovered(b, p)
  {
    assert forall sp :: sp in b.spans ==> sp in Then(a, b).spans;
  }

  lemma RestReadable(s: string, arrows: seq<Arrow>, n: nat, base: int, first: Scanned, rest: Scanned)
    requires n < |arrows| && AllReadable(s, arrows, n, Then(first, rest), base)
    ensures AllReadable(s, arrows, n + 1, rest, base)
  {
    hide Uncovered, WrapsLeft, WrapsRight, LeftNumber, RightNumber, Then;
    forall k | n + 1 <= k < |arrows|
      ensures Uncovered(rest, arrows[k].tokenStart) && SideReadable(s, arrows[k], k, rest, base)
    {
      SuffixUncovered(first, rest, arrows[k].tokenStart);
      if WrapsLeft(s, arrows[k]) { SuffixUncovered(first, rest, arrows[k].leftStart); }
    }
  }

  // ------------------------------------------------------- how texts are cut

  lemma LeftHalfEnds(s: string, a: Arrow, at: int, base: int, n: nat)
    requires 0 <= at < a.leftStart <= |s|
    ensures var c := LeftHalf(s, a, at, base, n); c != "" && c[0] == s[at] && !Sticky(c[|c| - 1])
  {
    hide NewLeft, Snippet, Sticky;
    SnippetPlain(a.token);
    var c := LeftHalf(s, a, at, base, n);
    var gap := Cut(s, a.leftEnd, a.tokenStart);
    assert c[|c| - 1] == Snippet(a.token)[|Snippet(a.token)| - 1];
    assert c == s[at..a.leftStart] + (NewLeft(s, a, base, n) + gap + Snippet(a.token));
    assert c[0] == s[at..a.leftStart][0];
  }

  lemma FirstOfThree(a: string, b: string, c: string)
    requires a != ""
    ensures a + b + c != "" && (a + b + c)[0] == a[0]
  {
  }

  /** The composed text starts as the text does, so its seam is as clean. */
  lemma ComposeStart(s: string, arrows: seq<Arrow>, n: nat, at: int, base: int)
    requires Chain(s, arrows, n, at)
    ensures var c := Compose(s, arrows, n, at, base);
            if at < |s| then c != "" && c[0] == s[at] else c == ""
  {
    hide LeftHalf, RightHalf, Sticky, NoBraces;
    if n < |arrows| {
      var a := arrows[n];
      LeftHalfEnds(s, a, at, base, n);
      FirstOfThree(LeftHalf(s, a, at, base, n), RightHalf(s, a, Break(arrows, n), base, n),
                   Compose(s, arrows, n + 1, a.lineEnd, base));
    }
  }

  lemma CutAtToken(s: string, a: Arrow, at: int, m: Mode)
    requires Placed(s, a, at)
    requires m.Inside? ==> m.open < at
    requires Uncovered(Scan(m, s[at..], at), a.tokenStart)
    ensures var left := Scan(m, s[at..a.tokenStart], at);
            && left.mode == Outside
            && Scan(m, s[at..], at) == Then(left, Scan(Outside, s[a.tokenEnd..], a.tokenEnd))
  {
    hide Scan, OpeningLength, Uncovered, Sticky, NoBraces;
    var before, token := s[at..a.tokenStart], s[a.tokenStart..a.tokenEnd];
    assert s[at..] == before + s[a.tokenStart..];
    ScanCut(m, before, s[a.tokenStart..], at);
    assert s[a.tokenStart..] == token + s[a.tokenEnd..];
    TokenPlain(a.token);
    ScanConcat(Outside, token, s[a.tokenEnd..], a.tokenStart);
    ScanPlain(Outside, token, a.tokenStart);
  }

  /** How s[at..] is cut at an arrow: before its token, and at the end of its line. */
  lemma CutAtArrow(s: string, a: Arrow, at: int, m: Mode)
    requires Placed(s, a, at)
    requires m.Inside? ==> m.open < at
    requires Uncovered(Scan(m, s[at..], at), a.tokenStart)
    ensures var left := Scan(m, s[at..a.tokenStart], at);
            var right := Scan(Outside, s[a.tokenEnd..a.lineEnd], a.tokenEnd);
            && left.mode == Outside
            && Scan(m, s[at..], at) == Then(Then(left, right), Scan(right.mode, s[a.lineEnd..], a.lineEnd))
            && (right.mode.Inside? ==> right.mode.open < a.lineEnd)
  {
    hide Scan, OpeningLength, Uncovered, Sticky, NoBraces;
    var line, rest := s[a.tokenEnd..a.lineEnd], s[a.lineEnd..];
    CutAtToken(s, a, at, m);
    assert s[a.tokenEnd..] == line + rest;
    ScanConcat(Outside, line, rest, a.tokenEnd);
    var right := Scan(Outside, line, a.tokenEnd);
    if right.mode.Inside? { OpenBoundsOutside(line, a.tokenEnd); }
  }

  lemma TokenPlain(t: Token)
    ensures var s := TokenText(t); NoBraces(s) && s != "" && !Sticky(s[|s| - 1])
  {
  }

  lemma CutAtSide(s: string, a: Arrow, at: int, m: Mode)
    requires Placed(s, a, at)
    requires m.Inside? ==> m.open < at
    requires Uncovered(Scan(m, s[at..], at), a.leftStart)
    ensures Scan(m, s[at..a.leftStart], at).mode == Outside
  {
    hide Scan, OpeningLength, Uncovered, Sticky;
    assert s[at..] == s[at..a.leftStart] + s[a.leftStart..];
    ScanCut(m, s[at..a.leftStart], s[a.leftStart..], at);
  }

  /** The image function over the pieces of one arrow line and beyond it. */
  lemma ImagePieces(f: int -> int, s: string, arrows: seq<Arrow>, n: nat, at: int, out: int, base: int)
    requires n < |arrows| && Placed(s, arrows[n], at)
    requires forall p :: at <= p ==> f(p) == Image(s, arrows, n, at, out, base, p)
    ensures var a, q := arrows[n], PlacesOf(s, arrows, n, at, out, base);
            && (forall p :: at <= p < a.leftStart ==> f(p) == out + (p - at))
            && (!WrapsLeft(s, a) ==> forall p :: at <= p < a.tokenStart ==> f(p) == out + (p - at))
            && (forall p :: a.tokenEnd <= p < a.rightStart ==> f(p) == q.tokenEnd + (p - a.tokenEnd))
            && (!WrapsRight(s, a) ==> forall p :: a.tokenEnd <= p < a.lineEnd ==> f(p) == q.tokenEnd + (p - a.tokenEnd))
            && (forall p :: a.lineEnd <= p ==> f(p) == Image(s, arrows, n + 1, a.lineEnd, q.lineEnd, base, p))
  {
    hide Sticky, HasMarker, Snippet, Marker, NoBraces, RightHalf;
  }

  lemma ScanThree(m: Mode, c1: string, c2: string, c3: string, off: int)
    requires c1 != "" && !Sticky(c1[|c1| - 1])
    requires c3 != "" ==> !Sticky(c3[0])
    ensures var r1 := Scan(m, c1, off);
            var r2 := Scan(r1.mode, c2, off + |c1|);
            var r3 := Scan(r2.mode, c3, off + |c1| + |c2|);
            Scan(m, c1 + c2 + c3, off) == Then(Then(r1, r2), r3)
  {
    hide Scan, OpeningLength, Sticky;
    ScanConcat(m, c1 + c2, c3, off);
    ScanConcat(m, c1, c2, off);
  }

  lemma JoinTexts(s: string, arrows: seq<Arrow>, n: nat, at: int, out: int, base: int, m': Mode)
    requires n < |arrows| && Chain(s, arrows, n, at)
    ensures var line := ScanArrow(s, arrows, n, at, out, base, m');
            Scan(m', Compose(s, arrows, n, at, base), out)
            == Then(line, Scan(line.mode, Compose(s, arrows, n + 1, arrows[n].lineEnd, base),
                               PlacesOf(s, arrows, n, at, out, base).lineEnd))
  {
    hide Scan, Sticky, NoBraces, LeftHalf, RightHalf, Break, NewLeft, NewRight, Cut;
    var a := arrows[n];
    LeftHalfEnds(s, a, at, base, n);
    ComposeStart(s, arrows, n + 1, a.lineEnd, base);
    ScanThree(m', LeftHalf(s, a, at, base, n), RightHalf(s, a, Break(arrows, n), base, n),
              Compose(s, arrows, n + 1, a.lineEnd, base), out);
  }

  // ------------------------------------------------------------- the theorem

  /** From any arrow on, the composed text reads as the images of what the author wrote
      and exactly the generated markers. */
  lemma {:induction false} ReadBackFrom(f: int -> int, s: string, arrows: seq<Arrow>, n: nat, at: int, out: int,
                                        base: int, m: Mode)
    requires n <= |arrows| && Chain(s, arrows, n, at) && 0 <= at <= |s|
    requires m.Inside? ==> m.open < at
    requires forall p :: at <= p ==> f(p) == Image(s, arrows, n, at, out, base, p)
    requires AllReadable(s, arrows, n, Scan(m, s[at..], at), base)
    ensures ReadsAs(f, Scan(ImageMode(f, m), Compose(s, arrows, n, at, base), out), Scan(m, s[at..], at),
                    Generated(s, arrows, n, at, out, base))
    decreases |arrows| - n
  {
    hide Scan, Uncovered, Sticky, LeftNumber, RightNumber, Compose, NewLeft, NewRight, ReadsAs,
      LeftHalf, RightHalf, Image, ImageSpans, NoBraces, Wraps, WrapsLeft, WrapsRight, Cut, Break;
    if n == |arrows| {
      LastStretch(f, s, arrows, at, out, base, m);
    } else {
      var a, q := arrows[n], PlacesOf(s, arrows, n, at, out, base);
      var left := Scan(m, s[at..a.tokenStart], at);
      var right := Scan(Outside, s[a.tokenEnd..a.lineEnd], a.tokenEnd);
      var rest := Scan(right.mode, s[a.lineEnd..], a.lineEnd);
      CutAtArrow(s, a, at, m);
      if WrapsLeft(s, a) { CutAtSide(s, a, at, m); }
      ArrowReads(f, s, arrows, n, at, out, base, m);
      RestReadable(s, arrows, n, base, Then(left, right), rest);
      ImagePieces(f, s, arrows, n, at, out, base);
      ReadBackFrom(f, s, arrows, n + 1, a.lineEnd, q.lineEnd, base, right.mode);
      JoinTexts(s, arrows, n, at, out, base, ImageMode(f, m));
      ReadsThen(f, ScanArrow(s, arrows, n, at, out, base, ImageMode(f, m)), Then(left, right), GeneratedAt(s, a, q),
                Scan(ImageMode(f, right.mode), Compose(s, arrows, n + 1, a.lineEnd, base), q.lineEnd), rest,
                Generated(s, arrows, n + 1, a.lineEnd, q.lineEnd, base));
    }
  }

  /** Reading what is written for one arrow line. */
  function ScanArrow(s: string, arrows: seq<Arrow>, n: nat, at: int, out: int, base: int, m': Mode): Scanned
    requires n < |arrows|
  {
    var a := arrows[n];
    var c1, c2 := LeftHalf(s, a, at, base, n), RightHalf(s, a, Break(arrows, n), base, n);
    var r1 := Scan(m', c1, out);
    Then(r1, Scan(r1.mode, c2, out + |c1|))
  }

  lemma ArrowReads(f: int -> int, s: string, arrows: seq<Arrow>, n: nat, at: int, out: int, base: int, m: Mode)
    requires n < |arrows| && Placed(s, arrows[n], at)
    requires forall p :: at <= p ==> f(p) == Image(s, arrows, n, at, out, base, p)
    requires WrapsLeft(s, arrows[n]) ==>
              Scan(m, s[at..arrows[n].leftStart], at).mode == Outside && LeftNumber(base, n) >= 0
    requires WrapsRight(s, arrows[n]) ==> RightNumber(base, n) >= 0
    requires Scan(m, s[at..arrows[n].tokenStart], at).mode == Outside
    ensures var a := arrows[n];
            var before := Then(Scan(m, s[at..a.tokenStart], at), Scan(Outside, s[a.tokenEnd..a.lineEnd], a.tokenEnd));
            var line := ScanArrow(s, arrows, n, at, out, base, ImageMode(f, m));
            && line.mode == ImageMode(f, before.mode)
            && ReadsAs(f, line, before, GeneratedAt(s, a, PlacesOf(s, arrows, n, at, out, base)))
  {
    hide Scan, ReadsAs, Sticky, LeftNumber, RightNumber, NewLeft, NewRight,
      LeftHalf, RightHalf, Image, ImageSpans, NoBraces, Wraps, WrapsLeft, WrapsRight, Cut, Break;
    var a, q := arrows[n], PlacesOf(s, arrows, n, at, out, base);
    ImagePieces(f, s, arrows, n, at, out, base);
    LeftReads(f, s, a, at, out, base, n, m);
    ReadsMode(f, Scan(ImageMode(f, m), LeftHalf(s, a, at, base, n), out), Scan(m, s[at..a.tokenStart], at),
              if WrapsLeft(s, a) then [Span(q.leftStart, q.leftEnd)] else []);
    BreakPlain(arrows, n);
    var br := Break(arrows, n);
    RightReads(f, s, a, br, at, q.tokenEnd, base, n);
    ReadsThen(f, Scan(ImageMode(f, m), LeftHalf(s, a, at, base, n), out), Scan(m, s[at..a.tokenStart], at),
              if WrapsLeft(s, a) then [Span(q.leftStart, q.leftEnd)] else [],
              Scan(Outside, RightHalf(s, a, br, base, n), q.tokenEnd),
              Scan(Outside, s[a.tokenEnd..a.lineEnd], a.tokenEnd),
              if WrapsRight(s, a) then [Span(q.rightStart, q.rightEnd)] else []);
    ReadsMode(f, ScanArrow(s, arrows, n, at, out, base, ImageMode(f, m)),
              Then(Scan(m, s[at..a.tokenStart], at), Scan(Outside, s[a.tokenEnd..a.lineEnd], a.tokenEnd)),
              GeneratedAt(s, a, q));
  }

  lemma ReadsMode(f: int -> int, r': Scanned, r: Scanned, generated: seq<Span>)
    requires ReadsAs(f, r', r, generated)
    ensures r'.mode == ImageMode(f, r.mode)
  {
  }

  lemma LastStretch(f: int -> int, s: string, arrows: seq<Arrow>, at: int, out: int, base: int, m: Mode)
    requires 0 <= at <= |s|
    requires forall p :: at <= p ==> f(p) == Image(s, arrows, |arrows|, at, out, base, p)
    ensures ReadsAs(f, Scan(ImageMode(f, m), Compose(s, arrows, |arrows|, at, base), out), Scan(m, s[at..], at),
                    Generated(s, arrows, |arrows|, at, out, base))
  {
    hide Scan;
    assert Cut(s, at, |s|) == s[at..];
    ScanMoved(f, m, s[at..], at, out);
  }

  // ------------------------------------------- when a generated marker is lost

  /** A side before which the reader is outside is covered by no marker the author wrote. */
  lemma SideUncovered(s: string, a: Arrow, at: int, m: Mode)
    requires Placed(s, a, at) && WrapsLeft(s, a)
    requires m.Inside? ==> m.open < at
    requires Uncovered(Scan(m, s[at..], at), a.tokenStart)
    requires Scan(m, s[at..a.leftStart], at).mode == Outside
    ensures Uncovered(Scan(m, s[at..], at), a.leftStart)
  {
    hide Scan, OpeningLength, Sticky, HasMarker, StartsIn;
    var whole := Scan(m, s[at..], at);
    var pre, side, gap := s[at..a.leftStart], s[a.leftStart..a.leftEnd], s[a.leftEnd..a.tokenStart];
    var before, after := Scan(m, pre, at), Scan(Outside, s[a.tokenEnd..], a.tokenEnd);
    CutAtToken(s, a, at, m);
    PlacedOrder(s, a, at);
    ThreeStretches(s, at, a.leftStart, a.leftEnd, a.tokenStart);
    ScanConcat(m, pre, side + gap, at);
    ScanConcat(Outside, side, gap, a.leftStart);
    ScanUnmarked(side, a.leftStart);
    ScanPlain(Outside, gap, a.leftEnd);
    assert whole.spans == before.spans + after.spans;
    forall sp | sp in whole.spans ensures !Covers(sp, a.leftStart) {
      if sp in before.spans { SpanBounds(m, pre, at, sp); } else { SpanAfter(s[a.tokenEnd..], a.tokenEnd, sp); }
    }
    if whole.mode.Inside? { OpenBoundsOutside(s[a.tokenEnd..], a.tokenEnd); }
  }

  lemma SpanAfter(s: string, off: int, sp: Span)
    requires sp in Scan(Outside, s, off).spans
    ensures off <= sp.start
  {
    hide Scan, OpeningLength;
    SpanBounds(Outside, s, off, sp);
  }

  lemma OpenBefore(m: Mode, s: string, off: int)
    requires m.Inside? ==> m.open < off
    requires Scan(m, s, off).mode.Inside?
    ensures Scan(m, s, off).mode.open < off + |s|
  {
    hide Scan, OpeningLength;
    OpenBounds(m, s, off);
  }

  /** The first side a marker of the author's reaches into: that marker now ends at the
      generated braces and swallows the generated opening. */
  lemma {:induction false} SwallowedFrom(f: int -> int, s: string, arrows: seq<Arrow>, n: nat, at: int, out: int,
                                         base: int, m: Mode, k: nat) returns (x: Span, g: Span)
    requires n <= k < |arrows| && Chain(s, arrows, n, at) && 0 <= at <= |s|
    requires m.Inside? ==> m.open < at && f(m.open) < out
    requires forall p :: at <= p ==> f(p) == Image(s, arrows, n, at, out, base, p)
    requires forall j :: n <= j < |arrows| ==> Uncovered(Scan(m, s[at..], at), arrows[j].tokenStart)
    requires forall j :: n <= j < k ==> SideReadable(s, arrows[j], j, Scan(m, s[at..], at), base)
    requires WrapsLeft(s, arrows[k]) && !Uncovered(Scan(m, s[at..], at), arrows[k].leftStart)
    ensures g in Generated(s, arrows, n, at, out, base)
    ensures x in Scan(ImageMode(f, m), Compose(s, arrows, n, at, base), out).spans
    ensures x.start < g.start && g.end == x.end
    decreases k - n
  {
    hide Scan, Uncovered, Sticky, LeftNumber, RightNumber, Compose, NewLeft, NewRight, ReadsAs,
      LeftHalf, RightHalf, Image, ImageSpans, NoBraces, Wraps, WrapsLeft, WrapsRight, Cut, Break;
    var a, q := arrows[n], PlacesOf(s, arrows, n, at, out, base);
    var m' := ImageMode(f, m);
    JoinTexts(s, arrows, n, at, out, base, m');
    CutAtArrow(s, a, at, m);
    ImagePieces(f, s, arrows, n, at, out, base);
    if n == k {
      if Scan(m, s[at..a.leftStart], at).mode == Outside { SideUncovered(s, a, at, m); assert false; }
      x := SwallowedHere(f, s, a, at, out, base, n, m);
      g := Span(q.leftStart, q.leftEnd);
      assert GeneratedAt(s, a, q)[0] == g;
    } else {
      var left := Scan(m, s[at..a.tokenStart], at);
      var right := Scan(Outside, s[a.tokenEnd..a.lineEnd], a.tokenEnd);
      if WrapsLeft(s, a) { CutAtSide(s, a, at, m); }
      ArrowReads(f, s, arrows, n, at, out, base, m);
      var first, rest := Then(left, right), Scan(right.mode, s[a.lineEnd..], a.lineEnd);
      ChainAfter(s, arrows, n + 1, a.lineEnd, k);
      forall sp | sp in first.spans ensures sp.end <= arrows[k].leftStart { LineSpansEnd(s, a, at, m, sp); }
      RestSwallows(s, arrows, n, k, base, first, rest);
      var line := ScanArrow(s, arrows, n, at, out, base, m');
      if line.mode.Inside? { ScanArrowOpen(s, arrows, n, at, out, base, m'); }
      x, g := SwallowedFrom(f, s, arrows, n + 1, a.lineEnd, q.lineEnd, base, right.mode, k);
    }
  }

  lemma ScanArrowOpen(s: string, arrows: seq<Arrow>, n: nat, at: int, out: int, base: int, m': Mode)
    requires n < |arrows| && ScanArrow(s, arrows, n, at, out, base, m').mode.Inside?
    requires m'.Inside? ==> m'.open < out
    ensures ScanArrow(s, arrows, n, at, out, base, m').mode.open < PlacesOf(s, arrows, n, at, out, base).lineEnd
  {
    hide Scan, LeftHalf, RightHalf, Break, NewLeft, NewRight, Cut;
    var a := arrows[n];
    var c1 := LeftHalf(s, a, at, base, n);
    var r1 := Scan(m', c1, out);
    if r1.mode.Inside? { OpenBefore(m', c1, out); }
    OpenBefore(r1.mode, RightHalf(s, a, Break(arrows, n), base, n), out + |c1|);
  }

  lemma RestSwallows(s: string, arrows: seq<Arrow>, n: nat, k: nat, base: int, first: Scanned, rest: Scanned)
    requires n < k < |arrows|
    requires forall j :: n <= j < |arrows| ==> Uncovered(Then(first, rest), arrows[j].tokenStart)
    requires forall j :: n <= j < k ==> SideReadable(s, arrows[j], j, Then(first, rest), base)
    requires !Uncovered(Then(first, rest), arrows[k].leftStart)
    requires forall sp :: sp in first.spans ==> sp.end <= arrows[k].leftStart
    ensures forall j :: n + 1 <= j < |arrows| ==> Uncovered(rest, arrows[j].tokenStart)
    ensures forall j :: n + 1 <= j < k ==> SideReadable(s, arrows[j], j, rest, base)
    ensures !Uncovered(rest, arrows[k].leftStart)
  {
    hide WrapsLeft, WrapsRight, LeftNumber, RightNumber;
    forall j | n + 1 <= j < |arrows| ensures Uncovered(rest, arrows[j].tokenStart) {
      SuffixUncovered(first, rest, arrows[j].tokenStart);
    }
    forall j | n + 1 <= j < k ensures SideReadable(s, arrows[j], j, rest, base) {
      if WrapsLeft(s, arrows[j]) { SuffixUncovered(first, rest, arrows[j].leftStart); }
    }
  }

  lemma {:induction false} ChainAfter(s: string, arrows: seq<Arrow>, n: nat, at: int, k: nat)
    requires n <= k < |arrows| && Chain(s, arrows, n, at)
    ensures at < arrows[k].leftStart
    decreases k - n
  {
    hide Sticky, NoBraces;
    if n < k { ChainAfter(s, arrows, n + 1, arrows[n].lineEnd, k); }
  }

  /** Markers read from one arrow line end on it. */
  lemma LineSpansEnd(s: string, a: Arrow, at: int, m: Mode, sp: Span)
    requires Placed(s, a, at)
    requires m.Inside? ==> m.open < at
    requires sp in Then(Scan(m, s[at..a.tokenStart], at), Scan(Outside, s[a.tokenEnd..a.lineEnd], a.tokenEnd)).spans
    ensures sp.end <= a.lineEnd
  {
    hide Scan, OpeningLength, Sticky, NoBraces;
    if sp in Scan(m, s[at..a.tokenStart], at).spans {
      SpanBounds(m, s[at..a.tokenStart], at, sp);
    } else {
      SpanBounds(Outside, s[a.tokenEnd..a.lineEnd], a.tokenEnd, sp);
    }
  }

  lemma SwallowedHere(f: int -> int, s: string, a: Arrow, at: int, out: int, base: int, n: nat, m: Mode)
    returns (x: Span)
    requires Placed(s, a, at) && WrapsLeft(s, a)
    requires m.Inside? ==> m.open < at && f(m.open) < out
    requires forall p :: at <= p < a.leftStart ==> f(p) == out + (p - at)
    requires Scan(m, s[at..a.leftStart], at).mode.Inside?
    ensures x in Scan(ImageMode(f, m), LeftHalf(s, a, at, base, n), out).spans
    ensures var left := out + |Cut(s, at, a.leftStart)|; x.start < left && x.end == left + |NewLeft(s, a, base, n)|
  {
    hide Scan, OpeningLength, HasMarker, Marker, Sticky, Snippet, LeftNumber, NoBraces;
    SnippetPlain(a.token);
    var pre, side, gap := s[at..a.leftStart], s[a.leftStart..a.leftEnd], s[a.leftEnd..a.tokenStart];
    var marker := Marker(LeftNumber(base, n), side);
    var tail := gap + Snippet(a.token);
    assert LeftHalf(s, a, at, base, n) == pre + (marker + tail);
    ScanConcat(ImageMode(f, m), pre, marker + tail, out);
    ScanMoved(f, m, pre, at, out);
    var o' := Scan(ImageMode(f, m), pre, out).mode.open;
    OpenBefore(ImageMode(f, m), pre, out);
    assert tail[0] == if gap != "" then gap[0] else Snippet(a.token)[0];
    ScanConcat(Inside(o'), marker, tail, out + |pre|);
    ScanNestedMarker(o', LeftNumber(base, n), side, out + |pre|);
    x := Span(o', out + |pre| + |marker|);
    assert Scan(Inside(o'), marker + tail, out + |pre|).spans[0] == x;
  }
}
