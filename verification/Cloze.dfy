/** Anki cloze markers `{{cN::…}}` as internal/anki/orgdoc reads and writes them.

    A `char` stands for one character of the text. The patterns are ASCII only,
    so counting characters or bytes makes no difference to what they match. */
module Cloze {
  import opened Basics

  const MAX_INT: int := 0x7FFF_FFFF_FFFF_FFFF

  // ---------------------------------------------------------------- openings

  /** Length of the opening `{{c\d+::` that s starts with, 0 when it starts with none. */
  function OpeningLength(s: string): (n: nat)
    ensures n <= |s|
  {
    if |s| < 3 || s[0] != '{' || s[1] != '{' || s[2] != 'c' then 0 else
    var d := DigitRun(s[3..]);
    if d == 0 || |s| < d + 5 || s[d + 3] != ':' || s[d + 4] != ':' then 0 else d + 5
  }

  predicate HasMarker(s: string) {
    s != [] && (OpeningLength(s) > 0 || HasMarker(s[1..]))
  }

  /** Text a generated marker may be put around. */
  predicate Wrappable(span: string) {
    span != "" && !HasMarker(span)
  }

  /** A character that can take part in `{{cN::` or `}}`. */
  predicate Sticky(c: char) {
    c == '{' || c == '}' || c == 'c' || c == ':' || IsDigit(c)
  }

  /** No marker token can lie across the seam between a and b. */
  predicate Seam(a: string, b: string) {
    a == [] || b == [] || !Sticky(a[|a| - 1]) || !Sticky(b[0])
  }

  lemma {:induction false} DigitRunConcat(a: string, b: string)
    ensures DigitRun(a) < |a| ==> DigitRun(a + b) == DigitRun(a)
    ensures DigitRun(a) == |a| ==> DigitRun(a + b) == |a| + DigitRun(b)
    ensures forall i :: 0 <= i < DigitRun(a) ==> IsDigit(a[i])
  {
    if a == [] {
      assert a + b == b;
    } else {
      assert (a + b)[1..] == a[1..] + b;
      DigitRunConcat(a[1..], b);
      forall i | 0 <= i < DigitRun(a)
        ensures IsDigit(a[i])
      {
        if i > 0 { assert a[i] == a[1..][i - 1]; }
      }
    }
  }

  /** An opening that ends inside a does not depend on what follows a. */
  lemma OpeningWithin(a: string, b: string)
    requires OpeningLength(a + b) <= |a|
    ensures OpeningLength(a + b) == OpeningLength(a)
  {
    if |a| >= 3 {
      assert (a + b)[3..] == a[3..] + b;
      DigitRunConcat(a[3..], b);
    }
  }

  lemma OpeningChars(s: string, i: nat)
    requires i < OpeningLength(s)
    ensures Sticky(s[i]) && s[i] != '}'
  {
    DigitRunConcat(s[3..], []);
    if 3 <= i < |s| { assert s[i] == s[3..][i - 3]; }
  }

  lemma OpeningSeam(a: string, b: string)
    requires a != [] && Seam(a, b)
    ensures OpeningLength(a + b) == OpeningLength(a)
  {
    if OpeningLength(a + b) > |a| {
      OpeningChars(a + b, |a| - 1);
      OpeningChars(a + b, |a|);
    }
    OpeningWithin(a, b);
  }

  // ------------------------------------------------------- extents of markers

  datatype Span = Span(start: int, end: int)
  datatype Mode = Outside | Inside(open: int)
  datatype Scanned = Scanned(spans: seq<Span>, mode: Mode)

  predicate Closes(s: string) {
    |s| >= 2 && s[0] == '}' && s[1] == '}'
  }

  /** Anki's non-greedy reader over a piece of text that starts at offset off:
      the markers that close in the piece, and the state it is left in. */
  function Scan(m: Mode, s: string, off: int): Scanned
    decreases |s|
  {
    if s == [] then Scanned([], m) else
    match m
    case Outside =>
      Scan(if OpeningLength(s) > 0 then Inside(off) else Outside, s[1..], off + 1)
    case Inside(o) =>
      if Closes(s) then
        var rest := Scan(Outside, s[2..], off + 2);
        Scanned([Span(o, off + 2)] + rest.spans, rest.mode)
      else Scan(m, s[1..], off + 1)
  }

  /** All marker extents of a whole text; an opening that never closes runs to the end. */
  function Spans(s: string): seq<Span> {
    Finish(Scan(Outside, s, 0), |s|)
  }

  function Finish(r: Scanned, length: int): seq<Span> {
    r.spans + if r.mode.Inside? then [Span(r.mode.open, length)] else []
  }

  predicate Covers(sp: Span, p: int) {
    sp.start <= p < sp.end
  }

  predicate InsideAnySpan(spans: seq<Span>, p: int) {
    exists sp :: sp in spans && Covers(sp, p)
  }

  function Then(a: Scanned, b: Scanned): Scanned {
    Scanned(a.spans + b.spans, b.mode)
  }

  lemma ScanNothing(m: Mode, off: int)
    ensures Scan(m, "", off) == Scanned([], m)
  {
  }

  lemma ScanOutside(s: string, off: int)
    requires s != ""
    ensures Scan(Outside, s, off) == Scan(if OpeningLength(s) > 0 then Inside(off) else Outside, s[1..], off + 1)
  {
    hide OpeningLength;
  }

  lemma ScanInside(o: int, s: string, off: int)
    requires s != ""
    ensures Closes(s) ==>
              Scan(Inside(o), s, off) == Then(Scanned([Span(o, off + 2)], Outside), Scan(Outside, s[2..], off + 2))
    ensures !Closes(s) ==> Scan(Inside(o), s, off) == Scan(Inside(o), s[1..], off + 1)
  {
    hide OpeningLength;
  }

  lemma ThenAgain(a: Scanned, b: Scanned, c: Scanned)
    ensures Then(a, Then(b, c)) == Then(Then(a, b), c)
  {
  }

  lemma ThenNothing(m: Mode, r: Scanned)
    ensures Then(Scanned([], m), r) == r
  {
    assert [] + r.spans == r.spans;
  }

  /** Scanning is a fold over any cut that no marker token crosses. */
  lemma {:induction false} ScanConcat(m: Mode, a: string, b: string, off: int)
    requires Seam(a, b)
    ensures Scan(m, a + b, off) == Then(Scan(m, a, off), Scan(Scan(m, a, off).mode, b, off + |a|))
    decreases |a|
  {
    hide OpeningLength, Scan, Then;
    if a == [] {
      assert a + b == b;
      ScanNothing(m, off);
      ThenNothing(m, Scan(m, b, off));
    } else {
      assert (a + b)[1..] == a[1..] + b;
      if m == Outside {
        OpeningSeam(a, b);
        ScanOutside(a, off);
        ScanOutside(a + b, off);
        ScanConcat(if OpeningLength(a) > 0 then Inside(off) else Outside, a[1..], b, off + 1);
      } else {
        ScanInside(m.open, a, off);
        ScanInside(m.open, a + b, off);
        if Closes(a) {
          assert (a + b)[2..] == a[2..] + b;
          ScanConcat(Outside, a[2..], b, off + 2);
          var first, before := Scanned([Span(m.open, off + 2)], Outside), Scan(Outside, a[2..], off + 2);
          ThenAgain(first, before, Scan(before.mode, b, off + |a|));
          ThenMode(first, before);
        } else {
          assert !Closes(a + b);
          ScanConcat(m, a[1..], b, off + 1);
        }
      }
    }
  }

  lemma ThenMode(a: Scanned, b: Scanned)
    ensures Then(a, b).mode == b.mode
  {
  }

  /** Inside a marker, text free of closing braces changes nothing. */
  lemma {:induction false} ScanNoClose(o: int, s: string, off: int)
    requires '}' !in s
    ensures Scan(Inside(o), s, off) == Scanned([], Inside(o))
  {
    if s != [] { ScanNoClose(o, s[1..], off + 1); }
  }

  /** From inside a marker the reader either never gets out or closes that marker first. */
  lemma {:induction false} FirstClose(o: int, s: string, off: int)
    ensures var r := Scan(Inside(o), s, off);
            || r == Scanned([], Inside(o))
            || (r.spans != [] && r.spans[0].start == o && r.spans[0].end >= off + 2)
    decreases |s|
  {
    if s != [] && !Closes(s) { FirstClose(o, s[1..], off + 1); }
  }

  predicate Uncovered(r: Scanned, p: int) {
    !InsideAnySpan(r.spans, p) && (r.mode.Inside? ==> p < r.mode.open)
  }

  lemma StillCovered(o: int, s: string, off: int)
    requires o < off
    ensures !Uncovered(Scan(Inside(o), s, off), off)
  {
    hide OpeningLength;
    var r := Scan(Inside(o), s, off);
    FirstClose(o, s, off);
    if r.spans != [] { assert Covers(r.spans[0], off); }
  }

  /** A position no marker covers is always a clean cut, whatever characters meet there. */
  lemma {:induction false} ScanCut(m: Mode, a: string, b: string, off: int)
    requires b != []
    requires m.Inside? ==> m.open < off
    requires Uncovered(Scan(m, a + b, off), off + |a|)
    ensures Scan(m, a, off).mode == Outside
    ensures Scan(m, a + b, off) == Then(Scan(m, a, off), Scan(Outside, b, off + |a|))
    decreases |a|
  {
    hide OpeningLength;
    var whole := Scan(m, a + b, off);
    if a == [] {
      assert a + b == b;
      if m.Inside? {
        StillCovered(m.open, b, off);
      }
    } else {
      assert (a + b)[1..] == a[1..] + b;
      if m == Outside {
        var k := OpeningLength(a + b);
        ScanCut(if k > 0 then Inside(off) else Outside, a[1..], b, off + 1);
        if k > |a| {
          forall i | 0 <= i < |a| ensures a[i] != '}' { OpeningChars(a + b, i); }
          ScanNoClose(off, a[1..], off + 1);
          assert false;
        }
        OpeningWithin(a, b);
      } else if Closes(a + b) {
        assert whole.spans[0] == Span(m.open, off + 2);
        assert Covers(whole.spans[0], off + 1);
        assert (a + b)[2..] == a[2..] + b;
        assert whole.spans == [Span(m.open, off + 2)] + Scan(Outside, a[2..] + b, off + 2).spans;
        ScanCut(Outside, a[2..], b, off + 2);
      } else {
        ScanCut(m, a[1..], b, off + 1);
      }
    }
  }

  /** Where a marker extent (or the open end) of a scanned piece may start. */
  predicate StartsIn(m: Mode, s: string, off: int, start: int) {
    m == Inside(start) || (off <= start < off + |s| && OpeningLength(s[start - off..]) > 0)
  }

  lemma StartsInTail(m: Mode, s: string, off: int, k: nat, start: int)
    requires 0 < k <= |s|
    requires StartsIn(m, s[k..], off + k, start)
    ensures m == Inside(start) || StartsIn(Outside, s, off, start)
  {
    if m != Inside(start) { assert s[k..][start - off - k..] == s[start - off..]; }
  }

  /** Every extent lies in the text read so far, and opens at an opening. */
  lemma {:induction false} SpanBounds(m: Mode, s: string, off: int, sp: Span)
    requires m.Inside? ==> m.open < off
    requires sp in Scan(m, s, off).spans
    ensures sp.start < sp.end <= off + |s| && off < sp.end
    ensures StartsIn(m, s, off, sp.start)
    decreases |s|
  {
    hide OpeningLength;
    if m == Outside {
      var m' := if OpeningLength(s) > 0 then Inside(off) else Outside;
      SpanBounds(m', s[1..], off + 1, sp);
      StartsInTail(m', s, off, 1, sp.start);
      assert s[0..] == s;
    } else if Closes(s) {
      if sp != Span(m.open, off + 2) {
        SpanBounds(Outside, s[2..], off + 2, sp);
        StartsInTail(Outside, s, off, 2, sp.start);
      }
    } else {
      SpanBounds(m, s[1..], off + 1, sp);
      StartsInTail(m, s, off, 1, sp.start);
    }
  }

  /** Where the reader is left open, it is at an opening of the text (or where it came in). */
  lemma {:induction false} OpenBounds(m: Mode, s: string, off: int)
    requires m.Inside? ==> m.open < off
    requires Scan(m, s, off).mode.Inside?
    ensures StartsIn(m, s, off, Scan(m, s, off).mode.open)
    decreases |s|
  {
    hide OpeningLength;
    if s != [] {
      var start := Scan(m, s, off).mode.open;
      if m == Outside {
        var m' := if OpeningLength(s) > 0 then Inside(off) else Outside;
        OpenBounds(m', s[1..], off + 1);
        StartsInTail(m', s, off, 1, start);
        assert s[0..] == s;
      } else if Closes(s) {
        OpenBounds(Outside, s[2..], off + 2);
        StartsInTail(Outside, s, off, 2, start);
      } else {
        OpenBounds(m, s[1..], off + 1);
        StartsInTail(m, s, off, 1, start);
      }
    }
  }

  /** The open end comes after every extent that closed. */
  lemma {:induction false} OpenIsLast(m: Mode, s: string, off: int, sp: Span)
    requires m.Inside? ==> m.open < off
    requires Scan(m, s, off).mode.Inside? && sp in Scan(m, s, off).spans
    ensures sp.end <= Scan(m, s, off).mode.open
    decreases |s|
  {
    hide OpeningLength, StartsIn;
    if m == Outside {
      OpenIsLast(if OpeningLength(s) > 0 then Inside(off) else Outside, s[1..], off + 1, sp);
    } else if Closes(s) {
      if sp != Span(m.open, off + 2) {
        OpenIsLast(Outside, s[2..], off + 2, sp);
      } else {
        OpenBoundsOutside(s[2..], off + 2);
      }
    } else {
      OpenIsLast(m, s[1..], off + 1, sp);
    }
  }

  lemma OpenBoundsOutside(s: string, off: int)
    requires Scan(Outside, s, off).mode.Inside?
    ensures off <= Scan(Outside, s, off).mode.open < off + |s|
  {
    hide OpeningLength, Scan;
    OpenBounds(Outside, s, off);
  }

  /** Extents come out in text order and never overlap, so they are never nested. */
  predicate Ordered(spans: seq<Span>) {
    && (forall i :: 0 <= i < |spans| ==> spans[i].start < spans[i].end)
    && (forall i, j :: 0 <= i < j < |spans| ==> spans[i].end <= spans[j].start)
  }

  lemma {:induction false} ScanOrdered(m: Mode, s: string, off: int)
    requires m.Inside? ==> m.open < off
    ensures Ordered(Scan(m, s, off).spans)
    decreases |s|
  {
    hide OpeningLength;
    if s != [] {
      if m == Outside {
        ScanOrdered(if OpeningLength(s) > 0 then Inside(off) else Outside, s[1..], off + 1);
      } else if Closes(s) {
        ScanOrdered(Outside, s[2..], off + 2);
        forall sp | sp in Scan(Outside, s[2..], off + 2).spans ensures off + 2 <= sp.start {
          SpanBounds(Outside, s[2..], off + 2, sp);
        }
      } else {
        ScanOrdered(m, s[1..], off + 1);
      }
    }
  }

  lemma SpansOrdered(s: string)
    ensures Ordered(Spans(s))
    ensures forall sp :: sp in Spans(s) ==> 0 <= sp.start < sp.end <= |s| && OpeningLength(s[sp.start..]) > 0
  {
    hide OpeningLength;
    var r := Scan(Outside, s, 0);
    ScanOrdered(Outside, s, 0);
    forall sp | sp in r.spans ensures 0 <= sp.start < sp.end <= |s| && OpeningLength(s[sp.start..]) > 0 {
      SpanBounds(Outside, s, 0, sp);
    }
    if r.mode.Inside? {
      OpenBounds(Outside, s, 0);
      forall sp | sp in r.spans ensures sp.end <= r.mode.open { OpenIsLast(Outside, s, 0, sp); }
    }
  }

  /** The spans of a whole text cover what its scan does. */
  lemma UncoveredIff(s: string, p: int)
    requires p < |s|
    ensures Uncovered(Scan(Outside, s, 0), p) <==> !InsideAnySpan(Spans(s), p)
  {
    hide OpeningLength, Scan;
    var r := Scan(Outside, s, 0);
    if r.mode.Inside? {
      var last := Span(r.mode.open, |s|);
      assert Spans(s) == r.spans + [last];
      assert last in Spans(s);
      assert forall sp :: sp in Spans(s) ==> sp in r.spans || sp == last;
    }
    assert forall sp :: sp in r.spans ==> sp in Spans(s);
  }

  // ------------------------------------------- the scanning loop of the source

  datatype Found = Missing | At(index: nat)

  /** No opening starts in s from position at up to position end. */
  predicate Clear(s: string, at: nat, end: nat)
    requires at <= end <= |s|
  {
    forall j :: at <= j < end ==> OpeningLength(s[j..]) == 0
  }

  /** The search for the next opening; |s| when there is none. */
  method NextOpening(s: string, at: nat) returns (start: nat)
    requires at <= |s|
    ensures at <= start <= |s| && Clear(s, at, start)
    ensures start < |s| ==> OpeningLength(s[start..]) > 0
  {
    start := at;
    while start < |s| && OpeningLength(s[start..]) == 0
      invariant at <= start <= |s| && Clear(s, at, start)
    {
      start := start + 1;
    }
  }

  lemma {:induction false} SkipClear(s: string, at: nat, end: nat)
    requires at <= end <= |s| && Clear(s, at, end)
    ensures Scan(Outside, s[at..], at) == Scan(Outside, s[end..], end)
    ensures Highest(s[at..]) == Highest(s[end..])
    decreases end - at
  {
    hide OpeningLength;
    if at < end {
      assert s[at..][1..] == s[at + 1..];
      assert OpeningLength(s[at..]) == 0;
      SkipClear(s, at + 1, end);
    }
  }

  function FindClose(s: string): (f: Found)
    ensures f.At? ==> f.index + 2 <= |s|
    decreases |s|
  {
    if s == [] then Missing
    else if Closes(s) then At(0)
    else match FindClose(s[1..])
      case Missing => Missing
      case At(i) => At(i + 1)
  }

  lemma {:induction false} ScanToClose(o: int, s: string, off: int)
    ensures FindClose(s).Missing? ==> Scan(Inside(o), s, off) == Scanned([], Inside(o))
    ensures FindClose(s).At? ==>
              var e := FindClose(s).index + 2;
              Scan(Inside(o), s, off) == Then(Scanned([Span(o, off + e)], Outside), Scan(Outside, s[e..], off + e))
    decreases |s|
  {
    hide OpeningLength;
    if s != [] && !Closes(s) {
      ScanToClose(o, s[1..], off + 1);
      if FindClose(s).At? { assert s[1..][FindClose(s).index + 1..] == s[FindClose(s).index + 2..]; }
    }
  }

  lemma ScanOpening(s: string, off: int)
    requires OpeningLength(s) > 0
    ensures var k := OpeningLength(s); Scan(Outside, s, off) == Scan(Inside(off), s[k..], off + k)
  {
    var k := OpeningLength(s);
    assert s[1..] == s[1..k] + s[k..];
    forall i | 0 <= i < |s[1..k]| ensures s[1..k][i] != '}' { OpeningChars(s, i + 1); }
    ScanNoClose(off, s[1..k], off + 1);
    OpeningChars(s, k - 1);
    SkipFree(off, s[1..k], s[k..], off + 1);
  }

  lemma {:induction false} SkipFree(o: int, a: string, b: string, off: int)
    requires '}' !in a
    ensures Scan(Inside(o), a + b, off) == Scan(Inside(o), b, off + |a|)
  {
    if a == [] {
      assert a + b == b;
    } else {
      assert (a + b)[1..] == a[1..] + b;
      assert (a + b)[0] == a[0];
      SkipFree(o, a[1..], b, off + 1);
    }
  }

  /** What the reader makes of an opening found at start. */
  lemma ReadOne(s: string, start: nat)
    requires start < |s| && OpeningLength(s[start..]) > 0
    ensures var content := start + OpeningLength(s[start..]);
            var closeAt := FindClose(s[content..]);
            var here := Scan(Outside, s[start..], start);
            && (closeAt.Missing? ==> here == Scanned([], Inside(start)))
            && (closeAt.At? ==>
                  var end := content + closeAt.index + 2;
                  here == Then(Scanned([Span(start, end)], Outside), Scan(Outside, s[end..], end)))
  {
    hide OpeningLength, Scan, FindClose;
    var k := OpeningLength(s[start..]);
    ScanOpening(s[start..], start);
    assert s[start..][k..] == s[start + k..];
    ScanToClose(start, s[start + k..], start + k);
    var closeAt := FindClose(s[start + k..]);
    if closeAt.At? { assert s[start + k..][closeAt.index + 2..] == s[start + k + closeAt.index + 2..]; }
  }

  method MarkerSpans(s: string) returns (spans: seq<Span>)
    ensures spans == Spans(s)
  {
    hide OpeningLength, Scan, FindClose;
    spans := [];
    var at := 0;
    ghost var whole, rest := Scan(Outside, s, 0), Scan(Outside, s, 0);
    assert s[0..] == s;
    assert Spans(s) == Finish(whole, |s|);
    while true
      invariant 0 <= at <= |s|
      invariant rest == Scan(Outside, s[at..], at)
      invariant whole.spans == spans + rest.spans && whole.mode == rest.mode
      decreases |s| - at
    {
      var start := NextOpening(s, at);
      SkipClear(s, at, start);
      if start == |s| {
        assert s[start..] == [];
        ScanNothing(Outside, start);
        return;
      }
      ReadOne(s, start);
      var content := start + OpeningLength(s[start..]);
      var closeAt := FindClose(s[content..]);
      if closeAt.Missing? {
        return spans + [Span(start, |s|)];
      }
      at := content + closeAt.index + 2;
      ghost var next := Scan(Outside, s[at..], at);
      assert rest.spans == [Span(start, at)] + next.spans && rest.mode == next.mode;
      spans, rest := spans + [Span(start, at)], next;
    }
  }

  // --------------------------------------------------------------- brace safety

  function Separate(s: string): string {
    if |s| < 2 then s
    else if Closes(s) then "} " + Separate(s[1..])
    else [s[0]] + Separate(s[1..])
  }

  /** The form of a text that can sit inside a generated marker. */
  function SafeText(text: string): string {
    var safe := Separate(text);
    if safe != "" && safe[|safe| - 1] == '}' then safe + " " else safe
  }

  function WithoutSpaces(s: string): string {
    if s == "" then "" else (if s[0] == ' ' then "" else [s[0]]) + WithoutSpaces(s[1..])
  }

  lemma {:induction false} SeparateEnds(s: string)
    ensures s == "" ==> Separate(s) == ""
    ensures s != "" ==> Separate(s) != "" && Separate(s)[0] == s[0] && Separate(s)[|Separate(s)| - 1] == s[|s| - 1]
  {
    if |s| >= 2 { SeparateEnds(s[1..]); }
  }

  lemma {:induction false} SeparateNoClose(s: string)
    ensures FindClose(Separate(s)).Missing?
  {
    if |s| >= 2 {
      SeparateNoClose(s[1..]);
      SeparateEnds(s[1..]);
      var rest := Separate(s[1..]);
      if Closes(s) {
        assert ("} " + rest)[1..] == " " + rest;
        assert (" " + rest)[1..] == rest;
        assert FindClose(" " + rest).Missing?;
      } else {
        assert ([s[0]] + rest)[1..] == rest;
      }
    } else if |s| == 1 {
      assert s[1..] == "";
    }
  }

  lemma {:induction false} SeparateKeepsText(s: string)
    ensures WithoutSpaces(Separate(s)) == WithoutSpaces(s)
  {
    if |s| >= 2 {
      SeparateKeepsText(s[1..]);
      var rest := Separate(s[1..]);
      if Closes(s) {
        assert ("} " + rest)[1..] == " " + rest;
        assert (" " + rest)[1..] == rest;
      } else {
        assert ([s[0]] + rest)[1..] == rest;
      }
    }
  }

  lemma {:induction false} SeparateChars(s: string)
    ensures forall c :: c in Separate(s) ==> c in s || c == ' '
    ensures FindClose(s).Missing? ==> Separate(s) == s
  {
    if |s| >= 2 { SeparateChars(s[1..]); }
  }

  /** A safe text neither closes the marker around it nor merges with its closing
      braces, and differs from the text by spaces alone. */
  lemma SafeTextFacts(text: string)
    ensures var safe := SafeText(text);
            && FindClose(safe + "}}") == At(|safe|)
            && WithoutSpaces(safe) == WithoutSpaces(text)
            && (forall c :: c in safe ==> c in text || c == ' ')
            && (text != "" ==> safe != "")
    ensures FindClose(text).Missing? && (text == "" || text[|text| - 1] != '}') ==> SafeText(text) == text
  {
    SeparateNoClose(text);
    SeparateKeepsText(text);
    SeparateChars(text);
    SeparateEnds(text);
    var r := Separate(text);
    if r != "" && r[|r| - 1] == '}' {
      WithoutSpacesPad(r);
      FindCloseAppend(r, ' ');
    }
    FindCloseEnd(SafeText(text));
  }

  lemma {:induction false} WithoutSpacesPad(s: string)
    ensures WithoutSpaces(s + " ") == WithoutSpaces(s)
  {
    if s != "" {
      assert (s + " ")[1..] == s[1..] + " ";
      WithoutSpacesPad(s[1..]);
    } else {
      assert s + " " == " ";
      assert " "[1..] == "";
    }
  }

  lemma {:induction false} FindCloseAppend(s: string, c: char)
    requires FindClose(s).Missing? && c != '}'
    ensures FindClose(s + [c]).Missing?
  {
    if s == "" {
      assert s + [c] == [c];
    } else {
      assert (s + [c])[1..] == s[1..] + [c];
      FindCloseAppend(s[1..], c);
    }
  }

  lemma {:induction false} FindCloseEnd(s: string)
    requires FindClose(s).Missing? && (s != "" ==> s[|s| - 1] != '}')
    ensures FindClose(s + "}}") == At(|s|)
  {
    if s == "" {
      assert s + "}}" == "}}";
    } else {
      assert (s + "}}")[1..] == s[1..] + "}}";
      FindCloseEnd(s[1..]);
    }
  }

  // ---------------------------------------------------------------- numbering

  function Wrap64(n: int): int {
    (n + 0x8000_0000_0000_0000) % 0x1_0000_0000_0000_0000 - 0x8000_0000_0000_0000
  }

  function Digit(d: nat): (c: char)
    requires d < 10
    ensures IsDigit(c)
  {
    "0123456789"[d]
  }

  function Digits(n: nat): (s: string)
    ensures s != "" && forall c :: c in s ==> IsDigit(c)
  {
    if n < 10 then [Digit(n)] else Digits(n / 10) + [Digit(n % 10)]
  }

  function Decimal(n: int): string {
    if n < 0 then "-" + Digits(-n) else Digits(n)
  }

  function DigitValue(c: char): nat
    requires IsDigit(c)
  {
    c as int - '0' as int
  }

  function Value(s: string): nat
    requires forall c :: c in s ==> IsDigit(c)
  {
    if s == "" then 0 else 10 * Value(s[..|s| - 1]) + DigitValue(s[|s| - 1])
  }

  /** strconv.Atoi with its error dropped: a number too large reads as the largest int. */
  function Atoi(s: string): (n: nat)
    requires forall c :: c in s ==> IsDigit(c)
    ensures n <= MAX_INT
  {
    if Value(s) > MAX_INT then MAX_INT else Value(s)
  }

  lemma {:induction false} AtoiDigits(n: nat)
    ensures Value(Digits(n)) == n
    ensures n <= MAX_INT ==> Atoi(Digits(n)) == n
  {
    if n < 10 {
      assert [Digit(n)][..0] == "";
    } else {
      AtoiDigits(n / 10);
      assert (Digits(n / 10) + [Digit(n % 10)])[..|Digits(n / 10)|] == Digits(n / 10);
    }
  }

  /** The number of the opening that s starts with. */
  function OpeningNumber(s: string): (n: nat)
    requires OpeningLength(s) > 0
    ensures n <= MAX_INT
  {
    DigitRunConcat(s[3..], []);
    Atoi(s[3..][..DigitRun(s[3..])])
  }

  function Max(a: int, b: int): int {
    if a < b then b else a
  }

  /** The largest number an opening anywhere in the fragment carries, 0 without one. */
  function Highest(s: string): (n: nat)
    ensures n <= MAX_INT
  {
    if s == "" then 0 else Max(if OpeningLength(s) > 0 then OpeningNumber(s) else 0, Highest(s[1..]))
  }

  lemma EmptyHighest()
    ensures Highest("") == 0
  {
  }

  lemma HighestOpening(s: string)
    requires OpeningLength(s) > 0
    ensures Highest(s) == Max(OpeningNumber(s), Highest(s[OpeningLength(s)..]))
  {
    NoOpeningWithin(s, 1);
  }

  /** Past its first brace, an opening holds no other opening. */
  lemma {:induction false} NoOpeningWithin(s: string, i: nat)
    requires 1 <= i <= OpeningLength(s)
    ensures Highest(s[i..]) == Highest(s[OpeningLength(s)..])
    decreases OpeningLength(s) - i
  {
    hide OpeningLength, OpeningNumber;
    if i < OpeningLength(s) {
      NoneWithin(s, i);
      assert s[i..][1..] == s[i + 1..];
      NoOpeningWithin(s, i + 1);
    }
  }

  lemma NoneWithin(s: string, i: nat)
    requires 1 <= i < OpeningLength(s)
    ensures i < |s| && OpeningLength(s[i..]) == 0
  {
    DigitRunConcat(s[3..], []);
    if i >= 3 { assert s[i] == s[3..][i - 3]; }
  }

  function HighestOf(fragments: seq<string>): (n: nat)
    ensures n <= MAX_INT
  {
    if fragments == [] then 0
    else Max(HighestOf(fragments[..|fragments| - 1]), Highest(fragments[|fragments| - 1]))
  }

  method HighestClozeNumber(fragments: seq<string>) returns (highest: nat)
    ensures highest == HighestOf(fragments)
  {
    highest := 0;
    for k := 0 to |fragments|
      invariant highest == HighestOf(fragments[..k])
    {
      assert fragments[..k + 1][..k] == fragments[..k];
      highest := HighestIn(fragments[k], highest);
    }
    assert fragments[..|fragments|] == fragments;
  }

  method HighestIn(s: string, before: nat) returns (highest: nat)
    requires before <= MAX_INT
    ensures highest == Max(before, Highest(s))
  {
    hide OpeningLength, Highest, OpeningNumber;
    highest := before;
    EmptyHighest();
    var at := 0;
    assert s[0..] == s;
    while true
      invariant 0 <= at <= |s| && highest <= MAX_INT
      invariant Max(before, Highest(s)) == Max(highest, Highest(s[at..]))
      decreases |s| - at
    {
      var start := NextOpening(s, at);
      SkipClear(s, at, start);
      if start == |s| {
        assert s[start..] == "";
        return;
      }
      HighestOpening(s[start..]);
      var n := OpeningNumber(s[start..]);
      var k := OpeningLength(s[start..]);
      assert s[start..][k..] == s[start + k..];
      if n > highest { highest := n; }
      at := start + k;
    }
  }

  // ------------------------------------------------------- generated markers

  function Marker(number: int, text: string): string {
    "{{c" + Decimal(number) + "::" + SafeText(text) + "}}"
  }

  lemma MarkerShape(number: int, text: string, rest: string)
    ensures var tail := "::" + SafeText(text) + "}}" + rest;
            var m := Marker(number, text) + rest;
            m[..3] == "{{c" && m[3..] == Decimal(number) + tail
  {
    hide SafeText, Digits;
  }

  /** A generated marker opens a marker exactly when its number is not negative,
      and then it carries that number. */
  lemma MarkerOpening(number: int, text: string, rest: string)
    ensures var m := Marker(number, text) + rest;
            && (number < 0 ==> OpeningLength(m) == 0)
            && (number >= 0 ==> OpeningLength(m) == |"{{c" + Decimal(number) + "::"|)
            && (0 <= number <= MAX_INT ==> OpeningNumber(m) == number)
  {
    hide SafeText, Digits, Value;
    var m := Marker(number, text) + rest;
    var tail := "::" + SafeText(text) + "}}" + rest;
    MarkerShape(number, text, rest);
    assert m[0] == m[..3][0] && m[1] == m[..3][1] && m[2] == m[..3][2];
    var d := Decimal(number);
    if number >= 0 {
      DigitRunAll(d, tail);
      AtoiDigits(number);
      assert m[3..][..|d|] == d;
      assert m[3 + |d|] == tail[0] && m[4 + |d|] == tail[1];
    } else {
      assert m[3..][0] == '-';
    }
  }

  lemma ScanSafeText(o: int, text: string, off: int)
    ensures var body := SafeText(text) + "}}";
            Scan(Inside(o), body, off) == Scanned([Span(o, off + |body|)], Outside)
  {
    hide OpeningLength, Separate, SafeText;
    var body := SafeText(text) + "}}";
    SafeTextFacts(text);
    ScanToClose(o, body, off);
    assert body[|body|..] == "";
  }

  /** Read from outside, a generated marker is one marker, closed by its own braces. */
  lemma ScanMarker(number: nat, text: string, off: int)
    ensures var m := Marker(number, text); Scan(Outside, m, off) == Scanned([Span(off, off + |m|)], Outside)
  {
    hide OpeningLength, SafeText, Scan, Decimal, OpeningNumber;
    var m, head, body := Marker(number, text), "{{c" + Decimal(number) + "::", SafeText(text) + "}}";
    MarkerOpening(number, text, "");
    assert m + "" == m && m == head + body;
    ScanOpening(m, off);
    assert m[|head|..] == body;
    ScanSafeText(off, text, off + |head|);
  }

  /** Read from inside another marker, a generated marker's braces close that one. */
  lemma ScanNestedMarker(o: int, number: int, text: string, off: int)
    ensures var m := Marker(number, text); Scan(Inside(o), m, off) == Scanned([Span(o, off + |m|)], Outside)
  {
    hide OpeningLength, SafeText, Scan;
    var head := "{{c" + Decimal(number) + "::";
    assert Marker(number, text) == head + (SafeText(text) + "}}");
    SkipFree(o, head, SafeText(text) + "}}", off);
    ScanSafeText(o, text, off + |head|);
  }

  lemma {:induction false} ScanUnmarked(s: string, off: int)
    requires !HasMarker(s)
    ensures Scan(Outside, s, off) == Scanned([], Outside)
  {
    if s != [] { ScanUnmarked(s[1..], off + 1); }
  }

  /** Text with no brace at all never changes what the reader is doing. */
  lemma {:induction false} ScanPlain(m: Mode, s: string, off: int)
    requires '{' !in s && '}' !in s
    ensures Scan(m, s, off) == Scanned([], m)
  {
    if s != [] { ScanPlain(m, s[1..], off + 1); }
  }
}
