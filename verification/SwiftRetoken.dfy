/** Other tokens on the same arrow lines: the lines stay arrow lines with the same sides, and
    every side keeps its number. */
module SwiftRetoken {
  import opened Basics
  import opened Lines
  import opened Cloze
  import opened ArrowLines
  import opened Swift
  import opened ReadBack
  import opened SwiftCard
  import opened SwiftLaws
  import opened SwiftNumbers

  /** What happens to a line: nothing, or its first token t gives way to u. */
  datatype Change = Same | Swap(left: string, t: Token, u: Token, right: string)

  function OldText(c: Change): string
    requires c.Swap?
  {
    c.left + TokenText(c.t) + c.right
  }

  function NewRow(row: Row, c: Change): Row {
    if c.Same? then row else Row(c.left + TokenText(c.u) + c.right, row.newline)
  }

  function NewRows(rows: seq<Row>, cs: seq<Change>): (r: seq<Row>)
    requires |cs| == |rows|
    ensures |r| == |rows| && forall i :: 0 <= i < |rows| ==> r[i] == NewRow(rows[i], cs[i])
  {
    seq(|rows|, i requires 0 <= i < |rows| => NewRow(rows[i], cs[i]))
  }

  /** A changed line has text on both sides of its first token, and neither token merges with
      the text behind it. */
  ghost predicate Fits(row: Row, c: Change) {
    c.Swap? ==>
      && row.text == OldText(c)
      && !Blank(c.left) && !Blank(c.right) && !Merges(c.t, c.right) && !Merges(c.u, c.right)
      && forall i :: 0 <= i < |c.left| ==> !IsToken(OldText(c)[i..])
  }

  ghost predicate FitsAll(rows: seq<Row>, cs: seq<Change>) {
    |cs| == |rows| && forall i :: 0 <= i < |rows| ==> Fits(rows[i], cs[i])
  }

  /** Where line i starts in the text the rows make up. */
  function RowStart(rows: seq<Row>, i: nat): nat
    requires i <= |rows|
  {
    if i == 0 then 0 else RowStart(rows, i - 1) + |Written(rows[i - 1])|
  }

  /** The place of the source's character x, if row i starts at `at` and its successor at
      `out`. Inside a token that gave way it is the last character of the new one. */
  function Shifted(rows: seq<Row>, cs: seq<Change>, i: nat, at: int, out: int, x: int): int
    requires |cs| == |rows| && i <= |rows|
    decreases |rows| - i
  {
    if i == |rows| then out + (x - at)
    else if x >= at + |Written(rows[i])| then
      Shifted(rows, cs, i + 1, at + |Written(rows[i])|, out + |Written(NewRow(rows[i], cs[i]))|, x)
    else ShiftedHere(cs[i], at, out, x)
  }

  function ShiftedHere(c: Change, at: int, out: int, x: int): int {
    if c.Same? || x <= at + |c.left| then out + (x - at)
    else
      var past, past' := at + |c.left| + |TokenText(c.t)|, out + |c.left| + |TokenText(c.u)|;
      if x < past then past' - 1 else past' + (x - past)
  }

  // -------------------------------------------------- reading one changed line

  /** Behind a settled text a token is read as the text left the reader. */
  lemma {:induction false} ScanSettled(m: Mode, a: string, b: string, off: int)
    requires Settled(a) && |b| >= 2 && b[0] == ':' && !Sticky(b[1])
    ensures Scan(m, a + b, off) == Then(Scan(m, a, off), Scan(Scan(m, a, off).mode, b, off + |a|))
    decreases |a|
  {
    hide OpeningLength, Sticky, Scan, Settled;
    if a == "" {
      assert a + b == b;
      ScanNothing(m, off);
      ThenNothing(m, Scan(m, b, off));
    } else {
      SettledTail(a);
      assert (a + b)[1..] == a[1..] + b;
      if m == Outside {
        SettledOpening(a, b);
        ScanOutside(a, off);
        ScanOutside(a + b, off);
        ScanSettled(if OpeningLength(a) > 0 then Inside(off) else Outside, a[1..], b, off + 1);
      } else {
        ScanInside(m.open, a, off);
        ScanInside(m.open, a + b, off);
        if Closes(a) {
          assert (a + b)[2..] == a[2..] + b;
          ScanSettled(Outside, a[2..], b, off + 2);
          ThenAgain(Scanned([Span(m.open, off + 2)], Outside), Scan(Outside, a[2..], off + 2),
            Scan(Scan(m, a, off).mode, b, off + |a|));
        } else {
          assert !Closes(a + b);
          ScanSettled(m, a[1..], b, off + 1);
        }
      }
    }
  }

  lemma SettledTail(a: string)
    requires Settled(a) && a != ""
    ensures Settled(a[1..]) && (|a| >= 2 ==> Settled(a[2..]))
  {
    hide OpeningLength;
    if |a| >= 2 { assert a[2..] == a[1..][1..]; }
  }

  lemma SettledOpening(a: string, b: string)
    requires a != "" && Settled(a) && |b| >= 2 && b[0] == ':' && !Sticky(b[1])
    ensures OpeningLength(a + b) == OpeningLength(a)
  {
    hide OpeningLength, Sticky;
    assert a + b == (a + ":") + b[1..];
    OpeningSeam(a + ":", b[1..]);
    OpeningWithin(a, ":");
  }

  lemma TokenPlainEnds(t: Token)
    ensures var s := TokenText(t); NoBraces(s) && |s| >= 3 && s[0] == ':' && !Sticky(s[1]) && !Sticky(s[|s| - 1])
  {
  }

  /** A line whose uncovered token gives way reads as before, at its new places. */
  lemma SwapReads(f: int -> int, m: Mode, c: Change, tail: string, tail': string, at: int, out: int)
    requires c.Swap? && (m.Inside? ==> m.open < at)
    requires Uncovered(Scan(m, OldText(c) + tail, at), at + |c.left|)
    requires forall x :: at <= x <= at + |c.left| ==> f(x) == out + (x - at)
    ensures var past, past' := at + |c.left| + |TokenText(c.t)|, out + |c.left| + |TokenText(c.u)|;
      var before := Scan(m, c.left, at);
      && before.mode == Outside && Settled(c.left)
      && Scan(m, OldText(c) + tail, at) == Then(before, Scan(Outside, c.right + tail, past))
      && Scan(ImageMode(f, m), c.left + TokenText(c.u) + c.right + tail', out)
         == Then(Scanned(ImageSpans(f, before.spans), Outside), Scan(Outside, c.right + tail', past'))
  {
    hide Scan, OpeningLength, Sticky, Uncovered, TokenText, Settled;
    var t, u := TokenText(c.t), TokenText(c.u);
    TokenPlainEnds(c.t);
    TokenPlainEnds(c.u);
    assert OldText(c) + tail == c.left + (t + (c.right + tail));
    ScanCut(m, c.left, t + (c.right + tail), at);
    UncoveredSettles(m, c.left, t + (c.right + tail), at);
    ScanConcat(Outside, t, c.right + tail, at + |c.left|);
    ScanPlain(Outside, t, at + |c.left|);
    assert c.left + u + c.right + tail' == c.left + (u + (c.right + tail'));
    ScanSettled(ImageMode(f, m), c.left, u + (c.right + tail'), out);
    ScanMoved(f, m, c.left, at, out);
    ScanConcat(Outside, u, c.right + tail', out + |c.left|);
    ScanPlain(Outside, u, out + |c.left|);
  }

  /** A row ends its line, or the text. */
  lemma RowSeam(row: Row, rest: string)
    requires !row.newline ==> rest == ""
    ensures Seam(Written(row), rest)
  {
    NewlinePlain();
    if row.newline { assert Written(row)[|row.text|] == '\n'; }
  }

  /** The piece of a row behind the place where both texts agree again. */
  lemma RightReads(f: int -> int, right: string, end: string, rest: string, rest': string, past: int, past': int)
    requires Seam(right + end, rest) && Seam(right + end, rest')
    requires forall x :: past <= x < past + |right + end| ==> f(x) == past' + (x - past)
    ensures var here := Scan(Outside, right + end, past); var o, n := past + |right + end|, past' + |right + end|;
      && Scan(Outside, right + end + rest, past) == Then(here, Scan(here.mode, rest, o))
      && Scan(Outside, right + end + rest', past')
         == Then(Scanned(ImageSpans(f, here.spans), ImageMode(f, here.mode)), Scan(ImageMode(f, here.mode), rest', n))
  {
    hide Scan, OpeningLength, Sticky;
    ScanConcat(Outside, right + end, rest, past);
    ScanMoved(f, Outside, right + end, past, past');
    ScanConcat(Outside, right + end, rest', past');
  }

  function End(row: Row): string {
    if row.newline then "\n" else ""
  }

  lemma EndSeam(row: Row, right: string, rest: string)
    requires !row.newline ==> rest == ""
    ensures Seam(right + End(row), rest)
  {
    NewlinePlain();
    if row.newline { assert (right + End(row))[|right + End(row)| - 1] == '\n'; }
  }

  /** What is read of a text is the image of what was read of another. */
  predicate IsImage(f: int -> int, r': Scanned, r: Scanned) {
    r' == Scanned(ImageSpans(f, r.spans), ImageMode(f, r.mode))
  }

  lemma ImageThen(f: int -> int, a': Scanned, a: Scanned, b': Scanned, b: Scanned)
    requires IsImage(f, a', a) && IsImage(f, b', b)
    ensures IsImage(f, Then(a', b'), Then(a, b))
  {
    ImageSpansConcat(f, a.spans, b.spans);
  }

  /** What is read of a row up to its end. */
  function RowBefore(m: Mode, row: Row, c: Change, at: int): Scanned {
    if c.Same? then Scan(m, Written(row), at)
    else Then(Scan(m, c.left, at), Scan(Outside, c.right + End(row), at + |c.left| + |TokenText(c.t)|))
  }

  /** A row reads on into the rest, before and after the change. */
  ghost predicate RowReads(f: int -> int, m: Mode, row: Row, c: Change, rest: string, rest': string, at: int,
                           out: int) {
    var before, n, n' := RowBefore(m, row, c, at), |Written(row)|, |Written(NewRow(row, c))|;
    && Scan(m, Written(row) + rest, at) == Then(before, Scan(before.mode, rest, at + n))
    && (before.mode.Inside? ==> before.mode.open < at + n)
    && (c.Swap? ==> Settled(c.left))
    && (IsImage(f, Scan(ImageMode(f, before.mode), rest', out + n'), Scan(before.mode, rest, at + n)) ==>
          IsImage(f, Scan(ImageMode(f, m), Written(NewRow(row, c)) + rest', out), Scan(m, Written(row) + rest, at)))
  }

  lemma SameRowReads(f: int -> int, m: Mode, row: Row, rest: string, rest': string, at: int, out: int)
    requires (!row.newline ==> rest == "" && rest' == "") && (m.Inside? ==> m.open < at)
    requires forall x :: at <= x < at + |Written(row)| ==> f(x) == out + (x - at)
    ensures RowReads(f, m, row, Same, rest, rest', at, out)
  {
    hide Scan, OpeningLength, Sticky, ImageSpans, Written;
    RowSeam(row, rest);
    RowSeam(row, rest');
    var here, n := Scan(m, Written(row), at), |Written(row)|;
    ScanConcat(m, Written(row), rest, at);
    ScanMoved(f, m, Written(row), at, out);
    ScanConcat(ImageMode(f, m), Written(row), rest', out);
    if here.mode.Inside? { OpenBefore(m, Written(row), at); }
    var after, after' := Scan(here.mode, rest, at + n), Scan(ImageMode(f, here.mode), rest', out + n);
    if IsImage(f, after', after) {
      ImageThen(f, Scan(ImageMode(f, m), Written(row), out), here, after', after);
    }
  }

  lemma SwapTexts(row: Row, c: Change, rest: string, rest': string)
    requires c.Swap? && row.text == OldText(c)
    ensures Written(row) + rest == OldText(c) + (End(row) + rest)
    ensures Written(NewRow(row, c)) + rest' == c.left + TokenText(c.u) + c.right + (End(row) + rest')
    ensures |Written(row)| == |c.left| + |TokenText(c.t)| + |c.right + End(row)|
    ensures |Written(NewRow(row, c))| == |c.left| + |TokenText(c.u)| + |c.right + End(row)|
  {
    hide TokenText;
  }

  lemma Grouped(a: string, b: string, c: string)
    ensures a + (b + c) == a + b + c
  {
  }

  lemma SwapRowReads(f: int -> int, m: Mode, row: Row, c: Change, rest: string, rest': string, at: int, out: int)
    requires c.Swap? && row.text == OldText(c) && (m.Inside? ==> m.open < at)
    requires !row.newline ==> rest == "" && rest' == ""
    requires Uncovered(Scan(m, Written(row) + rest, at), at + |c.left|)
    requires forall x :: at <= x < at + |Written(row)| ==> f(x) == ShiftedHere(c, at, out, x)
    ensures RowReads(f, m, row, c, rest, rest', at, out)
  {
    hide Scan, OpeningLength, Sticky, ImageSpans, Uncovered, TokenText, Written, Then, End, OldText, IsImage, NewRow,
      ImageMode;
    var right, end := c.right, End(row);
    var past, past' := at + |c.left| + |TokenText(c.t)|, out + |c.left| + |TokenText(c.u)|;
    SwapTexts(row, c, rest, rest');
    SwapReads(f, m, c, end + rest, end + rest', at, out);
    EndSeam(row, right, rest);
    EndSeam(row, right, rest');
    Grouped(right, end, rest);
    Grouped(right, end, rest');
    RightReads(f, right, end, rest, rest', past, past');
    var before, here := Scan(m, c.left, at), Scan(Outside, right + end, past);
    if here.mode.Inside? { OpenBoundsOutside(right + end, past); }
    var after := Scan(here.mode, rest, past + |right + end|);
    var after' := Scan(ImageMode(f, here.mode), rest', past' + |right + end|);
    ThenAgain(before, here, after);
    ThenMode(before, here);
    if IsImage(f, after', after) {
      var before', here' :=
        Scanned(ImageSpans(f, before.spans), Outside), Scanned(ImageSpans(f, here.spans), ImageMode(f, here.mode));
      OutsideImage(f, before);
      HereImage(f, here);
      ImageThen(f, before', before, here', here);
      ImageThen(f, Then(before', here'), Then(before, here), after', after);
      ThenAgain(before', here', after');
    }
  }

  lemma OutsideImage(f: int -> int, before: Scanned)
    requires before.mode == Outside
    ensures IsImage(f, Scanned(ImageSpans(f, before.spans), Outside), before)
  {
  }

  lemma HereImage(f: int -> int, here: Scanned)
    ensures IsImage(f, Scanned(ImageSpans(f, here.spans), ImageMode(f, here.mode)), here)
  {
  }

  // ------------------------------------------------------- reading all the rows

  /** Where the token of a changed line stands. */
  function TokenAt(rows: seq<Row>, cs: seq<Change>, j: nat, base: int): int
    requires |cs| == |rows| && j < |rows|
  {
    base + RowStart(rows, j) + if cs[j].Swap? then |cs[j].left| else 0
  }

  ghost predicate AllUncovered(rows: seq<Row>, cs: seq<Change>, i: nat, base: int, r: Scanned)
    requires |cs| == |rows|
  {
    forall j :: i <= j < |rows| && cs[j].Swap? ==> Uncovered(r, TokenAt(rows, cs, j, base))
  }

  lemma RestUncovered(rows: seq<Row>, cs: seq<Change>, i: nat, base: int, a: Scanned, b: Scanned)
    requires |cs| == |rows| && AllUncovered(rows, cs, i, base, Then(a, b))
    ensures AllUncovered(rows, cs, i + 1, base, b)
  {
    hide Uncovered, Then, TokenAt;
    forall j | i + 1 <= j < |rows| && cs[j].Swap? ensures Uncovered(b, TokenAt(rows, cs, j, base)) {
      SuffixUncovered(a, b, TokenAt(rows, cs, j, base));
    }
  }

  lemma ShiftedRest(f: int -> int, rows: seq<Row>, cs: seq<Change>, i: nat, at: int, out: int)
    requires |cs| == |rows| && i < |rows|
    requires forall x :: at <= x ==> f(x) == Shifted(rows, cs, i, at, out, x)
    ensures var n, n' := |Written(rows[i])|, |Written(NewRow(rows[i], cs[i]))|;
      && (forall x :: at <= x < at + n ==> f(x) == ShiftedHere(cs[i], at, out, x))
      && (forall x :: at + n <= x ==> f(x) == Shifted(rows, cs, i + 1, at + n, out + n', x))
  {
    hide Written, ShiftedHere;
  }

  lemma JoinSplit(rows: seq<Row>, i: nat)
    requires i < |rows|
    ensures Join(rows[i..]) == Written(rows[i]) + Join(rows[i + 1..])
  {
    assert rows[i..][0] == rows[i] && rows[i..][1..] == rows[i + 1..];
  }

  lemma LastRow(rows: seq<Row>, i: nat)
    requires SplitRows(rows) && i < |rows| && !rows[i].newline
    ensures rows[i + 1..] == []
  {
  }

  /** One row, whatever happens to it. */
  lemma RowRead(f: int -> int, m: Mode, row: Row, c: Change, rest: string, rest': string, at: int, out: int)
    requires Fits(row, c) && (m.Inside? ==> m.open < at)
    requires !row.newline ==> rest == "" && rest' == ""
    requires c.Swap? ==> Uncovered(Scan(m, Written(row) + rest, at), at + |c.left|)
    requires forall x :: at <= x < at + |Written(row)| ==> f(x) == ShiftedHere(c, at, out, x)
    ensures RowReads(f, m, row, c, rest, rest', at, out)
  {
    hide Scan, OpeningLength, Sticky, Uncovered, Written, IsToken, Blank, RowReads;
    if c.Same? {
      SameRowReads(f, m, row, rest, rest', at, out);
    } else {
      SwapRowReads(f, m, row, c, rest, rest', at, out);
    }
  }

  /** The text with other tokens reads as the image of the text. */
  lemma {:induction false} RowsRead(f: int -> int, rows: seq<Row>, cs: seq<Change>, i: nat, base: int, out: int,
                                    m: Mode)
    requires FitsAll(rows, cs) && SplitRows(rows) && i <= |rows|
    requires m.Inside? ==> m.open < base + RowStart(rows, i)
    requires forall x :: base + RowStart(rows, i) <= x ==>
              f(x) == Shifted(rows, cs, i, base + RowStart(rows, i), out, x)
    requires AllUncovered(rows, cs, i, base, Scan(m, Join(rows[i..]), base + RowStart(rows, i)))
    ensures IsImage(f, Scan(ImageMode(f, m), Join(NewRows(rows, cs)[i..]), out),
                    Scan(m, Join(rows[i..]), base + RowStart(rows, i)))
    ensures forall j :: i <= j < |rows| && cs[j].Swap? ==> Settled(cs[j].left)
    decreases |rows| - i
  {
    hide Scan, OpeningLength, Uncovered, IsImage, Written, Join, ShiftedHere, Shifted, SplitRows, Then, Fits,
      RowBefore, NewRow, ImageMode, Settled;
    var rows', at := NewRows(rows, cs), base + RowStart(rows, i);
    if i == |rows| {
      NothingReads(f, m, at, out);
      assert rows[i..] == [] && rows'[i..] == [];
    } else {
      JoinSplit(rows, i);
      JoinSplit(rows', i);
      var row, c, rest, rest' := rows[i], cs[i], Join(rows[i + 1..]), Join(rows'[i + 1..]);
      var n, n' := |Written(row)|, |Written(rows'[i])|;
      if !row.newline { LastRow(rows, i); NothingJoined(); assert rows'[i + 1..] == []; }
      ShiftedRest(f, rows, cs, i, at, out);
      if c.Swap? { assert TokenAt(rows, cs, i, base) == at + |c.left|; }
      RowRead(f, m, row, c, rest, rest', at, out);
      var before := RowBefore(m, row, c, at);
      RestUncovered(rows, cs, i, base, before, Scan(before.mode, rest, at + n));
      assert base + RowStart(rows, i + 1) == at + n;
      RowsRead(f, rows, cs, i + 1, base, out + n', before.mode);
    }
  }

  lemma NothingReads(f: int -> int, m: Mode, at: int, out: int)
    ensures Join([]) == "" && IsImage(f, Scan(ImageMode(f, m), "", out), Scan(m, "", at))
  {
  }

  lemma NothingJoined()
    ensures Join([]) == ""
  {
  }

  // ------------------------------------------------- which places are covered

  /** Places before p go before its image, places after it behind. */
  ghost predicate Apart(f: int -> int, p: int) {
    (forall x :: x < p ==> f(x) < f(p)) && (forall x :: p < x ==> f(p) < f(x))
  }

  lemma {:induction false} ImageCovers(f: int -> int, spans: seq<Span>, p: int)
    requires Apart(f, p)
    ensures InsideAnySpan(ImageSpans(f, spans), f(p)) <==> InsideAnySpan(spans, p)
  {
    if spans != [] {
      var rest, image := spans[1..], ImageSpans(f, spans);
      ImageCovers(f, rest, p);
      assert Covers(image[0], f(p)) <==> Covers(spans[0], p);
      AnyOf(spans, p);
      AnyOf(image, f(p));
    }
  }

  lemma AnyOf(spans: seq<Span>, p: int)
    requires spans != []
    ensures InsideAnySpan(spans, p) <==> Covers(spans[0], p) || InsideAnySpan(spans[1..], p)
  {
    if InsideAnySpan(spans, p) {
      var sp :| sp in spans && Covers(sp, p);
      assert sp == spans[0] || sp in spans[1..];
    }
  }

  lemma ImageUncovered(f: int -> int, r': Scanned, r: Scanned, p: int)
    requires IsImage(f, r', r) && Apart(f, p)
    ensures Uncovered(r', f(p)) <==> Uncovered(r, p)
  {
    ImageCovers(f, r.spans, p);
    if r.mode.Inside? && p >= r.mode.open { assert f(p) >= f(r.mode.open); }
  }

  lemma HereBounds(row: Row, c: Change, at: int, out: int, x: int)
    requires Fits(row, c) && at <= x < at + |Written(row)|
    ensures out <= ShiftedHere(c, at, out, x) < out + |Written(NewRow(row, c))|
  {
    hide IsToken, Blank;
  }

  lemma {:induction false} ShiftedFrom(rows: seq<Row>, cs: seq<Change>, i: nat, at: int, out: int, x: int)
    requires FitsAll(rows, cs) && i <= |rows| && at <= x
    ensures Shifted(rows, cs, i, at, out, x) >= out
    decreases |rows| - i
  {
    hide Fits, ShiftedHere, Written, NewRow;
    if i < |rows| {
      if x >= at + |Written(rows[i])| {
        ShiftedFrom(rows, cs, i + 1, at + |Written(rows[i])|, out + |Written(NewRow(rows[i], cs[i]))|, x);
      } else {
        HereBounds(rows[i], cs[i], at, out, x);
      }
    }
  }

  /** A place of row j before its token, or of a row that stays. */
  predicate Still(row: Row, c: Change, q: nat) {
    q < |row.text| && (c.Swap? ==> q <= |c.left|)
  }

  lemma HereApart(row: Row, c: Change, at: int, out: int, q: nat, x: int)
    requires Fits(row, c) && Still(row, c, q) && at <= x < at + |Written(row)|
    ensures ShiftedHere(c, at, out, at + q) == out + q
    ensures x < at + q ==> ShiftedHere(c, at, out, x) < out + q
    ensures x > at + q ==> ShiftedHere(c, at, out, x) > out + q
    ensures out + q < out + |Written(NewRow(row, c))|
  {
    hide IsToken, Blank;
  }

  lemma {:induction false} ShiftedApart(rows: seq<Row>, cs: seq<Change>, i: nat, at: int, out: int, j: nat, q: nat,
                                        x: int)
    requires FitsAll(rows, cs) && i <= j < |rows| && Still(rows[j], cs[j], q) && at <= x
    ensures var p := at + RowStart(rows, j) - RowStart(rows, i) + q;
      var y := out + RowStart(NewRows(rows, cs), j) - RowStart(NewRows(rows, cs), i) + q;
      && at <= p && Shifted(rows, cs, i, at, out, p) == y
      && (x < p ==> Shifted(rows, cs, i, at, out, x) < y)
      && (x > p ==> Shifted(rows, cs, i, at, out, x) > y)
    decreases j - i
  {
    hide Fits, ShiftedHere, Written, NewRow, Still;
    var rows', n, n' := NewRows(rows, cs), |Written(rows[i])|, |Written(NewRow(rows[i], cs[i]))|;
    StartsRise(rows, i, j);
    if i == j {
      StillInside(rows[j], cs[j], q);
      HereApart(rows[j], cs[j], at, out, q, at + q);
      if x < at + n {
        HereApart(rows[j], cs[j], at, out, q, x);
      } else {
        ShiftedFrom(rows, cs, i + 1, at + n, out + n', x);
      }
    } else {
      StartsRise(rows, i + 1, j);
      StartsRise(rows', i + 1, j);
      assert rows'[i] == NewRow(rows[i], cs[i]);
      ShiftedApart(rows, cs, i + 1, at + n, out + n', j, q, if x >= at + n then x else at + n);
      if x < at + n { HereBounds(rows[i], cs[i], at, out, x); }
    }
  }

  lemma StillInside(row: Row, c: Change, q: nat)
    requires Still(row, c, q)
    ensures q < |Written(row)|
  {
  }

  lemma {:induction false} StartsRise(rows: seq<Row>, i: nat, j: nat)
    requires i <= j <= |rows|
    ensures RowStart(rows, i) <= RowStart(rows, j)
  {
    if i < j { StartsRise(rows, i, j - 1); }
  }

  // --------------------------------------------------- the whole entry

  /** The place of a character of title and body. */
  function Place(pre: string, rows: seq<Row>, cs: seq<Change>, x: int): int
    requires |cs| == |rows|
  {
    if x < |pre| then x else Shifted(rows, cs, 0, |pre|, |pre|, x)
  }

  lemma PlaceOne(pre: string, rows: seq<Row>, cs: seq<Change>, j: nat, q: nat, x: int)
    requires FitsAll(rows, cs) && j < |rows| && Still(rows[j], cs[j], q)
    ensures var p, y := |pre| + RowStart(rows, j) + q, |pre| + RowStart(NewRows(rows, cs), j) + q;
      && Place(pre, rows, cs, p) == y
      && (x < p ==> Place(pre, rows, cs, x) < y) && (x > p ==> Place(pre, rows, cs, x) > y)
  {
    hide Fits, Shifted, Still, RowStart, NewRow;
    StartZero(rows);
    StartZero(NewRows(rows, cs));
    ShiftedApart(rows, cs, 0, |pre|, |pre|, j, q, if x >= |pre| then x else |pre|);
  }

  lemma StartZero(rows: seq<Row>)
    ensures RowStart(rows, 0) == 0
  {
  }

  lemma ApartAt(f: int -> int, p: int, y: int)
    requires f(p) == y && forall x :: (x < p ==> f(x) < y) && (x > p ==> f(x) > y)
    ensures Apart(f, p)
  {
  }

  lemma PlaceApart(pre: string, rows: seq<Row>, cs: seq<Change>, j: nat, q: nat)
    requires FitsAll(rows, cs) && j < |rows| && Still(rows[j], cs[j], q)
    ensures var p := |pre| + RowStart(rows, j) + q;
      Apart(x => Place(pre, rows, cs, x), p) && Place(pre, rows, cs, p) == |pre| + RowStart(NewRows(rows, cs), j) + q
  {
    hide Fits, Still, Place, RowStart, Apart, NewRow;
    var f := x => Place(pre, rows, cs, x);
    var p, y := |pre| + RowStart(rows, j) + q, |pre| + RowStart(NewRows(rows, cs), j) + q;
    PlaceOne(pre, rows, cs, j, q, p);
    forall x ensures (x < p ==> f(x) < y) && (x > p ==> f(x) > y) {
      PlaceOne(pre, rows, cs, j, q, x);
    }
    ApartAt(f, p, y);
  }

  /** No token that gives way lies in a marker of the author's. */
  ghost predicate TokensFree(pre: string, rows: seq<Row>, cs: seq<Change>)
    requires |cs| == |rows|
  {
    AllUncovered(rows, cs, 0, |pre|, Scan(Outside, pre + Join(rows), 0))
  }

  lemma WholeReads(pre: string, rows: seq<Row>, cs: seq<Change>)
    requires FitsAll(rows, cs) && SplitRows(rows) && TokensFree(pre, rows, cs)
    requires pre != "" && !Sticky(pre[|pre| - 1])
    ensures IsImage(x => Place(pre, rows, cs, x), Scan(Outside, pre + Join(NewRows(rows, cs)), 0),
                    Scan(Outside, pre + Join(rows), 0))
    ensures forall j :: 0 <= j < |rows| && cs[j].Swap? ==> Settled(cs[j].left)
  {
    hide Scan, OpeningLength, Sticky, Uncovered, Shifted, Fits, SplitRows, Join, ImageSpans, TokenAt, Settled;
    var f, rows' := x => Place(pre, rows, cs, x), NewRows(rows, cs);
    assert rows[0..] == rows && rows'[0..] == rows';
    ScanConcat(Outside, pre, Join(rows), 0);
    ScanConcat(Outside, pre, Join(rows'), 0);
    var head := Scan(Outside, pre, 0);
    var body := Scan(head.mode, Join(rows), |pre|);
    if head.mode.Inside? { OpenBoundsOutside(pre, 0); }
    forall j | 0 <= j < |rows| && cs[j].Swap? ensures Uncovered(body, TokenAt(rows, cs, j, |pre|)) {
      SuffixUncovered(head, body, TokenAt(rows, cs, j, |pre|));
    }
    RowsRead(f, rows, cs, 0, |pre|, |pre|, head.mode);
    ScanMoved(f, Outside, pre, 0, 0);
    HereImage(f, head);
    ImageThen(f, Scan(Outside, pre, 0), head, Scan(ImageMode(f, head.mode), Join(rows'), |pre|), body);
    ModeStays(f, head.mode, |pre|);
  }

  lemma ModeStays(f: int -> int, m: Mode, n: int)
    requires m.Inside? ==> 0 <= m.open < n
    requires forall x :: x < n ==> f(x) == x
    ensures ImageMode(f, m) == m
  {
  }

  // ----------------------------------------------------------- lines and their sides

  lemma {:induction false} LineStart(s: string, i: nat)
    requires i < |LinesOf(s)|
    ensures LinesOf(s)[i].start == RowStart(Rows(LinesOf(s)), i) && LineOf(s, LinesOf(s)[i])
  {
    hide LinesFrom, IndentOf, Blank, Tile, LineOf, RowStart, Rows;
    var lines := LinesOf(s);
    LinesTile(s, 0);
    TileAt(s, lines, 0, i);
    if i > 0 {
      LineStart(s, i - 1);
      TileAt(s, lines, 0, i - 1);
      NextRowStart(s, lines, i - 1);
    } else {
      StartZero(Rows(lines));
    }
  }

  lemma NextRowStart(s: string, lines: seq<Line>, i: nat)
    requires i + 1 < |lines| && LineOf(s, lines[i]) && lines[i].hasNewline && lines[i + 1].start == lines[i].end + 1
    requires lines[i].start == RowStart(Rows(lines), i)
    ensures lines[i + 1].start == RowStart(Rows(lines), i + 1)
  {
    hide IndentOf, Blank;
    assert Rows(lines)[i] == RowOf(lines[i]);
  }

  /** A side without the white space around it. */
  ghost predicate TrimOf(side: string, from: int, to: int) {
    && 0 <= from < to <= |side|
    && BlankBetween(side, 0, from) && BlankBetween(side, to, |side|)
    && !UnicodeSpace(side[from]) && !UnicodeSpace(side[to - 1])
  }

  lemma TrimUnique(side: string, from: int, to: int, from': int, to': int)
    requires TrimOf(side, from, to) && TrimOf(side, from', to')
    ensures from == from' && to == to'
  {
    hide UnicodeSpace;
  }

  function LeftText(ln: Line, a: Arrow): string {
    Cut(ln.text, a.leftStart - ln.start, a.leftEnd - ln.start)
  }

  function RightText(ln: Line, a: Arrow): string {
    Cut(ln.text, a.rightStart - ln.start, a.rightEnd - ln.start)
  }

  lemma TrimmedLeft(left: string, rest: string, from: int, to: int)
    requires 0 <= from < to <= |left| && BlankBetween(left + rest, 0, from) && BlankBetween(left + rest, to, |left|)
    requires !UnicodeSpace((left + rest)[from]) && !UnicodeSpace((left + rest)[to - 1])
    ensures TrimOf(left, from, to) && (left + rest)[from..to] == left[from..to]
  {
    hide UnicodeSpace;
    assert forall i :: 0 <= i < |left| ==> (left + rest)[i] == left[i];
  }

  lemma TrimmedRight(head: string, right: string, from: int, to: int)
    requires 0 <= from < to <= |right| && BlankBetween(head + right, |head|, |head| + from)
    requires BlankBetween(head + right, |head| + to, |head + right|)
    requires !UnicodeSpace((head + right)[|head| + from]) && !UnicodeSpace((head + right)[|head| + to - 1])
    ensures TrimOf(right, from, to) && (head + right)[|head| + from..|head| + to] == right[from..to]
  {
    hide UnicodeSpace;
    assert forall i :: 0 <= i < |right| ==> (head + right)[|head| + i] == right[i];
    forall i | 0 <= i < from ensures UnicodeSpace(right[i]) { assert UnicodeSpace((head + right)[|head| + i]); }
    forall i | to <= i < |right| ensures UnicodeSpace(right[i]) { assert UnicodeSpace((head + right)[|head| + i]); }
  }

  /** The left side of a line that holds a token behind this text. */
  lemma LeftOf(left: string, rest: string, ln: Line, line: nat)
    requires ln.text == left + rest && ReadArrowLine(ln, line).Some?
    requires ReadArrowLine(ln, line).value.tokenStart == ln.start + |left|
    ensures var a := ReadArrowLine(ln, line).value;
      && TrimOf(left, a.leftStart - ln.start, a.leftEnd - ln.start)
      && LeftText(ln, a) == left[a.leftStart - ln.start..a.leftEnd - ln.start]
  {
    hide ReadArrowLine, UnicodeSpace, TokenText, TokenBefore, FirstToken, BlankBetween, TrimOf;
    ArrowLineParts(ln, line);
    var a := ReadArrowLine(ln, line).value;
    TrimmedLeft(left, rest, a.leftStart - ln.start, a.leftEnd - ln.start);
  }

  /** The right side of a line that holds this text behind its token. */
  lemma RightOf(head: string, right: string, ln: Line, line: nat)
    requires ln.text == head + right && ReadArrowLine(ln, line).Some?
    requires ReadArrowLine(ln, line).value.tokenEnd == ln.start + |head|
    ensures var a := ReadArrowLine(ln, line).value;
      && TrimOf(right, a.rightStart - ln.start - |head|, a.rightEnd - ln.start - |head|)
      && RightText(ln, a) == right[a.rightStart - ln.start - |head|..a.rightEnd - ln.start - |head|]
  {
    hide ReadArrowLine, UnicodeSpace, TokenText, TokenBefore, FirstToken, BlankBetween, TrimOf;
    ArrowLineParts(ln, line);
    var a := ReadArrowLine(ln, line).value;
    TrimmedRight(head, right, a.rightStart - ln.start - |head|, a.rightEnd - ln.start - |head|);
  }

  /** The sides of a line that holds this token between these texts. */
  lemma SidesOf(left: string, t: Token, right: string, ln: Line, line: nat)
    requires ln.text == left + TokenText(t) + right && ReadArrowLine(ln, line).Some?
    requires var a := ReadArrowLine(ln, line).value; a.token == t && a.tokenStart == ln.start + |left|
    ensures var a, head := ReadArrowLine(ln, line).value, |left| + |TokenText(t)|;
      && TrimOf(left, a.leftStart - ln.start, a.leftEnd - ln.start)
      && TrimOf(right, a.rightStart - ln.start - head, a.rightEnd - ln.start - head)
      && LeftText(ln, a) == left[a.leftStart - ln.start..a.leftEnd - ln.start]
      && RightText(ln, a) == right[a.rightStart - ln.start - head..a.rightEnd - ln.start - head]
  {
    hide ReadArrowLine, TokenText, TrimOf, LeftText, RightText;
    TokenEnds(ln, line);
    assert ln.text == left + (TokenText(t) + right) && |left + TokenText(t)| == |left| + |TokenText(t)|;
    LeftOf(left, TokenText(t) + right, ln, line);
    RightOf(left + TokenText(t), right, ln, line);
  }

  lemma TokenEnds(ln: Line, line: nat)
    requires ReadArrowLine(ln, line).Some?
    ensures var a := ReadArrowLine(ln, line).value; a.tokenEnd == a.tokenStart + |TokenText(a.token)|
  {
    hide ReadArrowLine, UnicodeSpace, TokenText, TokenBefore, FirstToken, BlankBetween;
    ArrowLineParts(ln, line);
  }

  /** The same arrow line: its place among the lines, its sides, and where its token stands. */
  ghost predicate SameSides(ln: Line, a: Arrow, ln': Line, a': Arrow) {
    && a'.line == a.line && a'.tokenStart - ln'.start == a.tokenStart - ln.start
    && LeftText(ln', a') == LeftText(ln, a) && RightText(ln', a') == RightText(ln, a)
  }

  /** A line with another token is an arrow line with that token and the same sides. */
  lemma SwappedLine(c: Change, ln: Line, ln': Line, line: nat)
    requires c.Swap? && Fits(Row(ln.text, ln.hasNewline), c) && ln'.text == c.left + TokenText(c.u) + c.right
    ensures var a, a' := ReadArrowLine(ln, line), ReadArrowLine(ln', line);
      && a.Some? && a'.Some? && a.value.token == c.t && a'.value.token == c.u
      && a.value.tokenStart == ln.start + |c.left| && SameSides(ln, a.value, ln', a'.value)
  {
    hide ReadArrowLine, IsToken, Blank, TokenText, TrimOf, LeftText, RightText;
    RetokenedLine(c.left, c.t, c.right, c.t, ln, line);
    RetokenedLine(c.left, c.t, c.right, c.u, ln', line);
    var a, a' := ReadArrowLine(ln, line).value, ReadArrowLine(ln', line).value;
    SidesOf(c.left, c.t, c.right, ln, line);
    SidesOf(c.left, c.u, c.right, ln', line);
    var n, n' := |c.left| + |TokenText(c.t)|, |c.left| + |TokenText(c.u)|;
    TrimUnique(c.left, a.leftStart - ln.start, a.leftEnd - ln.start, a'.leftStart - ln'.start, a'.leftEnd - ln'.start);
    TrimUnique(c.right, a.rightStart - ln.start - n, a.rightEnd - ln.start - n, a'.rightStart - ln'.start - n',
               a'.rightEnd - ln'.start - n');
    ReadLine(ln, line);
    ReadLine(ln', line);
  }

  lemma ReadLine(ln: Line, line: nat)
    requires ReadArrowLine(ln, line).Some?
    ensures var a := ReadArrowLine(ln, line).value; a.line == line && ln.start <= a.tokenStart < ln.start + |ln.text|
  {
    hide ReadArrowLine, UnicodeSpace, TokenText, TokenBefore, FirstToken, BlankBetween;
    ArrowLineParts(ln, line);
  }

  lemma SameLine(ln: Line, ln': Line, line: nat)
    requires ln'.text == ln.text
    ensures var a, a' := ReadArrowLine(ln, line), ReadArrowLine(ln', line);
      && (a'.Some? <==> a.Some?)
      && (a.Some? ==> a'.value.token == a.value.token && SameSides(ln, a.value, ln', a'.value))
  {
    hide MatchFrom, FirstToken, TrimLeft, TrimRight, TokenText, LeftText, RightText;
    var a, a' := ReadArrowLine(ln, line), ReadArrowLine(ln', line);
    if a.Some? { SameTexts(ln, a.value, ln', a'.value); }
  }

  lemma SameTexts(ln: Line, a: Arrow, ln': Line, a': Arrow)
    requires ln'.text == ln.text
    requires a'.leftStart - ln'.start == a.leftStart - ln.start && a'.leftEnd - ln'.start == a.leftEnd - ln.start
    requires a'.rightStart - ln'.start == a.rightStart - ln.start && a'.rightEnd - ln'.start == a.rightEnd - ln.start
    ensures LeftText(ln', a') == LeftText(ln, a) && RightText(ln', a') == RightText(ln, a)
  {
  }

  // ----------------------------------------------------------------- the arrow lines

  /** The answers about a line that do not come from its text are the same. */
  ghost predicate SameAnswers(ln: Line, ln': Line, c: Change, spans: seq<Span>, spans': seq<Span>, shift: nat,
                              plain: string -> bool, i: nat) {
    var a, a' := ReadArrowLine(ln, i), ReadArrowLine(ln', i);
    && (a'.Some? <==> a.Some?)
    && plain(ln'.text) == plain(ln.text)
    && (a.Some? ==>
          && (InsideAnySpan(spans', shift + a'.value.tokenStart) <==> InsideAnySpan(spans, shift + a.value.tokenStart))
          && Answering(ln, a.value, ln', a'.value, c))
  }

  ghost predicate Answering(ln: Line, a: Arrow, ln': Line, a': Arrow, c: Change) {
    SameSides(ln, a, ln', a') && a'.token == if c.Swap? then c.u else a.token
  }

  /** The arrow lines of two texts line by line. */
  ghost predicate SameArrows(lines: seq<Line>, lines': seq<Line>, cs: seq<Change>, arrows: seq<Arrow>,
                             arrows': seq<Arrow>) {
    && |arrows'| == |arrows| && |lines'| == |lines| == |cs|
    && forall k :: 0 <= k < |arrows| ==>
         && arrows[k].line < |lines|
         && Answering(lines[arrows[k].line], arrows[k], lines'[arrows[k].line], arrows'[k], cs[arrows[k].line])
  }

  lemma {:induction false} ArrowsKept(lines: seq<Line>, lines': seq<Line>, cs: seq<Change>, excluded: seq<bool>,
                                      spans: seq<Span>, spans': seq<Span>, shift: nat, plain: string -> bool, i: nat)
    requires |excluded| == |lines| == |lines'| == |cs| && i <= |lines|
    requires forall j :: i <= j < |lines| ==> SameAnswers(lines[j], lines'[j], cs[j], spans, spans', shift, plain, j)
    ensures SameArrows(lines, lines', cs, ArrowsFrom(lines, excluded, spans, shift, plain, i),
                       ArrowsFrom(lines', excluded, spans', shift, plain, i))
    decreases |lines| - i
  {
    hide ReadArrowLine, InsideAnySpan, ArrowsFrom, Answering;
    if i == |lines| {
      NoMoreArrows(lines, excluded, spans, shift, plain);
      NoMoreArrows(lines', excluded, spans', shift, plain);
    } else {
      ArrowsKept(lines, lines', cs, excluded, spans, spans', shift, plain, i + 1);
      ArrowsNext(lines, excluded, spans, shift, plain, i);
      ArrowsNext(lines', excluded, spans', shift, plain, i);
      assert SameAnswers(lines[i], lines'[i], cs[i], spans, spans', shift, plain, i);
      if ReadArrowLine(lines[i], i).Some? { ArrowEnds(lines[i], i); }
    }
  }

  // ------------------------------------------------------------------- the numbers

  lemma HighestToken(left: string, t: Token, rest: string)
    requires Settled(left)
    ensures Highest(left + TokenText(t) + rest) == Max(Highest(left), Highest(rest))
  {
    hide Highest, Settled, TokenText;
    TokenShape(t);
    TokenFront(t, rest);
    assert left + TokenText(t) + rest == left + (TokenText(t) + rest);
    HighestSettled(left, TokenText(t) + rest);
    HighestPlain(TokenText(t), rest);
  }

  lemma RowHighest(row: Row, c: Change, rest: string, rest': string)
    requires Fits(row, c) && (c.Swap? ==> Settled(c.left)) && (!row.newline ==> rest == "" && rest' == "")
    requires Highest(rest') == Highest(rest)
    ensures Highest(Written(NewRow(row, c)) + rest') == Highest(Written(row) + rest)
  {
    hide Highest, Settled, TokenText, IsToken, Blank, Sticky, Written;
    if c.Same? {
      RowSeam(row, rest);
      RowSeam(row, rest');
      HighestSeam(Written(row), rest);
      HighestSeam(Written(row), rest');
    } else {
      SwapTexts(row, c, rest, rest');
      var right, end := c.right, End(row);
      HighestToken(c.left, c.t, right + (end + rest));
      HighestToken(c.left, c.u, right + (end + rest'));
      assert OldText(c) + (end + rest) == c.left + TokenText(c.t) + (right + (end + rest));
      assert c.left + TokenText(c.u) + right + (end + rest') == c.left + TokenText(c.u) + (right + (end + rest'));
      Grouped(right, end, rest);
      Grouped(right, end, rest');
      EndSeam(row, right, rest);
      EndSeam(row, right, rest');
      HighestSeam(right + end, rest);
      HighestSeam(right + end, rest');
    }
  }

  lemma {:induction false} RowsHighest(rows: seq<Row>, cs: seq<Change>, i: nat)
    requires FitsAll(rows, cs) && SplitRows(rows) && i <= |rows|
    requires forall j :: i <= j < |rows| && cs[j].Swap? ==> Settled(cs[j].left)
    ensures Highest(Join(NewRows(rows, cs)[i..])) == Highest(Join(rows[i..]))
    decreases |rows| - i
  {
    hide Highest, Settled, Fits, Written, Join, NewRow, SplitRows;
    var rows' := NewRows(rows, cs);
    if i == |rows| {
      assert rows[i..] == [] && rows'[i..] == [];
    } else {
      JoinSplit(rows, i);
      JoinSplit(rows', i);
      if !rows[i].newline { LastRow(rows, i); NothingJoined(); assert rows'[i + 1..] == []; }
      RowsHighest(rows, cs, i + 1);
      RowHighest(rows[i], cs[i], Join(rows[i + 1..]), Join(rows'[i + 1..]));
    }
  }

  // ------------------------------------------------------------------ the theorem

  /** The body with other tokens. */
  function Retokened(body: string, cs: seq<Change>): string
    requires |cs| == |LinesOf(body)|
  {
    Join(NewRows(Rows(LinesOf(body)), cs))
  }

  lemma NewRowsSplit(rows: seq<Row>, cs: seq<Change>)
    requires FitsAll(rows, cs) && SplitRows(rows)
    ensures SplitRows(NewRows(rows, cs))
  {
    hide IsToken, Blank, Fits;
    var rows' := NewRows(rows, cs);
    forall i | 0 <= i < |rows| ensures '\n' !in rows'[i].text && (rows[i].text != "" ==> rows'[i].text != "") {
      assert Fits(rows[i], cs[i]);
      NewTextPlain(rows[i], cs[i]);
    }
  }

  lemma NewTextPlain(row: Row, c: Change)
    requires Fits(row, c) && '\n' !in row.text
    ensures '\n' !in NewRow(row, c).text && (row.text != "" ==> NewRow(row, c).text != "")
  {
    hide IsToken, Blank;
    if c.Swap? {
      assert forall x :: x in c.left ==> x in row.text;
      assert forall x :: x in c.right ==> x in row.text;
      TokenNoNewline(c.u);
    }
  }

  lemma TokenNoNewline(t: Token)
    ensures '\n' !in TokenText(t) && TokenText(t) != ""
  {
  }

  /** Every changed line is one of the entry's arrow lines, and the Org parser's answer about
      it stays the same. */
  ghost predicate OnArrowLines(title: string, body: string, excluded: seq<bool>, plain: string -> bool, cs: seq<Change>)
    requires |excluded| == |LinesOf(body)| == |cs|
  {
    forall i :: 0 <= i < |cs| && cs[i].Swap? ==>
      && (exists k :: 0 <= k < |ArrowsOf(title, body, excluded, plain)| &&
            ArrowsOf(title, body, excluded, plain)[k].line == i)
      && plain(NewRow(RowOf(LinesOf(body)[i]), cs[i]).text) == plain(LinesOf(body)[i].text)
  }

  lemma WholeTexts(title: string, body: string, cs: seq<Change>)
    requires body != "" && FitsAll(Rows(LinesOf(body)), cs)
    ensures Combine(title, body) == Head(title) + Join(Rows(LinesOf(body))) && SplitRows(Rows(LinesOf(body)))
    ensures Combine(title, Retokened(body, cs)) == Head(title) + Join(NewRows(Rows(LinesOf(body)), cs))
    ensures Rows(LinesOf(Retokened(body, cs))) == NewRows(Rows(LinesOf(body)), cs)
    ensures Head(title) != "" && !Sticky(Head(title)[|Head(title)| - 1])
  {
    hide LinesFrom, SplitRows, Fits, Sticky;
    JoinLines(body, 0);
    var rows := Rows(LinesOf(body));
    NewRowsSplit(rows, cs);
    var rows' := NewRows(rows, cs);
    SplitJoin("", rows');
    assert "" + Join(rows') == Join(rows');
    NewlinePlain();
    assert rows != [] by { NothingJoined(); }
    JoinedText(rows');
  }

  lemma JoinedText(rows: seq<Row>)
    requires rows != [] && SplitRows(rows)
    ensures Join(rows) != ""
  {
    if |rows| == 1 { assert Written(rows[0]) != ""; } else { assert rows[0].newline; }
  }

  /** The token of an arrow line of the entry is uncovered. */
  lemma ChangedFree(title: string, body: string, excluded: seq<bool>, plain: string -> bool, cs: seq<Change>, j: nat)
    requires |excluded| == |LinesOf(body)| == |cs| && body != "" && j < |cs| && cs[j].Swap?
    requires FitsAll(Rows(LinesOf(body)), cs) && OnArrowLines(title, body, excluded, plain, cs)
    ensures var p := TokenAt(Rows(LinesOf(body)), cs, j, |Head(title)|);
      p < |Combine(title, body)| && !InsideAnySpan(Spans(Combine(title, body)), p)
  {
    hide LinesFrom, Spans, InsideAnySpan, ReadArrowLine, ArrowsFrom, Fits, Combine, RowStart, LineOf, SameSides;
    var lines, arrows := LinesOf(body), ArrowsOf(title, body, excluded, plain);
    var k :| 0 <= k < |arrows| && arrows[k].line == j;
    ArrowsClear(lines, excluded, Spans(Combine(title, body)), |title| + 2, plain, 0, arrows[k]);
    LineStart(body, j);
    assert Fits(Rows(lines)[j], cs[j]);
    SwappedLine(cs[j], lines[j], Line(0, 0, NewRow(RowOf(lines[j]), cs[j]).text, false, 0, false), j);
    ReadLine(lines[j], j);
    InEntry(title, body, lines[j]);
  }

  lemma InEntry(title: string, body: string, ln: Line)
    requires LineOf(body, ln) && body != ""
    ensures |Head(title)| + ln.start + |ln.text| <= |Combine(title, body)|
  {
    hide IndentOf, Blank;
  }

  /** A place of a line before its token is covered in both entries or in neither. */
  lemma CoverKept(title: string, body: string, cs: seq<Change>, j: nat, q: nat)
    requires body != "" && j < |cs| && FitsAll(Rows(LinesOf(body)), cs) && Still(Rows(LinesOf(body))[j], cs[j], q)
    requires Imaged(title, body, cs)
    ensures |LinesOf(Retokened(body, cs))| == |LinesOf(body)|
    ensures var p, p' :=
              |title| + 2 + LinesOf(body)[j].start + q, |title| + 2 + LinesOf(Retokened(body, cs))[j].start + q;
      InsideAnySpan(Spans(Combine(title, Retokened(body, cs))), p') <==> InsideAnySpan(Spans(Combine(title, body)), p)
  {
    hide LinesFrom, Spans, InsideAnySpan, Fits, Combine, IsImage, Scan, Uncovered, Place, RowStart, Still, Retokened,
      SplitRows, Join, NewRow;
    var body', rows, pre := Retokened(body, cs), Rows(LinesOf(body)), Head(title);
    WholeTexts(title, body, cs);
    RetokenedText(title, body, cs);
    LineStart(body, j);
    LineStart(body', j);
    StillNew(rows[j], cs[j], q);
    PlaceApart(pre, rows, cs, j, q);
    var p, p' := |pre| + RowStart(rows, j) + q, |pre| + RowStart(NewRows(rows, cs), j) + q;
    ImageUncovered(x => Place(pre, rows, cs, x), Scan(Outside, Combine(title, body'), 0),
                   Scan(Outside, Combine(title, body), 0), p);
    InEntry(title, body, LinesOf(body)[j]);
    InEntry(title, body', LinesOf(body')[j]);
    UncoveredIff(Combine(title, body), p);
    UncoveredIff(Combine(title, body'), p');
  }

  lemma StillNew(row: Row, c: Change, q: nat)
    requires Still(row, c, q) && Fits(row, c)
    ensures q < |row.text| && q < |NewRow(row, c).text|
  {
    hide IsToken, Blank;
  }

  ghost predicate Imaged(title: string, body: string, cs: seq<Change>)
    requires |cs| == |LinesOf(body)|
  {
    IsImage(x => Place(Head(title), Rows(LinesOf(body)), cs, x),
            Scan(Outside, Combine(title, Retokened(body, cs)), 0), Scan(Outside, Combine(title, body), 0))
  }

  /** The two readings of one line. */
  lemma LineKept(ln: Line, ln': Line, c: Change, j: nat)
    requires Fits(RowOf(ln), c) && ln'.text == NewRow(RowOf(ln), c).text
    ensures var a, a' := ReadArrowLine(ln, j), ReadArrowLine(ln', j);
      && (a'.Some? <==> a.Some?)
      && (a.Some? ==>
            && Answering(ln, a.value, ln', a'.value, c) && ln.start <= a.value.tokenStart
            && Still(RowOf(ln), c, a.value.tokenStart - ln.start))
  {
    hide ReadArrowLine, Fits, SameSides;
    if c.Swap? { SwappedLine(c, ln, ln', j); } else { SameLine(ln, ln', j); }
    if ReadArrowLine(ln, j).Some? { ReadLine(ln, j); }
  }

  /** One line of the two bodies: the same answers. */
  lemma LineAnswers(title: string, body: string, plain: string -> bool, cs: seq<Change>, j: nat)
    requires |LinesOf(body)| == |cs| && body != "" && j < |cs| && FitsAll(Rows(LinesOf(body)), cs)
    requires |LinesOf(Retokened(body, cs))| == |cs| && Imaged(title, body, cs)
    requires LinesOf(Retokened(body, cs))[j].text == NewRow(RowOf(LinesOf(body)[j]), cs[j]).text
    requires plain(LinesOf(Retokened(body, cs))[j].text) == plain(LinesOf(body)[j].text)
    ensures SameAnswers(LinesOf(body)[j], LinesOf(Retokened(body, cs))[j], cs[j], Spans(Combine(title, body)),
                        Spans(Combine(title, Retokened(body, cs))), |title| + 2, plain, j)
  {
    hide LinesFrom, Spans, InsideAnySpan, ReadArrowLine, Fits, Combine, Imaged, SameSides, Retokened, Still, NewRow;
    var ln, ln' := LinesOf(body)[j], LinesOf(Retokened(body, cs))[j];
    assert Fits(Rows(LinesOf(body))[j], cs[j]);
    LineKept(ln, ln', cs[j], j);
    var a, a' := ReadArrowLine(ln, j), ReadArrowLine(ln', j);
    if a.Some? {
      CoverKept(title, body, cs, j, a.value.tokenStart - ln.start);
      SidesPlace(ln, a.value, ln', a'.value);
    }
  }

  lemma SidesPlace(ln: Line, a: Arrow, ln': Line, a': Arrow)
    requires SameSides(ln, a, ln', a')
    ensures a'.tokenStart - ln'.start == a.tokenStart - ln.start
  {
  }

  lemma RetokenedText(title: string, body: string, cs: seq<Change>)
    requires body != "" && FitsAll(Rows(LinesOf(body)), cs)
    ensures Retokened(body, cs) != ""
  {
    hide LinesFrom, SplitRows, Fits;
    JoinLines(body, 0);
    NewRowsSplit(Rows(LinesOf(body)), cs);
    assert Rows(LinesOf(body)) != [] by { NothingJoined(); }
    JoinedText(NewRows(Rows(LinesOf(body)), cs));
  }

  /** Other tokens on an entry's arrow lines, none merging with the text behind it and none
      changing what the Org parser says of its line: the entry has the same arrow lines, in the
      same order, each with its new token between the same sides, and the same base, so both
      sides of the k-th arrow line keep their numbers. */
  lemma ArrowsDoNotRenumber(title: string, body: string, excluded: seq<bool>, plain: string -> bool, cs: seq<Change>)
    requires |excluded| == |LinesOf(body)| == |cs| && body != ""
    requires FitsAll(Rows(LinesOf(body)), cs) && OnArrowLines(title, body, excluded, plain, cs)
    ensures |LinesOf(Retokened(body, cs))| == |LinesOf(body)|
    ensures SameArrows(LinesOf(body), LinesOf(Retokened(body, cs)), cs,
                       ArrowsOf(title, body, excluded, plain), ArrowsOf(title, Retokened(body, cs), excluded, plain))
    ensures BaseNumber(title, Retokened(body, cs)) == BaseNumber(title, body)
  {
    hide LinesFrom, Spans, InsideAnySpan, ReadArrowLine, Fits, Combine, IsImage, Scan, Uncovered, Place, TokenAt,
      SplitRows, Retokened, SameAnswers, SameArrows, ArrowsFrom, BaseNumber, Sticky, Highest, Join, Settled, Head;
    var body', rows, pre := Retokened(body, cs), Rows(LinesOf(body)), Head(title);
    WholeTexts(title, body, cs);
    forall j | 0 <= j < |cs| && cs[j].Swap?
      ensures Uncovered(Scan(Outside, Combine(title, body), 0), TokenAt(rows, cs, j, |pre|))
    {
      ChangedFree(title, body, excluded, plain, cs, j);
      UncoveredIff(Combine(title, body), TokenAt(rows, cs, j, |pre|));
    }
    WholeReads(pre, rows, cs);
    forall j | 0 <= j < |cs|
      ensures SameAnswers(LinesOf(body)[j], LinesOf(body')[j], cs[j], Spans(Combine(title, body)),
                          Spans(Combine(title, body')), |title| + 2, plain, j)
    {
      assert RowOf(LinesOf(body')[j]) == Rows(LinesOf(body'))[j] == NewRow(rows[j], cs[j]);
      LineAnswers(title, body, plain, cs, j);
    }
    ArrowsKept(LinesOf(body), LinesOf(body'), cs, excluded, Spans(Combine(title, body)),
               Spans(Combine(title, body')), |title| + 2, plain, 0);
    SameBase(title, body, cs);
  }

  lemma SameBase(title: string, body: string, cs: seq<Change>)
    requires body != "" && FitsAll(Rows(LinesOf(body)), cs)
    requires forall j :: 0 <= j < |cs| && cs[j].Swap? ==> Settled(cs[j].left)
    ensures BaseNumber(title, Retokened(body, cs)) == BaseNumber(title, body)
  {
    hide LinesFrom, Fits, SplitRows, Settled, Highest, BaseNumber, Join;
    JoinLines(body, 0);
    var rows := Rows(LinesOf(body));
    assert rows[0..] == rows && NewRows(rows, cs)[0..] == NewRows(rows, cs);
    RowsHighest(rows, cs, 0);
    BaseIsHighest(title, body);
    BaseIsHighest(title, Retokened(body, cs));
  }
}
