/** The supplementary split on texts: trimming, joining, and when the checked split succeeds. */
module ExtraText {
  import opened Basics
  import opened Lines
  import opened Blocks
  import opened Extra

  // ------------------------------------------------ marks under cutting and joining

  lemma {:induction false} BlanksShift(a: string, b: string, p: nat)
    requires p <= |b|
    ensures BlanksPast(a + b, |a| + p) == |a| + BlanksPast(b, p)
    decreases |b| - p
  {
    if p < |b| && (b[p] == ' ' || b[p] == '\t') { BlanksShift(a, b, p + 1); }
  }

  lemma SpelledShift(a: string, b: string, q: nat, mark: string)
    requires q <= |b|
    ensures Spelled(a + b, |a| + q, mark) <==> Spelled(b, q, mark)
  {
    if q + |mark| <= |b| { assert (a + b)[|a| + q..|a| + q + |mark|] == b[q..q + |mark|]; }
  }

  lemma MarkShift(a: string, b: string, p: nat)
    requires p <= |b|
    ensures MarkAt(a + b, |a| + p) == MarkAt(b, p)
  {
    hide Spelled;
    BlanksShift(a, b, p);
    SpelledShift(a, b, BlanksPast(b, p), OPEN_MARK);
    SpelledShift(a, b, BlanksPast(b, p), CLOSE_MARK);
  }

  /** A mark holds no white space. */
  lemma MarksSolid()
    ensures forall i :: 0 <= i < |OPEN_MARK| ==> !UnicodeSpace(OPEN_MARK[i])
    ensures forall i :: 0 <= i < |CLOSE_MARK| ==> !UnicodeSpace(CLOSE_MARK[i])
  {
  }

  lemma SpelledBefore(a: string, b: string, q: nat, mark: string)
    requires q <= |a| && (b != "" ==> UnicodeSpace(b[0]))
    requires forall i :: 0 <= i < |mark| ==> !UnicodeSpace(mark[i])
    ensures Spelled(a + b, q, mark) <==> Spelled(a, q, mark)
  {
    if q + |mark| <= |a| {
      assert (a + b)[q..q + |mark|] == a[q..q + |mark|];
    } else if q + |mark| <= |a + b| {
      var k := |a| - q;
      assert (a + b)[q + k] == b[0] && !UnicodeSpace(mark[k]);
      NotSpelled(a + b, q, mark, k);
    }
  }

  lemma NotSpelled(s: string, q: nat, mark: string, k: nat)
    requires q + |mark| <= |s| && k < |mark| && UnicodeSpace(s[q + k]) && !UnicodeSpace(mark[k])
    ensures !Spelled(s, q, mark)
  {
    assert Upper(s[q..q + |mark|])[k] == UpperChar(s[q + k]) == s[q + k];
  }

  lemma {:induction false} BlanksBefore(a: string, b: string, p: nat)
    requires p <= |a|
    ensures BlanksPast(a, p) < |a| ==> BlanksPast(a + b, p) == BlanksPast(a, p)
    ensures BlanksPast(a, p) == |a| ==> BlanksPast(a + b, p) == BlanksPast(a + b, |a|)
    decreases |a| - p
  {
    if p < |a| && (a[p] == ' ' || a[p] == '\t') { BlanksBefore(a, b, p + 1); }
  }

  /** One white-space character at the end of a text makes and hides no mark. */
  lemma MarkBeforeSpace(s: string, c: char, p: nat)
    requires p <= |s| && UnicodeSpace(c)
    ensures MarkAt(s + [c], p) == MarkAt(s, p)
    ensures MarkAt(s + [c], |s| + 1) == Plain
  {
    hide Spelled;
    MarksSolid();
    var q := BlanksPast(s, p);
    BlanksBefore(s, [c], p);
    NoMarkAtEnd(s + [c]);
    NoMarkAtEnd(s);
    if q < |s| {
      SpelledBefore(s, [c], q, OPEN_MARK);
      SpelledBefore(s, [c], q, CLOSE_MARK);
    } else {
      var r := BlanksPast(s + [c], |s|);
      LastChar(s, c, OPEN_MARK);
      LastChar(s, c, CLOSE_MARK);
      EndSpelled(s + [c], OPEN_MARK);
      EndSpelled(s + [c], CLOSE_MARK);
      EndSpelled(s, OPEN_MARK);
      EndSpelled(s, CLOSE_MARK);
    }
  }

  lemma LastChar(s: string, c: char, mark: string)
    requires |mark| > 1
    ensures !Spelled(s + [c], |s|, mark)
  {
  }

  lemma EndSpelled(s: string, mark: string)
    requires mark != ""
    ensures !Spelled(s, |s|, mark)
  {
  }

  lemma NoMarkAtEnd(s: string)
    ensures MarkAt(s, |s|) == Plain
  {
  }

  lemma TrailingSpace(s: string, c: char)
    requires UnicodeSpace(c)
    ensures HasMark(s + [c]) <==> HasMark(s)
  {
    hide MarkAt;
    var t := s + [c];
    forall p | 0 <= p <= |s| ensures MarkAt(t, p) == MarkAt(s, p) && (LineStart(t, p) <==> LineStart(s, p)) {
      MarkBeforeSpace(s, c, p);
    }
    MarkBeforeSpace(s, c, 0);
    if HasMark(t) {
      var p :| 0 <= p <= |t| && LineStart(t, p) && MarkAt(t, p) != Plain;
      assert p <= |s| && LineStart(s, p) && MarkAt(s, p) != Plain;
    }
    if HasMark(s) {
      var p :| 0 <= p <= |s| && LineStart(s, p) && MarkAt(s, p) != Plain;
      assert LineStart(t, p) && MarkAt(t, p) != Plain;
    }
  }

  /** Without its first character a text has the marks it had, and the one at its new start. */
  lemma LeadingSpace(c: char, s: string)
    requires UnicodeSpace(c)
    ensures HasMark(s) <==> HasMark([c] + s) || MarkAt(s, 0) != Plain
  {
    hide MarkAt;
    var t := [c] + s;
    forall p | 0 <= p <= |s|
      ensures MarkAt(t, p + 1) == MarkAt(s, p) && (p > 0 ==> (LineStart(t, p + 1) <==> LineStart(s, p)))
    {
      MarkShift([c], s, p);
      assert t[p] == if p == 0 then c else s[p - 1];
    }
    FirstMark(c, s);
    if HasMark(s) {
      var p :| 0 <= p <= |s| && LineStart(s, p) && MarkAt(s, p) != Plain;
      if p > 0 { assert LineStart(t, p + 1) && MarkAt(t, p + 1) != Plain; }
    }
    if HasMark(t) {
      var p :| 0 <= p <= |t| && LineStart(t, p) && MarkAt(t, p) != Plain;
      if p > 1 { assert LineStart(s, p - 1) && MarkAt(s, p - 1) != Plain; }
    }
    if MarkAt(s, 0) != Plain { assert LineStart(s, 0); }
  }

  lemma FirstMark(c: char, s: string)
    requires UnicodeSpace(c)
    ensures MarkAt([c] + s, 0) != Plain ==> MarkAt([c] + s, 0) == MarkAt(s, 0)
    ensures c == ' ' || c == '\t' ==> MarkAt([c] + s, 0) == MarkAt(s, 0)
  {
    hide Spelled;
    var t := [c] + s;
    if c == ' ' || c == '\t' {
      BlanksShift([c], s, 0);
      SpelledShift([c], s, BlanksPast(s, 0), OPEN_MARK);
      SpelledShift([c], s, BlanksPast(s, 0), CLOSE_MARK);
    } else {
      FirstSolid(t, OPEN_MARK);
      FirstSolid(t, CLOSE_MARK);
    }
  }

  lemma FirstSolid(t: string, mark: string)
    requires t != "" && UnicodeSpace(t[0]) && mark != "" && mark[0] == '#'
    ensures !Spelled(t, 0, mark)
  {
    if |mark| <= |t| { assert Upper(t[0..|mark|])[0] == UpperChar(t[0]) != '#'; }
  }

  lemma {:induction false} TrimEndMarks(s: string)
    ensures HasMark(TrimEnd(s)) <==> HasMark(s)
  {
    hide HasMark;
    if s != "" && UnicodeSpace(s[|s| - 1]) {
      assert s == s[..|s| - 1] + [s[|s| - 1]];
      TrailingSpace(s[..|s| - 1], s[|s| - 1]);
      TrimEndMarks(s[..|s| - 1]);
    }
  }

  lemma {:induction false} MarkSurvivesTrim(s: string)
    ensures MarkAt(s, 0) != Plain ==> MarkAt(TrimStart(s), 0) != Plain
  {
    hide MarkAt;
    if s != "" && UnicodeSpace(s[0]) {
      assert s == [s[0]] + s[1..];
      FirstMark(s[0], s[1..]);
      MarkSurvivesTrim(s[1..]);
    }
  }

  lemma {:induction false} TrimStartMarks(s: string)
    ensures HasMark(TrimStart(s)) <==> HasMark(s) || MarkAt(TrimStart(s), 0) != Plain
  {
    hide HasMark, MarkAt;
    if s != "" && UnicodeSpace(s[0]) {
      assert s == [s[0]] + s[1..];
      LeadingSpace(s[0], s[1..]);
      TrimStartMarks(s[1..]);
      MarkSurvivesTrim(s[1..]);
    } else {
      StartMark(s);
    }
  }

  lemma StartMark(s: string)
    ensures MarkAt(s, 0) != Plain ==> HasMark(s)
  {
    assert LineStart(s, 0);
  }

  /** Trimming the text as a whole can expose one mark: the one it then starts with. */
  lemma TrimSpaceMarks(s: string)
    ensures HasMark(TrimSpace(s)) <==> HasMark(s) || MarkAt(TrimSpace(s), 0) != Plain
  {
    hide HasMark, MarkAt;
    TrimStartMarks(s);
    TrimEndMarks(TrimStart(s));
    StartMark(TrimSpace(s));
    TrimEndFirst(TrimStart(s));
  }

  lemma {:induction false} TrimEndFirst(s: string)
    ensures MarkAt(TrimEnd(s), 0) == MarkAt(s, 0)
  {
    hide MarkAt;
    if s != "" && UnicodeSpace(s[|s| - 1]) {
      assert s == s[..|s| - 1] + [s[|s| - 1]];
      MarkBeforeSpace(s[..|s| - 1], s[|s| - 1], 0);
      TrimEndFirst(s[..|s| - 1]);
    }
  }

  function TrimNewlinesStart(s: string): string {
    if s != "" && s[0] == '\n' then TrimNewlinesStart(s[1..]) else s
  }

  function TrimNewlinesEnd(s: string): string {
    if s != "" && s[|s| - 1] == '\n' then TrimNewlinesEnd(s[..|s| - 1]) else s
  }

  /** strings.Trim(s, "\n") */
  function TrimNewlines(s: string): string {
    TrimNewlinesEnd(TrimNewlinesStart(s))
  }

  lemma {:induction false} TrimNewlinesMarks(s: string)
    ensures HasMark(TrimNewlinesStart(s)) <==> HasMark(s)
  {
    hide HasMark, MarkAt;
    if s != "" && s[0] == '\n' {
      assert s == ['\n'] + s[1..];
      AfterNewline(s[1..]);
      TrimNewlinesMarks(s[1..]);
    }
  }

  lemma AfterNewline(s: string)
    ensures HasMark(['\n'] + s) <==> HasMark(s)
  {
    hide MarkAt;
    var t := ['\n'] + s;
    LeadingSpace('\n', s);
    MarkShift(['\n'], s, 0);
    if MarkAt(s, 0) != Plain { assert LineStart(t, 1) && MarkAt(t, 1) != Plain; }
  }

  lemma {:induction false} TrimNewlinesEndMarks(s: string)
    ensures HasMark(TrimNewlinesEnd(s)) <==> HasMark(s)
  {
    hide HasMark, MarkAt;
    if s != "" && s[|s| - 1] == '\n' {
      assert s == s[..|s| - 1] + ['\n'];
      TrailingSpace(s[..|s| - 1], '\n');
      TrimNewlinesEndMarks(s[..|s| - 1]);
    }
  }

  /** Texts of whole lines put together have the marks of both. */
  lemma ConcatMarks(a: string, b: string)
    ensures HasMark(a + "\n" + b) <==> HasMark(a) || HasMark(b)
  {
    hide MarkAt;
    var t := a + "\n" + b;
    assert t == a + (['\n'] + b);
    forall p | 0 <= p <= |a| ensures MarkAt(t, p) == MarkAt(a, p) && (LineStart(t, p) <==> LineStart(a, p)) {
      MarkBeforeLine(a, b, p);
    }
    forall p | 0 <= p <= |b|
      ensures MarkAt(t, |a| + 1 + p) == MarkAt(b, p) && (LineStart(t, |a| + 1 + p) <==> LineStart(b, p))
    {
      MarkShift(a + "\n", b, p);
    }
    if HasMark(t) {
      var p :| 0 <= p <= |t| && LineStart(t, p) && MarkAt(t, p) != Plain;
      if p <= |a| {
        assert LineStart(a, p) && MarkAt(a, p) != Plain;
      } else {
        var r := p - |a| - 1;
        assert p == |a| + 1 + r;
        assert LineStart(b, r) && MarkAt(b, r) != Plain;
      }
    }
    if HasMark(a) {
      var p :| 0 <= p <= |a| && LineStart(a, p) && MarkAt(a, p) != Plain;
      assert LineStart(t, p) && MarkAt(t, p) != Plain;
    }
    if HasMark(b) {
      var p :| 0 <= p <= |b| && LineStart(b, p) && MarkAt(b, p) != Plain;
      assert LineStart(t, |a| + 1 + p) && MarkAt(t, |a| + 1 + p) != Plain;
    }
  }

  lemma MarkBeforeLine(a: string, b: string, p: nat)
    requires p <= |a|
    ensures MarkAt(a + (['\n'] + b), p) == MarkAt(a, p)
  {
    hide Spelled;
    MarksSolid();
    var q := BlanksPast(a, p);
    var tail := ['\n'] + b;
    BlanksBefore(a, tail, p);
    SpelledBefore(a, tail, q, OPEN_MARK);
    SpelledBefore(a, tail, q, CLOSE_MARK);
    assert (a + tail)[|a|] == '\n';
    assert BlanksPast(a + tail, |a|) == |a|;
  }

  // --------------------------------------------------------- lines and the split

  /** A line by itself is marked exactly when it is a marker line. */
  lemma OneLineMarks(text: string)
    requires '\n' !in text
    ensures HasMark(text) <==> MarkAt(text, 0) != Plain
  {
    hide MarkAt;
    StartMark(text);
  }

  lemma {:induction false} JoinMarks(rows: seq<Row>)
    requires SplitRows(rows)
    ensures HasMark(Join(rows)) <==> exists i :: 0 <= i < |rows| && MarkOf(rows[i]) != Plain
  {
    hide HasMark, MarkAt;
    if rows == [] {
      EmptyUnmarked();
    } else {
      var rest := rows[1..];
      RestSplit(rows);
      JoinMarks(rest);
      OneLineMarks(rows[0].text);
      if rows[0].newline {
        ConcatMarks(rows[0].text, Join(rest));
        assert Join(rows) == rows[0].text + "\n" + Join(rest);
      } else {
        assert Join(rows) == rows[0].text;
      }
      assert forall i :: 1 <= i < |rows| ==> rows[i] == rest[i - 1];
      if exists i :: 0 <= i < |rest| && MarkOf(rest[i]) != Plain {
        var i :| 0 <= i < |rest| && MarkOf(rest[i]) != Plain;
        assert MarkOf(rows[i + 1]) != Plain;
      }
    }
  }

  lemma EmptyUnmarked()
    ensures !HasMark("") && Join([]) == ""
  {
  }

  lemma RestSplit(rows: seq<Row>)
    requires SplitRows(rows) && rows != []
    ensures SplitRows(rows[1..]) && '\n' !in rows[0].text && (!rows[0].newline ==> rows[1..] == [])
  {
  }

  lemma SliceSplit(rows: seq<Row>, i: nat, j: nat)
    requires SplitRows(rows) && i <= j <= |rows|
    ensures SplitRows(rows[i..j])
  {
  }

  function InteriorText(rows: seq<Row>, m: Match): string
    requires m.begin < m.end <= |rows|
  {
    TrimNewlines(Join(rows[m.begin + 1..m.end]))
  }

  /** The interiors that are not empty, put together with a blank line between them. */
  function ExtraTextOf(rows: seq<Row>, ms: seq<Match>): string
    requires forall k :: 0 <= k < |ms| ==> ms[k].begin < ms[k].end <= |rows|
  {
    if ms == [] then ""
    else
      var n := |ms| - 1;
      var before := ExtraTextOf(rows, ms[..n]);
      var last := InteriorText(rows, ms[n]);
      if last == "" then before else if before == "" then last else before + "\n\n" + last
  }

  lemma InteriorMarks(rows: seq<Row>, m: Match)
    requires SplitRows(rows) && m.begin < m.end < |rows|
    ensures HasMark(InteriorText(rows, m)) <==> !InteriorPlain(rows, m)
  {
    hide HasMark, MarkAt, Join;
    var inside := rows[m.begin + 1..m.end];
    SliceSplit(rows, m.begin + 1, m.end);
    JoinMarks(inside);
    TrimNewlinesMarks(Join(inside));
    TrimNewlinesEndMarks(TrimNewlinesStart(Join(inside)));
    assert forall i :: 0 <= i < |inside| ==> inside[i] == rows[m.begin + 1 + i];
    if !InteriorPlain(rows, m) {
      var k :| m.begin < k < m.end && MarkOf(rows[k]) != Plain;
      assert inside[k - m.begin - 1] == rows[k];
    }
  }

  lemma {:induction false} ExtraMarks(rows: seq<Row>, ms: seq<Match>)
    requires SplitRows(rows) && forall k :: 0 <= k < |ms| ==> ms[k].begin < ms[k].end < |rows|
    ensures HasMark(ExtraTextOf(rows, ms)) <==> exists k :: 0 <= k < |ms| && !InteriorPlain(rows, ms[k])
  {
    hide HasMark, InteriorText, InteriorPlain, SplitRows;
    EmptyUnmarked();
    if ms != [] {
      var n := |ms| - 1;
      ExtraMarks(rows, ms[..n]);
      InteriorMarks(rows, ms[n]);
      var before, last := ExtraTextOf(rows, ms[..n]), InteriorText(rows, ms[n]);
      assert forall k :: 0 <= k < n ==> ms[..n][k] == ms[k];
      ConcatMarks(before, "\n" + last);
      ConcatMarks("", last);
      assert before + "\n\n" + last == before + "\n" + ("\n" + last);
      assert "" + "\n" + last == "\n" + last;
      if exists k :: 0 <= k < n && !InteriorPlain(rows, ms[..n][k]) {
        var k :| 0 <= k < n && !InteriorPlain(rows, ms[..n][k]);
        assert !InteriorPlain(rows, ms[k]);
      }
    }
  }

  datatype Split = Split(rest: string, extra: string)

  /** The split of a body. Without any match the body stays as it is, byte for byte. */
  function SplitExtra(body: string): Split {
    var rows := Rows(LinesOf(body));
    var ms := MatchesFrom(rows, 0);
    if ms == [] then Split(body, "")
    else
      MatchesPaired(rows, 0);
      MatchBounds(rows, ms);
      Split(TrimSpace(Join(RestRows(rows))), ExtraTextOf(rows, ms))
  }

  lemma MatchBounds(rows: seq<Row>, ms: seq<Match>)
    requires Paired(rows, ms, 0)
    ensures forall k :: 0 <= k < |ms| ==> ms[k].begin < ms[k].end < |rows|
  {
  }

  ghost predicate Rejected(s: Split) {
    HasMark(s.rest) || HasMark(s.extra)
  }

  /** Nothing but blank lines stays before line i. */
  ghost predicate FirstStaying(rows: seq<Row>, keep: seq<bool>, i: nat)
    requires |keep| == |rows|
  {
    i < |rows| && keep[i] && !Blank(rows[i].text) && forall j :: 0 <= j < i && keep[j] ==> Blank(rows[j].text)
  }

  /** The line is no marker line, but is one without the white space in front of it. */
  predicate HidesMark(row: Row) {
    MarkOf(row) == Plain && MarkAt(TrimStart(row.text), 0) != Plain
  }

  /** Trimming can turn a line that is no marker line into one: white space other than blanks
      and tabs keeps the split from reading the mark behind it. The split trims the first line
      that is not blank and lies outside every match, if there is a match. */
  ghost predicate Exposed(body: string) {
    var rows := Rows(LinesOf(body));
    var ms := MatchesFrom(rows, 0);
    ms != [] && exists i :: 0 <= i < |rows| && FirstStaying(rows, Uncovered(|rows|, ms), i) && HidesMark(rows[i])
  }

  lemma {:induction false} TrimStartOver(a: string, b: string)
    ensures TrimStart(a + b) == if Blank(a) then TrimStart(b) else TrimStart(a) + b
  {
    if a == "" {
      assert a + b == b;
    } else if UnicodeSpace(a[0]) {
      assert (a + b)[1..] == a[1..] + b;
      TrimStartOver(a[1..], b);
      assert Blank(a) <==> Blank(a[1..]) by { BlankCons(a); }
    }
  }

  lemma BlankCons(a: string)
    requires a != "" && UnicodeSpace(a[0])
    ensures Blank(a) <==> Blank(a[1..])
  {
    assert forall i :: 1 <= i < |a| ==> a[i] == a[1..][i - 1];
  }

  /** A text starts with a mark, once trimmed, exactly when its first line that is not blank does. */
  lemma {:induction false} FirstLineMarks(rows: seq<Row>)
    requires SplitRows(rows)
    ensures MarkAt(TrimStart(Join(rows)), 0) != Plain <==>
            exists i :: 0 <= i < |rows| && FirstSolidRow(rows, i) && MarkAt(TrimStart(rows[i].text), 0) != Plain
  {
    hide MarkAt, TrimStart, Blank, FirstSolidRow;
    if rows == [] {
      NoMarkAtEnd("");
      assert TrimStart("") == "" by { EmptyTrimmed(); }
    } else {
      var a, rest := rows[0].text, Join(rows[1..]);
      RestSplit(rows);
      FirstLineMarks(rows[1..]);
      assert forall i :: 1 <= i < |rows| ==> rows[i] == rows[1..][i - 1];
      FirstSolidRest(rows);
      if !rows[0].newline {
        assert rows == [rows[0]];
        assert Join(rows) == a;
        if Blank(a) { BlankTrimmed(a); NoMarkAtEnd(""); }
      } else if Blank(a) {
        BlankLine(a);
        TrimStartOver(a + "\n", rest);
        assert Join(rows) == a + "\n" + rest;
      } else {
        TrimStartOver(a, ['\n'] + rest);
        assert Join(rows) == a + (['\n'] + rest);
        MarkBeforeLine(TrimStart(a), rest, 0);
      }
    }
  }

  lemma EmptyTrimmed()
    ensures TrimStart("") == ""
  {
  }

  lemma BlankTrimmed(a: string)
    requires Blank(a)
    ensures TrimStart(a) == ""
  {
    TrimStartOver(a, "");
    assert a + "" == a;
  }

  lemma BlankLine(a: string)
    requires Blank(a)
    ensures Blank(a + "\n")
  {
  }

  ghost predicate FirstSolidRow(rows: seq<Row>, i: nat) {
    i < |rows| && !Blank(rows[i].text) && forall j :: 0 <= j < i ==> Blank(rows[j].text)
  }

  lemma FirstSolidRest(rows: seq<Row>)
    requires rows != []
    ensures Blank(rows[0].text) ==>
              forall i :: 0 < i < |rows| ==> (FirstSolidRow(rows, i) <==> FirstSolidRow(rows[1..], i - 1))
    ensures FirstSolidRow(rows, 0) <==> !Blank(rows[0].text)
    ensures !Blank(rows[0].text) ==> forall i :: 0 < i < |rows| ==> !FirstSolidRow(rows, i)
    ensures forall i: nat :: FirstSolidRow(rows[1..], i) && Blank(rows[0].text) ==>
              FirstSolidRow(rows, i + 1) && rows[1..][i] == rows[i + 1]
  {
    hide Blank;
    assert forall i :: 1 <= i < |rows| ==> rows[i] == rows[1..][i - 1];
  }

  lemma {:induction false} FilteredFrom(rows: seq<Row>, keep: seq<bool>, n: nat, i: nat) returns (k: nat)
    requires |keep| == |rows| && n <= |rows| && i < |Filtered(rows, keep, n)|
    ensures k < n && keep[k] && Place(keep, k) == i && Filtered(rows, keep, n)[i] == rows[k]
  {
    if i < |Filtered(rows, keep, n - 1)| {
      k := FilteredFrom(rows, keep, n - 1, i);
    } else {
      k := n - 1;
    }
  }

  /** The first line that is not blank among those that stay. */
  lemma FirstOfFiltered(rows: seq<Row>, keep: seq<bool>, k: nat)
    requires |keep| == |rows| && k < |rows| && keep[k]
    ensures Place(keep, k) < |Filtered(rows, keep, |rows|)|
    ensures FirstSolidRow(Filtered(rows, keep, |rows|), Place(keep, k)) <==> FirstStaying(rows, keep, k)
  {
    hide Blank, Filtered, Place;
    var kept := Filtered(rows, keep, |rows|);
    FilteredAt(rows, keep, k, |rows|);
    if FirstStaying(rows, keep, k) {
      forall j | 0 <= j < Place(keep, k) ensures Blank(kept[j].text) {
        var from := FilteredFrom(rows, keep, |rows|, j);
        if from >= k { PlaceGrows(keep, k, from); }
      }
    }
    if FirstSolidRow(kept, Place(keep, k)) {
      forall j | 0 <= j < k && keep[j] ensures Blank(rows[j].text) {
        FilteredAt(rows, keep, j, |rows|);
        PlaceGrows(keep, j, k);
      }
    }
  }

  /** What trimming exposes in the rest, told on the lines of the body. */
  lemma RestMarks(rows: seq<Row>, keep: seq<bool>)
    requires SplitRows(rows) && |keep| == |rows|
    ensures MarkAt(TrimSpace(Join(Filtered(rows, keep, |rows|))), 0) != Plain <==>
            exists k :: 0 <= k < |rows| && FirstStaying(rows, keep, k) && MarkAt(TrimStart(rows[k].text), 0) != Plain
  {
    hide MarkAt, TrimStart, Filtered, Place, FirstStaying, FirstSolidRow, SplitRows;
    var kept := Filtered(rows, keep, |rows|);
    FilteredSplit(rows, keep, |rows|);
    FirstLineMarks(kept);
    TrimEndFirst(TrimStart(Join(kept)));
    if exists i :: 0 <= i < |kept| && FirstSolidRow(kept, i) && MarkAt(TrimStart(kept[i].text), 0) != Plain {
      var i :| 0 <= i < |kept| && FirstSolidRow(kept, i) && MarkAt(TrimStart(kept[i].text), 0) != Plain;
      var k := FilteredFrom(rows, keep, |rows|, i);
      FirstOfFiltered(rows, keep, k);
    }
    if exists k :: 0 <= k < |rows| && FirstStaying(rows, keep, k) && MarkAt(TrimStart(rows[k].text), 0) != Plain {
      var k :| 0 <= k < |rows| && FirstStaying(rows, keep, k) && MarkAt(TrimStart(rows[k].text), 0) != Plain;
      StayingKept(rows, keep, k);
      FirstOfFiltered(rows, keep, k);
      FilteredAt(rows, keep, k, |rows|);
    }
  }

  lemma StayingKept(rows: seq<Row>, keep: seq<bool>, k: nat)
    requires |keep| == |rows| && FirstStaying(rows, keep, k)
    ensures k < |rows| && keep[k]
  {
  }

  lemma {:induction false} FilteredMarks(rows: seq<Row>, keep: seq<bool>, n: nat)
    requires |keep| == |rows| && n <= |rows|
    ensures (exists i :: 0 <= i < |Filtered(rows, keep, n)| && MarkOf(Filtered(rows, keep, n)[i]) != Plain) <==>
            (exists k :: 0 <= k < n && keep[k] && MarkOf(rows[k]) != Plain)
  {
    hide MarkOf;
    if n > 0 {
      FilteredMarks(rows, keep, n - 1);
      var before, after := Filtered(rows, keep, n - 1), Filtered(rows, keep, n);
      assert after == before + if keep[n - 1] then [rows[n - 1]] else [];
      if i :| 0 <= i < |after| && MarkOf(after[i]) != Plain {
        assert i < |before| ==> MarkOf(before[i]) != Plain;
      }
      if k :| 0 <= k < n && keep[k] && MarkOf(rows[k]) != Plain {
        if k == n - 1 {
          assert MarkOf(after[|before|]) != Plain;
        } else {
          var i :| 0 <= i < |before| && MarkOf(before[i]) != Plain;
          assert MarkOf(after[i]) != Plain;
        }
      }
    }
  }

  /** The checked split succeeds exactly when the marker lines of the body alternate begin,
      end, begin, end to an end, and no mark is hidden where the rest is trimmed. */
  lemma RejectedIff(body: string)
    ensures !Rejected(SplitExtra(body)) <==> Balanced(Rows(LinesOf(body)), 0, false) && !Exposed(body)
  {
    hide HasMark, MarkAt, MarkOf, LinesFrom, Rows, Join, MatchesFrom, Balanced, TrimSpace, Covered, SplitRows,
      FirstStaying, HidesMark;
    var rows := Rows(LinesOf(body));
    var ms := MatchesFrom(rows, 0);
    JoinLines(body, 0);
    assert Join(rows) == body && SplitRows(rows);
    CleanIffBalanced(rows, 0);
    if ms == [] {
      NoMatchClean(rows);
      JoinMarks(rows);
      EmptyUnmarked();
    } else {
      var keep := Uncovered(|rows|, ms);
      FilteredSplit(rows, keep, |rows|);
      JoinMarks(RestRows(rows));
      FilteredMarks(rows, keep, |rows|);
      TrimSpaceMarks(Join(RestRows(rows)));
      MatchesPaired(rows, 0);
      MatchBounds(rows, ms);
      ExtraMarks(rows, ms);
      CleanParts(rows, ms);
      RestMarks(rows, keep);
      HiddenMarks(rows, keep);
    }
  }

  /** Where no marker line stays, what trimming exposes was hidden. */
  lemma HiddenMarks(rows: seq<Row>, keep: seq<bool>)
    requires |keep| == |rows|
    ensures (forall k :: 0 <= k < |rows| && keep[k] ==> MarkOf(rows[k]) == Plain) ==>
              ((exists k :: 0 <= k < |rows| && FirstStaying(rows, keep, k) &&
                  MarkAt(TrimStart(rows[k].text), 0) != Plain) <==>
               (exists k :: 0 <= k < |rows| && FirstStaying(rows, keep, k) && HidesMark(rows[k])))
  {
    hide MarkAt, TrimStart, Blank;
    if exists k :: 0 <= k < |rows| && FirstStaying(rows, keep, k) && MarkAt(TrimStart(rows[k].text), 0) != Plain {
      var k :| 0 <= k < |rows| && FirstStaying(rows, keep, k) && MarkAt(TrimStart(rows[k].text), 0) != Plain;
      if forall i :: 0 <= i < |rows| && keep[i] ==> MarkOf(rows[i]) == Plain { assert HidesMark(rows[k]); }
    }
  }

  /** A body whose marker lines alternate and whose checked split fails all the same: its first
      line hides a closing mark behind a vertical tab. */
  lemma ExposedExample() returns (body: string)
    ensures Balanced(Rows(LinesOf(body)), 0, false) && Exposed(body) && Rejected(SplitExtra(body))
  {
    hide HasMark, Spelled, Upper, LinesFrom;
    var rows := [Row("\U{B}" + CLOSE_MARK, true), Row(OPEN_MARK, true), Row(CLOSE_MARK, true)];
    body := Join(rows);
    ExampleMarks();
    SplitJoin("", rows);
    assert "" + body == body;
    ExampleMatches(rows);
    ExampleRest(rows);
    RejectedIff(body);
  }

  lemma ExampleMarks()
    ensures MarkAt("\U{B}" + CLOSE_MARK, 0) == Plain && MarkAt(OPEN_MARK, 0) == Begin && MarkAt(CLOSE_MARK, 0) == End
    ensures '\n' !in CLOSE_MARK && '\n' !in OPEN_MARK
  {
    hide Upper;
    MarksSolid();
    SpelledItself(OPEN_MARK);
    SpelledItself(CLOSE_MARK);
    FirstSolid("\U{B}" + CLOSE_MARK, OPEN_MARK);
    FirstSolid("\U{B}" + CLOSE_MARK, CLOSE_MARK);
  }

  lemma SpelledItself(mark: string)
    requires forall i :: 0 <= i < |mark| ==> !('a' <= mark[i] <= 'z')
    ensures Spelled(mark, 0, mark)
  {
    assert mark[0..|mark|] == mark;
    assert Upper(mark) == mark;
  }

  lemma ExampleMatches(rows: seq<Row>)
    requires |rows| == 3 && MarkOf(rows[0]) == Plain && MarkOf(rows[1]) == Begin && MarkOf(rows[2]) == End
    ensures MatchesFrom(rows, 0) == [Match(1, 2)] && Balanced(rows, 0, false)
  {
    hide MarkOf;
    assert NextEnd(rows, 2) == 2;
    assert MatchesFrom(rows, 3) == [];
    assert MatchesFrom(rows, 1) == [Match(1, 2)];
    assert Balanced(rows, 3, false) && Balanced(rows, 2, true) && Balanced(rows, 1, false);
  }

  lemma ExampleRest(rows: seq<Row>)
    requires rows == [Row("\U{B}" + CLOSE_MARK, true), Row(OPEN_MARK, true), Row(CLOSE_MARK, true)]
    ensures FirstStaying(rows, Uncovered(3, [Match(1, 2)]), 0) && HidesMark(rows[0])
  {
    hide MarkAt, TrimStart, Blank;
    ExampleMarks();
    ExampleTrimmed();
  }

  lemma ExampleTrimmed()
    ensures TrimStart("\U{B}" + CLOSE_MARK) == CLOSE_MARK && !Blank("\U{B}" + CLOSE_MARK)
  {
    var line := "\U{B}" + CLOSE_MARK;
    assert line[1..] == CLOSE_MARK && !UnicodeSpace(line[1]);
    assert TrimStart(CLOSE_MARK) == CLOSE_MARK;
  }

  lemma NoMatchClean(rows: seq<Row>)
    ensures CleanFrom(rows, [], 0) <==> !(exists i :: 0 <= i < |rows| && MarkOf(rows[i]) != Plain)
  {
    hide MarkOf;
    assert forall k: nat :: !Covered([], k);
  }

  lemma CleanParts(rows: seq<Row>, ms: seq<Match>)
    ensures CleanFrom(rows, ms, 0) <==>
            !(exists k :: 0 <= k < |rows| && Uncovered(|rows|, ms)[k] && MarkOf(rows[k]) != Plain)
            && !(exists k :: 0 <= k < |ms| && !InteriorPlain(rows, ms[k]))
  {
    hide MarkOf, InteriorPlain, Covered;
  }

  /** A body without marker lines comes back byte-identical. */
  lemma UnmarkedUntouched(body: string)
    requires forall i :: 0 <= i < |LinesOf(body)| ==> MarkAt(LinesOf(body)[i].text, 0) == Plain
    ensures SplitExtra(body) == Split(body, "")
  {
    hide LinesFrom, MarkAt;
    NoneMatch(Rows(LinesOf(body)), 0);
  }

  lemma {:induction false} NoneMatch(rows: seq<Row>, i: nat)
    requires i <= |rows| && forall k :: i <= k < |rows| ==> MarkOf(rows[k]) == Plain
    ensures MatchesFrom(rows, i) == []
    decreases |rows| - i
  {
    hide MarkOf;
    if i < |rows| { NoneMatch(rows, i + 1); }
  }

  /** A text without some characters at its two ends. */
  ghost predicate Trims(s: string, t: string, edge: char -> bool) {
    exists lo, hi :: 0 <= lo <= hi <= |s| && CutAt(s, t, edge, lo, hi)
  }

  ghost predicate CutAt(s: string, t: string, edge: char -> bool, lo: int, hi: int) {
    && 0 <= lo <= hi <= |s| && t == s[lo..hi]
    && (forall i :: 0 <= i < lo ==> edge(s[i])) && (forall i :: hi <= i < |s| ==> edge(s[i]))
    && (t != "" ==> !edge(t[0]) && !edge(t[|t| - 1]))
  }

  lemma {:induction false} TrimStartCut(s: string) returns (lo: nat)
    ensures lo <= |s| && TrimStart(s) == s[lo..] && forall i :: 0 <= i < lo ==> UnicodeSpace(s[i])
  {
    lo := 0;
    if s != "" && UnicodeSpace(s[0]) {
      var rest := TrimStartCut(s[1..]);
      lo := rest + 1;
      assert forall i :: 1 <= i < lo ==> s[i] == s[1..][i - 1];
    }
  }

  lemma {:induction false} TrimEndCut(s: string) returns (hi: nat)
    ensures hi <= |s| && TrimEnd(s) == s[..hi] && forall i :: hi <= i < |s| ==> UnicodeSpace(s[i])
  {
    hi := |s|;
    if s != "" && UnicodeSpace(s[|s| - 1]) {
      hi := TrimEndCut(s[..|s| - 1]);
      assert forall i :: hi <= i < |s| - 1 ==> s[i] == s[..|s| - 1][i];
    }
  }

  lemma TrimSpaceTrims(s: string)
    ensures Trims(s, TrimSpace(s), c => UnicodeSpace(c))
  {
    var lo := TrimStartCut(s);
    var mid := TrimStart(s);
    var n := TrimEndCut(mid);
    hide UnicodeSpace, TrimStart;
    assert TrimSpace(s) == s[lo..lo + n];
    forall i | lo + n <= i < |s| ensures UnicodeSpace(s[i]) { assert s[i] == mid[i - lo]; }
    assert TrimSpace(s) != "" ==> TrimSpace(s)[0] == mid[0];
    assert CutAt(s, TrimSpace(s), c => UnicodeSpace(c), lo, lo + n);
  }

  lemma {:induction false} NewlinesStartCut(s: string) returns (lo: nat)
    ensures var t := TrimNewlinesStart(s);
      lo <= |s| && t == s[lo..] && (forall i :: 0 <= i < lo ==> s[i] == '\n') && (t != "" ==> t[0] != '\n')
  {
    lo := 0;
    if s != "" && s[0] == '\n' {
      var rest := NewlinesStartCut(s[1..]);
      lo := rest + 1;
      assert forall i :: 1 <= i < lo ==> s[i] == s[1..][i - 1];
    }
  }

  lemma {:induction false} NewlinesEndCut(s: string) returns (hi: nat)
    ensures var t := TrimNewlinesEnd(s);
      hi <= |s| && t == s[..hi] && (forall i :: hi <= i < |s| ==> s[i] == '\n') && (t != "" ==> t[|t| - 1] != '\n')
  {
    hi := |s|;
    if s != "" && s[|s| - 1] == '\n' {
      hi := NewlinesEndCut(s[..|s| - 1]);
      assert forall i :: hi <= i < |s| - 1 ==> s[i] == s[..|s| - 1][i];
    }
  }

  lemma TrimNewlinesTrims(s: string)
    ensures Trims(s, TrimNewlines(s), c => c == '\n')
  {
    var lo := NewlinesStartCut(s);
    var mid := TrimNewlinesStart(s);
    var n := NewlinesEndCut(mid);
    hide TrimNewlinesStart, TrimNewlinesEnd;
    assert TrimNewlines(s) == s[lo..lo + n];
    forall i | lo + n <= i < |s| ensures s[i] == '\n' { assert s[i] == mid[i - lo]; }
    assert TrimNewlines(s) != "" ==> TrimNewlines(s)[0] == mid[0];
    assert CutAt(s, TrimNewlines(s), c => c == '\n', lo, lo + n);
  }

  /** The interiors that are not empty, in order. */
  function Inner(rows: seq<Row>, ms: seq<Match>): seq<string>
    requires forall k :: 0 <= k < |ms| ==> ms[k].begin < ms[k].end <= |rows|
  {
    if ms == [] then []
    else Inner(rows, ms[..|ms| - 1]) + if InteriorText(rows, ms[|ms| - 1]) == "" then []
      else [InteriorText(rows, ms[|ms| - 1])]
  }

  /** strings.Join(parts, "\n\n") */
  function Paragraphs(parts: seq<string>): string {
    if parts == [] then "" else if |parts| == 1 then parts[0]
    else Paragraphs(parts[..|parts| - 1]) + "\n\n" + parts[|parts| - 1]
  }

  lemma ParagraphsNone()
    ensures Paragraphs([]) == ""
  {
  }

  lemma ParagraphsNext(parts: seq<string>, last: string)
    ensures Paragraphs(parts + [last]) == if parts == [] then last else Paragraphs(parts) + "\n\n" + last
  {
    assert (parts + [last])[..|parts|] == parts;
  }

  lemma {:induction false} ExtraIsJoined(rows: seq<Row>, ms: seq<Match>)
    requires forall k :: 0 <= k < |ms| ==> ms[k].begin < ms[k].end <= |rows|
    ensures ExtraTextOf(rows, ms) == Paragraphs(Inner(rows, ms))
    ensures Inner(rows, ms) == [] <==> ExtraTextOf(rows, ms) == ""
    ensures forall k :: 0 <= k < |Inner(rows, ms)| ==> Inner(rows, ms)[k] != ""
  {
    hide InteriorText, Paragraphs;
    ParagraphsNone();
    if ms != [] {
      var n := |ms| - 1;
      ExtraIsJoined(rows, ms[..n]);
      var before, parts := Inner(rows, ms[..n]), Inner(rows, ms);
      ParagraphsNext(before, InteriorText(rows, ms[n]));
      assert before + [] == before;
    }
  }

  /** Every line outside the matches is among the lines that stay, at its place. */
  ghost predicate Stay(rows: seq<Row>, ms: seq<Match>, rest: seq<Row>) {
    var keep := Uncovered(|rows|, ms);
    && |rest| == Place(keep, |rows|)
    && forall i :: 0 <= i < |rows| && keep[i] ==> Place(keep, i) < |rest| && rest[Place(keep, i)] == rows[i]
  }

  /** Each interior is the lines strictly inside its match but for newlines at its two ends. */
  ghost predicate Inside(rows: seq<Row>, m: Match) {
    m.begin < m.end < |rows| && Trims(Join(rows[m.begin + 1..m.end]), InteriorText(rows, m), c => c == '\n')
  }

  /** The split conserves the text. The rest is the lines outside every match, in order and
      whole, but for white space at its two ends; the supplement is the interiors of the
      matches, in order, each its lines but for newlines at its two ends, the empty ones
      dropped; only the two marker lines of each match are gone. */
  lemma SplitConserves(body: string)
    requires MatchesFrom(Rows(LinesOf(body)), 0) != []
    ensures var rows := Rows(LinesOf(body)); var ms := MatchesFrom(rows, 0); var split := SplitExtra(body);
      && Paired(rows, ms, 0)
      && Stay(rows, ms, RestRows(rows)) && Trims(Join(RestRows(rows)), split.rest, c => UnicodeSpace(c))
      && (forall k :: 0 <= k < |ms| ==> Inside(rows, ms[k]))
      && split.extra == Paragraphs(Inner(rows, ms))
  {
    hide LinesFrom, Rows, Join, MatchesFrom, TrimSpace, TrimNewlines, Trims, Covered, Place, PairedOne;
    var rows := Rows(LinesOf(body));
    var ms := MatchesFrom(rows, 0);
    MatchesPaired(rows, 0);
    ConservedRows(rows, ms);
    ExtraIsJoined(rows, ms);
    TrimSpaceTrims(Join(RestRows(rows)));
  }

  lemma ConservedRows(rows: seq<Row>, ms: seq<Match>)
    requires Paired(rows, ms, 0)
    ensures forall k :: 0 <= k < |ms| ==> ms[k].begin < ms[k].end < |rows| && Inside(rows, ms[k])
    ensures Stay(rows, ms, Filtered(rows, Uncovered(|rows|, ms), |rows|))
  {
    hide Inside, Stay, Covered;
    MatchBounds(rows, ms);
    forall k | 0 <= k < |ms| ensures Inside(rows, ms[k]) { InsideOne(rows, ms[k]); }
    AllStay(rows, ms);
  }

  lemma InsideOne(rows: seq<Row>, m: Match)
    requires m.begin < m.end < |rows|
    ensures Inside(rows, m)
  {
    hide Join, TrimNewlines, Trims;
    TrimNewlinesTrims(Join(rows[m.begin + 1..m.end]));
  }

  lemma AllStay(rows: seq<Row>, ms: seq<Match>)
    ensures Stay(rows, ms, Filtered(rows, Uncovered(|rows|, ms), |rows|))
  {
    hide Covered, Place, Filtered;
    var keep := Uncovered(|rows|, ms);
    forall i | 0 <= i < |rows| && keep[i]
      ensures Place(keep, i) < Place(keep, |rows|) && Filtered(rows, keep, |rows|)[Place(keep, i)] == rows[i]
    {
      FilteredAt(rows, keep, i, |rows|);
    }
  }

  // ------------------------------------------------------------------- as run

  method HasMarkerLine(s: string) returns (found: bool)
    ensures found == HasMark(s)
  {
    hide MarkAt;
    for p := 0 to |s| + 1
      invariant forall q :: 0 <= q < p ==> !(LineStart(s, q) && MarkAt(s, q) != Plain)
    {
      if LineStart(s, p) && MarkAt(s, p) != Plain { return true; }
    }
    found := false;
  }

  method SplitExtraBlocks(body: string) returns (rest: string, extra: string)
    ensures Split(rest, extra) == SplitExtra(body)
  {
    hide LinesFrom, Rows, Join, MatchesFrom, RestRows, InteriorText;
    var rows := Rows(LinesOf(body));
    var matches := MatchesFrom(rows, 0);
    if |matches| == 0 { return body, ""; }
    MatchesPaired(rows, 0);
    MatchBounds(rows, matches);
    extra := "";
    for k := 0 to |matches|
      invariant extra == ExtraTextOf(rows, matches[..k])
    {
      assert matches[..k + 1][..k] == matches[..k];
      var interior := InteriorText(rows, matches[k]);
      if interior != "" {
        extra := if extra == "" then interior else extra + "\n\n" + interior;
      }
    }
    assert matches[..|matches|] == matches;
    rest := TrimSpace(Join(RestRows(rows)));
  }

  method SplitExtraBlocksChecked(body: string) returns (r: Option<Split>)
    ensures r.Some? <==> Balanced(Rows(LinesOf(body)), 0, false) && !Exposed(body)
    ensures r.Some? ==> r.value == SplitExtra(body) && !HasMark(r.value.rest) && !HasMark(r.value.extra)
  {
    hide HasMark, SplitExtra, Balanced, Exposed, LinesFrom, Rows;
    var rest, extra := SplitExtraBlocks(body);
    RejectedIff(body);
    var inRest := HasMarkerLine(rest);
    var inExtra := HasMarkerLine(extra);
    r := if inRest || inExtra then None else Some(Split(rest, extra));
  }
}
