/** Lines of a text with their extents (splitLines, internal/anki/orgdoc/multiline.go),
    and the white space its callers distinguish. */
module Lines {

  /** `\s` of the source's patterns: ASCII white space. */
  predicate AsciiSpace(c: char) {
    c == ' ' || c == '\t' || c == '\n' || c == '\r' || c as int == 0x0C
  }

  /** unicode.IsSpace, for a char that stands for one character. */
  predicate UnicodeSpace(c: char) {
    var u := c as int;
    || AsciiSpace(c) || u == 0x0B || u == 0x85 || u == 0xA0 || u == 0x1680
    || 0x2000 <= u <= 0x200A || u == 0x2028 || u == 0x2029 || u == 0x202F || u == 0x205F || u == 0x3000
  }

  predicate Blank(text: string) {
    forall i :: 0 <= i < |text| ==> UnicodeSpace(text[i])
  }

  function TrimStart(s: string): (r: string)
    ensures r != "" ==> !UnicodeSpace(r[0])
  {
    if s != "" && UnicodeSpace(s[0]) then TrimStart(s[1..]) else s
  }

  function TrimEnd(s: string): (r: string)
    ensures r != "" ==> !UnicodeSpace(r[|r| - 1])
  {
    if s != "" && UnicodeSpace(s[|s| - 1]) then TrimEnd(s[..|s| - 1]) else s
  }

  /** strings.TrimSpace */
  function TrimSpace(s: string): string {
    TrimEnd(TrimStart(s))
  }

  function IndentOf(text: string): (n: nat)
    ensures n <= |text|
  {
    if text != "" && (text[0] == ' ' || text[0] == '\t') then 1 + IndentOf(text[1..]) else 0
  }

  /** One line with its extent in the text it was cut from; end excludes the newline. */
  datatype Line = Line(start: nat, end: nat, text: string, hasNewline: bool, indent: nat, blank: bool)

  /** The first newline of s at or after position at, |s| without one. */
  function NewlineAt(s: string, at: nat): (end: nat)
    requires at <= |s|
    ensures at <= end <= |s|
    ensures end < |s| ==> s[end] == '\n'
    ensures forall i :: at <= i < end ==> s[i] != '\n'
    decreases |s| - at
  {
    if at == |s| || s[at] == '\n' then at else NewlineAt(s, at + 1)
  }

  function LineAt(s: string, at: nat): Line
    requires at <= |s|
  {
    var end := NewlineAt(s, at);
    var text := s[at..end];
    Line(at, end, text, end < |s|, IndentOf(text), Blank(text))
  }

  function NextStart(ln: Line): nat {
    if ln.hasNewline then ln.end + 1 else ln.end
  }

  function LinesFrom(s: string, at: nat): seq<Line>
    requires at <= |s|
    decreases |s| - at
  {
    if at == |s| then []
    else [LineAt(s, at)] + LinesFrom(s, NextStart(LineAt(s, at)))
  }

  function LinesOf(s: string): seq<Line> {
    LinesFrom(s, 0)
  }

  method SplitLines(body: string) returns (lines: seq<Line>)
    ensures lines == LinesOf(body)
  {
    lines := [];
    var at := 0;
    while at < |body|
      invariant 0 <= at <= |body|
      invariant LinesOf(body) == lines + LinesFrom(body, at)
    {
      var ln := LineAt(body, at);
      lines := lines + [ln];
      at := NextStart(ln);
    }
  }

  /** A line is exactly the stretch of s it names. */
  predicate LineOf(s: string, ln: Line) {
    && ln.start <= ln.end <= |s|
    && ln.text == s[ln.start..ln.end]
    && '\n' !in ln.text
    && (ln.hasNewline <==> ln.end < |s|)
    && (ln.hasNewline ==> s[ln.end] == '\n')
    && ln.indent == IndentOf(ln.text)
    && ln.blank == Blank(ln.text)
    && (ln.start == 0 || s[ln.start - 1] == '\n')
  }

  /** The lines tile the text from position at on: each starts where the one before
      it ended, only the last may lack its newline, and together they end the text. */
  predicate Tile(s: string, lines: seq<Line>, at: nat) {
    if lines == [] then at == |s|
    else
      && LineOf(s, lines[0])
      && lines[0].start == at < |s|
      && (lines[0].hasNewline || |lines| == 1)
      && Tile(s, lines[1..], NextStart(lines[0]))
  }

  lemma {:induction false} LinesTile(s: string, at: nat)
    requires at <= |s|
    requires at == 0 || s[at - 1] == '\n' || at == |s|
    ensures Tile(s, LinesFrom(s, at), at)
    decreases |s| - at
  {
    hide NewlineAt, IndentOf, Blank;
    if at < |s| {
      var ln := LineAt(s, at);
      LinesTile(s, NextStart(ln));
      assert LinesFrom(s, at)[1..] == LinesFrom(s, NextStart(ln));
    }
  }

  /** What tiling says of one line: it lies in the text after every earlier line. */
  lemma {:induction false} TileAt(s: string, lines: seq<Line>, at: nat, i: nat)
    requires Tile(s, lines, at) && i < |lines|
    ensures LineOf(s, lines[i]) && at <= lines[i].start
    ensures i + 1 < |lines| ==> lines[i].hasNewline && lines[i + 1].start == lines[i].end + 1
    ensures i == 0 ==> lines[i].start == at
    ensures forall j :: 0 <= j < i ==> lines[j].end < lines[i].start
  {
    hide IndentOf, Blank;
    if i > 0 {
      TileAt(s, lines[1..], NextStart(lines[0]), i - 1);
      forall j | 0 <= j < i ensures lines[j].end < lines[i].start {
        if j > 0 { assert lines[j] == lines[1..][j - 1]; }
      }
    }
  }

  // ------------------------------------------------- lines and their texts again

  /** A line without its place: its text and whether a newline follows. */
  datatype Row = Row(text: string, newline: bool)

  function RowOf(ln: Line): Row {
    Row(ln.text, ln.hasNewline)
  }

  function Rows(lines: seq<Line>): (rows: seq<Row>)
    ensures |rows| == |lines|
    ensures forall i :: 0 <= i < |lines| ==> rows[i] == RowOf(lines[i])
  {
    if lines == [] then [] else [RowOf(lines[0])] + Rows(lines[1..])
  }

  function Written(row: Row): string {
    if row.newline then row.text + "\n" else row.text
  }

  /** The text the rows make up. */
  function Join(rows: seq<Row>): string {
    if rows == [] then "" else Written(rows[0]) + Join(rows[1..])
  }

  /** Rows that splitting could have produced: only the last may lack its newline,
      and then it is not empty. */
  ghost predicate SplitRows(rows: seq<Row>) {
    && (forall i :: 0 <= i < |rows| ==> '\n' !in rows[i].text)
    && (forall i :: 0 <= i < |rows| - 1 ==> rows[i].newline)
    && (rows != [] && !rows[|rows| - 1].newline ==> rows[|rows| - 1].text != "")
  }

  lemma JoinOne(s: string, at: nat)
    requires at < |s|
    ensures var ln := LineAt(s, at);
            var next := NextStart(ln);
            && at < next <= |s|
            && s[at..] == Written(RowOf(ln)) + s[next..]
            && '\n' !in ln.text
            && (!ln.hasNewline ==> next == |s| && ln.text != "")
  {
    hide NewlineAt, IndentOf, Blank;
  }

  lemma ConsSplitRows(row: Row, rest: seq<Row>)
    requires SplitRows(rest) && '\n' !in row.text
    requires !row.newline ==> rest == [] && row.text != ""
    ensures SplitRows([row] + rest)
  {
    var rows := [row] + rest;
    assert forall i :: 1 <= i < |rows| ==> rows[i] == rest[i - 1];
  }

  lemma {:induction false} JoinLines(s: string, at: nat)
    requires at <= |s|
    ensures Join(Rows(LinesFrom(s, at))) == s[at..]
    ensures SplitRows(Rows(LinesFrom(s, at)))
    decreases |s| - at
  {
    hide LineAt, SplitRows;
    if at < |s| {
      JoinOne(s, at);
      var ln := LineAt(s, at);
      var next := NextStart(ln);
      JoinLines(s, next);
      var rest := Rows(LinesFrom(s, next));
      var rows := Rows(LinesFrom(s, at));
      assert rows == [RowOf(ln)] + rest;
      assert rows[0] == RowOf(ln) && rows[1..] == rest;
      assert !ln.hasNewline ==> rest == [];
      ConsSplitRows(RowOf(ln), rest);
    } else {
      EmptySplitRows();
    }
  }

  lemma EmptySplitRows()
    ensures SplitRows([])
  {
  }

  lemma {:induction false} NewlineFound(s: string, at: nat, end: nat)
    requires at <= end <= |s|
    requires forall i :: at <= i < end ==> s[i] != '\n'
    requires end < |s| ==> s[end] == '\n'
    ensures NewlineAt(s, at) == end
    decreases end - at
  {
    if at < end { NewlineFound(s, at + 1, end); }
  }

  lemma FirstLine(before: string, row: Row, rest: string)
    requires '\n' !in row.text && Written(row) != ""
    requires !row.newline ==> rest == ""
    ensures var s := before + Written(row) + rest;
            var ln := LineAt(s, |before|);
            RowOf(ln) == row && NextStart(ln) == |before + Written(row)| && |before| < |s|
  {
    hide IndentOf, Blank;
    var s := before + Written(row) + rest;
    var at, end := |before|, |before| + |row.text|;
    assert s[at..end] == row.text;
    forall i | at <= i < end ensures s[i] != '\n' { assert s[i] == row.text[i - at]; }
    NewlineFound(s, at, end);
  }

  /** Splitting the text the rows make up gives the rows back. */
  lemma {:induction false} SplitJoin(before: string, rows: seq<Row>)
    requires SplitRows(rows)
    ensures Rows(LinesFrom(before + Join(rows), |before|)) == rows
    decreases |rows|
  {
    hide LineAt;
    var s := before + Join(rows);
    if rows != [] {
      var row, rest := rows[0], rows[1..];
      var before' := before + Written(row);
      assert s == before' + Join(rest);
      FirstLine(before, row, Join(rest));
      SplitJoin(before', rest);
      var ln := LineAt(s, |before|);
      assert LinesFrom(s, |before|) == [ln] + LinesFrom(s, NextStart(ln));
    }
  }
}
