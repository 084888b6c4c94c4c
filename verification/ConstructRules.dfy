/** The rules that keep a line from carrying an arrow, each told on the lines alone: paired
    delimiters, footnote definitions, property drawers, lists, suppressed results, and how far
    one construct runs (nonParagraphLines and constructEnd, internal/anki/orgdoc/swift.go). */
module ConstructRules {
  import opened Basics
  import opened Lines
  import opened Blocks
  import opened Lists
  import opened Constructs

  // -------------------------------------------------------------- paired delimiters

  /** What lines open or close, by name. */
  function BeginNames(rows: seq<Row>): (r: seq<Option<string>>)
    ensures |r| == |rows| && forall i :: 0 <= i < |rows| ==> r[i] == BeginName(rows[i].text)
  {
    seq(|rows|, i requires 0 <= i < |rows| => BeginName(rows[i].text))
  }

  function EndNames(rows: seq<Row>): (r: seq<Option<string>>)
    ensures |r| == |rows| && forall i :: 0 <= i < |rows| ==> r[i] == EndName(rows[i].text)
  {
    seq(|rows|, i requires 0 <= i < |rows| => EndName(rows[i].text))
  }

  function LatexBegins(g: Grammar, rows: seq<Row>): (r: seq<Option<string>>)
    ensures |r| == |rows| && forall i :: 0 <= i < |rows| ==> r[i] == g.latexBegin(rows[i].text)
  {
    seq(|rows|, i requires 0 <= i < |rows| => g.latexBegin(rows[i].text))
  }

  function LatexEnds(g: Grammar, rows: seq<Row>): (r: seq<Option<string>>)
    ensures |r| == |rows| && forall i :: 0 <= i < |rows| ==> r[i] == g.latexEnd(rows[i].text)
  {
    seq(|rows|, i requires 0 <= i < |rows| => g.latexEnd(rows[i].text))
  }

  /** A span opens and closes with its own name, and no line between closes that name. */
  predicate Tight(opens: seq<Option<string>>, closes: seq<Option<string>>, b: Block) {
    && b.begin < b.end < |opens| == |closes|
    && opens[b.begin] == Some(b.name) && closes[b.end] == Some(b.name)
    && forall j :: b.begin < j < b.end ==> closes[j] != Some(b.name)
  }

  /** Spans in order and apart, and every opening outside them is one that nothing closes. */
  ghost predicate PairedUp(opens: seq<Option<string>>, closes: seq<Option<string>>, from: nat, spans: seq<Block>) {
    && |opens| == |closes|
    && (forall k :: 0 <= k < |spans| ==> from <= spans[k].begin && Tight(opens, closes, spans[k]))
    && (forall k, l :: 0 <= k < l < |spans| ==> spans[k].end < spans[l].begin)
    && forall i, j :: from <= i < j < |opens| && opens[i].Some? && !InSpan(spans, i) ==> closes[j] != opens[i]
  }

  lemma PairedSkip(opens: seq<Option<string>>, closes: seq<Option<string>>, i: nat, spans: seq<Block>)
    requires PairedUp(opens, closes, i + 1, spans) && i < |opens|
    requires opens[i].Some? ==> forall j :: i < j < |opens| ==> closes[j] != opens[i]
    ensures PairedUp(opens, closes, i, spans)
  {
  }

  lemma PairedCons(opens: seq<Option<string>>, closes: seq<Option<string>>, i: nat, b: Block, rest: seq<Block>)
    requires PairedUp(opens, closes, b.end + 1, rest) && b.begin == i && Tight(opens, closes, b)
    ensures PairedUp(opens, closes, i, [b] + rest)
  {
    hide Tight, InSpan;
    var spans := [b] + rest;
    TightBounds(opens, closes, b);
    assert spans[0] == b && forall k :: 1 <= k < |spans| ==> spans[k] == rest[k - 1];
    SpanCons(b, rest);
  }

  lemma TightBounds(opens: seq<Option<string>>, closes: seq<Option<string>>, b: Block)
    requires Tight(opens, closes, b)
    ensures b.begin < b.end < |opens|
  {
  }

  lemma PairedTail(opens: seq<Option<string>>, closes: seq<Option<string>>, from: nat, spans: seq<Block>)
    requires PairedUp(opens, closes, from, spans) && spans != []
    ensures PairedUp(opens, closes, spans[0].end + 1, spans[1..]) && Tight(opens, closes, spans[0])
    ensures forall i :: from <= i < spans[0].begin ==> !InSpan(spans, i)
  {
    hide Tight;
    var rest := spans[1..];
    SpanCons(spans[0], rest);
    assert spans == [spans[0]] + rest;
    TightBounds(opens, closes, spans[0]);
    forall k | 0 <= k < |rest| ensures spans[0].end < rest[k].begin && Tight(opens, closes, rest[k]) {
      assert rest[k] == spans[k + 1];
    }
  }

  lemma NotEarlier(opens: seq<Option<string>>, closes: seq<Option<string>>, from: nat, x: seq<Block>, y: seq<Block>)
    requires PairedUp(opens, closes, from, x) && PairedUp(opens, closes, from, y) && x != []
    ensures y != [] && y[0].begin <= x[0].begin
  {
    hide Tight, InSpan;
    PairedTail(opens, closes, from, x);
    assert x[0].begin < x[0].end < |opens| && closes[x[0].end] == opens[x[0].begin] && opens[x[0].begin].Some? by {
      TightNames(opens, closes, x[0]);
    }
    NoSpan(x[0].begin);
    if y != [] { PairedTail(opens, closes, from, y); }
  }

  lemma NoSpan(i: nat)
    ensures !InSpan([], i)
  {
  }

  lemma TightNames(opens: seq<Option<string>>, closes: seq<Option<string>>, b: Block)
    requires Tight(opens, closes, b)
    ensures b.begin < b.end < |opens| == |closes| && closes[b.end] == opens[b.begin] == Some(b.name)
    ensures forall j :: b.begin < j < b.end ==> closes[j] != Some(b.name)
  {
  }

  /** Only one choice of spans pairs the delimiters up. */
  lemma {:induction false} PairedOnce(opens: seq<Option<string>>, closes: seq<Option<string>>, from: nat,
                                      x: seq<Block>, y: seq<Block>)
    requires PairedUp(opens, closes, from, x) && PairedUp(opens, closes, from, y)
    ensures x == y
    decreases |x|
  {
    hide PairedUp, Tight;
    if x != [] { NotEarlier(opens, closes, from, x, y); }
    if y != [] { NotEarlier(opens, closes, from, y, x); }
    if x != [] && y != [] {
      PairedTail(opens, closes, from, x);
      PairedTail(opens, closes, from, y);
      TightNames(opens, closes, x[0]);
      TightNames(opens, closes, y[0]);
      assert x[0].end == y[0].end;
      PairedOnce(opens, closes, x[0].end + 1, x[1..], y[1..]);
      assert x == [x[0]] + x[1..] && y == [y[0]] + y[1..];
    }
  }

  lemma {:induction false} ClosingFirst(rows: seq<Row>, name: string, j: nat)
    requires j <= |rows|
    ensures forall k :: j <= k < Closing(rows, name, j) ==> EndName(rows[k].text) != Some(name)
    decreases |rows| - j
  {
    hide EndName;
    if j < |rows| && EndName(rows[j].text) != Some(name) { ClosingFirst(rows, name, j + 1); }
  }

  /** Pairing finds every block there is: the first line that closes an opening's name closes
      it, openings inside a block are its text, and any other opening is never closed. */
  lemma {:induction false} BlocksPairUp(rows: seq<Row>, i: nat)
    requires i <= |rows|
    ensures PairedUp(BeginNames(rows), EndNames(rows), i, PairsFrom(rows, i))
    decreases |rows| - i
  {
    hide BeginName, EndName, PairsFrom, PairedUp, Closing;
    var opens, closes := BeginNames(rows), EndNames(rows);
    if i == |rows| {
      PairsEnd(rows);
      NothingPaired(opens, closes, i);
    } else {
      PairsStep(rows, i);
      BlocksPairUp(rows, i + 1);
      if opens[i].None? {
        PairedSkip(opens, closes, i, PairsFrom(rows, i + 1));
      } else {
        var end := Closing(rows, opens[i].value, i + 1);
        ClosingFirst(rows, opens[i].value, i + 1);
        if end == |rows| {
          PairedSkip(opens, closes, i, PairsFrom(rows, i + 1));
        } else {
          BlocksPairUp(rows, end + 1);
          PairedCons(opens, closes, i, Block(i, end, opens[i].value), PairsFrom(rows, end + 1));
        }
      }
    }
  }

  lemma NothingPaired(opens: seq<Option<string>>, closes: seq<Option<string>>, from: nat)
    requires |opens| == |closes| <= from
    ensures PairedUp(opens, closes, from, [])
  {
  }

  lemma {:induction false} LatexClosingFirst(g: Grammar, rows: seq<Row>, name: string, j: nat)
    requires j <= |rows|
    ensures forall k :: j <= k < LatexClosing(g, rows, name, j) ==> g.latexEnd(rows[k].text) != Some(name)
    decreases |rows| - j
  {
    if j < |rows| && g.latexEnd(rows[j].text) != Some(name) { LatexClosingFirst(g, rows, name, j + 1); }
  }

  lemma EnvironmentsStep(g: Grammar, rows: seq<Row>, i: nat)
    requires i < |rows|
    ensures var open := g.latexBegin(rows[i].text);
      if open.None? then EnvironmentsFrom(g, rows, i) == EnvironmentsFrom(g, rows, i + 1)
      else
        var end := LatexClosing(g, rows, open.value, i + 1);
        EnvironmentsFrom(g, rows, i) ==
          if end == |rows| then EnvironmentsFrom(g, rows, i + 1)
          else [Block(i, end, open.value)] + EnvironmentsFrom(g, rows, end + 1)
  {
    hide LatexClosing;
  }

  /** The same for LaTeX environments. */
  lemma {:induction false} EnvironmentsPairUp(g: Grammar, rows: seq<Row>, i: nat)
    requires i <= |rows|
    ensures PairedUp(LatexBegins(g, rows), LatexEnds(g, rows), i, EnvironmentsFrom(g, rows, i))
    decreases |rows| - i
  {
    hide EnvironmentsFrom, PairedUp, LatexClosing;
    var opens, closes := LatexBegins(g, rows), LatexEnds(g, rows);
    if i == |rows| {
      NoEnvironments(g, rows);
      NothingPaired(opens, closes, i);
    } else {
      EnvironmentsStep(g, rows, i);
      EnvironmentsPairUp(g, rows, i + 1);
      if opens[i].None? {
        PairedSkip(opens, closes, i, EnvironmentsFrom(g, rows, i + 1));
      } else {
        var end := LatexClosing(g, rows, opens[i].value, i + 1);
        LatexClosingFirst(g, rows, opens[i].value, i + 1);
        if end == |rows| {
          PairedSkip(opens, closes, i, EnvironmentsFrom(g, rows, i + 1));
        } else {
          EnvironmentsPairUp(g, rows, end + 1);
          PairedCons(opens, closes, i, Block(i, end, opens[i].value), EnvironmentsFrom(g, rows, end + 1));
        }
      }
    }
  }

  lemma NoEnvironments(g: Grammar, rows: seq<Row>)
    ensures EnvironmentsFrom(g, rows, |rows|) == []
  {
  }

  /** The first opening outside the paired blocks is the one the body leaves open. */
  lemma {:induction false} OpenIsFirst(rows: seq<Row>, i: nat)
    requires i <= |rows|
    ensures var open := OpenFrom(rows, i);
      && (open < |rows| ==> BeginName(rows[open].text).Some? && !InSpan(PairsFrom(rows, i), open))
      && forall j :: i <= j < open && BeginName(rows[j].text).Some? ==> InSpan(PairsFrom(rows, i), j)
    decreases |rows| - i
  {
    hide BeginName, EndName, PairsFrom, OpenFrom, Closing;
    if i == |rows| {
      PairsEnd(rows);
    } else {
      PairsStep(rows, i);
      if BeginName(rows[i].text).None? {
        OpenIsFirst(rows, i + 1);
      } else {
        var name := BeginName(rows[i].text).value;
        var end := Closing(rows, name, i + 1);
        if end == |rows| {
          NotBefore(rows, i + 1, i);
        } else {
          OpenIsFirst(rows, end + 1);
          SpanCons(Block(i, end, name), PairsFrom(rows, end + 1));
          OpenBehind(rows, end + 1);
        }
      }
    }
  }

  lemma {:induction false} OpenBehind(rows: seq<Row>, i: nat)
    requires i <= |rows|
    ensures i <= OpenFrom(rows, i) <= |rows|
  {
  }

  lemma NotBefore(rows: seq<Row>, from: nat, i: nat)
    requires i < from <= |rows|
    ensures !InSpan(PairsFrom(rows, from), i)
  {
    hide BeginName, EndName, PairsFrom;
    PairsProper(rows, from);
  }

  lemma SpanCons(b: Block, rest: seq<Block>)
    ensures forall i: nat :: InSpan([b] + rest, i) <==> b.begin <= i <= b.end || InSpan(rest, i)
  {
    var spans := [b] + rest;
    forall i: nat ensures InSpan(spans, i) <==> b.begin <= i <= b.end || InSpan(rest, i) {
      assert spans[0] == b && forall k :: 1 <= k < |spans| ==> spans[k] == rest[k - 1];
      if InSpan(rest, i) {
        var k :| 0 <= k < |rest| && rest[k].begin <= i <= rest[k].end;
        assert spans[k + 1].begin <= i <= spans[k + 1].end;
      }
      if b.begin <= i <= b.end { assert spans[0].begin <= i <= spans[0].end; }
    }
  }

  // ------------------------------------------------------------- footnote definitions

  /** What the patterns exclude: a definition and a headline need a character that is no white
      space, and an end of a drawer is no opening of a property drawer. */
  ghost predicate Lexes(g: Grammar) {
    && (forall text :: g.footnote(text) || g.headline(text) ==> !Blank(text))
    && (forall text :: g.drawerEnd(text) ==> g.drawer(text) != Some("PROPERTIES"))
  }

  predicate Defines(g: Grammar, b: Body, i: nat)
    requires Shaped(b) && i < |b.rows|
  {
    !b.region[i] && g.footnote(b.rows[i].text)
  }

  predicate Gap(b: Body, i: nat)
    requires Shaped(b) && i < |b.rows|
  {
    !b.region[i] && Blank(b.rows[i].text)
  }

  /** Outside regions a definition that began before line j - 1 or there ends at a headline,
      at another definition, or at the second of two blank lines. */
  predicate EndsNote(g: Grammar, b: Body, i: nat, j: nat)
    requires Shaped(b) && i < j < |b.rows|
  {
    || (!b.region[j] && (g.footnote(b.rows[j].text) || g.headline(b.rows[j].text)))
    || (Gap(b, j) && i < j - 1 && Gap(b, j - 1))
  }

  /** Line k belongs to a definition: it or a line above defines, and no line from there on
      to k ends that definition. */
  predicate NoteLine(g: Grammar, b: Body, k: nat)
    requires Shaped(b) && k < |b.rows|
  {
    exists i :: 0 <= i <= k && Defines(g, b, i) && forall j :: i < j <= k ==> !EndsNote(g, b, i, j)
  }

  lemma {:induction false} NoteEnds(g: Grammar, b: Body, i: nat, j: nat, blanks: nat)
    requires Shaped(b) && Lexes(g) && i < j <= |b.rows| && blanks <= 1
    requires blanks == 1 <==> i < j - 1 && Gap(b, j - 1)
    ensures var end := FootnoteEnd(g, b, j, blanks);
      && (forall m :: j <= m < end ==> !EndsNote(g, b, i, m))
      && (end < |b.rows| ==> EndsNote(g, b, i, end))
    decreases |b.rows| - j
  {
    if j < |b.rows| {
      if b.region[j] { NoteEnds(g, b, i, j + 1, 0); }
      else if Blank(b.rows[j].text) {
        if blanks == 0 { NoteEnds(g, b, i, j + 1, 1); }
      } else if !g.footnote(b.rows[j].text) && !g.headline(b.rows[j].text) { NoteEnds(g, b, i, j + 1, 0); }
    }
  }

  /** The lines of definition lines from line i on. */
  predicate NoteLineFrom(g: Grammar, b: Body, i: nat, k: nat)
    requires Shaped(b) && k < |b.rows|
  {
    exists d :: i <= d <= k && Defines(g, b, d) && forall j :: d < j <= k ==> !EndsNote(g, b, d, j)
  }

  lemma {:induction false} NotesFrom(g: Grammar, b: Body, i: nat, k: nat)
    requires Shaped(b) && Lexes(g) && i <= |b.rows| && k < |b.rows|
    ensures InFootnote(g, b, i, k) <==> NoteLineFrom(g, b, i, k)
    decreases |b.rows| - i
  {
    hide Shaped, EndsNote, Lexes, FootnoteEnd;
    if i < |b.rows| {
      if !Defines(g, b, i) {
        NotesFrom(g, b, i + 1, k);
      } else {
        NoteEnds(g, b, i, i + 1, 0);
        var end := FootnoteEnd(g, b, i + 1, 0);
        NotesFrom(g, b, end, k);
        forall d | i < d < end && Defines(g, b, d) ensures false { DefinitionEnds(g, b, i, d); }
      }
    }
  }

  lemma DefinitionEnds(g: Grammar, b: Body, i: nat, d: nat)
    requires Shaped(b) && i < d < |b.rows| && Defines(g, b, d)
    ensures EndsNote(g, b, i, d)
  {
  }

  /** A line belongs to a footnote definition exactly as its rule says. */
  lemma NoteLines(g: Grammar, b: Body, k: nat)
    requires Shaped(b) && Lexes(g) && k < |b.rows|
    ensures InFootnote(g, b, 0, k) <==> NoteLine(g, b, k)
  {
    hide Shaped, EndsNote, Defines, InFootnote;
    NotesFrom(g, b, 0, k);
  }

  // ---------------------------------------------------------------- property drawers

  /** Line e closes a drawer whose lines from j on are properties. */
  predicate ClosesDrawer(g: Grammar, rows: seq<Row>, j: nat, e: nat) {
    && j <= e < |rows| && g.drawerEnd(rows[e].text)
    && forall m :: j <= m < e ==> g.property(rows[m].text) && !g.drawerEnd(rows[m].text)
  }

  /** Lines i to e are a property drawer: its opening, property lines only, its end. */
  predicate IsProperties(g: Grammar, rows: seq<Row>, i: nat, e: nat) {
    i < |rows| && g.drawer(rows[i].text) == Some("PROPERTIES") && ClosesDrawer(g, rows, i + 1, e)
  }

  ghost predicate PropertyLine(g: Grammar, rows: seq<Row>, from: nat, k: nat) {
    exists i, e :: from <= i <= k <= e && IsProperties(g, rows, i, e)
  }

  lemma {:induction false} PropertiesRun(g: Grammar, rows: seq<Row>, j: nat, e: nat)
    requires j <= |rows|
    ensures PropertiesEnd(g, rows, j) == Some(e) <==> ClosesDrawer(g, rows, j, e)
    decreases |rows| - j
  {
    if j < |rows| && j < e { PropertiesRun(g, rows, j + 1, e); }
  }

  /** Every property drawer from line i on is found, and nothing else. */
  lemma {:induction false} PropertiesFrom(g: Grammar, rows: seq<Row>, i: nat, k: nat)
    requires i <= |rows| && Lexes(g)
    ensures InProperties(g, rows, i, k) <==> PropertyLine(g, rows, i, k)
    decreases |rows| - i
  {
    hide PropertiesEnd;
    if i < |rows| {
      forall e: nat ensures PropertiesEnd(g, rows, i + 1) == Some(e) <==> ClosesDrawer(g, rows, i + 1, e) {
        PropertiesRun(g, rows, i + 1, e);
      }
      var opens := g.drawer(rows[i].text) == Some("PROPERTIES");
      var end := if opens then PropertiesEnd(g, rows, i + 1) else None;
      if end.None? {
        PropertiesFrom(g, rows, i + 1, k);
        NoDrawer(g, rows, i);
      } else {
        PropertiesFrom(g, rows, end.value + 1, k);
        assert IsProperties(g, rows, i, end.value);
        if PropertyLine(g, rows, i, k) {
          var i', e' :| i <= i' <= k <= e' && IsProperties(g, rows, i', e');
          if i' <= end.value { WithinDrawer(g, rows, i, end.value, i', e'); }
        }
      }
    }
  }

  lemma NoDrawer(g: Grammar, rows: seq<Row>, i: nat)
    requires i < |rows| && (g.drawer(rows[i].text) == Some("PROPERTIES") ==> PropertiesEnd(g, rows, i + 1).None?)
    ensures forall e :: !IsProperties(g, rows, i, e)
  {
    forall e | IsProperties(g, rows, i, e) ensures false { PropertiesRun(g, rows, i + 1, e); }
  }

  lemma WithinDrawer(g: Grammar, rows: seq<Row>, i: nat, e: nat, i': nat, e': nat)
    requires Lexes(g) && IsProperties(g, rows, i, e) && IsProperties(g, rows, i', e') && i <= i' <= e
    ensures e' == e
  {
  }

  // --------------------------------------------------------------------------- lists

  /** A bullet line outside block interiors that no list begun above it reaches. */
  predicate BeginsList(g: Grammar, b: Body, i: nat)
    requires Shaped(b)
  {
    && i < |b.rows| && ReadBullet(b.rows[i].text).Some? && !Inside(b.blocks, i)
    && forall h: nat :: h < i && BeginsList(g, b, h) ==> WalkList(g, b.rows, h).end <= i
  }

  predicate ListLine(g: Grammar, b: Body, k: nat)
    requires Shaped(b)
  {
    exists i :: 0 <= i <= k && BeginsList(g, b, i) && k < WalkList(g, b.rows, i).end
  }

  predicate ListLineFrom(g: Grammar, b: Body, from: nat, k: nat)
    requires Shaped(b)
  {
    exists i :: from <= i <= k && BeginsList(g, b, i) && k < WalkList(g, b.rows, i).end
  }

  lemma {:induction false} ListsFrom(g: Grammar, b: Body, i: nat, k: nat)
    requires Shaped(b) && i <= |b.rows|
    requires forall h: nat :: h < i && BeginsList(g, b, h) ==> WalkList(g, b.rows, h).end <= i
    ensures InList(g, b, i, k) <==> ListLineFrom(g, b, i, k)
    decreases |b.rows| - i
  {
    hide Shaped, ReadBullet, WalkList, Inside;
    if i < |b.rows| {
      if Inside(b.blocks, i) || ReadBullet(b.rows[i].text).None? {
        assert !BeginsList(g, b, i);
        ListsFrom(g, b, i + 1, k);
      } else {
        assert BeginsList(g, b, i);
        var end := ListEnd(g, b.rows, i) + 1;
        assert end == WalkList(g, b.rows, i).end;
        forall h | i < h < end ensures !BeginsList(g, b, h) {
        }
        ListsFrom(g, b, end, k);
      }
    }
  }

  lemma ListLines(g: Grammar, b: Body, k: nat)
    requires Shaped(b)
    ensures InList(g, b, 0, k) <==> ListLine(g, b, k)
  {
    hide Shaped, WalkList, BeginsList, InList;
    ListsFrom(g, b, 0, k);
  }

  // ------------------------------------------------------------- how far one construct runs

  /** A line that opens an ordinary drawer. */
  ghost predicate OpensDrawer(g: Grammar, text: string) {
    exists name :: g.drawer(text) == Some(name) && name != "PROPERTIES" && !g.drawerEnd(text)
  }

  /** The drawer opened at line j runs to the first end outside regions, or to the last line. */
  predicate DrawerRuns(g: Grammar, b: Body, j: nat, end: nat)
    requires Shaped(b)
  {
    && j <= end < |b.rows|
    && (forall k :: j < k < end ==> b.region[k] || !g.drawerEnd(b.rows[k].text))
    && (end + 1 == |b.rows| || (j < end && !b.region[end] && g.drawerEnd(b.rows[end].text)))
  }

  lemma {:induction false} DrawerClosesFirst(g: Grammar, rows: seq<Row>, region: seq<bool>, k: nat)
    requires 0 < k <= |rows| == |region|
    ensures var end := DrawerClose(g, rows, region, k);
      && (forall m :: k <= m < end ==> region[m] || !g.drawerEnd(rows[m].text))
      && (end + 1 == |rows| || (k <= end && !region[end] && g.drawerEnd(rows[end].text)))
    decreases |rows| - k
  {
    if k < |rows| && (region[k] || !g.drawerEnd(rows[k].text)) { DrawerClosesFirst(g, rows, region, k + 1); }
  }

  predicate GoesOn(g: Grammar, text: string) {
    !Blank(text) && g.plain(text)
  }

  /** The paragraph begun at line j runs on through the plain text below it and no further. */
  predicate ParagraphRuns(g: Grammar, rows: seq<Row>, j: nat, end: nat) {
    && j <= end < |rows|
    && (forall k :: j < k <= end ==> GoesOn(g, rows[k].text))
    && (end + 1 < |rows| ==> !GoesOn(g, rows[end + 1].text))
  }

  lemma {:induction false} ParagraphGoesOn(g: Grammar, rows: seq<Row>, k: nat)
    requires 0 < k <= |rows|
    ensures ParagraphRuns(g, rows, k - 1, ParagraphEnd(g, rows, k))
    decreases |rows| - k
  {
    hide Blank;
    if k < |rows| && GoesOn(g, rows[k].text) { ParagraphGoesOn(g, rows, k + 1); }
  }

  /** A line that is a keyword of its own: no delimiter, no result line. */
  predicate IsKeyword(g: Grammar, text: string, key: string) {
    g.keyword(text) == Some(key) && BeginName(text).None? && EndName(text).None? && !g.result(text)
  }

  predicate IsCaption(g: Grammar, text: string) {
    IsKeyword(g, text, "CAPTION") || IsKeyword(g, text, "ATTR_HTML")
  }

  /** Behind the run of caption and attribute lines from line j on comes line k. */
  predicate CaptionsRun(g: Grammar, rows: seq<Row>, j: nat, k: nat) {
    && j < k <= |rows| && (forall m :: j < m < k ==> IsCaption(g, rows[m].text))
    && (k < |rows| ==> !IsCaption(g, rows[k].text))
  }

  lemma {:induction false} CaptionsRunOn(g: Grammar, rows: seq<Row>, k: nat)
    requires 0 < k <= |rows|
    ensures CaptionsRun(g, rows, k - 1, CaptionsEnd(g, rows, k))
    decreases |rows| - k
  {
    hide BeginName, EndName;
    if k < |rows| && IsCaption(g, rows[k].text) { CaptionsRunOn(g, rows, k + 1); }
  }

  /** A construct is what its first line makes it, and ends where that construct does. */
  ghost predicate RunsTo(g: Grammar, b: Body, j: nat, end: nat)
    requires Shaped(b) && j < |b.rows|
  {
    var text := b.rows[j].text;
    if OpensDrawer(g, text) then DrawerRuns(g, b, j, end)
    else if exists m :: 0 <= m < |b.blocks| && b.blocks[m].begin == j then
      exists m :: 0 <= m < |b.blocks| && b.blocks[m].begin == j && BlockRuns(g, b, b.blocks[m], end)
    else if exists m :: 0 <= m < |b.environments| && b.environments[m].begin == j then
      exists m :: 0 <= m < |b.environments| && b.environments[m].begin == j && end == b.environments[m].end
    else if ReadBullet(text).Some? then end + 1 == WalkList(g, b.rows, j).end
    else if exists key :: IsKeyword(g, text, key) then
      forall key :: IsKeyword(g, text, key) ==> KeywordRuns(g, b, j, key, end)
    else ParagraphRuns(g, b.rows, j, end)
  }

  /** A block ends with its closing line; a source block takes its result with it. */
  ghost predicate BlockRuns(g: Grammar, b: Body, block: Block, end: nat)
    requires Shaped(b)
  {
    if block.name != "SRC" || forall r :: !AttachedAt(g, b.rows, block, r) then end == block.end
    else exists r: nat :: AttachedAt(g, b.rows, block, r) && end == ConstructEnd(g, b, r + 1)
  }

  /** A name takes the construct on the next line, captions and attributes the one behind them
      unless that is another keyword; any other keyword stands alone. */
  ghost predicate KeywordRuns(g: Grammar, b: Body, j: nat, key: string, end: nat)
    requires Shaped(b)
  {
    if key == "NAME" && j + 1 < |b.rows| then end == ConstructEnd(g, b, j + 1)
    else if key == "CAPTION" || key == "ATTR_HTML" then
      exists k: nat :: CaptionsRun(g, b.rows, j, k) &&
        if k == |b.rows| || exists other :: IsKeyword(g, b.rows[k].text, other) then end == j
        else end == ConstructEnd(g, b, k)
    else end == j
  }

  lemma BlockFound(blocks: seq<Block>, j: nat)
    ensures BlockAt(blocks, j).None? <==> forall m :: 0 <= m < |blocks| ==> blocks[m].begin != j
    ensures BlockAt(blocks, j).Some? ==>
              exists m :: 0 <= m < |blocks| && blocks[m].begin == j && blocks[m] == BlockAt(blocks, j).value
  {
    if blocks != [] && blocks[0].begin != j {
      BlockFound(blocks[1..], j);
      assert forall m :: 1 <= m < |blocks| ==> blocks[m] == blocks[1..][m - 1];
      if BlockAt(blocks, j).Some? {
        var m :| 0 <= m < |blocks[1..]| && blocks[1..][m].begin == j && blocks[1..][m] == BlockAt(blocks[1..], j).value;
        assert blocks[m + 1].begin == j;
      }
    }
  }

  /** Every construct ends where its kind says, in bounds, whatever stands below it. */
  lemma ConstructRuns(g: Grammar, b: Body, j: nat)
    requires Shaped(b) && j < |b.rows|
    ensures RunsTo(g, b, j, ConstructEnd(g, b, j))
  {
    hide Shaped, BeginName, EndName, ReadBullet, WalkList, AttachedResult, DrawerClose, ParagraphEnd, KeywordEnd,
      ParagraphRuns, DrawerRuns, KeywordRuns, AttachedAt;
    var text := b.rows[j].text;
    BlockFound(b.blocks, j);
    BlockFound(b.environments, j);
    ShapedRegion(b);
    DrawerRun(g, b, j);
    ParagraphGoesOn(g, b.rows, j + 1);
    if IsDrawer(g, text) {
      assert OpensDrawer(g, text);
    } else if BlockAt(b.blocks, j).Some? {
      BlockRun(g, b, BlockAt(b.blocks, j).value);
    } else if BlockAt(b.environments, j).None? && ReadBullet(text).None? && KeywordKey(g, text).Some? {
      assert IsKeyword(g, text, KeywordKey(g, text).value);
      KeywordRun(g, b, j, KeywordKey(g, text).value);
    }
  }

  lemma BlockRun(g: Grammar, b: Body, block: Block)
    requires Shaped(b) && block in b.blocks
    ensures var result := AttachedResult(g, b.rows, block);
      BlockRuns(g, b, block, if block.name == "SRC" && result.Some? then ConstructEnd(g, b, result.value + 1)
                else block.end)
  {
    hide Shaped, ConstructEnd;
  }

  lemma ShapedRegion(b: Body)
    requires Shaped(b)
    ensures |b.region| == |b.rows|
  {
  }

  lemma DrawerRun(g: Grammar, b: Body, j: nat)
    requires Shaped(b) && j < |b.rows|
    ensures DrawerRuns(g, b, j, DrawerClose(g, b.rows, b.region, j + 1))
  {
    DrawerClosesFirst(g, b.rows, b.region, j + 1);
  }

  lemma KeywordRun(g: Grammar, b: Body, j: nat, key: string)
    requires Shaped(b) && j < |b.rows|
    ensures KeywordRuns(g, b, j, key, KeywordEnd(g, b, j, key))
  {
    hide Shaped, BeginName, EndName, ConstructEnd, CaptionsEnd, CaptionsRun;
    CaptionsRunOn(g, b.rows, j + 1);
    var k := CaptionsEnd(g, b.rows, j + 1);
    if k < |b.rows| && KeywordKey(g, b.rows[k].text).Some? {
      assert IsKeyword(g, b.rows[k].text, KeywordKey(g, b.rows[k].text).value);
    }
  }

  /** Line k belongs to the result of a source block whose exports leave it out: from the
      result line to the end of the one construct behind it. */
  ghost predicate ResultLine(g: Grammar, b: Body, k: nat)
    requires Shaped(b)
  {
    exists m: nat, r: nat :: m < |b.blocks| && SuppressedAt(g, b, b.blocks[m], r) && r <= k <= ConstructEnd(g, b, r + 1)
  }

  ghost predicate SuppressedAt(g: Grammar, b: Body, block: Block, r: nat) {
    && block.name == "SRC" && block.begin < block.end < |b.rows| && g.suppresses(b.rows[block.begin].text)
    && AttachedAt(g, b.rows, block, r)
  }

  lemma ResultLines(g: Grammar, b: Body, k: nat)
    requires Shaped(b)
    ensures InSomeResult(g, b, |b.blocks|, k) <==> ResultLine(g, b, k)
  {
    hide ConstructEnd;
    assert forall m :: 0 <= m < |b.blocks| ==> b.blocks[m].begin < b.blocks[m].end < |b.rows|;
    if ResultLine(g, b, k) {
      var m: nat, r: nat :| m < |b.blocks| && SuppressedAt(g, b, b.blocks[m], r) && r <= k <= ConstructEnd(g, b, r + 1);
      OneResult(g, b.rows, b.blocks[m], r);
      assert InResult(g, b, b.blocks[m], k);
    }
    if InSomeResult(g, b, |b.blocks|, k) {
      var m :| 0 <= m < |b.blocks| && InResult(g, b, b.blocks[m], k);
      assert SuppressedAt(g, b, b.blocks[m], AttachedResult(g, b.rows, b.blocks[m]).value);
    }
  }

  /** At most one line is the attached result of a block. */
  lemma OneResult(g: Grammar, rows: seq<Row>, block: Block, r: nat)
    requires AttachedAt(g, rows, block, r)
    ensures AttachedResult(g, rows, block) == Some(r)
  {
    var j := AttachedResult(g, rows, block);
    assert j.Some?;
    hide Blank;
  }

  /** A line is excluded exactly when it lies in a paired block or environment, in a footnote
      definition, in a suppressed result, in a property drawer, or in a list. */
  lemma ExcludedExactly(g: Grammar, rows: seq<Row>, k: nat)
    requires Lexes(g) && k < |rows|
    ensures var b := BodyOf(g, rows);
      && PairedUp(BeginNames(rows), EndNames(rows), 0, b.blocks)
      && PairedUp(LatexBegins(g, rows), LatexEnds(g, rows), 0, b.environments)
      && (b.region[k] <==> InSpan(b.blocks, k) || InSpan(b.environments, k))
      && (Excluded(g, b, k) <==> b.region[k] || NoteLine(g, b, k) || ResultLine(g, b, k)
                                 || PropertyLine(g, rows, 0, k) || ListLine(g, b, k))
  {
    hide Shaped, InFootnote, InProperties, InList, InSomeResult, NoteLine, ResultLine, PropertyLine, ListLine,
      PairsFrom,
      EnvironmentsFrom, PairedUp;
    var b := BodyOf(g, rows);
    BlocksPairUp(rows, 0);
    EnvironmentsPairUp(g, rows, 0);
    NoteLines(g, b, k);
    ResultLines(g, b, k);
    PropertiesFrom(g, rows, 0, k);
    ListLines(g, b, k);
  }
}
