/** The swift card from an entry's title and remaining body: exclude, scan, compose. */
module SwiftEntry {
  import opened Basics
  import L = Lines
  import opened Cloze
  import opened Constructs
  import opened Lists
  import opened Swift
  import opened SwiftCard
  import opened SwiftLaws
  import opened SwiftLines

  /** The lines no arrow is read on. */
  function ExcludedLines(g: Grammar, body: string): (excluded: seq<bool>)
    ensures |excluded| == |L.LinesOf(body)|
  {
    var rows := L.Rows(L.LinesOf(body));
    seq(|rows|, k requires 0 <= k < |rows| => Excluded(g, BodyOf(g, rows), k))
  }

  function EntryOf(g: Grammar, title: string, body: string): (e: Entry)
    ensures e.Fitted()
  {
    Entry(title, body, ExcludedLines(g, body), g.plain)
  }

  /** None stands for the missing-arrow diagnostic. Line by line the composed body is what the
      arrow lines ask for. Rendered below the title it reads back as the author's markers and
      one marker per wrapped side, exactly when no marker the author wrote reaches into a
      wrapped side and no number overflows. */
  method ComposeSwift(g: Grammar, title: string, body: string) returns (r: Option<string>)
    ensures r.None? <==> forall i: nat :: !EntryOf(g, title, body).Carries(i)
    ensures r.Some? ==> LineByLine(EntryOf(g, title, body), r.value)
    ensures r.Some? ==>
              var c := CardOf(title, body, ExcludedLines(g, body), g.plain);
              Combine(title, r.value) == c.Composed() && (ReadsBack(c) <==> SidesFree(c))
  {
    hide ReadsBack, SidesFree, Compose, BaseNumber, InOrder, ArrowsFrom, CardOf, ArrowsOf, Excluded, L.LinesFrom,
      LineByLine;
    NoCarrier(EntryOf(g, title, body));
    var lines := L.SplitLines(body);
    var rows := L.Rows(lines);
    var excluded := NonParagraphLines(g, rows);
    assert excluded == ExcludedLines(g, body);
    var arrows := ScanArrowLines(title, body, excluded, g.plain);
    if arrows == [] { return None; }
    ArrowsNeedText(title, body, excluded, g.plain);
    EntryInOrder(title, body, excluded, g.plain);
    var composed := ComposeArrowLines(title, body, arrows);
    SwiftReadBack(title, body, excluded, g.plain);
    ComposedLineByLine(EntryOf(g, title, body));
    r := Some(composed);
  }

  lemma ArrowsNeedText(title: string, body: string, excluded: seq<bool>, plain: string -> bool)
    requires |excluded| == |L.LinesOf(body)| && ArrowsOf(title, body, excluded, plain) != []
    ensures body != ""
  {
  }

  lemma EntryInOrder(title: string, body: string, excluded: seq<bool>, plain: string -> bool)
    requires |excluded| == |L.LinesOf(body)|
    ensures InOrder(body, ArrowsOf(title, body, excluded, plain), 0, 0)
  {
    hide InOrder, ArrowsFrom, L.LinesFrom;
    L.LinesTile(body, 0);
    var lines := L.LinesOf(body);
    if lines != [] { L.TileAt(body, lines, 0, 0); }
    ArrowsInOrder(body, lines, excluded, Spans(Combine(title, body)), |title| + 2, plain, 0, 0);
  }
}
