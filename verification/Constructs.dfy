/** How far a construct of the Org parser extends, and which lines of a body are something
    other than plain paragraph text. */
module Constructs {
  import opened Basics
  import opened Lines
  import opened Blocks
  import opened Collapse
  import opened Lists

  /** Only blank lines lie between the block and the result line, and some line follows it. */
  ghost predicate AttachedAt(g: Grammar, rows: seq<Row>, block: Block, j: int) {
    && block.end < j && j + 1 < |rows| && g.result(rows[j].text) && !Blank(rows[j].text)
    && forall k :: block.end < k < j ==> Blank(rows[k].text)
  }

  /** The result line attached to a source block, if there is one. */
  function AttachedResult(g: Grammar, rows: seq<Row>, block: Block): (j: Option<nat>)
    ensures j.Some? ==> AttachedAt(g, rows, block, j.value)
    ensures j.None? ==> forall k :: !AttachedAt(g, rows, block, k)
  {
    if block.end + 1 > |rows| then None
    else
      var j := BlanksEnd(rows, block.end + 1);
      if j + 1 >= |rows| || !g.result(rows[j].text) then None else Some(j)
  }

  function BlanksEnd(rows: seq<Row>, j: nat): (k: nat)
    requires j <= |rows|
    ensures j <= k <= |rows|
    ensures forall i :: j <= i < k ==> Blank(rows[i].text)
    ensures k < |rows| ==> !Blank(rows[k].text)
    decreases |rows| - j
  {
    if j < |rows| && Blank(rows[j].text) then BlanksEnd(rows, j + 1) else j
  }

  predicate IsDrawer(g: Grammar, text: string) {
    g.drawer(text).Some? && !g.drawerEnd(text) && g.drawer(text).value != "PROPERTIES"
  }

  /** The drawer's end from line k on, or the last line. */
  function DrawerClose(g: Grammar, rows: seq<Row>, region: seq<bool>, k: nat): (end: nat)
    requires 0 < k <= |rows| == |region|
    ensures k - 1 <= end < |rows|
    decreases |rows| - k
  {
    if k == |rows| then |rows| - 1
    else if !region[k] && g.drawerEnd(rows[k].text) then k
    else DrawerClose(g, rows, region, k + 1)
  }

  function ParagraphEnd(g: Grammar, rows: seq<Row>, k: nat): (end: nat)
    requires 0 < k <= |rows|
    ensures k - 1 <= end < |rows|
    decreases |rows| - k
  {
    if k < |rows| && !Blank(rows[k].text) && g.plain(rows[k].text) then ParagraphEnd(g, rows, k + 1) else k - 1
  }

  function KeywordKey(g: Grammar, text: string): Option<string> {
    if BeginName(text).Some? || EndName(text).Some? || g.result(text) then None else g.keyword(text)
  }

  /** The first line from k on that is no caption or attribute line. */
  function CaptionsEnd(g: Grammar, rows: seq<Row>, k: nat): (end: nat)
    requires k <= |rows|
    ensures k <= end <= |rows|
    decreases |rows| - k
  {
    if k < |rows| && KeywordKey(g, rows[k].text) in [Some("CAPTION"), Some("ATTR_HTML")] then
      CaptionsEnd(g, rows, k + 1) else k
  }

  function BlockAt(blocks: seq<Block>, j: nat): (b: Option<Block>)
    ensures b.Some? ==> b.value in blocks && b.value.begin == j
  {
    if blocks == [] then None
    else if blocks[0].begin == j then Some(blocks[0])
    else BlockAt(blocks[1..], j)
  }

  /** The lines that lie in some construct's extent, computed once for the whole body. */
  datatype Body = Body(rows: seq<Row>, blocks: seq<Block>, environments: seq<Block>, region: seq<bool>)

  ghost predicate Shaped(b: Body) {
    |b.region| == |b.rows| && InRange(b.blocks, 0, |b.rows|) && InRange(b.environments, 0, |b.rows|)
  }

  /** The last line of the one construct that starts at line j: never before it, never past
      the last line. The recursion ends on every body because it only moves forward. */
  function ConstructEnd(g: Grammar, b: Body, j: nat): (end: nat)
    requires Shaped(b) && j < |b.rows|
    ensures j <= end < |b.rows|
    decreases |b.rows| - j, 1
  {
    var text := b.rows[j].text;
    var block := BlockAt(b.blocks, j);
    var environment := BlockAt(b.environments, j);
    if IsDrawer(g, text) then DrawerClose(g, b.rows, b.region, j + 1)
    else if block.Some? then
      assert block.value in b.blocks;
      var result := AttachedResult(g, b.rows, block.value);
      if block.value.name == "SRC" && result.Some? then ConstructEnd(g, b, result.value + 1) else block.value.end
    else if environment.Some? then
      assert environment.value in b.environments;
      environment.value.end
    else if ReadBullet(text).Some? then
      ListEnd(g, b.rows, j)
    else if KeywordKey(g, text).Some? then KeywordEnd(g, b, j, KeywordKey(g, text).value)
    else ParagraphEnd(g, b.rows, j + 1)
  }

  /** The last line of a list. */
  function ListEnd(g: Grammar, rows: seq<Row>, j: nat): (end: nat)
    requires j < |rows| && ReadBullet(rows[j].text).Some?
    ensures j <= end < |rows| && end + 1 == WalkList(g, rows, j).end
  {
    WalkProgress(g, rows, j);
    WalkList(g, rows, j).end - 1
  }

  function KeywordEnd(g: Grammar, b: Body, j: nat, key: string): (end: nat)
    requires Shaped(b) && j < |b.rows|
    ensures j <= end < |b.rows|
    decreases |b.rows| - j, 0
  {
    if key == "NAME" then
      if j + 1 < |b.rows| then ConstructEnd(g, b, j + 1) else j
    else if key == "CAPTION" || key == "ATTR_HTML" then
      var k := CaptionsEnd(g, b.rows, j + 1);
      if k == |b.rows| || KeywordKey(g, b.rows[k].text).Some? then j else ConstructEnd(g, b, k)
    else j
  }

  // ----------------------------------------------------------- excluded lines

  predicate InSpan(spans: seq<Block>, i: nat) {
    exists k :: 0 <= k < |spans| && spans[k].begin <= i <= spans[k].end
  }

  /** The end of a footnote definition's continuation from line j on. */
  function FootnoteEnd(g: Grammar, b: Body, j: nat, blanks: nat): (end: nat)
    requires Shaped(b) && j <= |b.rows|
    ensures j <= end <= |b.rows|
    decreases |b.rows| - j
  {
    if j == |b.rows| then j
    else if b.region[j] then FootnoteEnd(g, b, j + 1, 0)
    else if Blank(b.rows[j].text) then (if blanks + 1 == 2 then j else FootnoteEnd(g, b, j + 1, blanks + 1))
    else if g.footnote(b.rows[j].text) || g.headline(b.rows[j].text) then j
    else FootnoteEnd(g, b, j + 1, 0)
  }

  predicate InFootnote(g: Grammar, b: Body, i: nat, k: nat)
    requires Shaped(b) && i <= |b.rows|
    decreases |b.rows| - i
  {
    if i == |b.rows| then false
    else if b.region[i] || !g.footnote(b.rows[i].text) then InFootnote(g, b, i + 1, k)
    else
      var end := FootnoteEnd(g, b, i + 1, 0);
      i <= k < end || InFootnote(g, b, end, k)
  }

  /** The extent of a suppressed result attached to one of the source blocks. */
  predicate InResult(g: Grammar, b: Body, block: Block, k: nat)
    requires Shaped(b)
  {
    && block.end < |b.rows| && block.name == "SRC" && block.begin < |b.rows| && g.suppresses(b.rows[block.begin].text)
    && var result := AttachedResult(g, b.rows, block);
       result.Some? && result.value <= k <= ConstructEnd(g, b, result.value + 1)
  }

  predicate InSomeResult(g: Grammar, b: Body, n: nat, k: nat)
    requires Shaped(b) && n <= |b.blocks|
  {
    exists m :: 0 <= m < n && InResult(g, b, b.blocks[m], k)
  }

  /** The closing line of a property drawer from line j on, if every line before it is a property. */
  function PropertiesEnd(g: Grammar, rows: seq<Row>, j: nat): (end: Option<nat>)
    requires j <= |rows|
    ensures end.Some? ==> j <= end.value < |rows|
    decreases |rows| - j
  {
    if j == |rows| then None
    else if g.drawerEnd(rows[j].text) then Some(j)
    else if !g.property(rows[j].text) then None
    else PropertiesEnd(g, rows, j + 1)
  }

  predicate InProperties(g: Grammar, rows: seq<Row>, i: nat, k: nat)
    requires i <= |rows|
    decreases |rows| - i
  {
    if i == |rows| then false
    else
      var end := if g.drawer(rows[i].text) == Some("PROPERTIES") then PropertiesEnd(g, rows, i + 1) else None;
      if end.Some? then i <= k <= end.value || InProperties(g, rows, end.value + 1, k)
      else InProperties(g, rows, i + 1, k)
  }

  predicate InList(g: Grammar, b: Body, i: nat, k: nat)
    requires Shaped(b) && i <= |b.rows|
    decreases |b.rows| - i
  {
    if i == |b.rows| then false
    else if Inside(b.blocks, i) || ReadBullet(b.rows[i].text).None? then InList(g, b, i + 1, k)
    else
      var end := ListEnd(g, b.rows, i) + 1;
      i <= k < end || InList(g, b, end, k)
  }

  /** A line some rule excludes. */
  predicate Excluded(g: Grammar, b: Body, k: nat)
    requires Shaped(b)
  {
    || InSpan(b.blocks, k) || InSpan(b.environments, k)
    || InFootnote(g, b, 0, k) || InSomeResult(g, b, |b.blocks|, k)
    || InProperties(g, b.rows, 0, k) || InList(g, b, 0, k)
  }

  function SpanRegion(n: nat, blocks: seq<Block>, environments: seq<Block>): (region: seq<bool>)
    ensures |region| == n && forall i :: 0 <= i < n ==> region[i] == (InSpan(blocks, i) || InSpan(environments, i))
  {
    seq(n, i requires 0 <= i < n => InSpan(blocks, i) || InSpan(environments, i))
  }

  function BodyOf(g: Grammar, rows: seq<Row>): (b: Body)
    ensures Shaped(b) && b.rows == rows
  {
    var blocks, environments := PairsFrom(rows, 0), EnvironmentsFrom(g, rows, 0);
    PairsInRange(rows);
    EnvironmentsInRange(g, rows, 0);
    Body(rows, blocks, environments, SpanRegion(|rows|, blocks, environments))
  }

  method MarkLines(marks: array<bool>, from: nat, to: nat)
    requires from <= to + 1 <= marks.Length
    modifies marks
    ensures forall i :: 0 <= i < marks.Length ==> marks[i] == (old(marks[i]) || from <= i <= to)
  {
    for i := from to to + 1
      invariant forall k :: 0 <= k < marks.Length ==> marks[k] == (old(marks[k]) || from <= k < i)
    {
      marks[i] := true;
    }
  }

  method MarkSpans(spans: seq<Block>, marks: array<bool>)
    requires InRange(spans, 0, marks.Length)
    modifies marks
    ensures forall i :: 0 <= i < marks.Length ==> marks[i] == (old(marks[i]) || InSpan(spans, i))
  {
    for k := 0 to |spans|
      invariant forall i :: 0 <= i < marks.Length ==> marks[i] == (old(marks[i]) || InSpan(spans[..k], i))
    {
      SpanNext(spans, k);
      MarkLines(marks, spans[k].begin, spans[k].end);
    }
    assert spans[..|spans|] == spans;
  }

  lemma SpanNext(spans: seq<Block>, k: nat)
    requires k < |spans|
    ensures forall i: nat :: InSpan(spans[..k + 1], i) <==> InSpan(spans[..k], i) || spans[k].begin <= i <= spans[k].end
  {
    forall i: nat
      ensures InSpan(spans[..k + 1], i) <==> InSpan(spans[..k], i) || spans[k].begin <= i <= spans[k].end
    {
      assert spans[..k + 1][k] == spans[k];
      assert forall l :: 0 <= l < k ==> spans[..k + 1][l] == spans[..k][l];
      if InSpan(spans[..k], i) {
        var l :| 0 <= l < k && spans[..k][l].begin <= i <= spans[..k][l].end;
        assert spans[..k + 1][l].begin <= i <= spans[..k + 1][l].end;
      }
    }
  }

  method ExcludeFootnoteDefinitions(g: Grammar, b: Body, marks: array<bool>)
    requires Shaped(b) && marks.Length == |b.rows|
    modifies marks
    ensures forall k :: 0 <= k < marks.Length ==> marks[k] == (old(marks[k]) || InFootnote(g, b, 0, k))
  {
    hide Blank;
    var i := 0;
    while i < |b.rows|
      invariant 0 <= i <= |b.rows|
      invariant forall k :: 0 <= k < marks.Length ==>
                (marks[k] || InFootnote(g, b, i, k)) == (old(marks[k]) || InFootnote(g, b, 0, k))
    {
      if b.region[i] || !g.footnote(b.rows[i].text) {
        i := i + 1;
        continue;
      }
      var end := FootnoteExtent(g, b, i + 1);
      MarkLines(marks, i, end - 1);
      i := end;
    }
  }

  method FootnoteExtent(g: Grammar, b: Body, from: nat) returns (j: nat)
    requires Shaped(b) && from <= |b.rows|
    ensures j == FootnoteEnd(g, b, from, 0)
  {
    hide Blank;
    j := from;
    var blankRun := 0;
    while j < |b.rows|
      invariant from <= j <= |b.rows| && blankRun <= 1
      invariant FootnoteEnd(g, b, from, 0) == FootnoteEnd(g, b, j, blankRun)
    {
      if b.region[j] {
        blankRun := 0;
      } else if Blank(b.rows[j].text) {
        blankRun := blankRun + 1;
        if blankRun == 2 { return; }
      } else if g.footnote(b.rows[j].text) || g.headline(b.rows[j].text) {
        return;
      } else {
        blankRun := 0;
      }
      j := j + 1;
    }
  }

  method ExcludeAttachedResult(g: Grammar, b: Body, block: Block, marks: array<bool>)
    requires Shaped(b) && marks.Length == |b.rows| && block.begin < block.end < |b.rows|
    modifies marks
    ensures forall k :: 0 <= k < marks.Length ==> marks[k] == (old(marks[k]) || InResult(g, b, block, k))
  {
    hide ConstructEnd, AttachedResult, Shaped;
    if block.name == "SRC" && g.suppresses(b.rows[block.begin].text) {
      var result := AttachedResult(g, b.rows, block);
      if result.Some? {
        MarkLines(marks, result.value, ConstructEnd(g, b, result.value + 1));
      }
    }
  }

  method ExcludePropertyDrawers(g: Grammar, rows: seq<Row>, marks: array<bool>)
    requires marks.Length == |rows|
    modifies marks
    ensures forall k :: 0 <= k < marks.Length ==> marks[k] == (old(marks[k]) || InProperties(g, rows, 0, k))
  {
    var i := 0;
    while i < |rows|
      invariant 0 <= i <= |rows|
      invariant forall k :: 0 <= k < marks.Length ==>
                (marks[k] || InProperties(g, rows, i, k)) == (old(marks[k]) || InProperties(g, rows, 0, k))
    {
      if g.drawer(rows[i].text) == Some("PROPERTIES") {
        var end := PropertiesEnd(g, rows, i + 1);
        if end.Some? {
          MarkLines(marks, i, end.value);
          i := end.value;
        }
      }
      i := i + 1;
    }
  }

  method ExcludeListContent(g: Grammar, b: Body, interior: seq<bool>, marks: array<bool>)
    requires Shaped(b) && marks.Length == |b.rows| == |interior|
    requires forall i :: 0 <= i < |interior| ==> interior[i] == Inside(b.blocks, i)
    modifies marks
    ensures forall k :: 0 <= k < marks.Length ==> marks[k] == (old(marks[k]) || InList(g, b, 0, k))
  {
    hide ReadBullet, Inside, Shaped, WalkList;
    var i := 0;
    while i < |b.rows|
      invariant 0 <= i <= |b.rows|
      invariant forall k :: 0 <= k < marks.Length ==>
                (marks[k] || InList(g, b, i, k)) == (old(marks[k]) || InList(g, b, 0, k))
    {
      var bullet := ReadBullet(b.rows[i].text);
      if interior[i] || bullet.None? {
        i := i + 1;
        continue;
      }
      var visits, end := WalkLines(g, b.rows, i, bullet.value);
      assert end == ListEnd(g, b.rows, i) + 1;
      MarkLines(marks, i, end - 1);
      i := end;
    }
  }

  /** Every line that some rule excludes, and no other. */
  method NonParagraphLines(g: Grammar, rows: seq<Row>) returns (excluded: seq<bool>)
    ensures |excluded| == |rows| && forall k :: 0 <= k < |rows| ==> excluded[k] == Excluded(g, BodyOf(g, rows), k)
  {
    hide PairsFrom, EnvironmentsFrom, InList, InProperties, InFootnote, InResult, Inside, InSpan;
    var n := |rows|;
    var marks := new bool[n](i => false);
    var interior, open := BlockRegions(rows);
    var blocks, undefinedFrom := PairedBlocks(rows);
    var environments := LatexEnvironments(g, rows);
    ghost var b := BodyOf(g, rows);
    PairsInRange(rows);
    EnvironmentsInRange(g, rows, 0);
    MarkSpans(blocks, marks);
    MarkSpans(environments, marks);
    var region := marks[..];
    assert region == SpanRegion(n, blocks, environments);
    var body := Body(rows, blocks, environments, region);
    assert body == b;
    ExcludeFootnoteDefinitions(g, body, marks);
    for m := 0 to |blocks|
      invariant forall k :: 0 <= k < n ==>
                  marks[k] == (InSpan(blocks, k) || InSpan(environments, k)
                               || InFootnote(g, b, 0, k) || InSomeResult(g, b, m, k))
    {
      ResultNext(g, b, m);
      ExcludeAttachedResult(g, body, blocks[m], marks);
    }
    ExcludePropertyDrawers(g, rows, marks);
    ExcludeListContent(g, body, interior, marks);
    excluded := marks[..];
  }

  lemma ResultNext(g: Grammar, b: Body, m: nat)
    requires Shaped(b) && m < |b.blocks|
    ensures forall k: nat :: InSomeResult(g, b, m + 1, k) <==>
              InSomeResult(g, b, m, k) || InResult(g, b, b.blocks[m], k)
  {
    hide InResult;
  }
}
