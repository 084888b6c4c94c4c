/** List bullets and the list-continuation rule. */
module Lists {
  import opened Basics
  import opened Lines
  import opened Blocks

  // ------------------------------------------------------------------ bullets

  datatype Bullet = Bullet(indent: nat, ordered: bool, minIndent: nat, contentStart: nat)

  predicate Letter(c: char) {
    'a' <= c <= 'z' || 'A' <= c <= 'Z'
  }

  function DigitEnd(text: string, at: nat): (end: nat)
    requires at <= |text|
    ensures at <= end <= |text|
  {
    at + DigitRun(text[at..])
  }

  /** Where the bullet sign itself ends, if one starts at this place. */
  function SignEnd(text: string, at: nat): (end: Option<nat>)
    requires at <= |text|
    ensures end.Some? ==> at < end.value <= |text|
  {
    if at == |text| then None
    else if text[at] in "+*-" then Some(at + 1)
    else
      var to := if IsDigit(text[at]) then DigitEnd(text, at) else if Letter(text[at]) then at + 1 else at;
      if at < to < |text| && text[to] in ".)" then Some(to + 1) else None
  }

  /** A sign after white space, followed by white space or nothing. */
  function ReadBullet(text: string): (b: Option<Bullet>)
    ensures b.Some? ==> b.value.indent < b.value.minIndent <= b.value.contentStart <= |text|
    ensures b.Some? ==> !Blank(text)
  {
    var at := SpaceEnd(text, 0);
    var sign := SignEnd(text, at);
    if sign.None? || (sign.value < |text| && !AsciiSpace(text[sign.value])) then None
    else
      assert !UnicodeSpace(text[at]);
      Some(Bullet(at, text[at] !in "+*-", sign.value, SpaceEnd(text, sign.value)))
  }

  // -------------------------------------------------------------- constructs

  /** What the Org parser's own patterns make of a line; this model leaves them open. */
  datatype Grammar = Grammar(
    latexBegin: string -> Option<string>,
    latexEnd: string -> Option<string>,
    footnote: string -> bool,
    headline: string -> bool,
    drawer: string -> Option<string>,
    drawerEnd: string -> bool,
    property: string -> bool,
    result: string -> bool,
    keyword: string -> Option<string>,
    plain: string -> bool,
    suppresses: string -> bool)

  function LatexClosing(g: Grammar, rows: seq<Row>, name: string, j: nat): (end: nat)
    requires j <= |rows|
    ensures j <= end <= |rows|
    ensures end < |rows| ==> g.latexEnd(rows[end].text) == Some(name)
    decreases |rows| - j
  {
    if j == |rows| || g.latexEnd(rows[j].text) == Some(name) then j else LatexClosing(g, rows, name, j + 1)
  }

  /** The paired LaTeX environments opened at line i or later. */
  function EnvironmentsFrom(g: Grammar, rows: seq<Row>, i: nat): seq<Block>
    requires i <= |rows|
    decreases |rows| - i
  {
    if i == |rows| then []
    else if g.latexBegin(rows[i].text).None? then EnvironmentsFrom(g, rows, i + 1)
    else
      var name := g.latexBegin(rows[i].text).value;
      var end := LatexClosing(g, rows, name, i + 1);
      if end == |rows| then EnvironmentsFrom(g, rows, i + 1)
      else [Block(i, end, name)] + EnvironmentsFrom(g, rows, end + 1)
  }

  /** Spans with both ends among the lines. */
  ghost predicate InRange(blocks: seq<Block>, from: nat, n: nat) {
    forall k :: 0 <= k < |blocks| ==> from <= blocks[k].begin < blocks[k].end < n
  }

  lemma {:induction false} EnvironmentsInRange(g: Grammar, rows: seq<Row>, i: nat)
    requires i <= |rows|
    ensures InRange(EnvironmentsFrom(g, rows, i), i, |rows|)
    decreases |rows| - i
  {
    if i < |rows| {
      EnvironmentsInRange(g, rows, i + 1);
      if g.latexBegin(rows[i].text).Some? {
        var name := g.latexBegin(rows[i].text).value;
        var end := LatexClosing(g, rows, name, i + 1);
        if end < |rows| {
          EnvironmentsInRange(g, rows, end + 1);
          var rest := EnvironmentsFrom(g, rows, end + 1);
          assert forall k :: 0 <= k < |rest| ==> i < rest[k].begin;
        }
      }
    }
  }

  lemma PairsInRange(rows: seq<Row>)
    ensures InRange(PairsFrom(rows, 0), 0, |rows|)
  {
    hide BeginName, EndName, PairsFrom;
    PairsProper(rows, 0);
    var blocks := PairsFrom(rows, 0);
    forall k | 0 <= k < |blocks| ensures 0 <= blocks[k].begin < blocks[k].end < |rows| {
      DelimitedBounds(rows, blocks[k]);
    }
  }

  method LatexEnvironments(g: Grammar, rows: seq<Row>) returns (spans: seq<Block>)
    ensures spans == EnvironmentsFrom(g, rows, 0)
  {
    spans := [];
    var i := 0;
    while i < |rows|
      invariant 0 <= i <= |rows| && EnvironmentsFrom(g, rows, 0) == spans + EnvironmentsFrom(g, rows, i)
    {
      var name := g.latexBegin(rows[i].text);
      if name.None? {
        i := i + 1;
        continue;
      }
      var end := i + 1;
      while end < |rows| && g.latexEnd(rows[end].text) != Some(name.value)
        invariant i < end <= |rows|
        invariant LatexClosing(g, rows, name.value, i + 1) == LatexClosing(g, rows, name.value, end)
      {
        end := end + 1;
      }
      if end == |rows| {
        i := i + 1;
      } else {
        spans := spans + [Block(i, end, name.value)];
        i := end + 1;
      }
    }
  }

  /** Where the last span opened at a line closes. */
  function EndOf(spans: seq<Block>, i: nat): (end: Option<nat>)
    ensures end.Some? ==> exists k :: 0 <= k < |spans| && spans[k].begin == i && spans[k].end == end.value
    ensures end.None? ==> forall k :: 0 <= k < |spans| ==> spans[k].begin != i
  {
    if spans == [] then None
    else
      var n := |spans| - 1;
      if spans[n].begin == i then Some(spans[n].end)
      else
        assert forall k :: 0 <= k < n ==> spans[..n][k] == spans[k];
        EndOf(spans[..n], i)
  }

  /** All paired constructs: blocks, then environments. */
  function Nested(g: Grammar, rows: seq<Row>): seq<Block> {
    PairsFrom(rows, 0) + EnvironmentsFrom(g, rows, 0)
  }

  lemma NestedInRange(g: Grammar, rows: seq<Row>)
    ensures InRange(Nested(g, rows), 0, |rows|)
  {
    hide PairsFrom, EnvironmentsFrom;
    PairsInRange(rows);
    EnvironmentsInRange(g, rows, 0);
  }

  // --------------------------------------------------- the continuation rule

  datatype Role = Continuation | Item | NestedBullet | BlankLine

  datatype Visit = Visit(line: nat, role: Role, bullet: Option<Bullet>)

  /** What the rule attaches to a list, and the first line past it. */
  datatype Walk = Walk(visits: seq<Visit>, end: nat)

  function Continuations(from: nat, to: nat): (v: seq<Visit>)
    requires from <= to
    ensures |v| == to - from && forall k :: 0 <= k < |v| ==> v[k] == Visit(from + k, Continuation, None)
  {
    seq(to - from, k requires 0 <= k < to - from => Visit(from + k, Continuation, None))
  }

  function Prepend(v: seq<Visit>, w: Walk): Walk {
    Walk(v + w.visits, w.end)
  }

  predicate Sibling(b: Option<Bullet>, base: Bullet) {
    b.Some? && b.value.indent == base.indent && b.value.ordered == base.ordered
  }

  datatype Stride = Stop | Go(visits: seq<Visit>, next: nat, cur: Bullet, blanks: nat)

  /** What the rule makes of line i, inside the item of bullet cur, after `blanks` blank lines. */
  function StrideAt(rows: seq<Row>, nested: seq<Block>, base: Bullet, i: nat, cur: Bullet, blanks: nat): (s: Stride)
    requires i < |rows|
    ensures s.Go? ==> i < s.next <= |rows| && |s.visits| == s.next - i && forall k :: 0 <= k < |s.visits| ==>
              s.visits[k].line == i + k
    ensures s.Go? ==> forall k :: 0 <= k < |s.visits| && s.visits[k].role == Item ==>
              s.visits[k].bullet.Some? && s.visits[k].bullet == ReadBullet(rows[i + k].text)
    ensures s.Go? ==> if Blank(rows[i].text) then blanks == 0 && s.blanks == 1 && |s.visits| == 1
                      else s.blanks == 0 && forall k :: 0 <= k < |s.visits| ==> s.visits[k].role != BlankLine
  {
    var text := rows[i].text;
    var b := ReadBullet(text);
    if Blank(text) then
      if blanks >= 1 then Stop else Go([Visit(i, BlankLine, None)], i + 1, cur, blanks + 1)
    else if Sibling(b, base) then Go([Visit(i, Item, b)], i + 1, b.value, 0)
    else if IndentOf(text) < cur.minIndent then Stop
    else
      var end := EndOf(nested, i);
      if end.Some? && i < end.value < |rows| then Go(Continuations(i, end.value + 1), end.value + 1, cur, 0)
      else if b.Some? then Go([Visit(i, NestedBullet, b)], i + 1, cur, 0)
      else Go([Visit(i, Continuation, None)], i + 1, cur, 0)
  }

  /** The walk from line i on. */
  function WalkFrom(rows: seq<Row>, nested: seq<Block>, base: Bullet, i: nat, cur: Bullet, blanks: nat): (w: Walk)
    requires i <= |rows|
    ensures i <= w.end <= |rows|
    ensures |w.visits| == w.end - i
    ensures forall k :: 0 <= k < |w.visits| ==> w.visits[k].line == i + k
    ensures forall k :: 0 <= k < |w.visits| && w.visits[k].role == Item ==>
              w.visits[k].bullet.Some? && w.visits[k].bullet == ReadBullet(rows[i + k].text)
    decreases |rows| - i
  {
    if i == |rows| then Walk([], i)
    else
      match StrideAt(rows, nested, base, i, cur, blanks)
      case Stop => Walk([], i)
      case Go(visits, next, cur', blanks') => Prepend(visits, WalkFrom(rows, nested, base, next, cur', blanks'))
  }

  /** The list whose first bullet is at a line. */
  function WalkList(g: Grammar, rows: seq<Row>, first: nat): Walk
    requires first < |rows|
  {
    var b := ReadBullet(rows[first].text);
    if b.None? then Walk([], first) else WalkFrom(rows, Nested(g, rows), b.value, first, b.value, 0)
  }

  /** The walk passes its first line and attaches exactly the lines up to its end, once each
      and in order; the first one is an item. */
  lemma WalkProgress(g: Grammar, rows: seq<Row>, first: nat)
    requires first < |rows| && ReadBullet(rows[first].text).Some?
    ensures var w := WalkList(g, rows, first);
      && first < w.end <= |rows|
      && |w.visits| == w.end - first
      && (forall k :: 0 <= k < |w.visits| ==> w.visits[k].line == first + k)
      && w.visits[0] == Visit(first, Item, ReadBullet(rows[first].text))
  {
    hide ReadBullet, Nested, Blank;
    var b := ReadBullet(rows[first].text).value;
    BulletNotBlank(rows[first].text);
  }

  lemma BulletNotBlank(text: string)
    requires ReadBullet(text).Some?
    ensures !Blank(text)
  {
  }

  /** Two blank lines in a row end the list; a line is never skipped. */
  lemma {:induction false} BlanksSingle(rows: seq<Row>, nested: seq<Block>, base: Bullet, i: nat, cur: Bullet,
                                        blanks: nat, k: nat)
    requires i <= |rows|
    requires var w := WalkFrom(rows, nested, base, i, cur, blanks); 0 <= k < |w.visits| && w.visits[k].role == BlankLine
    ensures k == 0 ==> blanks == 0
    ensures var w := WalkFrom(rows, nested, base, i, cur, blanks); k > 0 ==> w.visits[k - 1].role != BlankLine
    decreases |rows| - i
  {
    hide StrideAt;
    var s := StrideAt(rows, nested, base, i, cur, blanks);
    if k >= |s.visits| { BlanksSingle(rows, nested, base, s.next, s.cur, s.blanks, k - |s.visits|); }
  }

  /** The walk as the program runs it, reporting what it would visit. */
  method WalkLines(g: Grammar, rows: seq<Row>, first: nat, base: Bullet) returns (visits: seq<Visit>, end: nat)
    requires first < |rows| && ReadBullet(rows[first].text) == Some(base)
    ensures Walk(visits, end) == WalkList(g, rows, first)
  {
    hide ReadBullet, Blank, IndentOf, PairsFrom, EnvironmentsFrom, WalkFrom, StrideAt;
    var blocks, open := PairedBlocks(rows);
    var environments := LatexEnvironments(g, rows);
    var nested := blocks + environments;
    NestedInRange(g, rows);
    var cur, blankRun := base, 0;
    visits := [];
    var i := first;
    ghost var whole := WalkFrom(rows, nested, base, first, base, 0);
    while i < |rows|
      invariant first <= i <= |rows|
      invariant blankRun <= 1
      invariant whole == Prepend(visits, WalkFrom(rows, nested, base, i, cur, blankRun))
    {
      WalkUnfolds(rows, nested, base, i, cur, blankRun);
      var stride := OneStride(rows, nested, base, i, cur, blankRun);
      if stride.Stop? { return visits, i; }
      visits, i, cur, blankRun := visits + stride.visits, stride.next, stride.cur, stride.blanks;
    }
    end := i;
    WalkEnds(rows, nested, base, cur, blankRun);
  }

  lemma WalkUnfolds(rows: seq<Row>, nested: seq<Block>, base: Bullet, i: nat, cur: Bullet, blanks: nat)
    requires i < |rows|
    ensures WalkFrom(rows, nested, base, i, cur, blanks) ==
            match StrideAt(rows, nested, base, i, cur, blanks)
            case Stop => Walk([], i)
            case Go(visits, next, cur', blanks') => Prepend(visits, WalkFrom(rows, nested, base, next, cur', blanks'))
  {
    hide StrideAt;
  }

  lemma WalkEnds(rows: seq<Row>, nested: seq<Block>, base: Bullet, cur: Bullet, blanks: nat)
    ensures WalkFrom(rows, nested, base, |rows|, cur, blanks) == Walk([], |rows|)
  {
  }

  /** One turn of the walking loop. */
  method OneStride(rows: seq<Row>, nested: seq<Block>, base: Bullet, i: nat, cur: Bullet, blanks: nat)
    returns (s: Stride)
    requires i < |rows| && InRange(nested, 0, |rows|)
    ensures s == StrideAt(rows, nested, base, i, cur, blanks)
  {
    hide ReadBullet, Blank, IndentOf;
    var text := rows[i].text;
    if Blank(text) {
      var blankRun := blanks + 1;
      return if blankRun >= 2 then Stop else Go([Visit(i, BlankLine, None)], i + 1, cur, blankRun);
    }
    var b := ReadBullet(text);
    if b.Some? && b.value.indent == base.indent && b.value.ordered == base.ordered {
      return Go([Visit(i, Item, b)], i + 1, b.value, 0);
    }
    if IndentOf(text) < cur.minIndent { return Stop; }
    var close := EndOf(nested, i);
    if close.Some? { return Go(Continuations(i, close.value + 1), close.value + 1, cur, 0); }
    s := Go([if b.Some? then Visit(i, NestedBullet, b) else Visit(i, Continuation, None)], i + 1, cur, 0);
  }
}
