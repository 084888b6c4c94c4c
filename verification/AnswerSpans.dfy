/** Which text each answer item spans: where its answer begins behind the bullet, and how far
    its lines run (scanAnswerList, internal/anki/orgdoc/multiline.go). */
module AnswerSpans {
  import opened Basics
  import opened Lines
  import opened Answers
  import opened ListRules
  import B = Blocks
  import G = Lists

  // ------------------------------------------------------------- how far an item runs

  /** The last of the continuation lines directly behind visit j, among the first n visits. */
  function RunTo(visits: seq<G.Visit>, j: nat, n: nat): (r: nat)
    requires j < n <= |visits|
    ensures j <= r < n
    decreases n - j
  {
    if j + 1 < n && visits[j + 1].role == G.Continuation then RunTo(visits, j + 1, n) else j
  }

  /** Continuation lines, as many as there are. */
  lemma {:induction false} RunIsMaximal(visits: seq<G.Visit>, j: nat, n: nat)
    requires j < n <= |visits|
    ensures forall m :: j < m <= RunTo(visits, j, n) ==> visits[m].role == G.Continuation
    ensures RunTo(visits, j, n) + 1 < n ==> visits[RunTo(visits, j, n) + 1].role != G.Continuation
    decreases n - j
  {
    if j + 1 < n && visits[j + 1].role == G.Continuation { RunIsMaximal(visits, j + 1, n); }
  }

  /** The item visits among the first n, in order. */
  function ItemVisits(visits: seq<G.Visit>, n: nat): (at: seq<nat>)
    requires n <= |visits|
    ensures forall k :: 0 <= k < |at| ==> at[k] < n
    ensures forall k, l :: 0 <= k < l < |at| ==> at[k] < at[l]
  {
    if n == 0 then []
    else ItemVisits(visits, n - 1) + if visits[n - 1].role == G.Item then [n - 1] else []
  }

  lemma {:induction false} ItemVisitsAre(visits: seq<G.Visit>, n: nat)
    requires n <= |visits|
    ensures forall j: nat :: j in ItemVisits(visits, n) <==> j < n && visits[j].role == G.Item
  {
    if n > 0 { ItemVisitsAre(visits, n - 1); }
  }

  /** The visits are of these lines, and an item's line reads as a bullet line. */
  predicate Readable(lines: seq<Line>, visits: seq<G.Visit>) {
    forall k :: 0 <= k < |visits| ==>
      visits[k].line < |lines| && (visits[k].role == G.Item ==> G.ReadBullet(lines[visits[k].line].text).Some?)
  }

  /** The item of visit j: it begins where its answer does, and ends with the last of the
      continuation lines directly behind it, or on its own line. */
  ghost predicate SpansVisit(lines: seq<Line>, visits: seq<G.Visit>, kind: Kind, n: nat, j: nat, a: AnswerItem)
    requires j < n <= |visits| && Measured(lines) && Readable(lines, visits)
  {
    && StartsAnswer(lines[visits[j].line], kind, a.start)
    && a.end == lines[visits[RunTo(visits, j, n)].line].end
  }

  lemma {:induction false} RunGrows(visits: seq<G.Visit>, j: nat, n: nat)
    requires j < n < |visits|
    ensures RunTo(visits, j, n + 1) ==
            if RunTo(visits, j, n) == n - 1 && visits[n].role == G.Continuation then n else RunTo(visits, j, n)
    decreases n - j
  {
    if j + 1 < n && visits[j + 1].role == G.Continuation { RunGrows(visits, j + 1, n); }
  }

  /** The spans gathered are those of the item visits, one each, and the last still grows
      exactly while its run goes on. */
  lemma {:induction false} GatherSpans(lines: seq<Line>, visits: seq<G.Visit>, kind: Kind, n: nat)
    requires n <= |visits| && Measured(lines) && Readable(lines, visits)
    ensures Told(lines, visits, kind, n)
  {
    hide Told, ItemAt;
    if n == 0 { NothingTold(lines, visits, kind); } else {
      GatherSpans(lines, visits, kind, n - 1);
      if visits[n - 1].role == G.Item { ToldItem(lines, visits, kind, n); }
      else if visits[n - 1].role == G.Continuation { ToldContinuation(lines, visits, kind, n); }
      else { ToldOther(lines, visits, kind, n); }
    }
  }

  ghost predicate Told(lines: seq<Line>, visits: seq<G.Visit>, kind: Kind, n: nat)
    requires n <= |visits| && Measured(lines) && Readable(lines, visits)
  {
    var g, at := Gather(lines, visits, kind, n), ItemVisits(visits, n);
    && |g.items| == |at|
    && (g.growing <==> at != [] && RunTo(visits, at[|at| - 1], n) == n - 1)
    && forall k :: 0 <= k < |at| ==> SpansVisit(lines, visits, kind, n, at[k], g.items[k])
  }

  lemma NothingTold(lines: seq<Line>, visits: seq<G.Visit>, kind: Kind)
    requires Measured(lines) && Readable(lines, visits)
    ensures Told(lines, visits, kind, 0)
  {
  }

  /** Runs of earlier items are over once a later item begins; the last one goes on with a
      continuation line. */
  lemma RunsNext(visits: seq<G.Visit>, n: nat)
    requires 0 < n <= |visits|
    ensures var at := ItemVisits(visits, n - 1);
      && (forall k :: 0 <= k < |at| - 1 ==> RunTo(visits, at[k], n) == RunTo(visits, at[k], n - 1))
      && (at != [] ==> var j := at[|at| - 1];
            RunTo(visits, j, n) == if RunTo(visits, j, n - 1) == n - 2 && visits[n - 1].role == G.Continuation then
              n - 1
                                   else RunTo(visits, j, n - 1))
  {
    hide RunTo, ItemVisits;
    var at := ItemVisits(visits, n - 1);
    ItemVisitsAre(visits, n - 1);
    forall k | 0 <= k < |at| - 1 ensures RunTo(visits, at[k], n) == RunTo(visits, at[k], n - 1) {
      RunGrows(visits, at[k], n - 1);
      assert at[|at| - 1] in at;
      RunStops(visits, at[k], at[|at| - 1], n - 1);
    }
    if at != [] { RunGrows(visits, at[|at| - 1], n - 1); }
  }

  lemma VisitsNext(visits: seq<G.Visit>, n: nat)
    requires 0 < n <= |visits|
    ensures ItemVisits(visits, n) == ItemVisits(visits, n - 1) + if visits[n - 1].role == G.Item then [n - 1] else []
  {
  }

  lemma GatherNext(lines: seq<Line>, visits: seq<G.Visit>, kind: Kind, n: nat)
    requires 0 < n <= |visits| && Measured(lines) && Readable(lines, visits)
    ensures var before, after := Gather(lines, visits, kind, n - 1), Gather(lines, visits, kind, n);
      var ln := lines[visits[n - 1].line];
      && (visits[n - 1].role == G.Item ==> after == Gathered(before.items + [ItemAt(ln, kind)], true))
      && (visits[n - 1].role in {G.BlankLine, G.NestedBullet} ==> after == Gathered(before.items, false))
      && (visits[n - 1].role == G.Continuation ==>
            if before.growing && before.items != [] then
              var last := |before.items| - 1;
              after == Gathered(before.items[last := AnswerItem(before.items[last].start, ln.end)], true)
            else after == before)
  {
    hide ItemAt;
  }

  lemma ToldItem(lines: seq<Line>, visits: seq<G.Visit>, kind: Kind, n: nat)
    requires 0 < n <= |visits| && Measured(lines) && Readable(lines, visits)
    requires Told(lines, visits, kind, n - 1) && visits[n - 1].role == G.Item
    ensures Told(lines, visits, kind, n)
  {
    hide ItemAt, StartsAnswer, RunTo, Gather, ItemVisits, G.ReadBullet;
    RunsNext(visits, n);
    VisitsNext(visits, n);
    GatherNext(lines, visits, kind, n);
    assert RunTo(visits, n - 1, n) == n - 1;
    ItemEnds(lines[visits[n - 1].line], kind);
    ItemStarts(lines[visits[n - 1].line], kind);
  }

  lemma ItemEnds(ln: Line, kind: Kind)
    requires ln.end == ln.start + |ln.text|
    ensures ItemAt(ln, kind).end == ln.end
  {
  }

  lemma ToldOther(lines: seq<Line>, visits: seq<G.Visit>, kind: Kind, n: nat)
    requires 0 < n <= |visits| && Measured(lines) && Readable(lines, visits)
    requires Told(lines, visits, kind, n - 1) && visits[n - 1].role in {G.BlankLine, G.NestedBullet}
    ensures Told(lines, visits, kind, n)
  {
    hide ItemAt, StartsAnswer, RunTo, Gather, ItemVisits, G.ReadBullet;
    RunsNext(visits, n);
    VisitsNext(visits, n);
    GatherNext(lines, visits, kind, n);
  }

  lemma ToldContinuation(lines: seq<Line>, visits: seq<G.Visit>, kind: Kind, n: nat)
    requires 0 < n <= |visits| && Measured(lines) && Readable(lines, visits)
    requires Told(lines, visits, kind, n - 1) && visits[n - 1].role == G.Continuation
    ensures Told(lines, visits, kind, n)
  {
    hide ItemAt, StartsAnswer, RunTo, Gather, ItemVisits, G.ReadBullet;
    RunsNext(visits, n);
    VisitsNext(visits, n);
    GatherNext(lines, visits, kind, n);
  }

  lemma RunStops(visits: seq<G.Visit>, j: nat, i: nat, n: nat)
    requires j < i < n <= |visits| && visits[i].role == G.Item
    ensures RunTo(visits, j, n) < i
  {
    RunIsMaximal(visits, j, n);
  }

  /** The first bullet line outside block interiors. */
  predicate OpensList(rows: seq<Row>, first: nat) {
    && first < |rows| && G.ReadBullet(rows[first].text).Some? && !B.Inside(B.PairsFrom(rows, 0), first)
    && forall i :: 0 <= i < first ==> G.ReadBullet(rows[i].text).None? || B.Inside(B.PairsFrom(rows, 0), i)
  }

  /** The answer list of a body: it begins with the line of the first bullet outside blocks,
      and its items are the item lines the list rule attaches to that bullet, one each in
      order, with the continuation lines directly behind. */
  lemma ListSpans(g: G.Grammar, body: string, kind: Kind, first: nat)
    requires OpensList(Rows(LinesOf(body)), first)
    ensures AnswerListOf(g, body, kind).Some?
    ensures var lines, list := LinesOf(body), AnswerListOf(g, body, kind).value;
      var visits := G.WalkList(g, Rows(lines), first).visits;
      var at := ItemVisits(visits, |visits|);
      && list.containerAt == lines[first].start && |list.items| == |at|
      && Measured(lines) && Readable(lines, visits)
      && forall k :: 0 <= k < |at| ==> SpansVisit(lines, visits, kind, |visits|, at[k], list.items[k])
  {
    hide LinesFrom, B.PairsFrom, G.ReadBullet, B.Inside, G.WalkList, Gather, SpansVisit;
    var lines := LinesOf(body);
    LinesInText(body);
    InTextMeasured(body, lines);
    FirstIs(Rows(lines), first);
    ListFromIs(g, lines, Rows(lines), kind, first);
    var visits := G.WalkList(g, Rows(lines), first).visits;
    VisitsReadable(g, lines, first);
    GatherSpans(lines, visits, kind, |visits|);
  }

  lemma {:induction false} VisitsReadable(g: G.Grammar, lines: seq<Line>, first: nat)
    requires first < |lines| && G.ReadBullet(lines[first].text).Some?
    ensures Readable(lines, G.WalkList(g, Rows(lines), first).visits)
  {
    hide G.ReadBullet, G.Nested;
    var rows := Rows(lines);
    var w := G.WalkList(g, rows, first);
    G.WalkProgress(g, rows, first);
    forall k | 0 <= k < |w.visits| && w.visits[k].role == G.Item
      ensures G.ReadBullet(lines[w.visits[k].line].text).Some?
    {
      assert w.visits[k].bullet == G.ReadBullet(rows[first + k].text);
    }
  }

  lemma FirstIs(rows: seq<Row>, first: nat)
    requires OpensList(rows, first)
    ensures FirstBullet(rows, B.PairsFrom(rows, 0), 0) == first
  {
    hide B.PairsFrom, G.ReadBullet, B.Inside;
  }

  // ------------------------------------------------------------- where an answer begins

  function CookieText(digits: string, space: char): string {
    "[@" + digits + "]" + [space]
  }

  ghost predicate IsCookie(cookie: string, digits: string, space: char) {
    cookie == CookieText(digits, space) && digits != "" && (forall c :: c in digits ==> IsDigit(c)) && AsciiSpace(space)
  }

  /** A counter cookie stands at place j. */
  ghost predicate CookieHere(s: string, j: nat, cookie: string) {
    j <= |s| && cookie <= s[j..] && exists digits, space :: IsCookie(cookie, digits, space)
  }

  /** What is taken for the cookie: as many characters as the first cookie has that stands
      anywhere, and none if there is none or the list is not numbered. */
  ghost predicate CookiePart(kind: Kind, cookie: string, rest: string) {
    || (kind == OrderedList && exists j: nat, c ::
          CookieHere(cookie + rest, j, c) && |c| == |cookie|
          && forall i: nat, d :: i < j ==> !CookieHere(cookie + rest, i, d))
    || (cookie == "" && (kind == OrderedList ==> forall j: nat, c :: !CookieHere(rest, j, c)))
  }

  function StatusText(mark: char, space: char): string {
    "[" + [mark] + "]" + [space]
  }

  /** A check box stands at place j. */
  ghost predicate StatusHere(s: string, j: nat) {
    j <= |s| && exists mark, space :: StatusText(mark, space) <= s[j..] && mark in " X-" && AsciiSpace(space)
  }

  /** What is taken for the check box: four characters if one stands anywhere, else none. */
  ghost predicate StatusPart(status: string, rest: string) {
    |status| == if exists j: nat :: StatusHere(status + rest, j) then 4 else 0
  }

  /** The separator of a term: white space, two colons, and white space or the end. */
  predicate SplitAt(content: string, i: nat) {
    && i + 3 <= |content| && AsciiSpace(content[i]) && content[i + 1] == ':' && content[i + 2] == ':'
    && (i + 3 == |content| || AsciiSpace(content[i + 3]))
  }

  /** A term of length k, its separator, and behind them the answer. */
  ghost predicate IsTerm(term: string, answer: string, k: nat) {
    && SplitAt(term + answer, k) && (forall j: nat :: j < k ==> !SplitAt(term + answer, j))
    && |term| == if k + 3 == |term + answer| then k + 3 else k + 4
  }

  /** A term with its separator, the first one there is, or none because there is none. */
  ghost predicate TermPart(kind: Kind, term: string, answer: string) {
    || (kind == Descriptive && exists k: nat :: IsTerm(term, answer, k))
    || (term == "" && (kind == Descriptive ==> forall j: nat :: !SplitAt(answer, j)))
  }

  /** A bullet's content cut into what is taken for its cookie, its check box and its term, and
      the answer behind them. */
  datatype Parts = Parts(cookie: string, status: string, term: string, answer: string)

  ghost predicate CutsContent(kind: Kind, content: string, p: Parts) {
    && content == p.cookie + p.status + p.term + p.answer
    && CookiePart(kind, p.cookie, p.status + p.term + p.answer)
    && StatusPart(p.status, p.term + p.answer)
    && TermPart(kind, p.term, p.answer)
  }

  /** The offset of the answer is the length of what stands before it in such a cut, and a
      content can be cut. */
  lemma AnswerBehind(kind: Kind, content: string)
    ensures exists p :: CutsContent(kind, content, p)
    ensures forall p :: CutsContent(kind, content, p) ==>
              AnswerContentOffset(content, kind) == |p.cookie| + |p.status| + |p.term|
  {
    hide FirstCookie, HasStatus, FirstSplit, CookiePart, StatusPart, TermPart;
    ContentCut(kind, content);
    forall p | CutsContent(kind, content, p)
      ensures AnswerContentOffset(content, kind) == |p.cookie| + |p.status| + |p.term|
    {
      OffsetCounts(kind, p);
    }
  }

  lemma OffsetCounts(kind: Kind, p: Parts)
    requires CutsContent(kind, p.cookie + p.status + p.term + p.answer, p)
    ensures AnswerContentOffset(p.cookie + p.status + p.term + p.answer, kind) == |p.cookie| + |p.status| + |p.term|
  {
    hide FirstCookie, HasStatus, FirstSplit, CookiePart, StatusPart, TermPart;
    var content := p.cookie + p.status + p.term + p.answer;
    assert content == p.cookie + (p.status + p.term + p.answer);
    CookieTaken(kind, p.cookie, p.status + p.term + p.answer);
    assert content[|p.cookie|..] == p.status + (p.term + p.answer);
    StatusTaken(p.status, p.term + p.answer);
    assert content[|p.cookie| + |p.status|..] == p.term + p.answer;
    TermTaken(kind, p.term, p.answer);
  }

  /** How much of a text is taken for a cookie, a check box and a term. */
  function CookieLength(kind: Kind, s: string): (n: nat)
    ensures n <= |s|
  {
    if kind == OrderedList && FirstCookie(s, 0).Some? then 4 + FirstCookie(s, 0).value else 0
  }

  function StatusLength(s: string): (n: nat)
    ensures n <= |s|
  {
    if HasStatus(s) then 4 else 0
  }

  function TermLength(kind: Kind, s: string): (n: nat)
    ensures n <= |s|
  {
    if kind == Descriptive && FirstSplit(s, 0).Some? then FirstSplit(s, 0).value else 0
  }

  lemma ContentCut(kind: Kind, content: string)
    ensures exists p :: CutsContent(kind, content, p)
  {
    hide CookieLength, StatusLength, TermLength, CookiePart, StatusPart, TermPart, CutsContent;
    var i := CookieLength(kind, content);
    var behind := content[i..];
    assert content == content[..i] + behind;
    CookieTaken(kind, content[..i], behind);
    var j := StatusLength(behind);
    var left := behind[j..];
    assert behind == behind[..j] + left;
    StatusTaken(behind[..j], left);
    var k := TermLength(kind, left);
    assert left == left[..k] + left[k..];
    TermTaken(kind, left[..k], left[k..]);
    CutTogether(kind, Parts(content[..i], behind[..j], left[..k], left[k..]), behind, left);
  }

  lemma CutTogether(kind: Kind, p: Parts, behind: string, left: string)
    requires left == p.term + p.answer && behind == p.status + left
    requires CookiePart(kind, p.cookie, behind) && StatusPart(p.status, left) && TermPart(kind, p.term, p.answer)
    ensures CutsContent(kind, p.cookie + behind, p)
  {
    hide CookiePart, StatusPart, TermPart;
    assert p.status + p.term + p.answer == behind;
    assert p.cookie + behind == p.cookie + p.status + p.term + p.answer;
  }

  lemma CookieExactly(s: string, j: nat, cookie: string)
    ensures CookieHere(s, j, cookie) <==>
            j <= |s| && CookieAt(s, j).Some? && cookie == s[j..j + 4 + CookieAt(s, j).value]
  {
    hide CookieHere, CookieAt;
    if j <= |s| && CookieAt(s, j).Some? { CookieWritten(s, j); }
    if CookieHere(s, j, cookie) { CookieRead(s, j, cookie); }
  }

  lemma CookieWritten(s: string, j: nat)
    requires j <= |s| && CookieAt(s, j).Some?
    ensures CookieHere(s, j, s[j..j + 4 + CookieAt(s, j).value])
  {
    var d := CookieAt(s, j).value;
    var digits, space := s[j + 2..j + 2 + d], s[j + 3 + d];
    DigitsThere(s, j + 2);
    assert s[j..j + 4 + d] == CookieText(digits, space);
    assert IsCookie(s[j..j + 4 + d], digits, space);
  }

  lemma CookieRead(s: string, j: nat, cookie: string)
    requires CookieHere(s, j, cookie)
    ensures CookieAt(s, j) == Some(|cookie| - 4) && cookie == s[j..j + |cookie|]
  {
    var digits, space :| IsCookie(cookie, digits, space);
    var rest := s[j + |cookie|..];
    assert s[j + 2..] == digits + ("]" + [space] + rest);
    DigitRunAll(digits, "]" + [space] + rest);
    assert s[j..][0] == cookie[0] && s[j..][1] == cookie[1];
    assert s[j + 2 + |digits|..] == "]" + [space] + rest;
  }

  lemma DigitsThere(s: string, from: nat)
    requires from <= |s|
    ensures forall c :: c in s[from..G.DigitEnd(s, from)] ==> IsDigit(c)
  {
    ListRules.DigitsThere(s[from..]);
    assert s[from..G.DigitEnd(s, from)] == s[from..][..DigitRun(s[from..])];
  }

  lemma {:induction false} FirstCookieIs(s: string, i: nat)
    requires i <= |s|
    ensures FirstCookie(s, i).None? ==> forall j :: i <= j <= |s| ==> CookieAt(s, j).None?
    ensures FirstCookie(s, i).Some? ==> exists j :: i <= j <= |s| && CookieAt(s, j) == FirstCookie(s, i)
                                                    && forall k :: i <= k < j ==> CookieAt(s, k).None?
    decreases |s| - i
  {
    hide CookieAt;
    if CookieAt(s, i).None? && i < |s| { FirstCookieIs(s, i + 1); }
  }

  lemma CookieTaken(kind: Kind, cookie: string, rest: string)
    ensures CookiePart(kind, cookie, rest) <==> |cookie| == CookieLength(kind, cookie + rest)
  {
    hide CookieAt, FirstCookie, CookieHere;
    var s := cookie + rest;
    forall j: nat, c
      ensures CookieHere(s, j, c) <==> j <= |s| && CookieAt(s, j).Some? && c == s[j..j + 4 + CookieAt(s, j).value]
    {
      CookieExactly(s, j, c);
    }
    FirstCookieIs(s, 0);
    assert cookie == "" ==> s == rest;
    if kind == OrderedList && FirstCookie(s, 0).Some? {
      var j: nat :| j <= |s| && CookieAt(s, j) == FirstCookie(s, 0) && forall k :: 0 <= k < j ==> CookieAt(s, k).None?;
      assert CookieHere(s, j, s[j..j + 4 + CookieAt(s, j).value]);
    }
  }

  lemma StatusExactly(s: string, j: nat)
    ensures StatusHere(s, j) <==> StatusAt(s, j)
  {
    if StatusAt(s, j) { assert StatusText(s[j + 1], s[j + 3]) <= s[j..]; }
    if StatusHere(s, j) {
      var mark, space :| StatusText(mark, space) <= s[j..] && mark in " X-" && AsciiSpace(space);
      assert forall i :: 0 <= i < 4 ==> s[j + i] == s[j..][i] && s[j..][i] == StatusText(mark, space)[i];
    }
  }

  lemma StatusTaken(status: string, rest: string)
    ensures StatusPart(status, rest) <==> |status| == StatusLength(status + rest)
  {
    hide StatusAt, StatusHere;
    forall j: nat ensures StatusHere(status + rest, j) <==>
      StatusAt(status + rest, j) { StatusExactly(status + rest, j); }
    assert forall j: nat :: StatusAt(status + rest, j) ==> j < |status + rest| by { StatusInside(status + rest); }
  }

  lemma StatusInside(s: string)
    ensures forall j: nat :: StatusAt(s, j) ==> j < |s|
    ensures HasStatus(s) ==> |s| >= 4
  {
  }

  lemma {:induction false} FirstSplitIs(s: string, i: nat)
    requires i <= |s|
    ensures FirstSplit(s, i).None? ==> forall j :: i <= j < |s| ==> !SplitAt(s, j)
    ensures FirstSplit(s, i).Some? ==>
              exists k :: (&& i <= k < |s| && SplitAt(s, k)
                           && FirstSplit(s, i).value == (if k + 3 == |s| then k + 3 else k + 4)
                           && forall j :: i <= j < k ==> !SplitAt(s, j))
    decreases |s| - i
  {
    if i < |s| && !SplitAt(s, i) { FirstSplitIs(s, i + 1); }
  }

  lemma TermTaken(kind: Kind, term: string, answer: string)
    ensures TermPart(kind, term, answer) <==> |term| == TermLength(kind, term + answer)
  {
    hide SplitAt, FirstSplit;
    var s := term + answer;
    FirstSplitIs(s, 0);
    SplitInside(s);
    assert term == "" ==> s == answer;
    if kind == Descriptive && FirstSplit(s, 0).Some? {
      var k: nat :| k < |s| && SplitAt(s, k) && FirstSplit(s, 0).value == (if k + 3 == |s| then k + 3 else k + 4)
                    && forall j :: 0 <= j < k ==> !SplitAt(s, j);
      assert IsTerm(term, answer, k) <==> |term| == FirstSplit(s, 0).value;
    }
  }

  lemma SplitInside(s: string)
    ensures forall j: nat :: SplitAt(s, j) ==> j < |s|
  {
  }

  /** Where the answer on an item's line starts: behind its indentation, its sign, the white
      space behind the sign, and what is taken of the content. */
  ghost predicate StartsAnswer(ln: Line, kind: Kind, start: nat) {
    exists indent, sign, gap, p: Parts ::
      && CutsBullet(ln.text, indent, sign, gap, p.cookie + p.status + p.term + p.answer)
      && CutsContent(kind, p.cookie + p.status + p.term + p.answer, p)
      && start == ln.start + |indent| + |sign| + |gap| + |p.cookie| + |p.status| + |p.term|
  }

  lemma ItemStarts(ln: Line, kind: Kind)
    requires ln.end == ln.start + |ln.text| && G.ReadBullet(ln.text).Some?
    ensures StartsAnswer(ln, kind, ItemAt(ln, kind).start)
  {
    hide CutsContent, CutsBullet, AnswerContentOffset, G.ReadBullet;
    var b := G.ReadBullet(ln.text).value;
    BulletCut(ln.text);
    var content := ln.text[b.contentStart..];
    AnswerBehind(kind, content);
    var p :| CutsContent(kind, content, p);
    CutAdds(kind, content, p);
    assert CutsBullet(ln.text, ln.text[..b.indent], ln.text[b.indent..b.minIndent],
                      ln.text[b.minIndent..b.contentStart], p.cookie + p.status + p.term + p.answer);
  }

  lemma CutAdds(kind: Kind, content: string, p: Parts)
    requires CutsContent(kind, content, p)
    ensures content == p.cookie + p.status + p.term + p.answer
  {
  }
}
