/** What the list walk says, line by line: which lines a list takes, as what, and where it
    ends (readBullet and walkList, internal/anki/orgdoc/multiline.go). */
module ListRules {
  import opened Basics
  import opened Lines
  import opened Blocks
  import opened Lists

  // ------------------------------------------------------------------ bullet lines

  predicate AsciiBlank(s: string) {
    forall c :: c in s ==> AsciiSpace(c)
  }

  /** One of the three signs of an unordered list. */
  predicate PlainSign(sign: string) {
    sign == "+" || sign == "-" || sign == "*"
  }

  /** A number or a letter, and a full stop or a parenthesis. */
  predicate CountSign(sign: string) {
    && |sign| >= 2 && (sign[|sign| - 1] == '.' || sign[|sign| - 1] == ')')
    && var mark := sign[..|sign| - 1];
       (forall c :: c in mark ==> IsDigit(c)) || (|mark| == 1 && Letter(mark[0]))
  }

  /** A line cut as a bullet line: white space, the sign, white space, and the content, which
      does not begin with white space. */
  predicate CutsBullet(text: string, indent: string, sign: string, gap: string, content: string) {
    && text == indent + sign + gap + content
    && AsciiBlank(indent) && AsciiBlank(gap) && (gap == "" ==> content == "")
    && (content != "" ==> !AsciiSpace(content[0]))
    && (PlainSign(sign) || CountSign(sign))
  }

  lemma {:induction false} SpacesEnd(s: string, at: nat, end: nat)
    requires at <= end <= |s| && (forall i :: at <= i < end ==> AsciiSpace(s[i]))
    requires end < |s| ==> !AsciiSpace(s[end])
    ensures SpaceEnd(s, at) == end
    decreases end - at
  {
    if at < end { SpacesEnd(s, at + 1, end); }
  }

  lemma {:induction false} SpacesBehind(s: string, at: nat)
    requires at <= |s|
    ensures forall i :: at <= i < SpaceEnd(s, at) ==> AsciiSpace(s[i])
    decreases |s| - at
  {
    if at < |s| && AsciiSpace(s[at]) { SpacesBehind(s, at + 1); }
  }

  /** A line cut as a bullet line is read as one, with these offsets. */
  lemma BulletRead(text: string, indent: string, sign: string, gap: string, content: string)
    requires CutsBullet(text, indent, sign, gap, content)
    ensures ReadBullet(text) ==
            Some(Bullet(|indent|, CountSign(sign), |indent| + |sign|, |indent| + |sign| + |gap|))
  {
    var at, to := |indent|, |indent| + |sign|;
    assert text[at..to] == sign;
    SignChars(sign);
    assert text[at] == sign[0];
    SpacesEnd(text, 0, at);
    SignRead(text, at, sign);
    SpacesEnd(text, to, to + |gap|);
  }

  lemma SignChars(sign: string)
    requires PlainSign(sign) || CountSign(sign)
    ensures sign != "" && !AsciiSpace(sign[0]) && !UnicodeSpace(sign[0])
    ensures PlainSign(sign) <==> sign[0] in "+*-"
    ensures CountSign(sign) <==> sign[0] !in "+*-"
  {
    if CountSign(sign) {
      var mark := sign[..|sign| - 1];
      assert mark[0] == sign[0] && mark[0] in mark;
    }
  }

  lemma SignRead(text: string, at: nat, sign: string)
    requires at + |sign| <= |text| && text[at..at + |sign|] == sign && (PlainSign(sign) || CountSign(sign))
    ensures SignEnd(text, at) == Some(at + |sign|)
  {
    SignChars(sign);
    assert text[at] == sign[0];
    if CountSign(sign) {
      var n := |sign| - 1;
      var mark := sign[..n];
      assert text[at + n] == sign[n];
      assert text[at..] == mark + text[at + n..];
      if IsDigit(sign[0]) {
        assert mark[0] == sign[0];
        assert forall c :: c in mark ==> IsDigit(c);
        DigitRunAll(mark, text[at + n..]);
      }
    }
  }

  /** Every line read as a bullet line can be cut as one. */
  lemma BulletCut(text: string)
    requires ReadBullet(text).Some?
    ensures var b := ReadBullet(text).value;
      && b.contentStart <= |text|
      && CutsBullet(text, text[..b.indent], text[b.indent..b.minIndent], text[b.minIndent..b.contentStart],
                    text[b.contentStart..])
  {
    var b := ReadBullet(text).value;
    SpacesBehind(text, 0);
    SpacesBehind(text, b.minIndent);
    SignCut(text, b.indent);
    assert text == text[..b.indent] + text[b.indent..b.minIndent] + text[b.minIndent..b.contentStart]
      + text[b.contentStart..];
  }

  lemma SignCut(text: string, at: nat)
    requires at <= |text| && SignEnd(text, at).Some?
    ensures var sign := text[at..SignEnd(text, at).value]; PlainSign(sign) || CountSign(sign)
  {
    var to := SignEnd(text, at).value;
    var sign := text[at..to];
    if text[at] in "+*-" {
      assert sign == [text[at]];
    } else if IsDigit(text[at]) {
      DigitsThere(text[at..]);
      assert sign[..|sign| - 1] == text[at..][..DigitRun(text[at..])];
    }
  }

  lemma {:induction false} DigitsThere(s: string)
    ensures forall c :: c in s[..DigitRun(s)] ==> IsDigit(c)
  {
    if s != "" && IsDigit(s[0]) {
      DigitsThere(s[1..]);
      assert s[..DigitRun(s)] == [s[0]] + s[1..][..DigitRun(s[1..])];
    }
  }

  // ------------------------------------------------------------------- the walk

  /** The bullet of the last item line before visit k. */
  function ItemBefore(v: seq<Visit>, rows: seq<Row>, k: nat): Option<Bullet>
    requires k <= |v| && forall j :: 0 <= j < |v| ==> v[j].line < |rows|
  {
    if k == 0 then None
    else if v[k - 1].role == Item then ReadBullet(rows[v[k - 1].line].text)
    else ItemBefore(v, rows, k - 1)
  }

  /** A construct is entered on this visit's line and runs to its own close. */
  predicate Enters(nested: seq<Block>, v: seq<Visit>, k: nat)
    requires k < |v|
  {
    v[k].role == Continuation && EndOf(nested, v[k].line).Some?
  }

  /** No construct entered before reaches the line of visit k. */
  predicate Free(nested: seq<Block>, v: seq<Visit>, k: nat)
    requires k < |v|
  {
    forall j: nat :: j < k && Free(nested, v, j) && Enters(nested, v, j) ==> EndOf(nested, v[j].line).value < v[k].line
  }

  /** The line stays in the item: it is indented as far as the sign and its bullet reach. */
  predicate Reaches(text: string, item: Option<Bullet>) {
    && item.Some? && |text| >= item.value.minIndent
    && forall i :: 0 <= i < item.value.minIndent ==> text[i] == ' ' || text[i] == '\t'
  }

  lemma {:induction false} ReachesExactly(text: string, b: Bullet)
    ensures Reaches(text, Some(b)) <==> IndentOf(text) >= b.minIndent
    decreases b.minIndent
  {
    if b.minIndent > 0 && text != "" {
      ReachesExactly(text[1..], b.(minIndent := b.minIndent - 1));
      assert forall i :: 0 <= i < |text| - 1 ==> text[1..][i] == text[i + 1];
      assert forall i :: 0 < i < |text| ==> text[i] == text[1..][i - 1];
    }
  }

  /** The line holds a bullet in the list's own column, and both are numbered or neither is. */
  predicate SameList(text: string, base: Bullet) {
    && ReadBullet(text).Some?
    && ReadBullet(text).value.indent == base.indent
    && (ReadBullet(text).value.ordered <==> base.ordered)
  }

  /** What one line is to the list. */
  predicate VisitRight(rows: seq<Row>, nested: seq<Block>, base: Bullet, v: seq<Visit>, k: nat)
    requires k < |v| && forall j :: 0 <= j < |v| ==> v[j].line < |rows|
  {
    var text := rows[v[k].line].text;
    if !Free(nested, v, k) then v[k].role == Continuation
    else if Blank(text) then v[k].role == BlankLine && (k > 0 ==> v[k - 1].role != BlankLine)
    else if SameList(text, base) then v[k].role == Item
    else
      && Reaches(text, ItemBefore(v, rows, k))
      && v[k].role == if EndOf(nested, v[k].line).Some? then Continuation
                      else if ReadBullet(text).Some? then NestedBullet else Continuation
  }

  /** Why the list ends where it does: with the text, at a second blank line, or at a line
      that is no item of the list and does not reach into its last one. */
  predicate EndRight(rows: seq<Row>, base: Bullet, v: seq<Visit>, end: nat)
    requires forall j :: 0 <= j < |v| ==> v[j].line < |rows|
  {
    || end == |rows|
    || (end < |rows| && v != [] &&
        if Blank(rows[end].text) then v[|v| - 1].role == BlankLine
        else !SameList(rows[end].text, base) && !Reaches(rows[end].text, ItemBefore(v, rows, |v|)))
  }

  /** The walk attaches to a list exactly the lines its rules attach. */
  lemma WalkRules(g: Grammar, rows: seq<Row>, first: nat)
    requires first < |rows| && ReadBullet(rows[first].text).Some?
    ensures var w, base := WalkList(g, rows, first), ReadBullet(rows[first].text).value;
      && first < w.end <= |rows| && |w.visits| == w.end - first
      && (forall k :: 0 <= k < |w.visits| ==> w.visits[k].line == first + k)
      && (forall k :: 0 <= k < |w.visits| ==> VisitRight(rows, Nested(g, rows), base, w.visits, k))
      && EndRight(rows, base, w.visits, w.end)
  {
    hide ReadBullet, Nested, VisitRight, EndRight, WalkFrom, Blank;
    WalkProgress(g, rows, first);
    NestedInRange(g, rows);
    var base, w := ReadBullet(rows[first].text).value, WalkList(g, rows, first);
    assert [] + w.visits == w.visits;
    Started(rows, base, w.visits, first);
    WalkRight(rows, Nested(g, rows), base, first, w.visits, 0, base, 0, w.end);
  }

  /** The walk stands before visit k of v, in the item of bullet cur. */
  predicate Standing(rows: seq<Row>, nested: seq<Block>, base: Bullet, first: nat, v: seq<Visit>, k: nat, cur: Bullet,
                     blanks: nat)
  {
    && k <= |v| && first + |v| <= |rows| && (forall j :: 0 <= j < |v| ==> v[j].line == first + j)
    && (k == 0 ==> cur == base && blanks == 0 && first < |rows| && ReadBullet(rows[first].text) == Some(base))
    && (k > 0 ==> ItemBefore(v, rows, k) == Some(cur) && (blanks > 0 <==> v[k - 1].role == BlankLine))
    && (forall j: nat :: j < k && Free(nested, v, j) && Enters(nested, v, j) ==>
        EndOf(nested, v[j].line).value < first + k)
  }

  lemma Started(rows: seq<Row>, base: Bullet, v: seq<Visit>, first: nat)
    requires first + |v| <= |rows| && (forall j :: 0 <= j < |v| ==> v[j].line == first + j)
    requires first < |rows| && ReadBullet(rows[first].text) == Some(base)
    ensures forall nested :: Standing(rows, nested, base, first, v, 0, base, 0)
  {
    hide ReadBullet;
  }

  lemma {:induction false} WalkRight(rows: seq<Row>, nested: seq<Block>, base: Bullet, first: nat, v: seq<Visit>,
                                     k: nat, cur: Bullet, blanks: nat, end: nat)
    requires InRange(nested, 0, |rows|) && Standing(rows, nested, base, first, v, k, cur, blanks)
    requires Walk(v[k..], end) == WalkFrom(rows, nested, base, first + k, cur, blanks)
    ensures forall j :: k <= j < |v| ==> VisitRight(rows, nested, base, v, j)
    ensures EndRight(rows, base, v, end)
    decreases |rows| - first - k
  {
    hide ReadBullet, VisitRight, EndRight, WalkFrom, Blank, StrideAt, InRange, Standing;
    StandingLines(rows, nested, base, first, v, k, cur, blanks);
    var i := first + k;
    if i == |rows| {
      WalkEnds(rows, nested, base, cur, blanks);
      EndsThere(rows, base, v, end);
    } else {
      WalkUnfolds(rows, nested, base, i, cur, blanks);
      var s := StrideAt(rows, nested, base, i, cur, blanks);
      if s.Stop? {
        EndsHere(rows, nested, base, first, v, k, cur, blanks);
      } else {
        var n := |s.visits|;
        assert v[k..][..n] == s.visits && v[k..][n..] == v[k + n..];
        StrideRight(rows, nested, base, first, v, k, cur, blanks);
        WalkRight(rows, nested, base, first, v, k + n, s.cur, s.blanks, end);
      }
    }
  }

  lemma StandingLines(rows: seq<Row>, nested: seq<Block>, base: Bullet, first: nat, v: seq<Visit>, k: nat, cur: Bullet,
                      blanks: nat)
    requires Standing(rows, nested, base, first, v, k, cur, blanks)
    ensures k <= |v| && first + |v| <= |rows| && (forall j :: 0 <= j < |v| ==> v[j].line == first + j)
  {
    hide ReadBullet;
  }

  lemma EndsThere(rows: seq<Row>, base: Bullet, v: seq<Visit>, end: nat)
    requires end == |rows| && forall j :: 0 <= j < |v| ==> v[j].line < |rows|
    ensures EndRight(rows, base, v, end)
  {
  }

  lemma EndsHere(rows: seq<Row>, nested: seq<Block>, base: Bullet, first: nat, v: seq<Visit>, k: nat, cur: Bullet,
                 blanks: nat)
    requires Standing(rows, nested, base, first, v, k, cur, blanks) && k == |v| && first + k < |rows|
    requires StrideAt(rows, nested, base, first + k, cur, blanks).Stop?
    ensures EndRight(rows, base, v, first + k)
  {
    hide ReadBullet, Blank, Reaches, IndentOf;
    ReachesExactly(rows[first + k].text, cur);
  }

  lemma StrideRight(rows: seq<Row>, nested: seq<Block>, base: Bullet, first: nat, v: seq<Visit>, k: nat, cur: Bullet,
                    blanks: nat)
    requires InRange(nested, 0, |rows|) && Standing(rows, nested, base, first, v, k, cur, blanks) && first + k < |rows|
    requires var s := StrideAt(rows, nested, base, first + k, cur, blanks);
      s.Go? && k + |s.visits| <= |v| && v[k..k + |s.visits|] == s.visits
    ensures var s := StrideAt(rows, nested, base, first + k, cur, blanks);
      && (forall j :: k <= j < k + |s.visits| ==> v[j].line < |rows| && VisitRight(rows, nested, base, v, j))
      && Standing(rows, nested, base, first, v, k + |s.visits|, s.cur, s.blanks)
  {
    hide ReadBullet, Blank, InRange, Sibling, VisitRight, Standing;
    var i := first + k;
    var text := rows[i].text;
    var s := StrideAt(rows, nested, base, i, cur, blanks);
    StandingLines(rows, nested, base, first, v, k, cur, blanks);
    assert v[k] == s.visits[0];
    if Blank(text) || Sibling(ReadBullet(text), base) || EndOf(nested, i).None? {
      OneRight(rows, nested, base, first, v, k, cur, blanks);
    } else {
      EndInRange(rows, nested, i);
      assert forall j :: k <= j < k + |s.visits| ==> v[j] == s.visits[j - k];
      ConstructRight(rows, nested, base, first, v, k, cur, blanks, EndOf(nested, i).value);
    }
  }

  lemma EndInRange(rows: seq<Row>, nested: seq<Block>, i: nat)
    requires InRange(nested, 0, |rows|) && EndOf(nested, i).Some?
    ensures i < EndOf(nested, i).value < |rows|
  {
  }

  lemma OneRight(rows: seq<Row>, nested: seq<Block>, base: Bullet, first: nat, v: seq<Visit>, k: nat, cur: Bullet,
                 blanks: nat)
    requires Standing(rows, nested, base, first, v, k, cur, blanks) && k < |v|
    requires Blank(rows[first + k].text) || Sibling(ReadBullet(rows[first + k].text), base)
               || EndOf(nested, first + k).None?
    requires var s := StrideAt(rows, nested, base, first + k, cur, blanks); s.Go? && s.visits == [v[k]]
    ensures var s := StrideAt(rows, nested, base, first + k, cur, blanks);
      VisitRight(rows, nested, base, v, k) && Standing(rows, nested, base, first, v, k + 1, s.cur, s.blanks)
  {
    hide ReadBullet, Blank, InRange, Reaches, IndentOf;
    assert Free(nested, v, k);
    ReachesExactly(rows[first + k].text, cur);
    if k == 0 { assert Sibling(ReadBullet(rows[first].text), base); BulletNotBlank(rows[first].text); }
    assert v[k].role == Continuation ==> !Enters(nested, v, k);
  }

  lemma ConstructRight(rows: seq<Row>, nested: seq<Block>, base: Bullet, first: nat, v: seq<Visit>, k: nat,
                       cur: Bullet, blanks: nat, end: nat)
    requires Standing(rows, nested, base, first, v, k, cur, blanks) && k < |v|
    requires EndOf(nested, first + k) == Some(end) && first + k < end < first + |v|
    requires !Blank(rows[first + k].text) && !Sibling(ReadBullet(rows[first + k].text), base)
    requires IndentOf(rows[first + k].text) >= cur.minIndent
    requires forall j :: k <= j <= end - first ==> v[j].role == Continuation
    ensures forall j :: k <= j <= end - first ==> VisitRight(rows, nested, base, v, j)
    ensures Standing(rows, nested, base, first, v, end + 1 - first, cur, 0)
  {
    hide ReadBullet, Blank, InRange, Sibling, SameList, Reaches, IndentOf;
    ReachesExactly(rows[first + k].text, cur);
    SiblingsSame(rows[first + k].text, base);
    assert Free(nested, v, k) && Enters(nested, v, k);
    SelfSibling(base);
    forall j | k < j <= end - first ensures !Free(nested, v, j) && VisitRight(rows, nested, base, v, j) {
      assert EndOf(nested, v[k].line).value >= v[j].line;
    }
    ItemStays(rows, v, k, end + 1 - first);
  }

  lemma SiblingsSame(text: string, base: Bullet)
    ensures Sibling(ReadBullet(text), base) == SameList(text, base)
  {
    hide ReadBullet;
  }

  lemma SelfSibling(base: Bullet)
    ensures Sibling(Some(base), base)
  {
  }

  lemma {:induction false} ItemStays(rows: seq<Row>, v: seq<Visit>, k: nat, n: nat)
    requires k <= n <= |v| && forall j :: 0 <= j < |v| ==> v[j].line < |rows|
    requires forall j :: k <= j < n ==> v[j].role == Continuation
    ensures ItemBefore(v, rows, n) == ItemBefore(v, rows, k)
  {
    hide ReadBullet;
    if k < n { ItemStays(rows, v, k, n - 1); }
  }
}
