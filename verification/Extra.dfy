/** The split of a body into what stays in the question and the supplementary blocks, and
    the check that every marker line found its partner. */
module Extra {
  import opened Basics
  import opened Lines
  import opened Blocks

  datatype Mark = Plain | Begin | End

  const OPEN_MARK := "#+BEGIN_EXTRA"
  const CLOSE_MARK := "#+END_EXTRA"

  /** Past the blanks and tabs from a place on. */
  function BlanksPast(s: string, at: nat): (end: nat)
    requires at <= |s|
    ensures at <= end <= |s|
    ensures forall i :: at <= i < end ==> s[i] == ' ' || s[i] == '\t'
    ensures end < |s| ==> s[end] != ' ' && s[end] != '\t'
    decreases |s| - at
  {
    if at < |s| && (s[at] == ' ' || s[at] == '\t') then BlanksPast(s, at + 1) else at
  }

  /** What starts at this place of a text, if a line starts there. */
  function MarkAt(s: string, at: nat): Mark
    requires at <= |s|
  {
    var q := BlanksPast(s, at);
    if Spelled(s, q, OPEN_MARK) then Begin else if Spelled(s, q, CLOSE_MARK) then End else Plain
  }

  predicate LineStart(s: string, p: nat)
    requires p <= |s|
  {
    p == 0 || s[p - 1] == '\n'
  }

  /** Some line of the text is a marker line. */
  ghost predicate HasMark(s: string) {
    exists p :: 0 <= p <= |s| && LineStart(s, p) && MarkAt(s, p) != Plain
  }

  function MarkOf(row: Row): Mark {
    MarkAt(row.text, 0)
  }

  // --------------------------------------------------------------- the matches

  datatype Match = Match(begin: nat, end: nat)

  function NextEnd(rows: seq<Row>, j: nat): (end: nat)
    requires j <= |rows|
    ensures j <= end <= |rows|
    ensures end < |rows| ==> MarkOf(rows[end]) == End
    ensures forall k :: j <= k < end ==> MarkOf(rows[k]) != End
    decreases |rows| - j
  {
    if j == |rows| || MarkOf(rows[j]) == End then j else NextEnd(rows, j + 1)
  }

  /** An opening pairs with the next closing; the search goes on after it. */
  function MatchesFrom(rows: seq<Row>, i: nat): seq<Match>
    requires i <= |rows|
    decreases |rows| - i
  {
    if i == |rows| then []
    else if MarkOf(rows[i]) != Begin || NextEnd(rows, i + 1) == |rows| then MatchesFrom(rows, i + 1)
    else [Match(i, NextEnd(rows, i + 1))] + MatchesFrom(rows, NextEnd(rows, i + 1) + 1)
  }

  /** Matches lie in order and apart, each from its opening to the first closing after it. */
  ghost predicate Paired(rows: seq<Row>, ms: seq<Match>, from: nat) {
    && (forall k :: 0 <= k < |ms| ==> from <= ms[k].begin && PairedOne(rows, ms[k]))
    && (forall k, l :: 0 <= k < l < |ms| ==> ms[k].end < ms[l].begin)
  }

  ghost predicate PairedOne(rows: seq<Row>, m: Match) {
    m.begin < m.end < |rows| && MarkOf(rows[m.begin]) == Begin && m.end == NextEnd(rows, m.begin + 1)
  }

  lemma PairedCons(rows: seq<Row>, m: Match, rest: seq<Match>, from: nat)
    requires PairedOne(rows, m) && from <= m.begin && Paired(rows, rest, m.end + 1)
    ensures Paired(rows, [m] + rest, from)
  {
    hide NextEnd, MarkOf;
    var ms := [m] + rest;
    assert forall k :: 1 <= k < |ms| ==> ms[k] == rest[k - 1];
  }

  lemma {:induction false} MatchesPaired(rows: seq<Row>, i: nat)
    requires i <= |rows|
    ensures Paired(rows, MatchesFrom(rows, i), i)
    decreases |rows| - i
  {
    hide MarkOf, PairedOne;
    if i < |rows| {
      if MarkOf(rows[i]) != Begin || NextEnd(rows, i + 1) == |rows| {
        MatchesPaired(rows, i + 1);
      } else {
        var m := Match(i, NextEnd(rows, i + 1));
        MatchesPaired(rows, m.end + 1);
        assert PairedOne(rows, m) by { NowPaired(rows, i); }
        PairedCons(rows, m, MatchesFrom(rows, m.end + 1), i);
      }
    }
  }

  lemma NowPaired(rows: seq<Row>, i: nat)
    requires i < |rows| && MarkOf(rows[i]) == Begin && NextEnd(rows, i + 1) < |rows|
    ensures PairedOne(rows, Match(i, NextEnd(rows, i + 1)))
  {
  }

  predicate Covered(ms: seq<Match>, i: nat) {
    exists k :: 0 <= k < |ms| && ms[k].begin <= i <= ms[k].end
  }

  function Uncovered(n: nat, ms: seq<Match>): (keep: seq<bool>)
    ensures |keep| == n && forall i :: 0 <= i < n ==> keep[i] == !Covered(ms, i)
  {
    seq(n, i requires 0 <= i < n => !Covered(ms, i))
  }

  /** The lines outside every match, in order. */
  function RestRows(rows: seq<Row>): seq<Row> {
    Filtered(rows, Uncovered(|rows|, MatchesFrom(rows, 0)), |rows|)
  }

  // ------------------------------------------------------------------ balance

  /** Marker lines alternate begin, end from here on, and finish on an end. */
  predicate Balanced(rows: seq<Row>, i: nat, open: bool)
    requires i <= |rows|
    decreases |rows| - i
  {
    if i == |rows| then !open
    else
      match MarkOf(rows[i])
      case Plain => Balanced(rows, i + 1, open)
      case Begin => !open && Balanced(rows, i + 1, true)
      case End => open && Balanced(rows, i + 1, false)
  }

  /** From line i on, the split leaves no marker outside the matches and none inside them. */
  ghost predicate CleanFrom(rows: seq<Row>, ms: seq<Match>, i: nat) {
    && (forall k :: i <= k < |rows| && !Covered(ms, k) ==> MarkOf(rows[k]) == Plain)
    && (forall m :: 0 <= m < |ms| ==> InteriorPlain(rows, ms[m]))
  }

  ghost predicate InteriorPlain(rows: seq<Row>, m: Match) {
    forall k :: m.begin < k < m.end && k < |rows| ==> MarkOf(rows[k]) == Plain
  }

  lemma {:induction false} OpenRun(rows: seq<Row>, j: nat)
    requires j <= |rows|
    ensures Balanced(rows, j, true) <==>
            NextEnd(rows, j) < |rows| && (forall k :: j <= k < NextEnd(rows, j) ==> MarkOf(rows[k]) == Plain)
              && Balanced(rows, NextEnd(rows, j) + 1, false)
    decreases |rows| - j
  {
    hide MarkOf;
    if j < |rows| && MarkOf(rows[j]) == Plain { OpenRun(rows, j + 1); }
  }

  lemma OpenBalanced(rows: seq<Row>, i: nat)
    requires i < |rows|
    ensures var end := NextEnd(rows, i + 1);
      Balanced(rows, i + 1, true) <==>
        end < |rows| && InteriorPlain(rows, Match(i, end)) && Balanced(rows, end + 1, false)
  {
    hide MarkOf, Balanced;
    OpenRun(rows, i + 1);
  }

  /** The split comes out clean exactly when the marker lines alternate. */
  lemma {:induction false} CleanIffBalanced(rows: seq<Row>, i: nat)
    requires i <= |rows|
    ensures CleanFrom(rows, MatchesFrom(rows, i), i) <==> Balanced(rows, i, false)
    decreases |rows| - i
  {
    hide MarkOf, Balanced, InteriorPlain, NextEnd, MatchesFrom, CleanFrom;
    if i == |rows| {
      BalancedEnd(rows);
      CleanEnd(rows);
    } else {
      BalancedStep(rows, i);
      CleanStep(rows, i);
      OpenBalanced(rows, i);
      var end := NextEnd(rows, i + 1);
      if MarkOf(rows[i]) == Begin && end < |rows| {
        CleanIffBalanced(rows, end + 1);
      } else {
        CleanIffBalanced(rows, i + 1);
      }
    }
  }

  lemma CleanEnd(rows: seq<Row>)
    ensures CleanFrom(rows, MatchesFrom(rows, |rows|), |rows|)
  {
  }

  lemma BalancedEnd(rows: seq<Row>)
    ensures Balanced(rows, |rows|, false) && !Balanced(rows, |rows|, true)
  {
  }

  lemma BalancedStep(rows: seq<Row>, i: nat)
    requires i < |rows|
    ensures MarkOf(rows[i]) == Plain ==> Balanced(rows, i, false) == Balanced(rows, i + 1, false)
    ensures MarkOf(rows[i]) == Begin ==> Balanced(rows, i, false) == Balanced(rows, i + 1, true)
    ensures MarkOf(rows[i]) == End ==> !Balanced(rows, i, false)
  {
    hide MarkOf;
  }

  /** What line i adds to the condition that the split is clean. */
  lemma CleanStep(rows: seq<Row>, i: nat)
    requires i < |rows|
    ensures var end := NextEnd(rows, i + 1);
      if MarkOf(rows[i]) != Begin || end == |rows| then
        CleanFrom(rows, MatchesFrom(rows, i), i) <==>
          MarkOf(rows[i]) == Plain && CleanFrom(rows, MatchesFrom(rows, i + 1), i + 1)
      else
        CleanFrom(rows, MatchesFrom(rows, i), i) <==>
          InteriorPlain(rows, Match(i, end)) && CleanFrom(rows, MatchesFrom(rows, end + 1), end + 1)
  {
    hide MarkOf, InteriorPlain, NextEnd, CleanFrom, MatchesFrom;
    MatchesStep(rows, i);
    var end := NextEnd(rows, i + 1);
    if MarkOf(rows[i]) != Begin || end == |rows| {
      MatchesPaired(rows, i + 1);
      CleanSkip(rows, MatchesFrom(rows, i + 1), i);
    } else {
      MatchesPaired(rows, end + 1);
      CleanCons(rows, Match(i, end), MatchesFrom(rows, end + 1));
    }
  }

  lemma MatchesStep(rows: seq<Row>, i: nat)
    requires i < |rows|
    ensures var end := NextEnd(rows, i + 1);
      MatchesFrom(rows, i) ==
        if MarkOf(rows[i]) != Begin || end == |rows| then MatchesFrom(rows, i + 1)
        else [Match(i, end)] + MatchesFrom(rows, end + 1)
  {
    hide MarkOf;
  }

  lemma CleanSkip(rows: seq<Row>, ms: seq<Match>, i: nat)
    requires i < |rows| && Paired(rows, ms, i + 1)
    ensures CleanFrom(rows, ms, i) <==> MarkOf(rows[i]) == Plain && CleanFrom(rows, ms, i + 1)
  {
    hide MarkOf, InteriorPlain, PairedOne;
    assert !Covered(ms, i);
  }

  lemma CleanCons(rows: seq<Row>, m: Match, rest: seq<Match>)
    requires m.begin <= m.end < |rows|
    ensures CleanFrom(rows, [m] + rest, m.begin) <==> InteriorPlain(rows, m) && CleanFrom(rows, rest, m.end + 1)
  {
    hide MarkOf, InteriorPlain, Covered;
    CoveredCons(m, rest);
    var ms := [m] + rest;
    assert ms[0] == m && forall l :: 1 <= l < |ms| ==> ms[l] == rest[l - 1];
    if CleanFrom(rows, ms, m.begin) {
      forall l | 0 <= l < |rest| ensures InteriorPlain(rows, rest[l]) { assert ms[l + 1] == rest[l]; }
      forall k | m.end + 1 <= k < |rows| && !Covered(rest, k)
        ensures MarkOf(rows[k]) == Plain
      {
        assert !Covered(ms, k);
      }
    }
    if InteriorPlain(rows, m) && CleanFrom(rows, rest, m.end + 1) {
      forall k | m.begin <= k < |rows| && !Covered(ms, k)
        ensures MarkOf(rows[k]) == Plain
      {
        assert k > m.end && !Covered(rest, k);
      }
    }
  }

  lemma CoveredCons(m: Match, rest: seq<Match>)
    ensures forall k: nat :: Covered([m] + rest, k) <==> m.begin <= k <= m.end || Covered(rest, k)
  {
    var ms := [m] + rest;
    forall k: nat ensures Covered(ms, k) <==> m.begin <= k <= m.end || Covered(rest, k) {
      if Covered(rest, k) {
        var l :| 0 <= l < |rest| && rest[l].begin <= k <= rest[l].end;
        assert ms[l + 1] == rest[l];
      }
      if m.begin <= k <= m.end { assert ms[0] == m; }
    }
  }
}
