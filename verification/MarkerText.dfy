/** What a marker is, told on the text: how an opening is written, where each marker of a text
    begins and ends, and which number is the highest (clozeMarkerPattern and its readers,
    internal/anki/orgdoc/multiline.go and internal/anki/orgdoc/swift.go). */
module MarkerText {
  import opened Basics
  import opened Cloze

  /** Two braces, the letter c, digits and two colons. */
  predicate OpensWith(s: string, digits: string) {
    digits != "" && (forall c :: c in digits ==> IsDigit(c)) && "{{c" + digits + "::" <= s
  }

  lemma OpeningExactly(s: string, digits: string)
    ensures OpensWith(s, digits) <==>
            OpeningLength(s) == |digits| + 5 && digits != "" && digits == s[3..3 + |digits|]
    ensures OpensWith(s, digits) ==> OpeningNumber(s) == Atoi(digits)
  {
    OpeningWritten(s);
    if OpensWith(s, digits) {
      var n := |digits|;
      var rest := s[n + 5..];
      assert s == "{{c" + digits + "::" + rest;
      assert s[..3] == "{{c" && s[3..] == digits + ("::" + rest);
      DigitRunAll(digits, "::" + rest);
      assert s[3..][..n] == digits && s[3 + n] == ':' && s[4 + n] == ':';
    }
  }

  lemma OpeningWritten(s: string)
    ensures OpeningLength(s) > 0 ==> OpeningLength(s) > 5 && OpensWith(s, s[3..OpeningLength(s) - 2])
  {
    if OpeningLength(s) > 0 {
      var n := OpeningLength(s);
      DigitRunConcat(s[3..], "");
      assert s[..n] == "{{c" + s[3..n - 2] + "::";
    }
  }

  lemma OpensSome(s: string)
    ensures OpeningLength(s) > 0 <==> exists digits :: OpensWith(s, digits)
  {
    OpeningWritten(s);
    if digits :| OpensWith(s, digits) { OpeningExactly(s, digits); }
  }

  /** A text holds a marker exactly if an opening stands somewhere in it. */
  lemma {:induction false} MarkedExactly(s: string)
    ensures HasMarker(s) <==> exists i, digits :: 0 <= i < |s| && OpensWith(s[i..], digits)
  {
    hide OpeningLength, OpensWith;
    if s != "" {
      OpensSome(s);
      assert s[0..] == s;
      MarkedExactly(s[1..]);
      forall i | 0 < i < |s| ensures s[i..] == s[1..][i - 1..] {
      }
      if HasMarker(s[1..]) {
        var i, digits :| 0 <= i < |s[1..]| && OpensWith(s[1..][i..], digits);
        assert OpensWith(s[i + 1..], digits);
      }
    }
  }

  // ------------------------------------------------------------------- extents

  predicate ClosesAt(s: string, i: nat) {
    i + 2 <= |s| && s[i] == '}' && s[i + 1] == '}'
  }

  lemma {:induction false} FirstCloseIs(s: string)
    ensures FindClose(s).At? ==> ClosesAt(s, FindClose(s).index) && forall j: nat :: j < FindClose(s).index ==>
              !ClosesAt(s, j)
    ensures FindClose(s).Missing? ==> forall j: nat :: !ClosesAt(s, j)
  {
    if s != "" {
      FirstCloseIs(s[1..]);
      forall j: nat | j > 0 ensures ClosesAt(s, j) <==> ClosesAt(s[1..], j - 1) {
      }
      assert ClosesAt(s, 0) <==> Closes(s);
    }
  }

  /** The marker that is read next from a place: it begins with the first opening there is and
      ends behind the first closing braces behind that, or with the text. */
  ghost predicate NextMarker(s: string, at: nat, m: Span)
    requires at <= |s|
  {
    && at <= m.start < |s| && OpeningLength(s[m.start..]) > 0
    && (forall j :: at <= j < m.start ==> OpeningLength(s[j..]) == 0)
    && var content := m.start + OpeningLength(s[m.start..]);
       if forall j: nat :: content <= j ==> !ClosesAt(s, j) then m.end == |s|
       else content <= m.end - 2 && ClosesAt(s, m.end - 2) && forall j: nat :: content <= j < m.end - 2 ==>
         !ClosesAt(s, j)
  }

  /** From a place on, the extents are the markers read one after another, and behind the last
      one no opening is left. */
  ghost predicate ReadFrom(s: string, at: nat, spans: seq<Span>)
    decreases |spans|
  {
    && at <= |s|
    && if spans == [] then forall j :: at <= j < |s| ==> OpeningLength(s[j..]) == 0
       else NextMarker(s, at, spans[0]) && spans[0].end >= 0 && ReadFrom(s, spans[0].end, spans[1..])
  }

  lemma CloseBehind(s: string, content: nat)
    requires content <= |s|
    ensures var f := FindClose(s[content..]);
      && (f.Missing? ==> forall j: nat :: content <= j ==> !ClosesAt(s, j))
      && (f.At? ==> ClosesAt(s, content + f.index) && forall j: nat :: content <= j < content + f.index ==>
          !ClosesAt(s, j))
  {
    FirstCloseIs(s[content..]);
    forall j: nat | content <= j ensures ClosesAt(s, j) <==> ClosesAt(s[content..], j - content) {
    }
  }

  /** Where the marker opened at start ends, if it does. */
  function EndOf(s: string, start: nat): (end: Option<nat>)
    requires start < |s| && OpeningLength(s[start..]) > 0
    ensures end.Some? ==> start < end.value <= |s|
  {
    var content := start + OpeningLength(s[start..]);
    match FindClose(s[content..])
    case Missing => None
    case At(i) => Some(content + i + 2)
  }

  lemma SpansFound(s: string, at: nat, start: nat)
    requires at <= start < |s| && Clear(s, at, start) && OpeningLength(s[start..]) > 0
    ensures Finish(Scan(Outside, s[at..], at), |s|) ==
            match EndOf(s, start)
            case None => [Span(start, |s|)]
            case Some(end) => [Span(start, end)] + Finish(Scan(Outside, s[end..], end), |s|)
  {
    hide OpeningLength, Scan, FindClose, Clear;
    SkipClear(s, at, start);
    ReadOne(s, start);
  }

  lemma {:induction false} ScanReads(s: string, at: nat)
    requires at <= |s|
    ensures ReadFrom(s, at, Finish(Scan(Outside, s[at..], at), |s|))
    decreases |s| - at
  {
    hide OpeningLength, Scan, FindClose, ClosesAt, ReadFrom, NextMarker, Clear, FirstOpening, EndOf, Finish;
    var start := FirstOpening(s, at);
    if start == |s| {
      NothingScanned(s, at);
      NothingRead(s, at);
    } else {
      SpansFound(s, at, start);
      var end := EndOf(s, start);
      if end.Some? { ScanReads(s, end.value); }
      OpeningReads(s, at, start, if end.Some? then Finish(Scan(Outside, s[end.value..], end.value), |s|) else []);
    }
  }

  lemma NothingScanned(s: string, at: nat)
    requires at <= |s| && Clear(s, at, |s|)
    ensures Finish(Scan(Outside, s[at..], at), |s|) == []
  {
    hide OpeningLength;
    SkipClear(s, at, |s|);
    assert s[|s|..] == "";
    ScanNothing(Outside, |s|);
  }

  lemma OpeningReads(s: string, at: nat, start: nat, rest: seq<Span>)
    requires at <= start < |s| && Clear(s, at, start) && OpeningLength(s[start..]) > 0
    requires EndOf(s, start).Some? ==> ReadFrom(s, EndOf(s, start).value, rest)
    ensures ReadFrom(s, at, match EndOf(s, start)
                            case None => [Span(start, |s|)]
                            case Some(end) => [Span(start, end)] + rest)
  {
    hide OpeningLength, FindClose, ClosesAt, ReadFrom, Clear;
    CloseBehind(s, start + OpeningLength(s[start..]));
    match EndOf(s, start)
    case None => LastRead(s, at, start);
    case Some(end) => OneRead(s, at, Span(start, end), rest);
  }

  lemma NothingRead(s: string, at: nat)
    requires at <= |s| && Clear(s, at, |s|)
    ensures ReadFrom(s, at, [])
  {
  }

  lemma LastRead(s: string, at: nat, start: nat)
    requires at <= start < |s| && Clear(s, at, start) && OpeningLength(s[start..]) > 0
    requires forall j: nat :: start + OpeningLength(s[start..]) <= j ==> !ClosesAt(s, j)
    ensures ReadFrom(s, at, [Span(start, |s|)])
  {
    hide OpeningLength, ClosesAt;
    NothingRead(s, |s|);
    assert [Span(start, |s|)][1..] == [];
  }

  lemma OneRead(s: string, at: nat, m: Span, rest: seq<Span>)
    requires 0 <= at <= m.start < |s| && Clear(s, at, m.start) && OpeningLength(s[m.start..]) > 0
    requires var content := m.start + OpeningLength(s[m.start..]);
      content <= m.end - 2 && ClosesAt(s, m.end - 2) && forall j: nat :: content <= j < m.end - 2 ==> !ClosesAt(s, j)
    requires ReadFrom(s, m.end, rest)
    ensures ReadFrom(s, at, [m] + rest)
  {
    hide OpeningLength, ClosesAt;
    assert ([m] + rest)[1..] == rest;
  }

  /** The first opening at or behind a place, the text's end without one. */
  function FirstOpening(s: string, at: nat): (start: nat)
    requires at <= |s|
    ensures at <= start <= |s| && Clear(s, at, start)
    ensures start < |s| ==> OpeningLength(s[start..]) > 0
    decreases |s| - at
  {
    if at == |s| || OpeningLength(s[at..]) > 0 then at else FirstOpening(s, at + 1)
  }

  lemma SpansRead(s: string)
    ensures ReadFrom(s, 0, Spans(s))
  {
    assert s[0..] == s;
    ScanReads(s, 0);
  }

  // ------------------------------------------------------------------- numbers

  /** The number of the opening at a place, 0 when none is there. */
  function NumberAt(s: string, i: nat): nat {
    if i < |s| && OpeningLength(s[i..]) > 0 then OpeningNumber(s[i..]) else 0
  }

  /** The highest number is carried at some place, and no place carries a higher one. */
  lemma {:induction false} HighestIs(s: string)
    ensures forall i: nat :: NumberAt(s, i) <= Highest(s)
    ensures exists i: nat :: NumberAt(s, i) == Highest(s)
  {
    hide OpeningLength, OpeningNumber;
    if s == "" {
      assert NumberAt(s, 0) == Highest(s);
    } else {
      HighestIs(s[1..]);
      assert s[0..] == s;
      forall i: nat | i > 0 ensures NumberAt(s, i) == NumberAt(s[1..], i - 1) {
        if i < |s| { assert s[i..] == s[1..][i - 1..]; }
      }
      var i: nat :| NumberAt(s[1..], i) == Highest(s[1..]);
      assert NumberAt(s, i + 1) == Highest(s[1..]);
      assert Highest(s) == Max(NumberAt(s, 0), Highest(s[1..]));
    }
  }

  /** Over several fragments it is the highest of theirs. */
  lemma {:induction false} HighestAmong(fragments: seq<string>)
    ensures forall s :: s in fragments ==> Highest(s) <= HighestOf(fragments)
    ensures HighestOf(fragments) == 0 || exists s :: s in fragments && Highest(s) == HighestOf(fragments)
  {
    hide Highest;
    if fragments != [] {
      var n := |fragments| - 1;
      HighestAmong(fragments[..n]);
      assert fragments[n] in fragments && forall s :: s in fragments[..n] ==> s in fragments;
      assert forall s :: s in fragments ==> s in fragments[..n] || s == fragments[n];
    }
  }
}
