/** Which lines the delimiter patterns read, told by how such a line can be written
    (beginBlockLinePattern and endBlockLinePattern, internal/anki/orgdoc/multiline.go, and the
    two marks of internal/anki/orgdoc/extra.go). */
module MarkerLines {
  import opened Basics
  import opened Lines
  import opened Blocks
  import opened Lists
  import opened ListRules
  import opened Extra

  /** u is s in capitals; only the ASCII letters have any. */
  predicate Capitals(s: string, u: string) {
    && |s| == |u|
    && forall i :: 0 <= i < |s| ==>
         if 'a' <= s[i] <= 'z' then u[i] as int == s[i] as int - 'a' as int + 'A' as int else u[i] == s[i]
  }

  lemma UpperExactly(s: string, u: string)
    ensures Upper(s) == u <==> Capitals(s, u)
  {
    if Capitals(s, u) {
      forall i | 0 <= i < |s| ensures Upper(s)[i] == u[i] {
      }
    }
  }

  /** The end of a run of word characters. */
  lemma {:induction false} WordsEnd(s: string, at: nat, end: nat)
    requires at <= end <= |s| && (forall i :: at <= i < end ==> WordChar(s[i])) && (end < |s| ==> !WordChar(s[end]))
    ensures WordEnd(s, at) == end
    decreases end - at
  {
    hide WordChar;
    if at < end { WordsEnd(s, at + 1, end); }
  }

  lemma {:induction false} WordsThere(s: string, at: nat)
    requires at <= |s|
    ensures forall i :: at <= i < WordEnd(s, at) ==> WordChar(s[i])
    ensures WordEnd(s, at) < |s| ==> !WordChar(s[WordEnd(s, at)])
    decreases |s| - at
  {
    hide WordChar;
    if at < |s| && WordChar(s[at]) { WordsThere(s, at + 1); }
  }

  /** A delimiter line: white space, the mark in any case, the name, and behind it no letter,
      digit or underscore. */
  predicate WritesDelimiter(text: string, mark: string, indent: string, written: string, word: string, rest: string) {
    && text == indent + written + word + rest && AsciiBlank(indent) && Capitals(written, mark)
    && word != "" && (forall c :: c in word ==> WordChar(c)) && (rest != "" ==> !WordChar(rest[0]))
  }

  lemma MarkFirst(written: string, mark: string)
    requires Capitals(written, mark) && mark != "" && mark[0] == '#'
    ensures |written| == |mark| && written[0] == '#'
  {
  }

  lemma FourParts(a: string, b: string, c: string, d: string)
    ensures var s := a + b + c + d; var i, j := |a| + |b|, |a| + |b| + |c|;
      && s[..|a|] == a && s[|a|..i] == b && s[i..j] == c && s[j..] == d
  {
  }

  lemma AllSpaces(s: string, n: nat)
    requires n <= |s| && AsciiBlank(s[..n])
    ensures forall i :: 0 <= i < n ==> AsciiSpace(s[i])
  {
    forall i | 0 <= i < n ensures AsciiSpace(s[i]) { assert s[..n][i] in s[..n]; }
  }

  lemma AllWord(s: string, from: nat, to: nat)
    requires from <= to <= |s| && forall c :: c in s[from..to] ==> WordChar(c)
    ensures forall i :: from <= i < to ==> WordChar(s[i])
  {
    hide WordChar;
    forall i | from <= i < to ensures WordChar(s[i]) { assert s[from..to][i - from] in s[from..to]; }
  }

  lemma DelimiterRead(text: string, mark: string, indent: string, written: string, word: string, rest: string)
    requires WritesDelimiter(text, mark, indent, written, word, rest) && mark != "" && mark[0] == '#'
    ensures DelimiterName(text, mark).Some? && Capitals(word, DelimiterName(text, mark).value)
  {
    hide WordChar, Upper, Capitals, SpaceEnd, WordEnd, AsciiSpace, AsciiBlank;
    var at, from := |indent|, |indent| + |mark|;
    MarkFirst(written, mark);
    FourParts(indent, written, word, rest);
    AllSpaces(text, at);
    assert text[at] == written[0];
    NoSpaceAt(text, at);
    SpacesEnd(text, 0, at);
    UpperExactly(written, mark);
    AllWord(text, from, from + |word|);
    WordsEnd(text, from, from + |word|);
    UpperExactly(word, Upper(word));
  }

  lemma NoSpaceAt(text: string, at: nat)
    requires at < |text| && text[at] == '#'
    ensures !AsciiSpace(text[at])
  {
  }

  lemma DelimiterCut(text: string, mark: string)
    requires DelimiterName(text, mark).Some?
    ensures exists indent, written, word, rest ::
              WritesDelimiter(text, mark, indent, written, word, rest)
                && Capitals(word, DelimiterName(text, mark).value)
  {
    hide WordChar, Upper, Capitals, SpaceEnd, WordEnd, AsciiSpace;
    var at := SpaceEnd(text, 0);
    var from := at + |mark|;
    var to := WordEnd(text, from);
    SpacesBehind(text, 0);
    WordsThere(text, from);
    var indent, written, word, rest := text[..at], text[at..from], text[from..to], text[to..];
    UpperExactly(written, mark);
    UpperExactly(word, Upper(word));
    Parted(text, at, from, to);
    assert forall c :: c in word ==> WordChar(c);
    assert WritesDelimiter(text, mark, indent, written, word, rest);
  }

  lemma Parted(s: string, i: nat, j: nat, k: nat)
    requires i <= j <= k <= |s|
    ensures s == s[..i] + s[i..j] + s[j..k] + s[k..]
  {
  }

  /** A line opens a block of a name exactly if it can be written so, the mark being `#+BEGIN_`. */
  lemma BeginsExactly(text: string, name: string)
    ensures BeginName(text) == Some(name) <==>
            exists indent, written, word, rest ::
              WritesDelimiter(text, "#+BEGIN_", indent, written, word, rest) && Capitals(word, name)
  {
    hide WritesDelimiter, Capitals, DelimiterName;
    NamesExactly(text, "#+BEGIN_", name);
  }

  lemma EndsExactly(text: string, name: string)
    ensures EndName(text) == Some(name) <==>
            exists indent, written, word, rest ::
              WritesDelimiter(text, "#+END_", indent, written, word, rest) && Capitals(word, name)
  {
    hide WritesDelimiter, Capitals, DelimiterName;
    NamesExactly(text, "#+END_", name);
  }

  lemma NamesExactly(text: string, mark: string, name: string)
    requires mark != "" && mark[0] == '#'
    ensures DelimiterName(text, mark) == Some(name) <==>
            exists indent, written, word, rest ::
              WritesDelimiter(text, mark, indent, written, word, rest) && Capitals(word, name)
  {
    hide WritesDelimiter, DelimiterName, Capitals;
    if DelimiterName(text, mark) == Some(name) { DelimiterCut(text, mark); }
    if indent, written, word, rest :| WritesDelimiter(text, mark, indent, written, word, rest) && Capitals(word, name) {
      DelimiterRead(text, mark, indent, written, word, rest);
      UpperExactly(word, name);
      UpperExactly(word, DelimiterName(text, mark).value);
    }
  }

  /** A supplementary mark: blanks and tabs, the mark in any case, anything. */
  predicate WritesMark(text: string, mark: string, indent: string, written: string, rest: string) {
    text == indent + written + rest && (forall c :: c in indent ==> c == ' ' || c == '\t') && Capitals(written, mark)
  }

  lemma {:induction false} BlanksEnd(s: string, at: nat, end: nat)
    requires at <= end <= |s| && (forall i :: at <= i < end ==> s[i] == ' ' || s[i] == '\t')
    requires end < |s| ==> s[end] != ' ' && s[end] != '\t'
    ensures BlanksPast(s, at) == end
    decreases end - at
  {
    if at < end { BlanksEnd(s, at + 1, end); }
  }

  lemma SpelledExactly(text: string, mark: string)
    requires mark != "" && mark[0] == '#'
    ensures Spelled(text, BlanksPast(text, 0), mark) <==>
            exists indent, written, rest :: WritesMark(text, mark, indent, written, rest)
  {
    hide Upper, Capitals;
    var at := BlanksPast(text, 0);
    if Spelled(text, at, mark) {
      var to := at + |mark|;
      UpperExactly(text[at..to], mark);
      Parted(text, at, to, to);
      assert text[to..to] == "" && text == text[..at] + text[at..to] + text[to..];
      assert WritesMark(text, mark, text[..at], text[at..to], text[to..]);
    }
    if indent, written, rest :| WritesMark(text, mark, indent, written, rest) {
      MarkFirst(written, mark);
      FourParts(indent, written, rest, "");
      assert indent + written + rest + "" == text;
      assert text[|indent|] == written[0];
      assert forall i :: 0 <= i < |indent| ==> text[i] == text[..|indent|][i] && text[i] in indent;
      BlanksEnd(text, 0, |indent|);
      UpperExactly(written, mark);
    }
  }

  /** A line opens or closes a supplementary block exactly if it can be written so. */
  lemma MarksExactly(row: Row)
    ensures MarkOf(row) == Begin <==>
              exists indent, written, rest :: WritesMark(row.text, "#+BEGIN_EXTRA", indent, written, rest)
    ensures MarkOf(row) == End <==>
              exists indent, written, rest :: WritesMark(row.text, "#+END_EXTRA", indent, written, rest)
  {
    hide WritesMark, Spelled;
    SpelledExactly(row.text, "#+BEGIN_EXTRA");
    SpelledExactly(row.text, "#+END_EXTRA");
    NotBoth(row.text, BlanksPast(row.text, 0));
  }

  lemma NotBoth(text: string, at: nat)
    ensures !(Spelled(text, at, "#+BEGIN_EXTRA") && Spelled(text, at, "#+END_EXTRA"))
  {
    hide Upper, UpperChar;
    ThirdChar(text, at, "#+BEGIN_EXTRA");
    ThirdChar(text, at, "#+END_EXTRA");
  }

  lemma ThirdChar(text: string, at: nat, mark: string)
    requires |mark| > 2
    ensures Spelled(text, at, mark) ==> at + 2 < |text| && UpperChar(text[at + 2]) == mark[2]
  {
  }
}
