/** Reading one line as an arrow line (readArrowLine, internal/anki/orgdoc/swift.go).

    Text is counted in characters here; the source counts bytes, and all its cut
    points in a line fall between characters. */
module ArrowLines {
  import opened Basics
  import opened Lines

  datatype Token = Rightward | Leftward | Both

  function TokenText(t: Token): (s: string)
    ensures |s| >= 3
  {
    match t
    case Rightward => ":->"
    case Leftward => ":<-"
    case Both => ":<->"
  }

  predicate StartsWith(s: string, p: string) {
    |p| <= |s| && s[..|p|] == p
  }

  /** arrowTokenPattern at the start of s. */
  predicate IsToken(s: string) {
    StartsWith(s, ":<->") || StartsWith(s, ":->") || StartsWith(s, ":<-")
  }

  /** The token of `(:<->|:->|:<-)\s*(.+)` at the start of s: the first alternative
      that still leaves the right side a character. */
  function TokenBefore(s: string): Option<Token> {
    if StartsWith(s, ":<->") && |s| > 4 then Some(Both)
    else if StartsWith(s, ":->") && |s| > 3 then Some(Rightward)
    else if StartsWith(s, ":<-") && |s| > 3 then Some(Leftward)
    else None
  }

  function SpaceRun(s: string): (n: nat)
    ensures n <= |s|
    ensures forall i :: 0 <= i < n ==> AsciiSpace(s[i])
    ensures n < |s| ==> !AsciiSpace(s[n])
  {
    if s != "" && AsciiSpace(s[0]) then 1 + SpaceRun(s[1..]) else 0
  }

  /** A match of arrowLinePattern: the left group is text[..left], the token
      starts at token, and the right group runs from right to the end. */
  datatype Match = Match(left: nat, token: nat, kind: Token, right: nat)

  predicate MatchIn(text: string, m: Match) {
    && 1 <= m.left <= m.token && m.token + |TokenText(m.kind)| <= m.right < |text|
    && TokenBefore(text[m.token..]) == Some(m.kind)
    && (forall i :: m.left <= i < m.token ==> AsciiSpace(text[i]))
    && (forall i :: m.token + |TokenText(m.kind)| <= i < m.right ==> AsciiSpace(text[i]))
  }

  lemma TokenThere(s: string)
    requires TokenBefore(s).Some?
    ensures StartsWith(s, TokenText(TokenBefore(s).value)) && |s| > |TokenText(TokenBefore(s).value)|
    ensures IsToken(s) && s[0] == ':'
  {
  }

  /** The regular expression's own search: the shortest left side, from length left on,
      after which only white space stands before a token with something behind it. */
  function MatchFrom(text: string, left: nat): (m: Option<Match>)
    requires 1 <= left
    ensures m.Some? ==> left <= m.value.left && MatchIn(text, m.value)
    decreases |text| - left
  {
    if left > |text| then None else
    var token := left + SpaceRun(text[left..]);
    match TokenBefore(text[token..])
    case Some(kind) =>
      TokenThere(text[token..]);
      var after := token + |TokenText(kind)|;
      var skip := SpaceRun(text[after..]);
      Some(Match(left, token, kind, if after + skip < |text| then after + skip else |text| - 1))
    case None => MatchFrom(text, left + 1)
  }

  function FirstToken(text: string, from: nat): (p: nat)
    requires from <= |text|
    ensures from <= p <= |text|
    ensures p < |text| ==> IsToken(text[p..])
    ensures forall i :: from <= i < p ==> !IsToken(text[i..])
    decreases |text| - from
  {
    if from == |text| || IsToken(text[from..]) then from else FirstToken(text, from + 1)
  }

  /** trimmedSpan: text[start..end] without the Unicode white space around it. */
  function TrimLeft(text: string, start: nat, end: nat): (r: nat)
    requires start <= end <= |text|
    ensures start <= r <= end
    ensures forall i :: start <= i < r ==> UnicodeSpace(text[i])
    ensures r < end ==> !UnicodeSpace(text[r])
    decreases end - start
  {
    if start < end && UnicodeSpace(text[start]) then TrimLeft(text, start + 1, end) else start
  }

  function TrimRight(text: string, start: nat, end: nat): (r: nat)
    requires start <= end <= |text|
    ensures start <= r <= end
    ensures forall i :: r <= i < end ==> UnicodeSpace(text[i])
    ensures start < r ==> !UnicodeSpace(text[r - 1])
    decreases end - start
  {
    if start < end && UnicodeSpace(text[end - 1]) then TrimRight(text, start, end - 1) else end
  }

  datatype Arrow = Arrow(line: nat, lineEnd: nat, token: Token,
                         leftStart: nat, leftEnd: nat, tokenStart: nat, tokenEnd: nat, rightStart: nat, rightEnd: nat)

  /** An arrow line as offsets into the text whose line number `line` is ln. */
  function ReadArrowLine(ln: Line, line: nat): Option<Arrow> {
    match MatchFrom(ln.text, 1)
    case None => None
    case Some(m) =>
      if FirstToken(ln.text, 0) != m.token then None else
      var leftStart := TrimLeft(ln.text, 0, m.left);
      var leftEnd := TrimRight(ln.text, leftStart, m.left);
      var rightStart := TrimLeft(ln.text, m.right, |ln.text|);
      var rightEnd := TrimRight(ln.text, rightStart, |ln.text|);
      if leftStart == leftEnd || rightStart == rightEnd then None else
      var s := ln.start;
      Some(Arrow(line, ln.end, m.kind, s + leftStart, s + leftEnd, s + m.token,
                 s + m.token + |TokenText(m.kind)|, s + rightStart, s + rightEnd))
  }

  // ------------------------------------------------- what the expression means

  lemma NoTokenAtSpace(text: string, p: nat)
    requires p < |text| && AsciiSpace(text[p])
    ensures TokenBefore(text[p..]).None?
  {
    if TokenBefore(text[p..]).Some? { TokenThere(text[p..]); }
  }

  lemma SpacesHoldNoToken(text: string, left: nat)
    requires left <= |text|
    ensures forall p :: left <= p < left + SpaceRun(text[left..]) ==> TokenBefore(text[p..]).None?
  {
    hide TokenBefore, AsciiSpace;
    forall p | left <= p < left + SpaceRun(text[left..]) ensures TokenBefore(text[p..]).None? {
      assert text[p] == text[left..][p - left];
      NoTokenAtSpace(text, p);
    }
  }

  lemma {:induction false} MatchFinds(text: string, left: nat, p: nat)
    requires 1 <= left <= p < |text| && TokenBefore(text[p..]).Some?
    ensures MatchFrom(text, left).Some? && MatchFrom(text, left).value.token <= p
    decreases p - left
  {
    hide TokenBefore, AsciiSpace, MatchIn, MatchFrom, SpaceRun;
    SpacesHoldNoToken(text, left);
    MatchNext(text, left);
    var token := left + SpaceRun(text[left..]);
    if TokenBefore(text[token..]).None? { MatchFinds(text, left + 1, p); }
  }

  lemma MatchNext(text: string, left: nat)
    requires 1 <= left <= |text|
    ensures var token := left + SpaceRun(text[left..]);
      if TokenBefore(text[token..]).Some? then MatchFrom(text, left).Some? && MatchFrom(text, left).value.token == token
      else MatchFrom(text, left) == MatchFrom(text, left + 1)
  {
    hide TokenBefore, AsciiSpace, MatchIn, SpaceRun;
  }

  lemma FirstTokenIs(text: string, from: nat, p: nat)
    requires from <= p < |text| && IsToken(text[p..])
    requires forall i :: from <= i < p ==> !IsToken(text[i..])
    ensures FirstToken(text, from) == p
  {
    hide IsToken;
  }

  predicate BlankBetween(text: string, from: nat, to: nat)
    requires from <= to <= |text|
  {
    forall i :: from <= i < to ==> UnicodeSpace(text[i])
  }

  /** The first token of a line has something but white space on each hand. */
  predicate TwoSided(text: string) {
    var p := FirstToken(text, 0);
    && p < |text|
    && TokenBefore(text[p..]).Some?
    && !BlankBetween(text, 0, p)
    && (TokenThere(text[p..]);
        !BlankBetween(text, p + |TokenText(TokenBefore(text[p..]).value)|, |text|))
  }

  lemma SpacesBlank(text: string, from: nat, to: nat)
    requires from <= to <= |text|
    requires forall i :: from <= i < to ==> AsciiSpace(text[i])
    ensures BlankBetween(text, from, to)
  {
  }

  /** The token of an arrow line is the first of the line, in the longest form that
      leaves the right side a character; the trimmed sides run up to it and from it. */
  lemma ArrowLineParts(ln: Line, line: nat)
    requires ReadArrowLine(ln, line).Some?
    ensures var a, p := ReadArrowLine(ln, line).value, FirstToken(ln.text, 0);
            && p < |ln.text| && a.line == line && a.lineEnd == ln.end
            && a.tokenStart == ln.start + p && Some(a.token) == TokenBefore(ln.text[p..])
            && a.tokenEnd == a.tokenStart + |TokenText(a.token)|
            && ln.start <= a.leftStart < a.leftEnd <= a.tokenStart
            && a.tokenEnd <= a.rightStart < a.rightEnd <= ln.start + |ln.text|
            && BlankBetween(ln.text, 0, a.leftStart - ln.start) && BlankBetween(ln.text, a.leftEnd - ln.start, p)
            && BlankBetween(ln.text, a.tokenEnd - ln.start, a.rightStart - ln.start)
            && BlankBetween(ln.text, a.rightEnd - ln.start, |ln.text|)
            && !UnicodeSpace(ln.text[a.leftStart - ln.start]) && !UnicodeSpace(ln.text[a.rightStart - ln.start])
            && !UnicodeSpace(ln.text[a.leftEnd - 1 - ln.start]) && !UnicodeSpace(ln.text[a.rightEnd - 1 - ln.start])
  {
    hide TokenBefore, IsToken, UnicodeSpace, AsciiSpace, MatchFrom, TrimLeft, TrimRight, FirstToken, TokenText;
    var text := ln.text;
    var m := MatchFrom(text, 1).value;
    SpacesBlank(text, m.left, m.token);
    SpacesBlank(text, m.token + |TokenText(m.kind)|, m.right);
  }

  lemma ArrowLineSound(ln: Line, line: nat)
    requires ReadArrowLine(ln, line).Some?
    ensures TwoSided(ln.text)
  {
    hide TokenBefore, UnicodeSpace, ReadArrowLine, FirstToken, TokenText;
    ArrowLineParts(ln, line);
    var a := ReadArrowLine(ln, line).value;
    TokenThere(ln.text[FirstToken(ln.text, 0)..]);
  }

  lemma ArrowLineComplete(ln: Line, line: nat)
    requires TwoSided(ln.text)
    ensures ReadArrowLine(ln, line).Some?
  {
    hide IsToken, UnicodeSpace, AsciiSpace, TokenBefore, TokenText, ReadArrowLine, MatchFrom, FirstToken;
    var text := ln.text;
    var p := FirstToken(text, 0);
    TokenThere(text[p..]);
    var j :| 0 <= j < p && !UnicodeSpace(text[j]);
    MatchFinds(text, 1, p);
    var m := MatchFrom(text, 1).value;
    TokenThere(text[m.token..]);
    assert m.token == p;
    var i :| p + |TokenText(m.kind)| <= i < |text| && !UnicodeSpace(text[i]);
    SidesRemain(ln, line, m, j, i);
  }

  /** A match at the first token whose sides both keep a character. */
  lemma SidesRemain(ln: Line, line: nat, m: Match, j: nat, i: nat)
    requires MatchFrom(ln.text, 1) == Some(m) && FirstToken(ln.text, 0) == m.token
    requires j < m.token && !UnicodeSpace(ln.text[j])
    requires m.token + |TokenText(m.kind)| <= i < |ln.text| && !UnicodeSpace(ln.text[i])
    ensures ReadArrowLine(ln, line).Some?
  {
    hide IsToken, UnicodeSpace, AsciiSpace, TokenBefore, TokenText, MatchFrom, FirstToken;
    var text := ln.text;
    SpacesBlank(text, m.left, m.token);
    SpacesBlank(text, m.token + |TokenText(m.kind)|, m.right);
    assert j < m.left && m.right <= i;
  }

  /** The two-way arrow where it is found: it is the leftward one when nothing follows. */
  lemma BothBefore(rest: string)
    ensures IsToken(":<->" + rest)
    ensures TokenBefore(":<->" + rest) == Some(if rest == "" then Leftward else Both)
  {
    var s := ":<->" + rest;
    assert s[..4] == ":<->" && s[..3] == ":<-";
    assert s[1] == '<' && ":->"[1] == '-';
  }

  lemma BlankPart(a: string, b: string, c: string)
    ensures BlankBetween(a + b + c, 0, |a|) <==> Blank(a)
    ensures BlankBetween(a + b + c, |a| + |b|, |a + b + c|) <==> Blank(c)
  {
    var s := a + b + c;
    assert forall i :: 0 <= i < |a| ==> s[i] == a[i];
    assert forall i :: 0 <= i < |c| ==> s[|a| + |b| + i] == c[i];
    if BlankBetween(s, |a| + |b|, |s|) {
      forall i | 0 <= i < |c| ensures UnicodeSpace(c[i]) { assert UnicodeSpace(s[|a| + |b| + i]); }
    }
  }

  /** The surprise of the ordered alternation, exactly: a line whose first token is `:<->` is
      an arrow line when both its sides have text or when it ends right behind the token, and
      in that last case alone it is read as `:<-` with a stray `>` as its right side. */
  lemma BothReadLeftward(left: string, rest: string, ln: Line, line: nat)
    requires ln.text == left + ":<->" + rest
    requires forall i :: 0 <= i < |left| ==> !IsToken(ln.text[i..])
    ensures var a := ReadArrowLine(ln, line);
            && (a.Some? <==> !Blank(left) && (rest == "" || !Blank(rest)))
            && (a.Some? ==> a.value.token == if rest == "" then Leftward else Both)
            && (a.Some? && rest == "" ==> ln.text[a.value.rightStart - ln.start..a.value.rightEnd - ln.start] == ">")
  {
    hide MatchFrom, IndentOf, Blank, IsToken, TokenBefore, ReadArrowLine, FirstToken, UnicodeSpace;
    var text, p := ln.text, |left|;
    assert text[p..] == ":<->" + rest;
    BothBefore(rest);
    FirstTokenIs(text, 0, p);
    BlankPart(left, ":<->", rest);
    if rest == "" {
      assert text == left + ":<-" + ">";
      BlankPart(left, ":<-", ">");
      assert !Blank(">") by { SolidTip(); }
    }
    assert TwoSided(text) <==> !Blank(left) && (rest == "" || !Blank(rest));
    if TwoSided(text) { ArrowLineComplete(ln, line); }
    if ReadArrowLine(ln, line).Some? {
      ArrowLineSound(ln, line);
      ArrowLineParts(ln, line);
      if rest == "" { StrayTip(ln, ReadArrowLine(ln, line).value, p); }
    }
  }

  lemma SolidTip()
    ensures !Blank(">")
  {
    assert !UnicodeSpace(">"[0]);
  }

  /** Between the leftward token and the end of the line only the last character is left. */
  lemma StrayTip(ln: Line, a: Arrow, p: nat)
    requires |ln.text| == p + 4 && ln.text[p + 3] == '>'
    requires a.tokenEnd == ln.start + p + 3 <= a.rightStart < a.rightEnd <= ln.start + |ln.text|
    ensures ln.text[a.rightStart - ln.start..a.rightEnd - ln.start] == ">"
  {
  }

  /** The leftward arrow in front of a text that goes on from a `>` turns into the two-way one. */
  predicate Merges(t: Token, right: string) {
    t == Leftward && |right| > 1 && right[0] == '>'
  }

  lemma TokenAhead(t: Token, right: string)
    requires right != ""
    ensures IsToken(TokenText(t) + right)
    ensures TokenBefore(TokenText(t) + right) == Some(if Merges(t, right) then Both else t)
  {
    var s := TokenText(t) + right;
    assert s[..3] == TokenText(t)[..3];
    if t == Both { assert s[..4] == ":<->"; }
    if t == Leftward && right[0] == '>' { assert s[..4] == ":<->"; }
    assert t != Rightward ==> s[1] == '<';
    assert t == Rightward ==> s[1] == '-';
    if t == Leftward && right[0] != '>' { assert s[3] != '>' && ":<->"[3] == '>'; }
  }

  function TokenLength(s: string): nat {
    if StartsWith(s, ":<->") then 4 else 3
  }

  /** A token holds no colon but its first character. */
  lemma OneColon(s: string, x: nat)
    requires IsToken(s) && 0 < x < |s| && s[x] == ':'
    ensures TokenLength(s) <= x
  {

  }

  lemma TokenStays(left: string, x: string, y: string, i: nat)
    requires i < |left| && IsToken((left + x)[i..]) && i + TokenLength((left + x)[i..]) <= |left|
    ensures IsToken((left + y)[i..])
  {
    var s, s', k := (left + x)[i..], (left + y)[i..], TokenLength((left + x)[i..]);
    assert s == left[i..] + x && s' == left[i..] + y;
    assert s'[..k] == left[i..][..k] == s[..k];
  }

  /** No token of the left side grows into the arrow behind it. */
  lemma NoneEarlier(left: string, t: Token, u: Token, right: string, i: nat)
    requires i < |left| && IsToken((left + TokenText(t) + right)[i..])
    ensures IsToken((left + TokenText(u) + right)[i..])
  {
    hide IsToken, TokenLength;
    var s := left + TokenText(t) + right;
    assert s[|left|] == ':' && s[i..][|left| - i] == ':';
    OneColon(s[i..], |left| - i);
    assert s == left + (TokenText(t) + right) && left + TokenText(u) + right == left + (TokenText(u) + right);
    TokenStays(left, TokenText(t) + right, TokenText(u) + right, i);
  }

  lemma StillFirst(left: string, t: Token, u: Token, right: string, text: string)
    requires forall i :: 0 <= i < |left| ==> !IsToken((left + TokenText(t) + right)[i..])
    requires text == left + TokenText(u) + right
    ensures forall i :: 0 <= i < |left| ==> !IsToken(text[i..])
  {
    hide IsToken, TokenText;
    forall i | 0 <= i < |left| ensures !IsToken(text[i..]) {
      if IsToken(text[i..]) {
        NoneEarlier(left, u, t, right, i);
        assert false;
      }
    }
  }

  /** Another arrow in the place of a line's first one: the line stays an arrow line, with the
      new arrow between the same sides, exactly when the new arrow does not merge with the
      text behind it; a merged one is read as two-way, if text is left behind it. */
  lemma RetokenedLine(left: string, t: Token, right: string, u: Token, ln: Line, line: nat)
    requires !Blank(left) && !Blank(right)
    requires forall i :: 0 <= i < |left| ==> !IsToken((left + TokenText(t) + right)[i..])
    requires ln.text == left + TokenText(u) + right
    ensures var a := ReadArrowLine(ln, line);
            && (a.Some? <==> !Merges(u, right) || !Blank(right[1..]))
            && (a.Some? ==> a.value.tokenStart == ln.start + |left| && a.value.token == if Merges(u, right) then Both
                else u)
  {
    hide MatchFrom, IndentOf, Blank, IsToken, TokenBefore, ReadArrowLine, FirstToken, UnicodeSpace, TokenText;
    var text, p := ln.text, |left|;
    assert right != "" by { EmptyBlank(); }
    StillFirst(left, t, u, right, text);
    assert text[p..] == TokenText(u) + right;
    TokenAhead(u, right);
    FirstTokenIs(text, 0, p);
    BlankPart(left, TokenText(u), right);
    if Merges(u, right) { MergedSides(left, right); }
    assert TwoSided(text) <==> !Merges(u, right) || !Blank(right[1..]);
    if TwoSided(text) { ArrowLineComplete(ln, line); }
    if ReadArrowLine(ln, line).Some? {
      ArrowLineSound(ln, line);
      ArrowLineParts(ln, line);
    }
  }

  lemma EmptyBlank()
    ensures Blank("")
  {
  }

  lemma MergedSides(left: string, right: string)
    requires |right| > 1 && right[0] == '>'
    ensures TokenText(Leftward) == ":<-" && TokenText(Both) == ":<->"
    ensures var text := left + ":<-" + right;
      BlankBetween(text, |left| + 4, |text|) <==> Blank(right[1..])
  {
    assert left + ":<-" + right == left + ":<->" + right[1..];
    BlankPart(left, ":<->", right[1..]);
  }
}
