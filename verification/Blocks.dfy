/** Paired blocks of an Org body, and the collapse of blank-line runs outside them. */
module Blocks {
  import opened Basics
  import opened Lines

  // --------------------------------------------------------- delimiter lines

  predicate WordChar(c: char) {
    'a' <= c <= 'z' || 'A' <= c <= 'Z' || '0' <= c <= '9' || c == '_'
  }

  function UpperChar(c: char): char {
    if 'a' <= c <= 'z' then (c as int - 32) as char else c
  }

  function Upper(s: string): (r: string)
    ensures |r| == |s|
  {
    seq(|s|, i requires 0 <= i < |s| => UpperChar(s[i]))
  }

  function SpaceEnd(text: string, at: nat): (end: nat)
    requires at <= |text|
    ensures at <= end <= |text|
    ensures end < |text| ==> !AsciiSpace(text[end])
    decreases |text| - at
  {
    if at < |text| && AsciiSpace(text[at]) then SpaceEnd(text, at + 1) else at
  }

  function WordEnd(text: string, at: nat): (end: nat)
    requires at <= |text|
    ensures at <= end <= |text|
    decreases |text| - at
  {
    if at < |text| && WordChar(text[at]) then WordEnd(text, at + 1) else at
  }

  /** The mark stands at this place, without regard to case. */
  predicate Spelled(text: string, at: nat, mark: string) {
    at + |mark| <= |text| && Upper(text[at..at + |mark|]) == mark
  }

  const BEGIN_MARK := "#+BEGIN_"
  const END_MARK := "#+END_"

  /** The upper-cased name behind a delimiter mark that starts the line after white space. */
  function DelimiterName(text: string, mark: string): Option<string> {
    var at := SpaceEnd(text, 0);
    if !Spelled(text, at, mark) then None
    else
      var from := at + |mark|;
      var to := WordEnd(text, from);
      if to == from then None else Some(Upper(text[from..to]))
  }

  function BeginName(text: string): Option<string> {
    DelimiterName(text, BEGIN_MARK)
  }

  function EndName(text: string): Option<string> {
    DelimiterName(text, END_MARK)
  }

  /** A blank line is no delimiter. */
  lemma BlankPlain(text: string)
    requires Blank(text)
    ensures BeginName(text) == None && EndName(text) == None
  {
    var at := SpaceEnd(text, 0);
    if at < |text| {
      assert UnicodeSpace(text[at]);
      NotHash(text, at, BEGIN_MARK);
      NotHash(text, at, END_MARK);
    }
  }

  lemma NotHash(text: string, at: nat, mark: string)
    requires at < |text| && UnicodeSpace(text[at]) && mark != "" && mark[0] == '#'
    ensures !Spelled(text, at, mark)
  {
    if at + |mark| <= |text| {
      assert Upper(text[at..at + |mark|])[0] == UpperChar(text[at]) != '#';
    }
  }

  // -------------------------------------------------------------- the pairing

  datatype Block = Block(begin: nat, end: nat, name: string)

  /** The first line from j on that closes this name, or the number of lines. */
  function Closing(rows: seq<Row>, name: string, j: nat): (end: nat)
    requires j <= |rows|
    ensures j <= end <= |rows|
    ensures end < |rows| ==> EndName(rows[end].text) == Some(name)
    decreases |rows| - j
  {
    if j == |rows| || EndName(rows[j].text) == Some(name) then j else Closing(rows, name, j + 1)
  }

  /** The paired blocks whose opening lies at line i or later. */
  function PairsFrom(rows: seq<Row>, i: nat): seq<Block>
    requires i <= |rows|
    decreases |rows| - i
  {
    if i == |rows| then []
    else if BeginName(rows[i].text).None? then PairsFrom(rows, i + 1)
    else
      var name := BeginName(rows[i].text).value;
      var end := Closing(rows, name, i + 1);
      if end == |rows| then PairsFrom(rows, i + 1) else [Block(i, end, name)] + PairsFrom(rows, end + 1)
  }

  /** The first opening from line i on that is never closed, or the number of lines. */
  function OpenFrom(rows: seq<Row>, i: nat): (open: nat)
    requires i <= |rows|
    ensures i <= open <= |rows|
    decreases |rows| - i
  {
    if i == |rows| then i
    else if BeginName(rows[i].text).None? then OpenFrom(rows, i + 1)
    else
      var end := Closing(rows, BeginName(rows[i].text).value, i + 1);
      if end == |rows| then i else OpenFrom(rows, end + 1)
  }

  method FindClosing(rows: seq<Row>, name: string, from: nat) returns (end: nat)
    requires from <= |rows|
    ensures end == Closing(rows, name, from)
  {
    end := from;
    while end < |rows| && EndName(rows[end].text) != Some(name)
      invariant from <= end <= |rows| && Closing(rows, name, from) == Closing(rows, name, end)
    {
      end := end + 1;
    }
  }

  /** What one line adds to the pairing. */
  lemma PairsStep(rows: seq<Row>, i: nat)
    requires i < |rows|
    ensures BeginName(rows[i].text).None? ==>
              PairsFrom(rows, i) == PairsFrom(rows, i + 1) && OpenFrom(rows, i) == OpenFrom(rows, i + 1)
    ensures BeginName(rows[i].text).Some? ==>
              var name := BeginName(rows[i].text).value;
              var end := Closing(rows, name, i + 1);
              if end == |rows| then PairsFrom(rows, i) == PairsFrom(rows, i + 1) && OpenFrom(rows, i) == i
              else
                && PairsFrom(rows, i) == [Block(i, end, name)] + PairsFrom(rows, end + 1)
                && OpenFrom(rows, i) == OpenFrom(rows, end + 1)
  {
    hide BeginName, Closing;
  }

  lemma PairsEnd(rows: seq<Row>)
    ensures PairsFrom(rows, |rows|) == [] && OpenFrom(rows, |rows|) == |rows|
  {
  }

  /** Pairs the delimiters; undefinedFrom is the number of lines when every opening closes. */
  method PairedBlocks(rows: seq<Row>) returns (blocks: seq<Block>, undefinedFrom: nat)
    ensures blocks == PairsFrom(rows, 0) && undefinedFrom == OpenFrom(rows, 0)
  {
    hide BeginName, EndName, PairsFrom, OpenFrom, Closing;
    blocks, undefinedFrom := [], |rows|;
    var i := 0;
    PairsEnd(rows);
    while i < |rows|
      invariant 0 <= i <= |rows|
      invariant PairsFrom(rows, 0) == blocks + PairsFrom(rows, i)
      invariant OpenFrom(rows, 0) == if undefinedFrom == |rows| then OpenFrom(rows, i) else undefinedFrom
    {
      PairsStep(rows, i);
      var name := BeginName(rows[i].text);
      if name.None? {
        i := i + 1;
        continue;
      }
      var end := FindClosing(rows, name.value, i + 1);
      if end == |rows| {
        if undefinedFrom == |rows| { undefinedFrom := i; }
        i := i + 1;
      } else {
        blocks := blocks + [Block(i, end, name.value)];
        i := end + 1;
      }
    }
  }

  /** Blocks come in order, do not touch each other, and each is opened and closed by its
      own delimiter lines. */
  ghost predicate Proper(rows: seq<Row>, blocks: seq<Block>, from: nat) {
    && (forall k :: 0 <= k < |blocks| ==> Delimited(rows, blocks[k]) && from <= blocks[k].begin)
    && (forall k, l :: 0 <= k < l < |blocks| ==> blocks[k].end < blocks[l].begin)
  }

  ghost predicate Delimited(rows: seq<Row>, b: Block) {
    b.begin < b.end < |rows| && BeginName(rows[b.begin].text) == Some(b.name)
      && EndName(rows[b.end].text) == Some(b.name)
  }

  lemma ProperLater(rows: seq<Row>, blocks: seq<Block>, from: nat, earlier: nat)
    requires Proper(rows, blocks, from) && earlier <= from
    ensures Proper(rows, blocks, earlier)
  {
  }

  lemma ProperCons(rows: seq<Row>, b: Block, rest: seq<Block>, from: nat)
    requires Delimited(rows, b) && from <= b.begin && Proper(rows, rest, b.end + 1)
    ensures Proper(rows, [b] + rest, from)
  {
    hide Delimited;
    var blocks := [b] + rest;
    assert forall k :: 1 <= k < |blocks| ==> blocks[k] == rest[k - 1];
    assert b.begin < b.end by { DelimitedBounds(rows, b); }
  }

  lemma DelimitedBounds(rows: seq<Row>, b: Block)
    requires Delimited(rows, b)
    ensures b.begin < b.end < |rows|
  {
  }

  lemma {:induction false} PairsProper(rows: seq<Row>, i: nat)
    requires i <= |rows|
    ensures Proper(rows, PairsFrom(rows, i), i)
    decreases |rows| - i
  {
    hide BeginName, EndName, PairsFrom, OpenFrom, Proper;
    if i == |rows| {
      PairsEnd(rows);
      ProperNone(rows, i);
    } else {
      PairsStep(rows, i);
      PairsProper(rows, i + 1);
      ProperLater(rows, PairsFrom(rows, i + 1), i + 1, i);
      if BeginName(rows[i].text).Some? {
        var name := BeginName(rows[i].text).value;
        var end := Closing(rows, name, i + 1);
        if end < |rows| {
          PairsProper(rows, end + 1);
          ProperCons(rows, Block(i, end, name), PairsFrom(rows, end + 1), i);
        }
      }
    }
  }

  lemma ProperNone(rows: seq<Row>, from: nat)
    ensures Proper(rows, [], from)
  {
  }

  predicate Inside(blocks: seq<Block>, i: nat) {
    exists k :: 0 <= k < |blocks| && blocks[k].begin < i < blocks[k].end
  }

  // ------------------------------------------------- dropping plain lines

  /** How many of the first i lines stay. */
  function Place(keep: seq<bool>, i: nat): (n: nat)
    requires i <= |keep|
    ensures n <= i
  {
    if i == 0 then 0 else Place(keep, i - 1) + if keep[i - 1] then 1 else 0
  }

  function Filtered(rows: seq<Row>, keep: seq<bool>, i: nat): (r: seq<Row>)
    requires |keep| == |rows| && i <= |rows|
    ensures |r| == Place(keep, i)
  {
    if i == 0 then [] else Filtered(rows, keep, i - 1) + if keep[i - 1] then [rows[i - 1]] else []
  }

  lemma {:induction false} PlaceGrows(keep: seq<bool>, i: nat, j: nat)
    requires i <= j <= |keep|
    ensures Place(keep, i) <= Place(keep, j)
    ensures i < j && keep[i] ==> Place(keep, i) < Place(keep, j)
  {
    if i < j { PlaceGrows(keep, i, j - 1); }
  }

  lemma PlaceNext(keep: seq<bool>, i: nat)
    requires i < |keep|
    ensures Place(keep, i + 1) == Place(keep, i) + if keep[i] then 1 else 0
  {
  }

  lemma {:induction false} FilteredAt(rows: seq<Row>, keep: seq<bool>, i: nat, n: nat)
    requires |keep| == |rows| && i < n <= |rows| && keep[i]
    ensures Place(keep, i) < Place(keep, n)
    ensures Filtered(rows, keep, n)[Place(keep, i)] == rows[i]
  {
    PlaceGrows(keep, i, n);
    if i < n - 1 { FilteredAt(rows, keep, i, n - 1); }
  }

  /** Dropping lines leaves lines that splitting could have produced. */
  lemma {:induction false} FilteredSplit(rows: seq<Row>, keep: seq<bool>, n: nat)
    requires |keep| == |rows| && n <= |rows| && SplitRows(rows)
    ensures SplitRows(Filtered(rows, keep, n))
    ensures n < |rows| ==> forall i :: 0 <= i < |Filtered(rows, keep, n)| ==> Filtered(rows, keep, n)[i].newline
  {
    if n > 0 {
      FilteredSplit(rows, keep, n - 1);
    }
  }

  /** Only lines that are no delimiters are dropped. */
  ghost predicate KeepsDelimiters(rows: seq<Row>, keep: seq<bool>) {
    |keep| == |rows| && forall i :: 0 <= i < |rows| && !keep[i] ==>
      BeginName(rows[i].text).None? && EndName(rows[i].text).None?
  }

  /** The blocks at the new places of their lines. */
  function Moved(blocks: seq<Block>, keep: seq<bool>): (r: seq<Block>)
    ensures |r| == |blocks|
    ensures forall k :: 0 <= k < |blocks| ==> r[k] == MovedOne(blocks[k], keep)
  {
    seq(|blocks|, k requires 0 <= k < |blocks| => MovedOne(blocks[k], keep))
  }

  function MovedOne(b: Block, keep: seq<bool>): Block {
    if b.begin <= |keep| && b.end <= |keep| then Block(Place(keep, b.begin), Place(keep, b.end), b.name) else b
  }

  lemma MovedCons(b: Block, rest: seq<Block>, keep: seq<bool>)
    ensures Moved([b] + rest, keep) == [MovedOne(b, keep)] + Moved(rest, keep)
  {
  }

  lemma {:induction false} ClosingMoves(rows: seq<Row>, keep: seq<bool>, name: string, j: nat)
    requires KeepsDelimiters(rows, keep) && j <= |rows|
    ensures Place(keep, j) <= Place(keep, |rows|)
    ensures Closing(Filtered(rows, keep, |rows|), name, Place(keep, j)) == Place(keep, Closing(rows, name, j))
    ensures Closing(rows, name, j) < |rows| ==> keep[Closing(rows, name, j)]
    decreases |rows| - j
  {
    hide EndName, BeginName;
    PlaceGrows(keep, j, |rows|);
    if j < |rows| {
      if keep[j] { FilteredAt(rows, keep, j, |rows|); }
      if EndName(rows[j].text) != Some(name) { ClosingMoves(rows, keep, name, j + 1); }
    }
  }

  /** Pairing what is left gives the same blocks, in the same order, at their new places. */
  lemma {:induction false} PairsMove(rows: seq<Row>, keep: seq<bool>, i: nat)
    requires KeepsDelimiters(rows, keep) && i <= |rows|
    ensures Place(keep, i) <= Place(keep, |rows|)
    ensures PairsFrom(Filtered(rows, keep, |rows|), Place(keep, i)) == Moved(PairsFrom(rows, i), keep)
    ensures OpenFrom(Filtered(rows, keep, |rows|), Place(keep, i)) == Place(keep, OpenFrom(rows, i))
    decreases |rows| - i
  {
    hide EndName, BeginName, PairsFrom, OpenFrom, Closing, Moved, Filtered;
    PlaceGrows(keep, i, |rows|);
    var left := Filtered(rows, keep, |rows|);
    if i == |rows| {
      PairsEnd(rows);
      PairsEnd(left);
      assert Moved([], keep) == [];
    } else {
      PairsStep(rows, i);
      PairsMove(rows, keep, i + 1);
      if keep[i] {
        FilteredAt(rows, keep, i, |rows|);
        PairsStep(left, Place(keep, i));
        if BeginName(rows[i].text).Some? {
          BlockMoves(rows, keep, i);
          var end := Closing(rows, BeginName(rows[i].text).value, i + 1);
          if end < |rows| {
            PairsMove(rows, keep, end + 1);
            MovedCons(Block(i, end, BeginName(rows[i].text).value), PairsFrom(rows, end + 1), keep);
          }
        }
      }
    }
  }

  /** An opening that stays closes at the new place of its closing line. */
  lemma BlockMoves(rows: seq<Row>, keep: seq<bool>, i: nat)
    requires KeepsDelimiters(rows, keep) && i < |rows| && keep[i] && BeginName(rows[i].text).Some?
    ensures var left := Filtered(rows, keep, |rows|);
            var name := BeginName(rows[i].text).value;
            var end := Closing(rows, name, i + 1);
      && Place(keep, i) + 1 == Place(keep, i + 1) <= |left|
      && Closing(left, name, Place(keep, i) + 1) == Place(keep, end)
      && (end < |rows| ==> Place(keep, end) < |left| && Place(keep, end) + 1 == Place(keep, end + 1))
  {
    hide EndName, BeginName;
    var name := BeginName(rows[i].text).value;
    var end := Closing(rows, name, i + 1);
    ClosingMoves(rows, keep, name, i + 1);
    if end < |rows| { PlaceGrows(keep, end, |rows|); }
  }
}
