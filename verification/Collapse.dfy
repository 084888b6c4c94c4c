/** The collapse of blank-line runs: what it drops, what it copies, and that it commutes
    with the pairing of blocks. */
module Collapse {
  import opened Basics
  import opened Lines
  import opened Blocks

  /** Blank, outside every block interior, and before any opening that is never closed. */
  predicate Collapsible(rows: seq<Row>, i: nat)
    requires i < |rows|
  {
    Blank(rows[i].text) && !Inside(PairsFrom(rows, 0), i) && i < OpenFrom(rows, 0)
  }

  /** A line stays unless it and the line before it are both collapsible. */
  predicate Stays(rows: seq<Row>, i: nat)
    requires i < |rows|
  {
    !(i > 0 && Collapsible(rows, i) && Collapsible(rows, i - 1))
  }

  function Keep(rows: seq<Row>): (keep: seq<bool>)
    ensures |keep| == |rows|
    ensures forall i :: 0 <= i < |rows| ==> keep[i] == Stays(rows, i)
  {
    seq(|rows|, i requires 0 <= i < |rows| => Stays(rows, i))
  }

  function Collapsed(rows: seq<Row>): seq<Row> {
    Filtered(rows, Keep(rows), |rows|)
  }

  function CollapsedText(body: string): string {
    Join(Collapsed(Rows(LinesOf(body))))
  }

  lemma KeepKeepsDelimiters(rows: seq<Row>)
    ensures KeepsDelimiters(rows, Keep(rows))
  {
    hide BeginName, EndName, PairsFrom, OpenFrom, Inside, Blank;
    forall i | 0 <= i < |rows| && !Keep(rows)[i]
      ensures BeginName(rows[i].text).None? && EndName(rows[i].text).None?
    {
      BlankPlain(rows[i].text);
    }
  }

  /** The collapsed body pairs to the same blocks in the same order, each at the new places
      of its two lines, and leaves the same opening unclosed. */
  lemma CollapseKeepsPairs(rows: seq<Row>)
    ensures PairsFrom(Collapsed(rows), 0) == Moved(PairsFrom(rows, 0), Keep(rows))
    ensures OpenFrom(Collapsed(rows), 0) == Place(Keep(rows), OpenFrom(rows, 0))
  {
    hide PairsFrom, OpenFrom, Keep, Filtered;
    KeepKeepsDelimiters(rows);
    PairsMove(rows, Keep(rows), 0);
  }

  lemma DelimiterStays(rows: seq<Row>, i: nat)
    requires i < |rows| && (BeginName(rows[i].text).Some? || EndName(rows[i].text).Some?)
    ensures Keep(rows)[i]
  {
    hide BeginName, EndName, PairsFrom, OpenFrom, Inside, Blank;
    if Blank(rows[i].text) { BlankPlain(rows[i].text); }
  }

  /** Being inside a block survives the move of a line that stays. */
  lemma InsideMoves(rows: seq<Row>, i: nat)
    requires i < |rows| && Keep(rows)[i]
    ensures Inside(Moved(PairsFrom(rows, 0), Keep(rows)), Place(Keep(rows), i)) <==> Inside(PairsFrom(rows, 0), i)
  {
    hide BeginName, EndName, PairsFrom, OpenFrom, Keep, Place;
    var keep, blocks := Keep(rows), PairsFrom(rows, 0);
    PairsProper(rows, 0);
    forall k | 0 <= k < |blocks|
      ensures (Moved(blocks, keep)[k].begin < Place(keep, i) <==> blocks[k].begin < i)
      ensures (Place(keep, i) < Moved(blocks, keep)[k].end <==> i < blocks[k].end)
    {
      var b := blocks[k];
      assert Delimited(rows, b);
      DelimiterStays(rows, b.begin);
      if b.begin < i { PlaceGrows(keep, b.begin, i); } else { PlaceGrows(keep, i, b.begin); }
      if i < b.end { PlaceGrows(keep, i, b.end); } else { PlaceGrows(keep, b.end, i); }
    }
  }

  /** A line that stays is collapsible afterwards exactly when it was before. */
  lemma CollapsibleMoves(rows: seq<Row>, i: nat)
    requires i < |rows| && Keep(rows)[i]
    ensures Place(Keep(rows), i) < |Collapsed(rows)| && Collapsed(rows)[Place(Keep(rows), i)] == rows[i]
    ensures Collapsible(Collapsed(rows), Place(Keep(rows), i)) <==> Collapsible(rows, i)
  {
    hide PairsFrom, OpenFrom, Keep, Place, Inside, Filtered;
    var keep := Keep(rows);
    FilteredAt(rows, keep, i, |rows|);
    InsideMoves(rows, i);
    CollapseKeepsPairs(rows);
    var open := OpenFrom(rows, 0);
    if i < open { PlaceGrows(keep, i, open); } else { PlaceGrows(keep, open, i); }
  }

  /** The line that a place of the collapsed body comes from. */
  lemma {:induction false} Origin(keep: seq<bool>, n: nat, p: nat) returns (i: nat)
    requires n <= |keep| && p < Place(keep, n)
    ensures i < n && keep[i] && Place(keep, i) == p
  {
    if keep[n - 1] && Place(keep, n - 1) == p {
      i := n - 1;
    } else {
      i := Origin(keep, n - 1, p);
    }
  }

  /** Between two neighbouring places every line was dropped. */
  lemma {:induction false} NothingBetween(keep: seq<bool>, i: nat, j: nat, k: nat)
    requires i < k < j <= |keep| && keep[i] && Place(keep, i) + 1 == Place(keep, j)
    ensures !keep[k]
  {
    PlaceGrows(keep, i, k);
    PlaceGrows(keep, k, j);
  }

  /** No two neighbouring lines of the collapsed body are both collapsible. */
  lemma NoRunsLeft(rows: seq<Row>, p: nat)
    requires 0 < p < |Collapsed(rows)|
    ensures !(Collapsible(Collapsed(rows), p) && Collapsible(Collapsed(rows), p - 1))
  {
    hide PairsFrom, OpenFrom, Place, Inside, Filtered, Collapsible;
    var keep := Keep(rows);
    var i := Origin(keep, |rows|, p);
    var j := Origin(keep, |rows|, p - 1);
    CollapsibleMoves(rows, i);
    CollapsibleMoves(rows, j);
    if i < j { PlaceGrows(keep, i, j); }
    if j < i - 1 { NothingBetween(keep, j, i, i - 1); }
  }

  lemma {:induction false} FilteredAll(rows: seq<Row>, keep: seq<bool>, n: nat)
    requires |keep| == |rows| && n <= |rows| && forall i :: 0 <= i < n ==> keep[i]
    ensures Filtered(rows, keep, n) == rows[..n]
  {
    if n > 0 { FilteredAll(rows, keep, n - 1); }
  }

  /** Collapsing again changes nothing. */
  lemma CollapseIdempotent(rows: seq<Row>)
    ensures Collapsed(Collapsed(rows)) == Collapsed(rows)
  {
    hide PairsFrom, OpenFrom, Inside, Filtered, Collapsible;
    var once := Collapsed(rows);
    forall p | 0 <= p < |once| ensures Keep(once)[p] {
      if p > 0 { NoRunsLeft(rows, p); }
    }
    FilteredAll(once, Keep(once), |once|);
  }

  /** A stretch of lines that all stay is copied as it is. */
  lemma {:induction false} StretchCopied(rows: seq<Row>, keep: seq<bool>, i: nat, j: nat)
    requires |keep| == |rows| && i <= j <= |rows| && forall k :: i <= k < j ==> keep[k]
    ensures Place(keep, j) == Place(keep, i) + (j - i) <= Place(keep, |rows|)
    ensures Filtered(rows, keep, |rows|)[Place(keep, i)..Place(keep, j)] == rows[i..j]
  {
    hide Filtered, Place;
    PlaceGrows(keep, j, |rows|);
    if i < j {
      StretchCopied(rows, keep, i, j - 1);
      PlaceNext(keep, j - 1);
      FilteredAt(rows, keep, j - 1, |rows|);
      assert rows[i..j] == rows[i..j - 1] + [rows[j - 1]];
    }
  }

  /** Every block is copied whole, delimiters and interior, blank runs included. */
  lemma BlocksCopied(rows: seq<Row>, k: nat)
    requires k < |PairsFrom(rows, 0)|
    ensures var b := PairsFrom(rows, 0)[k]; var keep := Keep(rows);
      && b.begin < b.end < |rows| && Place(keep, b.end + 1) <= |Collapsed(rows)|
      && Place(keep, b.begin) <= Place(keep, b.end + 1)
      && Collapsed(rows)[Place(keep, b.begin)..Place(keep, b.end + 1)] == rows[b.begin..b.end + 1]
  {
    hide PairsFrom, Filtered, Keep, Place;
    BlockStays(rows, k);
    var b := PairsFrom(rows, 0)[k];
    StretchCopied(rows, Keep(rows), b.begin, b.end + 1);
  }

  lemma BlockStays(rows: seq<Row>, k: nat)
    requires k < |PairsFrom(rows, 0)|
    ensures var b := PairsFrom(rows, 0)[k];
      b.begin < b.end < |rows| && forall i :: b.begin <= i <= b.end ==> Keep(rows)[i]
  {
    hide BeginName, EndName, PairsFrom, OpenFrom, Blank;
    PairsProper(rows, 0);
    var b := PairsFrom(rows, 0)[k];
    assert Delimited(rows, b);
    DelimiterStays(rows, b.begin);
    DelimiterStays(rows, b.end);
    forall i | b.begin < i < b.end ensures Keep(rows)[i] {
      assert Inside(PairsFrom(rows, 0), i);
    }
  }

  /** From an opening that is never closed to the end everything is copied. */
  lemma TailCopied(rows: seq<Row>)
    ensures var open := OpenFrom(rows, 0); var keep := Keep(rows);
      Place(keep, open) <= |Collapsed(rows)| && Collapsed(rows)[Place(keep, open)..] == rows[open..]
  {
    hide PairsFrom, OpenFrom, Filtered, Inside;
    var open := OpenFrom(rows, 0);
    StretchCopied(rows, Keep(rows), open, |rows|);
    assert rows[open..] == rows[open..|rows|];
  }

  /** Lines that are not blank all stay, whatever surrounds them. */
  lemma TextStays(rows: seq<Row>, i: nat)
    requires i < |rows| && !Blank(rows[i].text)
    ensures Place(Keep(rows), i) < |Collapsed(rows)| && Collapsed(rows)[Place(Keep(rows), i)] == rows[i]
  {
    hide PairsFrom, OpenFrom, Filtered, Inside;
    FilteredAt(rows, Keep(rows), i, |rows|);
  }

  // ------------------------------------------------------------------- on texts

  /** The lines of the collapsed text are the collapsed lines of the text. */
  lemma CollapsedTextRows(body: string)
    ensures Rows(LinesOf(CollapsedText(body))) == Collapsed(Rows(LinesOf(body)))
  {
    hide LinesFrom, Join, Rows, Keep, SplitRows;
    JoinLines(body, 0);
    var rows := Rows(LinesOf(body));
    FilteredSplit(rows, Keep(rows), |rows|);
    SplitJoin("", Collapsed(rows));
    assert "" + Join(Collapsed(rows)) == CollapsedText(body);
  }

  lemma CollapsedTextIdempotent(body: string)
    ensures CollapsedText(CollapsedText(body)) == CollapsedText(body)
  {
    hide LinesFrom, Join, Rows, Collapsed;
    CollapsedTextRows(body);
    CollapseIdempotent(Rows(LinesOf(body)));
  }

  /** Marks the lines inside blocks. */
  method BlockRegions(rows: seq<Row>) returns (interior: seq<bool>, undefinedFrom: nat)
    ensures |interior| == |rows| && forall i :: 0 <= i < |rows| ==> (interior[i] <==> Inside(PairsFrom(rows, 0), i))
    ensures undefinedFrom == OpenFrom(rows, 0)
  {
    hide PairsFrom, OpenFrom, BeginName, EndName;
    var blocks;
    blocks, undefinedFrom := PairedBlocks(rows);
    PairsProper(rows, 0);
    var marks := new bool[|rows|](i => false);
    for k := 0 to |blocks|
      invariant forall i :: 0 <= i < |rows| ==> (marks[i] <==> Inside(blocks[..k], i))
    {
      var b := blocks[k];
      assert Delimited(rows, b);
      InsideNext(blocks, k);
      for j := b.begin + 1 to b.end
        invariant forall i :: 0 <= i < |rows| ==> (marks[i] <==> Inside(blocks[..k], i) || b.begin < i < j)
      {
        marks[j] := true;
      }
    }
    assert blocks[..|blocks|] == blocks;
    interior := marks[..];
  }

  lemma InsideNext(blocks: seq<Block>, k: nat)
    requires k < |blocks|
    ensures forall i: nat :: Inside(blocks[..k + 1], i) <==>
              Inside(blocks[..k], i) || blocks[k].begin < i < blocks[k].end
  {
    forall i: nat
      ensures Inside(blocks[..k + 1], i) <==> Inside(blocks[..k], i) || blocks[k].begin < i < blocks[k].end
    {
      assert blocks[..k + 1][k] == blocks[k];
      assert forall l :: 0 <= l < k ==> blocks[..k + 1][l] == blocks[..k][l];
      if Inside(blocks[..k], i) {
        var l :| 0 <= l < k && blocks[..k][l].begin < i < blocks[..k][l].end;
        assert blocks[..k + 1][l].begin < i < blocks[..k + 1][l].end;
      }
    }
  }

  method CollapseBlankRuns(body: string) returns (out: string)
    ensures out == CollapsedText(body)
  {
    hide LinesFrom, PairsFrom, OpenFrom, Inside, Blank, Filtered, Join;
    var lines := SplitLines(body);
    var rows := Rows(lines);
    var interior, undefinedFrom := BlockRegions(rows);
    out := "";
    var blankRun := 0;
    ghost var keep := Keep(rows);
    NothingJoined(rows, keep);
    for i := 0 to |rows|
      invariant out == Join(Filtered(rows, keep, i))
      invariant blankRun > 0 <==> i > 0 && Collapsible(rows, i - 1)
    {
      JoinedNext(rows, keep, i);
      var collapsible := Blank(rows[i].text) && !interior[i] && i < undefinedFrom;
      assert collapsible == Collapsible(rows, i);
      if collapsible {
        blankRun := blankRun + 1;
        if blankRun > 1 { continue; }
      } else {
        blankRun := 0;
      }
      out := out + Written(rows[i]);
    }
  }

  lemma NothingJoined(rows: seq<Row>, keep: seq<bool>)
    requires |keep| == |rows|
    ensures Join(Filtered(rows, keep, 0)) == ""
  {
  }

  lemma JoinedNext(rows: seq<Row>, keep: seq<bool>, i: nat)
    requires |keep| == |rows| && i < |rows|
    ensures Join(Filtered(rows, keep, i + 1)) == Join(Filtered(rows, keep, i)) + if keep[i] then Written(rows[i])
              else ""
  {
    var before := Filtered(rows, keep, i);
    if keep[i] {
      JoinAppend(before, rows[i]);
    } else {
      assert Filtered(rows, keep, i + 1) == before + [] == before;
    }
  }

  lemma {:induction false} JoinAppend(rows: seq<Row>, row: Row)
    ensures Join(rows + [row]) == Join(rows) + Written(row)
  {
    if rows == [] {
      assert rows + [row] == [row];
    } else {
      assert (rows + [row])[1..] == rows[1..] + [row];
      JoinAppend(rows[1..], row);
    }
  }
}
