/** Positional numbering of swift sides: numbers depend on the place of an arrow line
    among the arrow lines, and not on which arrow it carries. */
module SwiftNumbers {
  import opened Basics
  import opened Lines
  import opened Cloze
  import opened ArrowLines
  import opened Swift
  import opened ReadBack
  import opened SwiftCard
  import opened SwiftLaws

  /** While no number overflows, the arrow lines own the numbers right above every
      hand-written one, two each, the right side first. */
  lemma NumbersAreConsecutive(base: nat, count: nat)
    requires base + 2 * count <= MAX_INT
    ensures forall n: nat :: n < count ==>
              RightNumber(base, n) == base + 2 * n + 1 && LeftNumber(base, n) == base + 2 * n + 2
  {
  }

  lemma NumbersAreFresh(title: string, body: string, count: nat, n: nat, left: bool)
    requires BaseNumber(title, body) + 2 * count <= MAX_INT && n < count
    ensures SideNumber(BaseNumber(title, body), n, left) > Highest(title)
    ensures SideNumber(BaseNumber(title, body), n, left) > Highest(body)
    ensures forall k: nat, other :: k < count
              && SideNumber(BaseNumber(title, body), k, other) == SideNumber(BaseNumber(title, body), n, left)
              ==> k == n && other == left
  {
    hide Highest;
    var base := BaseNumber(title, body);
    NumbersAreConsecutive(base, count);
    BaseIsHighest(title, body);
  }

  lemma BaseIsHighest(title: string, body: string)
    ensures BaseNumber(title, body) == Max(Highest(title), Highest(body))
  {
    hide Highest;
    var fs := [title, body];
    assert fs[..1] == [title] && fs[..1][..0] == [];
    assert HighestOf([title]) == Max(HighestOf([title][..0]), Highest(title));
    assert HighestOf(fs) == Max(HighestOf(fs[..1]), Highest(body));
  }

  /** Title and body are counted apart, but a number across their seam cannot exist. */
  lemma {:induction false} HighestSeam(a: string, b: string)
    requires Seam(a, b)
    ensures Highest(a + b) == Max(Highest(a), Highest(b))
  {
    hide OpeningLength, OpeningNumber, Sticky;
    if a == "" {
      assert a + b == b;
    } else {
      assert (a + b)[1..] == a[1..] + b;
      HighestSeam(a[1..], b);
      OpeningSeam(a, b);
      if OpeningLength(a) > 0 { NumberWithin(a, b); }
    }
  }

  lemma BaseIsHighestOfWhole(title: string, body: string)
    ensures BaseNumber(title, body) == Highest(Head(title) + body)
  {
    hide Highest, Sticky, BaseNumber;
    BaseIsHighest(title, body);
    NewlinePlain();
    HighestSeam(Head(title), body);
    HighestSeam(title, "\n\n");
    HighestPlain("\n\n", "");
    assert "\n\n" + "" == "\n\n";
    EmptyHighest();
  }

  /** The first number past the largest int wraps around and is no marker at all. */
  lemma NumbersOverflow()
    ensures RightNumber(MAX_INT, 0) < 0 && LeftNumber(MAX_INT, 0) < 0
    ensures Atoi("99999999999999999999") == MAX_INT
    ensures forall text, rest :: OpeningLength(Marker(RightNumber(MAX_INT, 0), text) + rest) == 0
  {
    hide OpeningLength, Marker;
    BigNumber();
    forall text, rest ensures OpeningLength(Marker(RightNumber(MAX_INT, 0), text) + rest) == 0 {
      MarkerOpening(RightNumber(MAX_INT, 0), text, rest);
    }
  }

  lemma {:induction false} NinesValue(s: string, k: nat)
    requires |s| == k && forall i :: 0 <= i < k ==> s[i] == '9'
    ensures forall c :: c in s ==> IsDigit(c)
    ensures k >= 20 ==> Value(s) > MAX_INT
    ensures Value(s) + 1 == Pow10(k)
  {
    if k > 0 { NinesValue(s[..k - 1], k - 1); }
    PowBig(k);
  }

  function Pow10(k: nat): nat {
    if k == 0 then 1 else 10 * Pow10(k - 1)
  }

  lemma {:induction false} PowBig(k: nat)
    ensures Pow10(k) >= 1
    ensures k >= 20 ==> Pow10(k) >= 100_000_000_000_000_000_000
  {
    if k > 20 {
      PowBig(k - 1);
    } else if k == 20 {
      assert Pow10(10) == 10_000_000_000 by {
        assert Pow10(5) == 100_000;
      }
      assert Pow10(15) == 1_000_000_000_000_000;
    } else if k > 0 {
      PowBig(k - 1);
    }
  }

  lemma BigNumber()
    ensures Atoi("99999999999999999999") == MAX_INT
  {
    NinesValue("99999999999999999999", 20);
  }

  // ------------------------------------------- what stands before a token

  /** No opening that starts in p can reach into a token behind it. */
  predicate Settled(p: string)
  {
    p == "" || (OpeningLength(p + ":") <= |p| && Settled(p[1..]))
  }

  /** No marker covers the end of a: nothing of a can open a marker with what follows. */
  lemma {:induction false} UncoveredSettles(m: Mode, a: string, b: string, off: int)
    requires b != "" && b[0] == ':'
    requires m.Inside? ==> m.open < off
    requires Uncovered(Scan(m, a + b, off), off + |a|)
    ensures Settled(a)
    decreases |a|
  {
    hide OpeningLength, Uncovered;
    if a != "" {
      assert (a + b)[1..] == a[1..] + b;
      NothingReaches(m, a, b, off);
      ColonEnough(a, b);
      if m == Outside {
        UncoveredSettles(if OpeningLength(a + b) > 0 then Inside(off) else Outside, a[1..], b, off + 1);
      } else if Closes(a + b) {
        ClosePast(m, a, b, off);
        assert (a + b)[2..] == a[2..] + b;
        UncoveredSettles(Outside, a[2..], b, off + 2);
        OneBraceSettled(a[1..]);
        assert a[1..][1..] == a[2..];
      } else {
        UncoveredSettles(m, a[1..], b, off + 1);
      }
    }
  }

  lemma OneBraceSettled(p: string)
    requires p != "" && p[0] == '}'
    ensures OpeningLength(p + ":") == 0
  {
  }

  lemma ColonEnough(a: string, b: string)
    requires a != "" && b != "" && b[0] == ':' && OpeningLength(a + b) <= |a|
    ensures OpeningLength(a + ":") <= |a|
  {
    hide OpeningLength;
    assert a + b == (a + ":") + b[1..];
    OpeningWithin(a + ":", b[1..]);
  }

  /** A closing pair that starts in a ends in a, or it would cover the end of a. */
  lemma ClosePast(m: Mode, a: string, b: string, off: int)
    requires a != "" && m.Inside? && m.open < off && Closes(a + b)
    requires Uncovered(Scan(m, a + b, off), off + |a|)
    ensures |a| >= 2
    ensures Uncovered(Scan(Outside, (a + b)[2..], off + 2), off + |a|)
  {
    hide OpeningLength;
    var whole, rest := Scan(m, a + b, off), Scan(Outside, (a + b)[2..], off + 2);
    assert whole.spans == [Span(m.open, off + 2)] + rest.spans;
    assert whole.spans[0] == Span(m.open, off + 2);
    assert Covers(whole.spans[0], off + 1);
    SuffixUncovered(Scanned([Span(m.open, off + 2)], Outside), rest, off + |a|);
  }

  lemma NothingReaches(m: Mode, a: string, b: string, off: int)
    requires a != "" && b != ""
    requires m.Inside? ==> m.open < off
    requires Uncovered(Scan(m, a + b, off), off + |a|)
    ensures OpeningLength(a + b) <= |a|
  {
    hide OpeningLength, Uncovered;
    if OpeningLength(a + b) > |a| {
      forall i | 0 <= i < |a| ensures a[i] != '}' { OpeningChars(a + b, i); }
      ScanCut(m, a, b, off);
      assert (a + b)[1..] == a[1..] + b;
      if m == Outside {
        ScanCut(Inside(off), a[1..], b, off + 1);
        ScanNoClose(off, a[1..], off + 1);
      } else {
        ScanNoClose(m.open, a, off);
      }
    }
  }

  /** Highest numbers of a settled text and what stands behind it are read separately. */
  lemma {:induction false} HighestSettled(p: string, b: string)
    requires Settled(p) && |b| >= 2 && b[0] == ':' && !Sticky(b[1])
    ensures Highest(p + b) == Max(Highest(p), Highest(b))
  {
    hide OpeningLength, OpeningNumber, Sticky;
    if p == "" {
      assert p + b == b;
    } else {
      assert (p + b)[1..] == p[1..] + b;
      HighestSettled(p[1..], b);
      assert p + b == (p + ":") + b[1..];
      OpeningSeam(p + ":", b[1..]);
      OpeningWithin(p, ":");
      if OpeningLength(p) > 0 { NumberWithin(p, b); }
    }
  }

  lemma NumberWithin(a: string, b: string)
    requires OpeningLength(a) > 0 && OpeningLength(a + b) == OpeningLength(a)
    ensures OpeningNumber(a + b) == OpeningNumber(a)
  {
    assert (a + b)[3..] == a[3..] + b;
    DigitRunConcat(a[3..], b);
    var d := DigitRun(a[3..]);
    assert (a[3..] + b)[..d] == a[3..][..d];
  }

  lemma {:induction false} HighestPlain(t: string, b: string)
    requires '{' !in t
    ensures Highest(t + b) == Highest(b)
  {
    if t == "" {
      assert t + b == b;
    } else {
      assert (t + b)[1..] == t[1..] + b;
      HighestPlain(t[1..], b);
    }
  }

  lemma TokenShape(t: Token)
    ensures var s := TokenText(t); |s| >= 2 && s[0] == ':' && !Sticky(s[1]) && '{' !in s
  {
  }

  lemma TokenFront(t: Token, rest: string)
    ensures var s := TokenText(t) + rest; |s| >= 2 && s[0] == ':' && !Sticky(s[1])
  {
    hide TokenText, Sticky;
    TokenShape(t);
  }
}
