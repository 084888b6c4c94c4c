/** The names tried for an asset are all different, so a directory with fewer files than there
    are tries always has room for it (publishOne, internal/clipboard/publish.go). */
module PublishRoom {
  import opened Basics
  import opened AssetFiles
  import opened Publish
  import Cloze
  import Lines

  /** The k-th name: the stem, a dash and the number, and the extension from the last dot on. */
  lemma CandidateParts(base: string, k: nat)
    requires k > 0
    ensures var ext := ExtStart(base, |base|);
      Candidate(base, k) == base[..ext] + "-" + Cloze.Decimal(k) + base[ext..]
    ensures var ext := ExtStart(base, |base|);
      if '.' in base then ext < |base| && base[ext] == '.' && '.' !in base[ext + 1..] else ext == |base|
  {
    LastDot(base, |base|);
  }

  lemma {:induction false} LastDot(base: string, at: nat)
    requires at <= |base| && forall i :: at <= i < |base| ==> base[i] != '.'
    ensures var ext := ExtStart(base, at);
      if '.' in base then ext < |base| && base[ext] == '.' && '.' !in base[ext + 1..] else ext == |base|
  {
    if at > 0 && base[at - 1] != '.' { LastDot(base, at - 1); }
  }

  lemma {:induction false} TrimmedFront(lead: string, s: string)
    requires Lines.Blank(lead) && (s != "" ==> !Lines.UnicodeSpace(s[0]))
    ensures Lines.TrimStart(lead + s) == s
  {
    if lead == "" {
      assert lead + s == s;
    } else {
      assert (lead + s)[1..] == lead[1..] + s;
      TrimmedFront(lead[1..], s);
    }
  }

  lemma {:induction false} TrimmedBack(s: string, trail: string)
    requires Lines.Blank(trail) && (s != "" ==> !Lines.UnicodeSpace(s[|s| - 1]))
    ensures Lines.TrimEnd(s + trail) == s
  {
    if trail == "" {
      assert s + trail == s;
    } else {
      var n := |trail| - 1;
      assert (s + trail)[..|s + trail| - 1] == s + trail[..n];
      TrimmedBack(s, trail[..n]);
    }
  }

  /** A source is stored under its own name without the white space around it, each slash,
      backslash and control character written as a dash; a name of no use becomes a fixed one. */
  lemma NameCleaned(lead: string, name: string, trail: string)
    requires Lines.Blank(lead) && Lines.Blank(trail)
    requires name != "" ==> !Lines.UnicodeSpace(name[0]) && !Lines.UnicodeSpace(name[|name| - 1])
    ensures var clean := SanitizedFilename(lead + name + trail);
      if name == "" || name == "." || name == ".." then clean == "asset"
      else
        && |clean| == |name|
        && forall i :: 0 <= i < |name| ==>
             clean[i] == if name[i] in "/\\" || name[i] < ' ' then '-' else name[i]
  {
    if name == "" {
      assert lead + name + trail == lead + trail;
      BlankTrimmed(lead + trail);
    } else {
      assert lead + name + trail == lead + (name + trail);
      TrimmedFront(lead, name + trail);
      TrimmedBack(name, trail);
    }
    DashesOnly(name);
  }

  lemma DashesOnly(name: string)
    ensures Dashed(name) == "" <==> name == ""
    ensures Dashed(name) == "." <==> name == "."
    ensures Dashed(name) == ".." <==> name == ".."
  {
    var r := Dashed(name);
    assert |r| == |name| && forall i :: 0 <= i < |r| ==> (r[i] == '.' <==> name[i] == '.');
    if r == "." { assert r[0] == '.'; }
    if r == ".." { assert r[0] == '.' && r[1] == '.'; }
  }

  lemma {:induction false} BlankTrimmed(s: string)
    requires Lines.Blank(s)
    ensures Lines.TrimSpace(s) == ""
    decreases |s|
  {
    if s != "" { BlankTrimmed(s[1..]); }
  }

  lemma DecimalsDiffer(j: nat, k: nat)
    requires Cloze.Decimal(j) == Cloze.Decimal(k)
    ensures j == k
  {
    Cloze.AtoiDigits(j);
    Cloze.AtoiDigits(k);
  }

  lemma CandidatesDiffer(base: string, j: nat, k: nat)
    requires j < k
    ensures Candidate(base, j) != Candidate(base, k)
  {
    hide Cloze.Decimal;
    var ext := ExtStart(base, |base|);
    var a, b := Cloze.Decimal(j), Cloze.Decimal(k);
    if j > 0 && Candidate(base, j) == Candidate(base, k) {
      var n := ext + 1;
      var x, y := Candidate(base, j), Candidate(base, k);
      assert |a| == |b|;
      assert x[n..n + |a|] == a && y[n..n + |b|] == b;
      DecimalsDiffer(j, k);
    }
  }

  ghost function Tries(base: string, n: nat): set<string> {
    set k: nat | k < n :: Candidate(base, k)
  }

  lemma {:induction false} TriesCount(base: string, n: nat)
    ensures |Tries(base, n)| == n
  {
    hide Candidate;
    if n == 0 {
      assert Tries(base, 0) == {};
    } else {
      TriesCount(base, n - 1);
      assert Tries(base, n) == Tries(base, n - 1) + {Candidate(base, n - 1)};
      if Candidate(base, n - 1) in Tries(base, n - 1) {
        var k: nat :| k < n - 1 && Candidate(base, k) == Candidate(base, n - 1);
        CandidatesDiffer(base, k, n - 1);
      }
    }
  }

  /** The names in a directory. */
  ghost function NamesIn(nodes: Tree, root: string): set<string> {
    set p | p in nodes && p.dir == root :: p.name
  }

  /** A directory with fewer names than there are tries has room for any source. */
  lemma RoomForAny(nodes: Tree, root: string, source: Path)
    requires source in nodes && nodes[source].File? && |NamesIn(nodes, root)| < 10000
    ensures Placeable(nodes, root, source)
  {
    hide SanitizedFilename, Candidate, Twin;
    var base := SanitizedFilename(source.name);
    if forall k: nat :: k < ATTEMPTS ==> !Available(nodes, root, source, k) {
      forall name | name in Tries(base, ATTEMPTS) ensures name in NamesIn(nodes, root) {
        var k: nat :| k < ATTEMPTS && name == Candidate(base, k);
        assert !Available(nodes, root, source, k);
        assert Path(root, name) in nodes;
      }
      TriesCount(base, ATTEMPTS);
      FewerIn(Tries(base, ATTEMPTS), NamesIn(nodes, root));
    }
  }

  lemma FewerIn(a: set<string>, b: set<string>)
    requires a <= b
    ensures |a| <= |b|
  {
    assert b == a + (b - a);
  }

  /** One more file, one more name at most. */
  lemma OneMoreName(nodes: Tree, nodes': Tree, root: string, p: Path)
    requires nodes'.Keys <= nodes.Keys + {p}
    ensures |NamesIn(nodes', root)| <= |NamesIn(nodes, root)| + 1
  {
    var more := NamesIn(nodes, root) + {p.name};
    forall name | name in NamesIn(nodes', root) ensures name in more {
      assert Path(root, name) in nodes';
    }
    FewerIn(NamesIn(nodes', root), more);
  }
}
