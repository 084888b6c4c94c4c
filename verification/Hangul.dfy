/** Composing conjoining jamo into Hangul syllables, over code points, against the arithmetic
    decomposition of section 3.12 of the Unicode Standard. */
module Hangul {

  const S_BASE := 0xAC00
  const L_BASE := 0x1100
  const V_BASE := 0x1161
  const T_BASE := 0x11A7
  const L_COUNT := 19
  const V_COUNT := 21
  const T_COUNT := 28
  const N_COUNT := V_COUNT * T_COUNT
  const S_COUNT := L_COUNT * N_COUNT

  predicate IsL(c: nat) { L_BASE <= c < L_BASE + L_COUNT }

  predicate IsV(c: nat) { V_BASE <= c < V_BASE + V_COUNT }

  predicate IsT(c: nat) { T_BASE < c < T_BASE + T_COUNT }

  predicate IsSyllable(c: nat) { S_BASE <= c < S_BASE + S_COUNT }

  /** A syllable without a trailing consonant. */
  predicate IsLV(c: nat) { IsSyllable(c) && (c - S_BASE) % T_COUNT == 0 }

  function LOf(c: nat): nat
    requires IsSyllable(c)
  {
    L_BASE + (c - S_BASE) / N_COUNT
  }

  function VOf(c: nat): nat
    requires IsSyllable(c)
  {
    V_BASE + (c - S_BASE) % N_COUNT / T_COUNT
  }

  function TOf(c: nat): nat
    requires IsSyllable(c)
  {
    T_BASE + (c - S_BASE) % T_COUNT
  }

  /** The jamo of one code point; anything but a syllable stands for itself. */
  function Jamo(c: nat): seq<nat> {
    if !IsSyllable(c) then [c]
    else if IsLV(c) then [LOf(c), VOf(c)]
    else [LOf(c), VOf(c), TOf(c)]
  }

  function Decompose(x: seq<nat>): seq<nat> {
    if x == [] then [] else Jamo(x[0]) + Decompose(x[1..])
  }

  function Syllable(l: nat, v: nat): (s: nat)
    requires IsL(l) && IsV(v)
    ensures IsSyllable(s) && IsLV(s)
  {
    S_BASE + ((l - L_BASE) * V_COUNT + (v - V_BASE)) * T_COUNT
  }

  lemma SyllableParts(l: nat, v: nat, t: nat)
    requires IsL(l) && IsV(v) && t < T_COUNT
    ensures var s := Syllable(l, v) + t;
              IsSyllable(s) && LOf(s) == l && VOf(s) == v && TOf(s) == T_BASE + t && (IsLV(s) <==> t == 0)
  {
    var li, vi := l - L_BASE, v - V_BASE;
    var n := vi * T_COUNT + t;
    assert n < N_COUNT;
    assert Syllable(l, v) + t - S_BASE == li * N_COUNT + n;
  }

  /** The syllable is the one its parts make. */
  lemma PartsMakeSyllable(c: nat)
    requires IsSyllable(c)
    ensures IsL(LOf(c)) && IsV(VOf(c)) && c == Syllable(LOf(c), VOf(c)) + (TOf(c) - T_BASE)
    ensures IsLV(c) || IsT(TOf(c))
  {
  }

  /** What the loop makes of the code points: a leading consonant and a vowel become a
      syllable, which takes a trailing consonant that follows. */
  function Compose(x: seq<nat>): seq<nat> {
    if x == [] then []
    else if |x| == 1 || !IsL(x[0]) || !IsV(x[1]) then [x[0]] + Compose(x[1..])
    else if |x| > 2 && IsT(x[2]) then [Syllable(x[0], x[1]) + (x[2] - T_BASE)] + Compose(x[3..])
    else [Syllable(x[0], x[1])] + Compose(x[2..])
  }

  lemma JamoStay(c: nat)
    requires IsL(c) || IsV(c) || IsT(c)
    ensures Jamo(c) == [c]
  {
  }

  /** Composition keeps the full decomposition. */
  lemma {:induction false} ComposeKeepsJamo(x: seq<nat>)
    ensures Decompose(Compose(x)) == Decompose(x)
  {
    hide Jamo, Syllable;
    if x == [] {
    } else if |x| == 1 || !IsL(x[0]) || !IsV(x[1]) {
      ComposeKeepsJamo(x[1..]);
      FirstOf(x[0], Compose(x[1..]));
    } else {
      JamoStay(x[0]);
      JamoStay(x[1]);
      if |x| > 2 && IsT(x[2]) {
        JamoStay(x[2]);
        ComposeKeepsJamo(x[3..]);
        FirstOf(Syllable(x[0], x[1]) + (x[2] - T_BASE), Compose(x[3..]));
        SyllableJamo(x[0], x[1], x[2] - T_BASE);
        Unfold3(x);
      } else {
        ComposeKeepsJamo(x[2..]);
        FirstOf(Syllable(x[0], x[1]), Compose(x[2..]));
        SyllableJamo(x[0], x[1], 0);
        Unfold2(x);
      }
    }
  }

  lemma FirstOf(c: nat, rest: seq<nat>)
    ensures Decompose([c] + rest) == Jamo(c) + Decompose(rest)
  {
    hide Jamo;
    assert ([c] + rest)[1..] == rest;
  }

  lemma SyllableJamo(l: nat, v: nat, t: nat)
    requires IsL(l) && IsV(v) && t < T_COUNT
    ensures Jamo(Syllable(l, v) + t) == if t == 0 then [l, v] else [l, v, T_BASE + t]
  {
    hide Syllable, LOf, VOf, TOf;
    SyllableParts(l, v, t);
  }

  lemma Unfold2(x: seq<nat>)
    requires |x| >= 2
    ensures Decompose(x) == Jamo(x[0]) + Jamo(x[1]) + Decompose(x[2..])
  {
    hide Jamo;
    assert x[1..][1..] == x[2..];
  }

  lemma Unfold3(x: seq<nat>)
    requires |x| >= 3
    ensures Decompose(x) == Jamo(x[0]) + Jamo(x[1]) + Jamo(x[2]) + Decompose(x[3..])
  {
    hide Jamo;
    var a, b, c, rest := Jamo(x[0]), Jamo(x[1]), Jamo(x[2]), Decompose(x[3..]);
    assert Decompose(x[2..]) == c + rest by { assert x[2..][1..] == x[3..]; }
    assert Decompose(x) == a + b + (c + rest) by { Unfold2(x); }
    assert a + b + (c + rest) == a + b + c + rest;
  }

  /** A leading consonant is followed by a vowel. */
  predicate Open(x: seq<nat>, i: nat) {
    i + 1 < |x| && IsL(x[i]) && IsV(x[i + 1])
  }

  /** A syllable without a trailing consonant is followed by one. */
  predicate Loose(x: seq<nat>, i: nat) {
    i + 1 < |x| && IsLV(x[i]) && IsT(x[i + 1])
  }

  /** The first of the composed code points is the first of the input, or a syllable. */
  lemma ComposeFirst(x: seq<nat>)
    requires x != []
    ensures Compose(x) != []
    ensures Compose(x)[0] == x[0] || (IsL(x[0]) && IsSyllable(Compose(x)[0]))
  {
    if |x| > 2 && IsL(x[0]) && IsV(x[1]) && IsT(x[2]) { SyllableParts(x[0], x[1], x[2] - T_BASE); }
  }

  /** The output never has a leading consonant before a vowel. */
  lemma {:induction false} NothingOpen(x: seq<nat>, i: nat)
    ensures !Open(Compose(x), i)
  {
    hide Syllable;
    if x == [] {
    } else {
      var step := Step(x);
      ComposeStep(x);
      if i > 0 {
        NothingOpen(x[step..], i - 1);
      } else if step < |x| {
        ComposeFirst(x[step..]);
        if step > 1 { HeadIsSyllable(x); }
      }
    }
  }

  /** How many code points the loop takes at once. */
  function Step(x: seq<nat>): (n: nat)
    requires x != []
    ensures 0 < n <= |x|
  {
    if |x| == 1 || !IsL(x[0]) || !IsV(x[1]) then 1 else if |x| > 2 && IsT(x[2]) then 3 else 2
  }

  lemma ComposeStep(x: seq<nat>)
    requires x != []
    ensures |Compose(x)| > 0 && Compose(x) == [Compose(x)[0]] + Compose(x[Step(x)..])
    ensures Step(x) == 1 ==> Compose(x)[0] == x[0] && !Open(x, 0)
  {
  }

  lemma HeadIsSyllable(x: seq<nat>)
    requires x != [] && Step(x) > 1
    ensures IsSyllable(Compose(x)[0]) && !IsL(Compose(x)[0]) && !IsT(Compose(x)[0])
    ensures IsLV(Compose(x)[0]) <==> Step(x) == 2
  {
    SyllableParts(x[0], x[1], if Step(x) == 3 then x[2] - T_BASE else 0);
  }

  lemma {:induction false} ComposeFixed(x: seq<nat>)
    requires forall i :: 0 <= i < |x| ==> !Open(x, i)
    ensures Compose(x) == x
  {
    if x != [] {
      assert !Open(x, 0);
      forall i | 0 <= i < |x| - 1 ensures !Open(x[1..], i) { assert !Open(x, i + 1); }
      ComposeFixed(x[1..]);
    }
  }

  /** Composing twice is composing once. */
  lemma ComposeIdempotent(x: seq<nat>)
    ensures Compose(Compose(x)) == Compose(x)
  {
    forall i | 0 <= i < |Compose(x)| ensures !Open(Compose(x), i) { NothingOpen(x, i); }
    ComposeFixed(Compose(x));
  }

  method ComposeHangul(runes: seq<nat>) returns (out: seq<nat>)
    ensures out == Compose(runes)
  {
    hide Compose;
    out := [];
    var i := 0;
    while i < |runes|
      invariant 0 <= i <= |runes| && out + Compose(runes[i..]) == Compose(runes)
    {
      ghost var rest := runes[i..];
      ComposeStep(rest);
      ComposeHead(rest);
      assert rest[Step(rest)..] == runes[i + Step(rest)..];
      var l := runes[i] - L_BASE;
      if l < 0 || l >= L_COUNT || i + 1 >= |runes| {
        out, i := out + [runes[i]], i + 1;
        continue;
      }
      var v := runes[i + 1] - V_BASE;
      if v < 0 || v >= V_COUNT {
        out, i := out + [runes[i]], i + 1;
        continue;
      }
      var syllable: nat := S_BASE + (l * V_COUNT + v) * T_COUNT;
      i := i + 2;
      if i < |runes| {
        var t := runes[i] - T_BASE;
        if t > 0 && t < T_COUNT {
          syllable := syllable + t;
          i := i + 1;
        }
      }
      out := out + [syllable];
    }
    assert runes[i..] == [];
    ComposeNothing();
  }

  lemma ComposeHead(x: seq<nat>)
    requires x != []
    ensures Compose(x) != []
    ensures Compose(x)[0] == if Step(x) == 1 then x[0] else Syllable(x[0], x[1]) + if Step(x) == 3 then x[2] - T_BASE
              else 0
  {
    hide Syllable;
  }

  // --------------------------------------------------------- how far it composes

  ghost predicate FullyComposed(x: seq<nat>) {
    forall i :: 0 <= i < |x| ==> !Open(x, i) && !Loose(x, i)
  }

  /** The output is fully composed exactly when no syllable of the input was followed by a
      trailing consonant it lacked: such a pair is left as it is. */
  lemma FullyComposedIff(x: seq<nat>)
    ensures FullyComposed(Compose(x)) <==> forall i :: 0 <= i < |x| ==> !Loose(x, i)
  {
    LooseKept(x);
    forall i | 0 <= i < |Compose(x)| ensures !Open(Compose(x), i) { NothingOpen(x, i); }
  }

  /** U+AC00, a syllable without a trailing consonant, and U+11A8, one it could take. */
  lemma LoosePairStays()
    ensures !FullyComposed(Compose([0xAC00, 0x11A8]))
  {
    assert Loose([0xAC00, 0x11A8], 0);
    FullyComposedIff([0xAC00, 0x11A8]);
  }

  lemma {:induction false} LooseKept(x: seq<nat>)
    ensures (exists i :: 0 <= i < |Compose(x)| && Loose(Compose(x), i)) <==> (exists i :: 0 <= i < |x| && Loose(x, i))
  {
    hide Compose;
    if x == [] {
      ComposeNothing();
    } else {
      var n := Step(x);
      ComposeStep(x);
      LooseKept(x[n..]);
      LooseHead(x);
      assert Compose(x)[1..] == Compose(x[n..]);
      LooseTail(Compose(x), 1);
      LooseTail(x, n);
    }
  }

  lemma ComposeNothing()
    ensures Compose([]) == []
  {
  }

  /** Loose pairs of a text: one within its first n, or one in what follows. */
  lemma LooseTail(x: seq<nat>, n: nat)
    requires 0 < n <= |x|
    ensures (exists i :: 0 <= i < |x| && Loose(x, i)) <==>
            (exists i :: 0 <= i < n && Loose(x, i)) || (exists i :: 0 <= i < |x[n..]| && Loose(x[n..], i))
  {
    var rest := x[n..];
    forall i | 0 <= i < |rest| ensures Loose(rest, i) <==> Loose(x, n + i) {}
    if exists i :: 0 <= i < |rest| && Loose(rest, i) {
      var i :| 0 <= i < |rest| && Loose(rest, i);
      assert Loose(x, n + i);
    }
    if exists i :: 0 <= i < |x| && Loose(x, i) {
      var i :| 0 <= i < |x| && Loose(x, i);
      if i >= n { assert Loose(rest, i - n); }
    }
  }

  /** The first output code point is loose exactly when the input was loose where it came from. */
  lemma LooseHead(x: seq<nat>)
    requires x != []
    ensures (exists i :: 0 <= i < 1 && Loose(Compose(x), i)) <==> (exists i :: 0 <= i < Step(x) && Loose(x, i))
  {
    var n := Step(x);
    ComposeStep(x);
    assert forall i :: 0 <= i < 1 && Loose(Compose(x), i) ==> i == 0;
    if n < |x| { ComposeFirst(x[n..]); }
    assert forall i :: 0 < i < n ==> !IsLV(x[i]);
    if n > 1 {
      HeadIsSyllable(x);
      assert !IsLV(x[0]);
    } else {
      assert Loose(Compose(x), 0) <==> Loose(x, 0);
    }
  }

  /** Texts with the same jamo that are fully composed are the same text: where nothing was
      left loose, composition decides canonical equality of the Hangul in two paths. */
  lemma {:induction false} ComposedUnique(a: seq<nat>, b: seq<nat>)
    requires FullyComposed(a) && FullyComposed(b) && Decompose(a) == Decompose(b)
    ensures a == b
    decreases |a| + |b|
  {
    hide Jamo;
    EmptyJamo(a);
    EmptyJamo(b);
    if a != [] && b != [] {
      SameFirst(a, b);
      TailComposed(a);
      TailComposed(b);
      assert Decompose(a[1..]) == Decompose(b[1..]);
      ComposedUnique(a[1..], b[1..]);
      assert a == [a[0]] + a[1..] && b == [b[0]] + b[1..];
    }
  }

  lemma EmptyJamo(x: seq<nat>)
    ensures Decompose(x) == [] <==> x == []
  {
  }

  lemma TailComposed(x: seq<nat>)
    requires FullyComposed(x) && x != []
    ensures FullyComposed(x[1..])
  {
    hide IsL, IsV, IsT, IsLV;
    forall i | 0 <= i < |x| - 1 ensures !Open(x[1..], i) && !Loose(x[1..], i) {
      assert !Open(x, i + 1) && !Loose(x, i + 1);
    }
  }

  /** The jamo that come first tell the first code point of a fully composed text. */
  lemma SameFirst(a: seq<nat>, b: seq<nat>)
    requires FullyComposed(a) && FullyComposed(b) && Decompose(a) == Decompose(b) && a != [] && b != []
    ensures a[0] == b[0] && Decompose(a[1..]) == Decompose(b[1..])
  {
    FirstJamo(a);
    FirstJamo(b);
    var ja, jb := Jamo(a[0]), Jamo(b[0]);
    if IsSyllable(a[0]) { PartsMakeSyllable(a[0]); }
    if IsSyllable(b[0]) { PartsMakeSyllable(b[0]); }
    var d := Decompose(a);
    assert ja == d[..|ja|] && jb == d[..|jb|];
    assert |ja| == |jb|;
    assert d[|ja|..] == Decompose(a[1..]) && d[|jb|..] == Decompose(b[1..]);
  }

  /** What follows the first code point's jamo cannot be mistaken for more of them. */
  lemma FirstJamo(x: seq<nat>)
    requires FullyComposed(x) && x != []
    ensures Decompose(x) == Jamo(x[0]) + Decompose(x[1..])
    ensures !IsSyllable(x[0]) && IsL(x[0]) && |x| > 1 ==> |Decompose(x)| > 1 && !IsV(Decompose(x)[1])
    ensures IsLV(x[0]) && |x| > 1 ==> |Decompose(x)| > 2 && !IsT(Decompose(x)[2])
  {
    assert !Open(x, 0) && !Loose(x, 0);
    if |x| > 1 {
      NextJamo(x[1..]);
      assert x[1..][0] == x[1];
    }
  }

  lemma NextJamo(x: seq<nat>)
    requires x != []
    ensures Decompose(x) != []
    ensures IsV(Decompose(x)[0]) ==> IsV(x[0])
    ensures IsT(Decompose(x)[0]) ==> IsT(x[0])
  {
    if IsSyllable(x[0]) { PartsMakeSyllable(x[0]); }
  }
}
