/** Sorting by a strict order, for lists the program sorts and tables a query orders. */
module Sorting {

  /** Byte order of two strings. */
  predicate Below(a: string, b: string) {
    b != "" && (a == "" || a[0] < b[0] || (a[0] == b[0] && Below(a[1..], b[1..])))
  }

  lemma {:induction false} BelowAsymmetric(a: string, b: string)
    requires Below(a, b)
    ensures !Below(b, a) && a != b
  {
    if a != "" && a[0] == b[0] {
      BelowAsymmetric(a[1..], b[1..]);
    }
  }

  lemma {:induction false} BelowTotal(a: string, b: string)
    ensures a == b || Below(a, b) || Below(b, a)
  {
    if a != "" && b != "" && a[0] == b[0] {
      BelowTotal(a[1..], b[1..]);
      assert a == [a[0]] + a[1..] && b == [b[0]] + b[1..];
    }
  }

  lemma {:induction false} BelowTransitive(a: string, b: string, c: string)
    requires Below(a, b) && Below(b, c)
    ensures Below(a, c)
  {
    if a != "" && a[0] == b[0] && b[0] == c[0] {
      BelowTransitive(a[1..], b[1..], c[1..]);
    }
  }

  ghost predicate Asymmetric<T(!new)>(before: (T, T) -> bool) {
    forall x, y :: before(x, y) ==> !before(y, x)
  }

  ghost predicate Transitive<T(!new)>(before: (T, T) -> bool) {
    forall x, y, z :: before(x, y) && before(y, z) ==> before(x, z)
  }

  /** The texts part behind a common start: there the first one ends, or its character is smaller. */
  ghost predicate PartAt(a: string, b: string, k: nat) {
    && k <= |a| && k < |b| && a[..k] == b[..k] && (k < |a| ==> a[k] < b[k])
  }

  lemma {:induction false} BelowExactly(a: string, b: string)
    ensures Below(a, b) <==> exists k: nat :: PartAt(a, b, k)
  {
    if a != [] && b != [] && a[0] == b[0] {
      BelowExactly(a[1..], b[1..]);
      if k: nat :| PartAt(a[1..], b[1..], k) {
        assert a[..k + 1] == [a[0]] + a[1..][..k] && b[..k + 1] == [b[0]] + b[1..][..k];
        assert PartAt(a, b, k + 1);
      }
      if k: nat :| PartAt(a, b, k) {
        assert k > 0;
        assert a[1..][..k - 1] == a[..k][1..] && b[1..][..k - 1] == b[..k][1..];
        assert PartAt(a[1..], b[1..], k - 1);
      }
    } else {
      PartedFirst(a, b);
      if Below(a, b) { assert PartAt(a, b, 0); }
    }
  }

  lemma PartedFirst(a: string, b: string)
    ensures forall k: nat :: PartAt(a, b, k) && k > 0 ==> a != "" && a[0] == b[0]
  {
    forall k: nat | PartAt(a, b, k) && k > 0 ensures a != "" && a[0] == b[0] {
      assert a[..k][0] == b[..k][0];
    }
  }

  ghost predicate Ascending<T>(s: seq<T>, before: (T, T) -> bool) {
    forall i, j :: 0 <= i < j < |s| ==> before(s[i], s[j])
  }

  /** Any two places of the list can be told apart by the order. */
  ghost predicate Comparable<T>(s: seq<T>, before: (T, T) -> bool) {
    forall i, j :: 0 <= i < j < |s| ==> before(s[i], s[j]) || before(s[j], s[i])
  }

  /** Puts x behind the elements that come before it. */
  function Insert<T(!new)>(x: T, s: seq<T>, before: (T, T) -> bool): (r: seq<T>)
    ensures |r| == |s| + 1
    ensures forall y :: y in r <==> y == x || y in s
  {
    if s == [] then [x]
    else if before(s[0], x) then
      var tail := Insert(x, s[1..], before);
      assert s == [s[0]] + s[1..];
      [s[0]] + tail
    else [x] + s
  }

  function Sort<T(!new)>(s: seq<T>, before: (T, T) -> bool): (r: seq<T>)
    ensures |r| == |s|
    ensures forall y :: y in r <==> y in s
  {
    if s == [] then []
    else
      assert s == [s[0]] + s[1..];
      Insert(s[0], Sort(s[1..], before), before)
  }

  lemma {:induction false} InsertAscending<T(!new)>(x: T, s: seq<T>, before: (T, T) -> bool)
    requires Ascending(s, before) && Transitive(before)
    requires forall y :: y in s ==> before(x, y) || before(y, x)
    ensures Ascending(Insert(x, s, before), before)
  {
    if s == [] {
    } else if before(s[0], x) {
      var tail := Insert(x, s[1..], before);
      forall y | y in s[1..] ensures (before(x, y) || before(y, x)) && before(s[0], y) {}
      InsertAscending(x, s[1..], before);
      Prepended(s[0], tail, before);
    } else {
      assert s[0] in s;
      forall y | y in s ensures before(x, y) {
        var i :| 0 <= i < |s| && s[i] == y;
      }
      Prepended(x, s, before);
    }
  }

  lemma Prepended<T>(x: T, s: seq<T>, before: (T, T) -> bool)
    requires Ascending(s, before) && forall y :: y in s ==> before(x, y)
    ensures Ascending([x] + s, before)
  {
    assert forall j :: 0 <= j < |s| ==> s[j] in s;
    var r := [x] + s;
    forall i, j | 0 <= i < j < |r| ensures before(r[i], r[j]) {
      assert r[j] == s[j - 1];
      if i > 0 { assert r[i] == s[i - 1]; }
    }
  }

  /** Sorting a list whose elements the order tells apart leaves it strictly ascending. */
  lemma {:induction false} SortAscending<T(!new)>(s: seq<T>, before: (T, T) -> bool)
    requires Transitive(before) && Comparable(s, before)
    ensures Ascending(Sort(s, before), before)
  {
    if s == [] {
    } else {
      var rest := s[1..];
      assert Comparable(rest, before) by {
        assert forall i :: 0 <= i < |rest| ==> rest[i] == s[i + 1];
      }
      SortAscending(rest, before);
      forall y | y in Sort(rest, before) ensures before(s[0], y) || before(y, s[0]) {
        var i :| 0 <= i < |rest| && rest[i] == y;
        assert rest[i] == s[i + 1];
      }
      InsertAscending(s[0], Sort(rest, before), before);
    }
  }

  lemma {:induction false} InsertKeeps<T(!new)>(x: T, s: seq<T>, before: (T, T) -> bool)
    ensures multiset(Insert(x, s, before)) == multiset{x} + multiset(s)
  {
    if s != [] {
      assert s == [s[0]] + s[1..];
      if before(s[0], x) { InsertKeeps(x, s[1..], before); }
    }
  }

  /** Sorting keeps every element as often as it was, whatever the order. */
  lemma {:induction false} SortKeeps<T(!new)>(s: seq<T>, before: (T, T) -> bool)
    ensures multiset(Sort(s, before)) == multiset(s)
  {
    if s != [] {
      assert s == [s[0]] + s[1..];
      SortKeeps(s[1..], before);
      InsertKeeps(s[0], Sort(s[1..], before), before);
    }
  }

  // ------------------------------------------------------- sorting with ties

  /** A strict order that may leave elements tied, and ties are transitive. */
  ghost predicate Weak<T(!new)>(before: (T, T) -> bool) {
    && Asymmetric(before)
    && forall x, y, z :: !before(x, y) && !before(y, z) ==> !before(x, z)
  }

  /** No element comes before an earlier one. */
  ghost predicate Rising<T>(s: seq<T>, before: (T, T) -> bool) {
    forall i, j :: 0 <= i < j < |s| ==> !before(s[j], s[i])
  }

  lemma RisingPrepended<T>(x: T, s: seq<T>, before: (T, T) -> bool)
    requires Rising(s, before) && forall y :: y in s ==> !before(y, x)
    ensures Rising([x] + s, before)
  {
    var r := [x] + s;
    forall i, j | 0 <= i < j < |r| ensures !before(r[j], r[i]) {
      assert r[j] == s[j - 1] && s[j - 1] in s;
      if i > 0 { assert r[i] == s[i - 1]; }
    }
  }

  lemma {:induction false} InsertRising<T(!new)>(x: T, s: seq<T>, before: (T, T) -> bool)
    requires Rising(s, before) && Weak(before)
    ensures Rising(Insert(x, s, before), before)
  {
    if s == [] {
    } else if before(s[0], x) {
      InsertRising(x, s[1..], before);
      var tail := Insert(x, s[1..], before);
      assert s == [s[0]] + s[1..];
      forall y | y in tail ensures !before(y, s[0]) {
        if y != x {
          var i :| 0 <= i < |s[1..]| && s[1..][i] == y;
          assert s[i + 1] == y;
        }
      }
      RisingPrepended(s[0], tail, before);
    } else {
      forall y | y in s ensures !before(y, x) {
        var i :| 0 <= i < |s| && s[i] == y;
        assert !before(y, s[0]);
      }
      RisingPrepended(x, s, before);
    }
  }

  /** Sorting by such an order keeps every element as often as it was and puts none before an
      earlier one. */
  lemma {:induction false} SortRising<T(!new)>(s: seq<T>, before: (T, T) -> bool)
    requires Weak(before)
    ensures Rising(Sort(s, before), before) && multiset(Sort(s, before)) == multiset(s)
  {
    SortKeeps(s, before);
    if s != [] {
      SortRising(s[1..], before);
      InsertRising(s[0], Sort(s[1..], before), before);
      assert s == [s[0]] + s[1..];
    }
  }

  lemma BelowWeak()
    ensures Weak(Below)
  {
    forall x, y | Below(x, y) ensures !Below(y, x) { BelowAsymmetric(x, y); }
    forall x, y, z | !Below(x, y) && !Below(y, z) ensures !Below(x, z) {
      BelowTotal(x, y);
      BelowTotal(y, z);
      if Below(y, x) && Below(z, y) {
        BelowTransitive(z, y, x);
        BelowAsymmetric(z, x);
      }
    }
  }

  lemma EmptyOrFirst<T>(s: seq<T>)
    ensures s == [] || s[0] in s
  {
  }

  /** Two strictly ascending lists of the same elements are the same list. */
  lemma {:induction false} AscendingUnique<T(!new)>(a: seq<T>, b: seq<T>, before: (T, T) -> bool)
    requires Asymmetric(before) && Ascending(a, before) && Ascending(b, before)
    requires forall x :: x in a <==> x in b
    ensures a == b
  {
    EmptyOrFirst(b);
    if a == [] {
    } else {
      assert a[0] in b && a[0] in a;
      assert b[0] in a && b[0] in b;
      var k :| 0 <= k < |b| && b[k] == a[0];
      var j :| 0 <= j < |a| && a[j] == b[0];
      assert a[0] == b[0];
      forall x ensures x in a[1..] <==> x in b[1..] {
        InTail(a, before, x);
        InTail(b, before, x);
      }
      AscendingUnique(a[1..], b[1..], before);
      assert a == [a[0]] + a[1..] && b == [b[0]] + b[1..];
    }
  }

  lemma InTail<T(!new)>(s: seq<T>, before: (T, T) -> bool, x: T)
    requires s != [] && Asymmetric(before) && Ascending(s, before)
    ensures x in s[1..] <==> x in s && x != s[0]
  {
    assert s == [s[0]] + s[1..];
    if x in s[1..] {
      var i :| 0 <= i < |s[1..]| && s[1..][i] == x;
      assert s[1..][i] == s[i + 1] && before(s[0], s[i + 1]);
    }
  }

  ghost predicate IsLeast<T>(m: T, rows: set<T>, before: (T, T) -> bool) {
    m in rows && forall x :: x in rows ==> x == m || before(m, x)
  }

  /** The rows of a table in the order a query asks for; rows the order cannot tell apart
      come in some order. */
  ghost function Listing<T(!new)>(rows: set<T>, before: (T, T) -> bool): seq<T>
    decreases |rows|
  {
    if rows == {} then []
    else if exists m :: IsLeast(m, rows, before) then
      var m :| IsLeast(m, rows, before);
      [m] + Listing(rows - {m}, before)
    else
      var m :| m in rows;
      [m] + Listing(rows - {m}, before)
  }

  lemma ListingStep<T(!new)>(rows: set<T>, before: (T, T) -> bool, m: T)
    requires IsLeast(m, rows, before) && Asymmetric(before)
    ensures Listing(rows, before) == [m] + Listing(rows - {m}, before)
  {
    forall other | IsLeast(other, rows, before) ensures other == m {}
  }

  lemma FirstIsLeast<T(!new)>(rows: set<T>, before: (T, T) -> bool, s: seq<T>)
    requires s != [] && Ascending(s, before) && forall x :: x in s <==> x in rows
    ensures IsLeast(s[0], rows, before)
  {
    assert s[0] in s;
    forall x | x in rows ensures x == s[0] || before(s[0], x) {
      assert x in s;
      var i :| 0 <= i < |s| && s[i] == x;
    }
  }

  /** The listing is determined as soon as some list of the rows is strictly ascending. */
  lemma {:induction false} ListingIs<T(!new)>(rows: set<T>, before: (T, T) -> bool, s: seq<T>)
    requires Asymmetric(before) && Ascending(s, before) && forall x :: x in s <==> x in rows
    ensures Listing(rows, before) == s
    decreases |s|
  {
    hide IsLeast;
    if s == [] {
      assert rows == {};
    } else {
      FirstIsLeast(rows, before, s);
      ListingStep(rows, before, s[0]);
      forall x ensures x in s[1..] <==> x in rows - {s[0]} {
        InTail(s, before, x);
      }
      ListingIs(rows - {s[0]}, before, s[1..]);
    }
  }
}
