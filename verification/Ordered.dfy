/** Finite sets of identifiers listed in ascending order. */
module Ordered {
  import opened Basics

  function Smallest(ids: set<int>): (m: int)
    requires ids != {}
    ensures m in ids && forall id :: id in ids ==> m <= id
  {
    SmallestExists(ids);
    var m :| m in ids && forall id :: id in ids ==> m <= id;
    m
  }

  lemma {:induction false} SmallestExists(ids: set<int>)
    requires ids != {}
    ensures exists m :: m in ids && forall id :: id in ids ==> m <= id
  {
    var x := Element(ids);
    var rest: set<int> := ids - {x};
    if rest == {} {
      assert ids == {x};
    } else {
      SmallestExists(rest);
      var m :| m in rest && forall id :: id in rest ==> m <= id;
      var low := if m < x then m else x;
      assert forall id :: id in ids ==> id == x || id in rest;
      assert low in ids && forall id :: id in ids ==> low <= id;
    }
  }

  /** The identifiers in ascending order. */
  function Sorted(ids: set<int>): (s: seq<int>)
    ensures forall id :: id in s <==> id in ids
    ensures forall i, j :: 0 <= i < j < |s| ==> s[i] < s[j]
    decreases |ids|
  {
    if ids == {} then [] else
    var m := Smallest(ids);
    [m] + Sorted(ids - {m})
  }
}
