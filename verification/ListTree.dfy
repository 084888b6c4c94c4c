/** The list tree of the preview: depths from indentation by a stack, then a tree built by a
    recursive pass over a shared index. */
module ListTree {
  import opened Basics

  datatype ListItem = ListItem(indent: nat, start: nat, end: nat)

  /** An item with the list nested under it, if any. */
  datatype Node = Node(item: ListItem, nested: Option<Level>)

  datatype Level = Level(depth: nat, start: nat, end: nat, children: seq<Node>)

  // ------------------------------------------------------------------- depths

  /** The nearest item before place `from` that is indented less than x. */
  function PreviousBelow(items: seq<ListItem>, x: nat, from: nat): (j: Option<nat>)
    requires from <= |items|
    ensures j.Some? ==> j.value < from && items[j.value].indent < x && forall k :: j.value < k < from ==>
              items[k].indent >= x
    ensures j.None? ==> forall k :: 0 <= k < from ==> items[k].indent >= x
  {
    if from == 0 then None
    else if items[from - 1].indent < x then Some(from - 1)
    else PreviousBelow(items, x, from - 1)
  }

  function Parent(items: seq<ListItem>, i: nat): (j: Option<nat>)
    requires i < |items|
    ensures j.Some? ==> j.value < i
  {
    PreviousBelow(items, items[i].indent, i)
  }

  /** How many ancestors an item has: each is the nearest item before with less indentation. */
  function Depth(items: seq<ListItem>, i: nat): nat
    requires i < |items|
  {
    if Parent(items, i).None? then 0 else Depth(items, Parent(items, i).value) + 1
  }

  /** The indentations of an item and its ancestors, outermost first. */
  function Chain(items: seq<ListItem>, i: nat): (c: seq<nat>)
    requires i < |items|
    ensures |c| == Depth(items, i) + 1 && c[|c| - 1] == items[i].indent
  {
    if Parent(items, i).None? then [items[i].indent] else Chain(items, Parent(items, i).value) + [items[i].indent]
  }

  /** An item with a neighbour as its nearest candidate: deeper, level with it, or searched for
      behind the ancestors of the neighbour that are indented more. */
  lemma {:induction false} ParentUnique(items: seq<ListItem>, i: nat, j: nat)
    requires j < i < |items| && forall k :: j < k < i ==> items[k].indent >= items[i].indent
    ensures items[j].indent < items[i].indent ==> Parent(items, i) == Some(j)
    ensures items[j].indent == items[i].indent ==>
              Parent(items, i) == Parent(items, j) && Chain(items, i) == Chain(items, j)
  {
    if items[j].indent == items[i].indent { SearchSkips(items, items[i].indent, j, i); }
    if items[j].indent < items[i].indent { SearchSkips(items, items[i].indent, j + 1, i); }
  }

  lemma {:induction false} SearchSkips(items: seq<ListItem>, x: nat, from: nat, to: nat)
    requires from <= to <= |items| && forall k :: from <= k < to ==> items[k].indent >= x
    ensures PreviousBelow(items, x, to) == PreviousBelow(items, x, from)
  {
    if from < to { SearchSkips(items, x, from, to - 1); }
  }

  lemma ChainNext(items: seq<ListItem>, i: nat)
    requires 0 < i < |items|
    ensures items[i].indent > items[i - 1].indent ==> Chain(items, i) == Chain(items, i - 1) + [items[i].indent]
    ensures items[i].indent == items[i - 1].indent ==> Chain(items, i) == Chain(items, i - 1)
  {
    ParentUnique(items, i, i - 1);
  }

  lemma FirstChain(items: seq<ListItem>)
    requires items != []
    ensures Chain(items, 0) == [items[0].indent] && Depth(items, 0) == 0
  {
    assert Parent(items, 0) == None;
  }

  method ListDepths(items: seq<ListItem>) returns (depths: seq<nat>)
    ensures |depths| == |items| && forall i :: 0 <= i < |items| ==> depths[i] == Depth(items, i)
  {
    hide Depth, Chain, Parent, PreviousBelow;
    if |items| == 0 { return []; }
    var levels := [items[0].indent];
    depths := [0];
    FirstChain(items);
    for i := 1 to |items|
      invariant |depths| == i && forall k :: 0 <= k < i ==> depths[k] == Depth(items, k)
      invariant levels == Chain(items, i - 1)
    {
      ChainNext(items, i);
      var indent := items[i].indent;
      var current := levels[|levels| - 1];
      if indent > current {
        levels := levels + [indent];
      } else if indent < current {
        levels := PopAndPush(items, levels, i);
      }
      assert levels == Chain(items, i);
      depths := depths + [|levels| - 1];
    }
  }

  method PopAndPush(items: seq<ListItem>, start: seq<nat>, i: nat) returns (levels: seq<nat>)
    requires 0 < i < |items| && start == Chain(items, i - 1)
    ensures levels == Chain(items, i)
  {
    hide Depth, Chain, PreviousBelow;
    var indent := items[i].indent;
    levels := start;
    ghost var at: Option<nat> := Some(i - 1);
    while |levels| > 0 && levels[|levels| - 1] > indent
      invariant at.None? ==> levels == [] && forall k :: 0 <= k < i ==> items[k].indent > indent
      invariant at.Some? ==> at.value < i && levels == Chain(items, at.value) && forall k :: at.value < k < i ==>
                items[k].indent > indent
      decreases |levels|
    {
      ChainStep(items, at.value);
      at := Parent(items, at.value);
      levels := levels[..|levels| - 1];
    }
    if |levels| == 0 {
      NoneShallower(items, i);
      levels := [indent];
    } else {
      ChainStep(items, at.value);
      ChainStep(items, i);
      ParentUnique(items, i, at.value);
      if levels[|levels| - 1] < indent { levels := levels + [indent]; }
    }
  }

  lemma ChainStep(items: seq<ListItem>, i: nat)
    requires i < |items|
    ensures Parent(items, i).None? ==> Chain(items, i) == [items[i].indent]
    ensures var p := Parent(items, i);
      p.Some? ==> p.value < i && Chain(items, i) == Chain(items, p.value) + [items[i].indent]
                  && (forall k :: p.value < k < i ==> items[k].indent >= items[i].indent)
    ensures Parent(items, i).None? ==> forall k :: 0 <= k < i ==> items[k].indent >= items[i].indent
  {
  }

  lemma NoneShallower(items: seq<ListItem>, i: nat)
    requires i < |items| && forall k :: 0 <= k < i ==> items[k].indent >= items[i].indent
    ensures Chain(items, i) == [items[i].indent]
  {
    SearchSkips(items, items[i].indent, 0, i);
  }

  /** Depths start at 0, rise by at most one, and no item between an item and its parent is
      shallower than the item: the parent is the last item before it that is less deep. */
  lemma {:induction false} DepthsShaped(items: seq<ListItem>, i: nat)
    requires i < |items|
    ensures i == 0 ==> Depth(items, i) == 0
    ensures i > 0 ==> Depth(items, i) <= Depth(items, i - 1) + 1
    ensures Parent(items, i).Some? ==> Depth(items, Parent(items, i).value) + 1 == Depth(items, i)
    ensures forall k :: (if Parent(items, i).Some? then Parent(items, i).value < k < i else 0 <= k < i) ==>
              Depth(items, k) >= Depth(items, i)
  {
    if i > 0 {
      var from := if Parent(items, i).Some? then Parent(items, i).value + 1 else 0;
      forall k | from <= k < i ensures Depth(items, k) >= Depth(items, i) {
        DeeperBetween(items, i, k);
      }
    }
  }

  lemma {:induction false} DeeperBetween(items: seq<ListItem>, i: nat, k: nat)
    requires k < i < |items| && (Parent(items, i).Some? ==> Parent(items, i).value < k)
    ensures Depth(items, k) >= Depth(items, i)
    decreases k
  {
    var p := Parent(items, i);
    if p.Some? {
      assert items[k].indent >= items[i].indent > items[p.value].indent;
      var q := Parent(items, k);
      if q.Some? && q.value > p.value {
        DeeperBetween(items, i, q.value);
      }
    }
  }

  // ---------------------------------------------------------------------- tree

  ghost predicate Shaped(depths: seq<nat>) {
    && (|depths| > 0 ==> depths[0] == 0)
    && forall i :: 0 < i < |depths| ==> depths[i] <= depths[i - 1] + 1
  }

  datatype Parse = Parse(children: seq<Node>, next: nat)

  /** The siblings at one depth from place i on, each with what is nested under it. */
  function Siblings(items: seq<ListItem>, depths: seq<nat>, i: nat, depth: nat): (p: Parse)
    requires |depths| == |items| && i <= |items|
    ensures i <= p.next <= |items|
    ensures i < |items| && depths[i] == depth ==> i < p.next && p.children != []
    decreases |items| - i
  {
    if i == |items| || depths[i] != depth then Parse([], i)
    else if i + 1 < |items| && depths[i + 1] > depth then
      var inner := Siblings(items, depths, i + 1, depth + 1);
      var rest := Siblings(items, depths, inner.next, depth);
      Parse([Node(items[i], Some(LevelOf(items, i + 1, inner, depth + 1)))] + rest.children, rest.next)
    else
      var rest := Siblings(items, depths, i + 1, depth);
      Parse([Node(items[i], None)] + rest.children, rest.next)
  }

  /** A level reaches from its first item to the end of the last item taken into it. */
  function LevelOf(items: seq<ListItem>, i: nat, p: Parse, depth: nat): Level
    requires i < |items| && p.next <= |items|
  {
    Level(depth, items[i].start, if p.next > i then items[p.next - 1].end else items[i].start, p.children)
  }

  /** The items of a forest in reading order, each with its depth. */
  function Outline(children: seq<Node>, depth: nat): seq<(ListItem, nat)>
    decreases children
  {
    if children == [] then []
    else [(children[0].item, depth)] + Under(children[0], depth) + Outline(children[1..], depth)
  }

  function Under(node: Node, depth: nat): seq<(ListItem, nat)>
    decreases node
  {
    match node.nested
    case None => []
    case Some(level) => Outline(level.children, depth + 1)
  }

  function Zip(items: seq<ListItem>, depths: seq<nat>, i: nat, j: nat): (z: seq<(ListItem, nat)>)
    requires i <= j <= |items| == |depths|
    ensures |z| == j - i && forall k :: 0 <= k < |z| ==> z[k] == (items[i + k], depths[i + k])
  {
    seq(j - i, k requires 0 <= k < j - i => (items[i + k], depths[i + k]))
  }

  lemma ZipJoin(items: seq<ListItem>, depths: seq<nat>, i: nat, j: nat, k: nat)
    requires i <= j <= k <= |items| == |depths|
    ensures Zip(items, depths, i, j) + Zip(items, depths, j, k) == Zip(items, depths, i, k)
  {
  }

  /** A pass at one depth takes items up to the first that is less deep, loses none, and puts
      every item at its own depth. */
  lemma {:induction false} SiblingsComplete(items: seq<ListItem>, depths: seq<nat>, i: nat, depth: nat)
    requires |depths| == |items| && i <= |items| && Shaped(depths)
    requires i < |items| ==> depths[i] <= depth
    ensures var p := Siblings(items, depths, i, depth);
      && (p.next < |items| ==> depths[p.next] < depth)
      && Outline(p.children, depth) == Zip(items, depths, i, p.next)
    decreases |items| - i
  {
    hide Siblings, Outline, Zip, Under;
    SiblingsStep(items, depths, i, depth);
    if i == |items| || depths[i] != depth {
      NothingThere(items, depths, i, depth);
    } else if i + 1 < |items| && depths[i + 1] > depth {
      ShapedNext(depths, i + 1);
      var inner := Siblings(items, depths, i + 1, depth + 1);
      SiblingsComplete(items, depths, i + 1, depth + 1);
      var rest := Siblings(items, depths, inner.next, depth);
      SiblingsComplete(items, depths, inner.next, depth);
      var node := Node(items[i], Some(LevelOf(items, i + 1, inner, depth + 1)));
      OutlineCons(node, rest.children, depth);
      UnderLevel(items[i], LevelOf(items, i + 1, inner, depth + 1), depth);
      ZipJoin(items, depths, i + 1, inner.next, rest.next);
      ZipOne(items, depths, i, rest.next);
    } else {
      var rest := Siblings(items, depths, i + 1, depth);
      SiblingsComplete(items, depths, i + 1, depth);
      OutlineCons(Node(items[i], None), rest.children, depth);
      UnderNone(items[i], depth);
      ZipOne(items, depths, i, rest.next);
    }
  }

  lemma NothingThere(items: seq<ListItem>, depths: seq<nat>, i: nat, depth: nat)
    requires |depths| == |items| && i <= |items|
    ensures Outline([], depth) == Zip(items, depths, i, i)
  {
  }

  lemma ShapedNext(depths: seq<nat>, i: nat)
    requires Shaped(depths) && 0 < i < |depths|
    ensures depths[i] <= depths[i - 1] + 1
  {
  }

  lemma UnderLevel(item: ListItem, level: Level, depth: nat)
    ensures Under(Node(item, Some(level)), depth) == Outline(level.children, depth + 1)
  {
    hide Outline;
  }

  lemma UnderNone(item: ListItem, depth: nat)
    ensures Under(Node(item, None), depth) == []
  {
  }

  lemma ZipOne(items: seq<ListItem>, depths: seq<nat>, i: nat, j: nat)
    requires i < j <= |items| == |depths|
    ensures Zip(items, depths, i, j) == [(items[i], depths[i])] + Zip(items, depths, i + 1, j)
  {
  }

  lemma SiblingsStep(items: seq<ListItem>, depths: seq<nat>, i: nat, depth: nat)
    requires |depths| == |items| && i <= |items|
    ensures Siblings(items, depths, i, depth) ==
      if i == |items| || depths[i] != depth then Parse([], i)
      else if i + 1 < |items| && depths[i + 1] > depth then
        var inner := Siblings(items, depths, i + 1, depth + 1);
        var rest := Siblings(items, depths, inner.next, depth);
        Parse([Node(items[i], Some(LevelOf(items, i + 1, inner, depth + 1)))] + rest.children, rest.next)
      else
        var rest := Siblings(items, depths, i + 1, depth);
        Parse([Node(items[i], None)] + rest.children, rest.next)
  {
  }

  lemma OutlineCons(node: Node, rest: seq<Node>, depth: nat)
    ensures Outline([node] + rest, depth) == [(node.item, depth)] + Under(node, depth) + Outline(rest, depth)
  {
    hide Under;
    assert ([node] + rest)[1..] == rest;
  }

  function DepthsOf(items: seq<ListItem>): (depths: seq<nat>)
    ensures |depths| == |items| && forall i :: 0 <= i < |items| ==> depths[i] == Depth(items, i)
  {
    seq(|items|, i requires 0 <= i < |items| => Depth(items, i))
  }

  /** From depth 0 the tree takes every item, in order, each at its own depth. */
  lemma TreeComplete(items: seq<ListItem>)
    ensures Shaped(DepthsOf(items))
    ensures var p := Siblings(items, DepthsOf(items), 0, 0);
      p.next == |items| && Outline(p.children, 0) == Zip(items, DepthsOf(items), 0, |items|)
  {
    hide Depth, Outline, Siblings, Zip, DepthsOf;
    var depths := DepthsOf(items);
    forall i | 0 <= i < |items| ensures (i == 0 ==> depths[i] == 0) && (i > 0 ==> depths[i] <= depths[i - 1] + 1) {
      DepthsShaped(items, i);
    }
    SiblingsComplete(items, depths, 0, 0);
  }

  method BuildListLevel(items: seq<ListItem>, depths: seq<nat>, index: nat, depth: nat)
    returns (level: Level, next: nat)
    requires |depths| == |items| && index < |items| && depths[index] == depth && Shaped(depths)
    ensures next == Siblings(items, depths, index, depth).next > index
    ensures level == LevelOf(items, index, Siblings(items, depths, index, depth), depth)
    decreases |items| - index
  {
    hide Siblings, Shaped;
    var start := items[index].start;
    var children: seq<Node>, end := [], start;
    next := index;
    ghost var whole := Siblings(items, depths, index, depth);
    while next < |items| && depths[next] == depth
      invariant index <= next <= |items|
      invariant whole == Parse(children + Siblings(items, depths, next, depth).children,
                               Siblings(items, depths, next, depth).next)
      invariant end == if next > index then items[next - 1].end else start
      decreases |items| - next
    {
      SiblingsStep(items, depths, next, depth);
      var item := items[next];
      next := next + 1;
      if next < |items| && depths[next] > depth {
        ShapedNext(depths, next);
        var nested, after := BuildListLevel(items, depths, next, depth + 1);
        children := children + [Node(item, Some(nested))];
        next := after;
        end := nested.end;
      } else {
        children := children + [Node(item, None)];
        end := item.end;
      }
    }
    SiblingsStep(items, depths, next, depth);
    level := Level(depth, start, end, children);
  }

  // ------------------------------------------------------------------ levels and ranges

  /** A level says how deep it is, begins with its first item, and ends with its last one or
      with what is nested under that; so does every level nested in it. */
  predicate Ranged(level: Level, depth: nat)
    decreases level
  {
    && level.depth == depth && level.children != [] && level.start == level.children[0].item.start
    && level.end == EndOf(level.children[|level.children| - 1])
    && forall i :: 0 <= i < |level.children| ==> RangedUnder(level.children[i], depth)
  }

  predicate RangedUnder(node: Node, depth: nat)
    decreases node
  {
    match node.nested
    case None => true
    case Some(level) => Ranged(level, depth + 1)
  }

  function EndOf(node: Node): nat {
    if node.nested.Some? then node.nested.value.end else node.item.end
  }

  lemma {:induction false} SiblingsRanged(items: seq<ListItem>, depths: seq<nat>, i: nat, depth: nat)
    requires |depths| == |items| && i <= |items| && Shaped(depths)
    ensures var p := Siblings(items, depths, i, depth);
      && (forall k :: 0 <= k < |p.children| ==> RangedUnder(p.children[k], depth))
      && (p.children != [] ==> i < p.next && i < |items| && p.children[0].item == items[i])
      && (p.children != [] ==> EndOf(p.children[|p.children| - 1]) == items[p.next - 1].end)
    decreases |items| - i
  {
    hide Siblings, RangedUnder, Shaped;
    SiblingsStep(items, depths, i, depth);
    if i < |items| && depths[i] == depth {
      if i + 1 < |items| && depths[i + 1] > depth {
        ShapedNext(depths, i + 1);
        var inner := Siblings(items, depths, i + 1, depth + 1);
        SiblingsRanged(items, depths, i + 1, depth + 1);
        SiblingsRanged(items, depths, inner.next, depth);
        var rest := Siblings(items, depths, inner.next, depth);
        var node := Node(items[i], Some(LevelOf(items, i + 1, inner, depth + 1)));
        NestedRanged(node, LevelOf(items, i + 1, inner, depth + 1), depth);
        RestStands(items, depths, inner.next, depth);
      } else {
        SiblingsRanged(items, depths, i + 1, depth);
        var rest := Siblings(items, depths, i + 1, depth);
        LeafRanged(items[i], depth);
        RestStands(items, depths, i + 1, depth);
      }
    }
  }

  lemma NestedRanged(node: Node, level: Level, depth: nat)
    requires node.nested == Some(level) && Ranged(level, depth + 1)
    ensures RangedUnder(node, depth)
  {
    hide Ranged;
  }

  lemma LeafRanged(item: ListItem, depth: nat)
    ensures RangedUnder(Node(item, None), depth)
  {
  }

  lemma RestStands(items: seq<ListItem>, depths: seq<nat>, i: nat, depth: nat)
    requires |depths| == |items| && i <= |items|
    ensures Siblings(items, depths, i, depth).children == [] ==> Siblings(items, depths, i, depth).next == i
  {
    hide LevelOf;
  }

  /** Every level of the tree of a list says its own depth and range. */
  lemma TreeRanged(items: seq<ListItem>)
    requires items != []
    ensures Ranged(LevelOf(items, 0, Siblings(items, DepthsOf(items), 0, 0), 0), 0)
  {
    hide Siblings, RangedUnder, Shaped, DepthsOf;
    TreeComplete(items);
    SiblingsRanged(items, DepthsOf(items), 0, 0);
    FirstDepth(items);
    SiblingsStep(items, DepthsOf(items), 0, 0);
  }

  lemma FirstDepth(items: seq<ListItem>)
    requires items != []
    ensures DepthsOf(items)[0] == 0
  {
    FirstChain(items);
  }

  /** The list's tree: in reading order exactly the items, each at the depth of its ancestors. */
  method BuildList(items: seq<ListItem>) returns (level: Level)
    requires items != []
    ensures Outline(level.children, 0) == Zip(items, DepthsOf(items), 0, |items|)
    ensures level.start == items[0].start && level.end == items[|items| - 1].end
    ensures Ranged(level, 0)
  {
    hide Siblings, Outline, Zip, Depth;
    var depths := ListDepths(items);
    assert depths == DepthsOf(items);
    TreeComplete(items);
    TreeRanged(items);
    DepthsShaped(items, 0);
    var next;
    level, next := BuildListLevel(items, depths, 0, 0);
  }
}
