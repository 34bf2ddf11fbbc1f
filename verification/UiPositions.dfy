// Position numbering of a UI tree (ui/mod.rs).
module UiPositions {
  import opened Wrappers

  datatype Element = Element(name: string, position: Option<int>, children: seq<Element>)

  const COUNTER_START := 50

  // Children come before their container, as they are constructed first.
  function PostOrder(e: Element): seq<(string, Option<int>)> {
    PostOrderAll(e.children) + [(e.name, e.position)]
  }

  function PostOrderAll(es: seq<Element>): seq<(string, Option<int>)> {
    if es == [] then [] else PostOrder(es[0]) + PostOrderAll(es[1..])
  }

  // The tree without its positions.
  function Shape(e: Element): Element {
    Element(e.name, None, ShapeAll(e.children))
  }

  function ShapeAll(es: seq<Element>): (shapes: seq<Element>)
    ensures |shapes| == |es|
  {
    if es == [] then [] else [Shape(es[0])] + ShapeAll(es[1..])
  }

  function Numbered(e: Element, counter: int): Element
    decreases e, 0
  {
    Element(e.name, Some(e.position.GetOr(counter + |PostOrder(e)|)), NumberedAll(e.children, counter))
  }

  function NumberedAll(es: seq<Element>, counter: int): (numbered: seq<Element>)
    ensures |numbered| == |es|
    decreases es
  {
    if es == [] then []
    else [Numbered(es[0], counter)] + NumberedAll(es[1..], counter + |PostOrder(es[0])|)
  }

  method AssignPositionsDepthFirst(e: Element, counter: int) returns (numbered: Element, after: int)
    ensures numbered == Numbered(e, counter)
    ensures after == counter + |PostOrder(e)|
    decreases e
  {
    var children;
    children, after := AssignAll(e.children, counter);
    after := after + 1;
    numbered := Element(e.name, if e.position.None? then Some(after) else e.position, children);
  }

  method AssignAll(es: seq<Element>, counter: int) returns (numbered: seq<Element>, after: int)
    ensures numbered == NumberedAll(es, counter)
    ensures after == counter + |PostOrderAll(es)|
    decreases es
  {
    numbered, after := [], counter;
    for i := 0 to |es|
      invariant numbered + NumberedAll(es[i..], after) == NumberedAll(es, counter)
      invariant after + |PostOrderAll(es[i..])| == counter + |PostOrderAll(es)|
    {
      assert es[i..][0] == es[i] && es[i..][1..] == es[i + 1..];
      var child;
      child, after := AssignPositionsDepthFirst(es[i], after);
      numbered := numbered + [child];
    }
  }

  method Finalize(tree: seq<Element>) returns (numbered: seq<Element>)
    ensures numbered == NumberedAll(tree, COUNTER_START)
  {
    var counter;
    numbered, counter := AssignAll(tree, COUNTER_START);
  }

  // Declared positions stay; the n-th element without one gets the n-th number.
  predicate NumbersInOrder(before: seq<(string, Option<int>)>, after: seq<(string, Option<int>)>, counter: int) {
    |after| == |before| &&
    forall n | 0 <= n < |before| :: after[n] == (before[n].0, Some(before[n].1.GetOr(counter + 1 + n)))
  }

  lemma {:induction false} NumberedInOrder(e: Element, counter: int)
    ensures NumbersInOrder(PostOrder(e), PostOrder(Numbered(e, counter)), counter)
    ensures Shape(Numbered(e, counter)) == Shape(e)
    decreases e, 0
  {
    AllNumberedInOrder(e.children, counter);
  }

  /** Whatever the tree, `finalize` numbers it in post-order from 51, keeps declared
      positions, and changes nothing else. */
  lemma {:induction false} AllNumberedInOrder(es: seq<Element>, counter: int)
    ensures NumbersInOrder(PostOrderAll(es), PostOrderAll(NumberedAll(es, counter)), counter)
    ensures ShapeAll(NumberedAll(es, counter)) == ShapeAll(es)
    decreases es
  {
    if es != [] {
      var after := counter + |PostOrder(es[0])|;
      var first, rest := Numbered(es[0], counter), NumberedAll(es[1..], after);
      NumberedInOrder(es[0], counter);
      AllNumberedInOrder(es[1..], after);
      FirstAndRest(first, rest);
      OrdersJoin(PostOrder(es[0]), PostOrder(first), PostOrderAll(es[1..]), PostOrderAll(rest), counter);
    }
  }

  lemma FirstAndRest(first: Element, rest: seq<Element>)
    ensures PostOrderAll([first] + rest) == PostOrder(first) + PostOrderAll(rest)
    ensures ShapeAll([first] + rest) == [Shape(first)] + ShapeAll(rest)
  {
    assert ([first] + rest)[1..] == rest;
  }

  lemma OrdersJoin(a: seq<(string, Option<int>)>, a': seq<(string, Option<int>)>,
                   b: seq<(string, Option<int>)>, b': seq<(string, Option<int>)>, counter: int)
    requires NumbersInOrder(a, a', counter) && NumbersInOrder(b, b', counter + |a|)
    ensures NumbersInOrder(a + b, a' + b', counter)
  {
  }

  /** `finalize` gives the n-th element in post-order, counted from one, the position 50 + n,
      if it declares none. */
  lemma FinalizeNumbersFrom51(tree: seq<Element>, n: nat)
    requires n < |PostOrderAll(tree)|
    ensures var before, after := PostOrderAll(tree), PostOrderAll(NumberedAll(tree, COUNTER_START));
      |after| == |before| && after[n] == (before[n].0, Some(if before[n].1.Some? then before[n].1.value else 51 + n))
  {
    AllNumberedInOrder(tree, COUNTER_START);
  }

  // Numbers given out are distinct and grow along the post-order.
  lemma AssignedNumbersGrow(es: seq<Element>, i: nat, j: nat)
    requires i < j < |PostOrderAll(es)| && PostOrderAll(es)[i].1.None? && PostOrderAll(es)[j].1.None?
    ensures var after := PostOrderAll(NumberedAll(es, COUNTER_START));
      |after| == |PostOrderAll(es)| && after[i].1.Some? && after[j].1.Some?
      && COUNTER_START < after[i].1.value < after[j].1.value
  {
    AllNumberedInOrder(es, COUNTER_START);
  }

  // Same shape and same positions in order: the same tree.
  lemma {:induction false} TreeFromOrder(e: Element, f: Element)
    requires Shape(e) == Shape(f) && PostOrder(e) == PostOrder(f)
    ensures e == f
    decreases e, 0
  {
    var n := |PostOrder(e)| - 1;
    assert PostOrder(e)[..n] == PostOrderAll(e.children) && PostOrder(f)[..n] == PostOrderAll(f.children);
    assert PostOrder(e)[n] == PostOrder(f)[n];
    TreesFromOrder(e.children, f.children);
  }

  lemma {:induction false} TreesFromOrder(es: seq<Element>, fs: seq<Element>)
    requires ShapeAll(es) == ShapeAll(fs) && PostOrderAll(es) == PostOrderAll(fs)
    ensures es == fs
    decreases es
  {
    assert |es| == |ShapeAll(es)| == |ShapeAll(fs)| == |fs|;
    if es != [] {
      var e, f := es[0], fs[0];
      assert ShapeAll(es)[0] == ShapeAll(fs)[0] && ShapeAll(es)[1..] == ShapeAll(fs)[1..];
      SizeFromShape(e);
      SizeFromShape(f);
      var m := |PostOrder(e)|;
      assert PostOrderAll(es)[..m] == PostOrder(e) && PostOrderAll(fs)[..m] == PostOrder(f);
      assert PostOrderAll(es)[m..] == PostOrderAll(es[1..]) && PostOrderAll(fs)[m..] == PostOrderAll(fs[1..]);
      TreeFromOrder(e, f);
      TreesFromOrder(es[1..], fs[1..]);
    }
  }

  lemma {:induction false} SizeFromShape(e: Element)
    ensures |PostOrder(e)| == |PostOrder(Shape(e))|
    decreases e, 0
  {
    SizesFromShape(e.children);
  }

  lemma {:induction false} SizesFromShape(es: seq<Element>)
    ensures |PostOrderAll(es)| == |PostOrderAll(ShapeAll(es))|
    decreases es
  {
    if es != [] {
      SizeFromShape(es[0]);
      SizesFromShape(es[1..]);
      assert ShapeAll(es)[1..] == ShapeAll(es[1..]);
    }
  }

  /** `finalize` is idempotent. */
  lemma FinalizeIsIdempotent(es: seq<Element>)
    ensures NumberedAll(NumberedAll(es, COUNTER_START), COUNTER_START) == NumberedAll(es, COUNTER_START)
  {
    var once := NumberedAll(es, COUNTER_START);
    AllNumberedInOrder(es, COUNTER_START);
    AllNumberedInOrder(once, COUNTER_START);
    var twice := NumberedAll(once, COUNTER_START);
    forall n | 0 <= n < |PostOrderAll(once)| ensures PostOrderAll(twice)[n] == PostOrderAll(once)[n] {
      assert PostOrderAll(once)[n].1.Some?;
    }
    TreesFromOrder(twice, once);
  }
}
