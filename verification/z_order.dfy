/**
 The order a rectangle must get, by a plain scan of the earlier rectangles
 (the reference of the random test, crates/gpui/src/bounds_tree.rs:438-471), and what such orders mean.
 */
module ZOrder {
  import opened Geometry

  /** A rectangle and the order it was given. */
  datatype Placed = Placed(bounds: Bounds, order: nat)

  /** The naive scan: the largest order among the rectangles that meet `query`, 0 if there is none. */
  function MaxIntersecting(items: seq<Placed>, query: Bounds): nat {
    if items == [] then 0
    else
      var last := items[|items| - 1];
      var before := MaxIntersecting(items[..|items| - 1], query);
      if query.Intersects(last.bounds) && before < last.order then last.order else before
  }

  /** The scan is a maximum: every met order is at most the result, which is 0 or a met order. */
  lemma {:induction false} MaxIntersectingIsMax(items: seq<Placed>, query: Bounds)
    ensures forall k :: 0 <= k < |items| && query.Intersects(items[k].bounds)
                        ==> items[k].order <= MaxIntersecting(items, query)
    ensures MaxIntersecting(items, query) != 0 ==>
              exists k :: 0 <= k < |items| && query.Intersects(items[k].bounds)
                          && items[k].order == MaxIntersecting(items, query)
  {
    if items != [] {
      var front := items[..|items| - 1];
      MaxIntersectingIsMax(front, query);
      if MaxIntersecting(front, query) != 0 {
        var k :| 0 <= k < |front| && query.Intersects(front[k].bounds)
                 && front[k].order == MaxIntersecting(front, query);
        assert items[k] == front[k];
      }
    }
  }

  /** Every rectangle got one more than the scan of the rectangles before it. */
  ghost predicate WellOrdered(items: seq<Placed>) {
    forall k :: 0 <= k < |items| ==> items[k].order == 1 + MaxIntersecting(items[..k], items[k].bounds)
  }

  lemma WellOrderedPush(items: seq<Placed>, bounds: Bounds)
    requires WellOrdered(items)
    ensures WellOrdered(items + [Placed(bounds, 1 + MaxIntersecting(items, bounds))])
  {
    var longer := items + [Placed(bounds, 1 + MaxIntersecting(items, bounds))];
    forall k | 0 <= k < |longer|
      ensures longer[k].order == 1 + MaxIntersecting(longer[..k], longer[k].bounds)
    {
      assert longer[..k] == items[..k];
      assert k == |items| ==> items[..k] == items;
    }
  }

  /** Insertion indices, each later than and overlapping the one before. */
  ghost predicate Chain(items: seq<Placed>, chain: seq<nat>) {
    && |chain| > 0
    && (forall i :: 0 <= i < |chain| ==> chain[i] < |items|)
    && (forall i :: 0 < i < |chain| ==>
          chain[i - 1] < chain[i] && items[chain[i]].bounds.Intersects(items[chain[i - 1]].bounds))
  }

  ghost predicate ChainTo(items: seq<Placed>, chain: seq<nat>, k: nat) {
    Chain(items, chain) && chain[|chain| - 1] == k
  }

  lemma {:induction false} ChainAtMostOrder(items: seq<Placed>, chain: seq<nat>)
    requires WellOrdered(items)
    requires Chain(items, chain)
    ensures |chain| <= items[chain[|chain| - 1]].order
    decreases |chain|
  {
    var k := chain[|chain| - 1];
    if |chain| > 1 {
      var front := chain[..|chain| - 1];
      ChainAtMostOrder(items, front);
      var j := front[|front| - 1];
      assert chain[|chain| - 2] == j;
      MaxIntersectingIsMax(items[..k], items[k].bounds);
      assert items[..k][j] == items[j];
    }
  }

  lemma {:induction false} ChainOfOrder(items: seq<Placed>, k: nat) returns (chain: seq<nat>)
    requires WellOrdered(items)
    requires k < |items|
    ensures ChainTo(items, chain, k) && |chain| == items[k].order
    decreases k
  {
    hide MaxIntersecting;
    chain := [k];
    assert items[k].order == 1 + MaxIntersecting(items[..k], items[k].bounds);
    if items[k].order != 1 {
      MaxIntersectingIsMax(items[..k], items[k].bounds);
      var j :| 0 <= j < k && items[k].bounds.Intersects(items[..k][j].bounds)
               && items[..k][j].order == items[k].order - 1;
      var front := ChainOfOrder(items, j);
      chain := front + [k];
    }
  }

  /** A rectangle's order is the length of the longest overlapping chain of insertions that ends at it. */
  lemma OrderIsLongestChain(items: seq<Placed>, k: nat)
    requires WellOrdered(items)
    requires k < |items|
    ensures exists chain :: ChainTo(items, chain, k) && |chain| == items[k].order
    ensures forall chain :: ChainTo(items, chain, k) ==> |chain| <= items[k].order
  {
    var longest := ChainOfOrder(items, k);
    forall chain | ChainTo(items, chain, k) ensures |chain| <= items[k].order {
      ChainAtMostOrder(items, chain);
    }
  }

  /** Of two overlapping rectangles the later one is strictly higher, and no order exceeds its position. */
  lemma LaterOverlapIsHigher(items: seq<Placed>, j: nat, k: nat)
    requires WellOrdered(items)
    requires j < k < |items|
    ensures items[k].bounds.Intersects(items[j].bounds) ==> items[j].order < items[k].order
  {
    MaxIntersectingIsMax(items[..k], items[k].bounds);
    assert items[..k][j] == items[j];
  }

  lemma {:induction false} OrderBounded(items: seq<Placed>, k: nat)
    requires WellOrdered(items)
    requires k < |items|
    ensures 1 <= items[k].order <= k + 1
    decreases k
  {
    MaxIntersectingIsMax(items[..k], items[k].bounds);
    if items[k].order > 1 {
      var j :| 0 <= j < k && items[..k][j].order == items[k].order - 1;
      OrderBounded(items, j);
    }
  }
}
