/**
 The R-tree that assigns z-orders (crates/gpui/src/bounds_tree.rs).

 Nodes live in one flat vector and refer to their children by index. Which indices form the tree is
 recorded in a ghost `Shape`: a parent for every node and a rank that decreases from parent to child.
 All the other conditions relate a node to its own children only.
 */
module BoundsTrees {
  import opened Options
  import opened Sequences
  import opened Geometry
  import opened ZOrder

  const MAX_CHILDREN: nat := 12

  datatype Kind = Leaf(order: nat) | Internal(children: seq<nat>)

  datatype Node = Node(bounds: Bounds, maxOrder: nat, kind: Kind)

  datatype Shape = Shape(root: nat, rank: seq<nat>, parent: seq<nat>)

  // ----- Child lists -----

  function Swap(s: seq<nat>, i: nat, j: nat): (r: seq<nat>)
    requires i < |s| && j < |s|
    ensures |r| == |s|
  {
    s[i := s[j]][j := s[i]]
  }

  /** The same children, possibly in another order. */
  ghost predicate SameChildren(s: seq<nat>, r: seq<nat>) {
    |s| == |r| && Distinct(r) && forall x :: x in r <==> x in s
  }

  lemma SwapSameChildren(s: seq<nat>, i: nat, j: nat)
    requires i < |s| && j < |s| && Distinct(s)
    ensures SameChildren(s, Swap(s, i, j))
  {
    var r := Swap(s, i, j);
    forall x ensures x in r <==> x in s {
      if x in s {
        var k :| 0 <= k < |s| && s[k] == x;
        assert r[if k == i then j else if k == j then i else k] == x;
      }
    }
  }

  /** The child list after one of them has become the highest: it trades places with the last. */
  function MoveToEnd(s: seq<nat>, child: nat): (r: seq<nat>)
    requires child in s
    ensures |r| == |s| && r[|r| - 1] == child
  {
    Swap(s, Position(s, child), |s| - 1)
  }

  // ----- Shape: the vector holds one tree -----

  ghost predicate Fits(nodes: seq<Node>, t: Shape) {
    |t.rank| == |nodes| && |t.parent| == |nodes| && t.root < |nodes|
  }

  ghost predicate ChildOf(nodes: seq<Node>, t: Shape, i: nat, c: nat)
    requires Fits(nodes, t) && i < |nodes|
  {
    c < |nodes| && c != t.root && t.parent[c] == i && t.rank[c] < t.rank[i]
  }

  ghost predicate Linked(nodes: seq<Node>, t: Shape, i: nat)
    requires Fits(nodes, t) && i < |nodes|
  {
    nodes[i].kind.Internal? ==>
      var cs := nodes[i].kind.children;
      && 2 <= |cs| <= MAX_CHILDREN
      && Distinct(cs)
      && forall c :: c in cs ==> ChildOf(nodes, t, i, c)
  }

  ghost predicate Attached(nodes: seq<Node>, t: Shape, i: nat)
    requires Fits(nodes, t) && i < |nodes|
  {
    i != t.root ==>
      && t.parent[i] < |nodes|
      && nodes[t.parent[i]].kind.Internal?
      && i in nodes[t.parent[i]].kind.children
  }

  /** Every node but the root is a child of exactly one node, and ranks decrease downwards. */
  ghost predicate Tree(nodes: seq<Node>, t: Shape) {
    && Fits(nodes, t)
    && (forall i :: 0 <= i < |nodes| ==> Linked(nodes, t, i))
    && (forall i :: 0 <= i < |nodes| ==> Attached(nodes, t, i))
    && (forall i :: 0 <= i < |nodes| ==> t.rank[i] <= t.rank[t.root])
  }

  // ----- Summaries: bounds and highest order of a subtree -----

  ghost predicate InRange(cs: seq<nat>, n: nat) {
    forall k :: 0 <= k < |cs| ==> cs[k] < n
  }

  /** Child `c` stays within the rectangle and the order of `node`. */
  ghost predicate Covers(node: Node, nodes: seq<Node>, c: nat) {
    c < |nodes| && nodes[c].maxOrder <= node.maxOrder && node.bounds.Contains(nodes[c].bounds)
  }

  /** `node` would be a correct summary of its children in `nodes`; the last child is the highest. */
  ghost predicate Summarizes(nodes: seq<Node>, node: Node) {
    match node.kind
    case Leaf(order) => node.maxOrder == order
    case Internal(cs) =>
      && |cs| > 0
      && (forall k :: 0 <= k < |cs| ==> Covers(node, nodes, cs[k]))
      && nodes[cs[|cs| - 1]].maxOrder == node.maxOrder
  }

  ghost predicate Summarized(nodes: seq<Node>) {
    forall i :: 0 <= i < |nodes| ==> Summarizes(nodes, nodes[i])
  }

  // ----- What the tree conditions mean for whole subtrees -----

  /** Node `l` is node `i` or below it. */
  ghost predicate Under(nodes: seq<Node>, t: Shape, i: nat, l: nat)
    requires Tree(nodes, t) && i < |nodes|
    decreases t.rank[i]
  {
    || i == l
    || (assert Linked(nodes, t, i);
        nodes[i].kind.Internal? && exists c :: c in nodes[i].kind.children && Under(nodes, t, c, l))
  }

  lemma {:induction false} UnderTransitive(nodes: seq<Node>, t: Shape, i: nat, j: nat, l: nat)
    requires Tree(nodes, t) && i < |nodes| && j < |nodes|
    requires Under(nodes, t, i, j) && Under(nodes, t, j, l)
    ensures Under(nodes, t, i, l)
    decreases t.rank[i]
  {
    if i != j {
      assert Linked(nodes, t, i);
      var c :| c in nodes[i].kind.children && Under(nodes, t, c, j);
      UnderTransitive(nodes, t, c, j, l);
    }
  }

  /** Every node of the vector is below the root: nothing is ever lost. */
  lemma {:induction false} AllUnderRoot(nodes: seq<Node>, t: Shape, l: nat)
    requires Tree(nodes, t) && l < |nodes|
    ensures Under(nodes, t, t.root, l)
    decreases t.rank[t.root] - t.rank[l]
  {
    if l != t.root {
      assert Attached(nodes, t, l);
      var p := t.parent[l];
      assert Linked(nodes, t, p);
      AllUnderRoot(nodes, t, p);
      assert Under(nodes, t, p, l);
      UnderTransitive(nodes, t, t.root, p, l);
    }
  }

  /** A node's rectangle contains, and its order bounds, everything below it. */
  lemma {:induction false} SubtreeBounded(nodes: seq<Node>, t: Shape, i: nat, l: nat)
    requires Tree(nodes, t) && Summarized(nodes) && i < |nodes|
    requires Under(nodes, t, i, l)
    ensures l < |nodes|
    ensures nodes[l].maxOrder <= nodes[i].maxOrder
    ensures nodes[i].bounds.Contains(nodes[l].bounds)
    decreases t.rank[i]
  {
    if i != l {
      assert Linked(nodes, t, i) && Summarizes(nodes, nodes[i]);
      var c :| c in nodes[i].kind.children && Under(nodes, t, c, l);
      SubtreeBounded(nodes, t, c, l);
    }
  }

  /** A node's order is the order of some leaf below it. */
  lemma {:induction false} SubtreeMaxAttained(nodes: seq<Node>, t: Shape, i: nat) returns (l: nat)
    requires Tree(nodes, t) && Summarized(nodes) && i < |nodes|
    ensures l < |nodes| && Under(nodes, t, i, l) && nodes[l].kind == Leaf(nodes[i].maxOrder)
    decreases t.rank[i]
  {
    assert Summarizes(nodes, nodes[i]);
    match nodes[i].kind
    case Leaf(_) =>
      l := i;
    case Internal(cs) =>
      assert Linked(nodes, t, i);
      assert ChildOf(nodes, t, i, cs[|cs| - 1]);
      l := SubtreeMaxAttained(nodes, t, cs[|cs| - 1]);
  }

  /** `maxOrder` is exactly the largest leaf order of the subtree. */
  lemma MaxOrderIsSubtreeMaximum(nodes: seq<Node>, t: Shape, i: nat)
    requires Tree(nodes, t) && Summarized(nodes) && i < |nodes|
    ensures exists l :: 0 <= l < |nodes| && Under(nodes, t, i, l) && nodes[l].kind == Leaf(nodes[i].maxOrder)
    ensures forall l: nat :: Under(nodes, t, i, l) ==> l < |nodes| && nodes[l].maxOrder <= nodes[i].maxOrder
  {
    var l := SubtreeMaxAttained(nodes, t, i);
    forall l: nat | Under(nodes, t, i, l) ensures l < |nodes| && nodes[l].maxOrder <= nodes[i].maxOrder {
      SubtreeBounded(nodes, t, i, l);
    }
  }

  ghost predicate ChildEdge(nodes: seq<Node>, i: nat, c: nat) {
    i < |nodes| && nodes[i].kind.Internal? && c in nodes[i].kind.children
  }

  /** A walk from parent to child. */
  ghost predicate Path(nodes: seq<Node>, path: seq<nat>) {
    && |path| > 0
    && InRange(path, |nodes|)
    && (forall k :: 0 < k < |path| ==> ChildEdge(nodes, path[k - 1], path[k]))
  }

  /** A node is reachable from the root along one path only. */
  lemma {:induction false} PathIsUnique(nodes: seq<Node>, t: Shape, p: seq<nat>, q: seq<nat>)
    requires Tree(nodes, t) && Path(nodes, p) && Path(nodes, q)
    requires p[0] == t.root && q[0] == t.root
    requires p[|p| - 1] == q[|q| - 1]
    ensures p == q
    decreases |p|
  {
    var m, n := |p| - 1, |q| - 1;
    if m > 0 {
      assert Linked(nodes, t, p[m - 1]);
    }
    if n > 0 {
      assert Linked(nodes, t, q[n - 1]);
    }
    if m > 0 && n > 0 {
      assert p[..m][m - 1] == q[..n][n - 1] by {
        assert ChildOf(nodes, t, p[m - 1], p[m]) && ChildOf(nodes, t, q[n - 1], q[n]);
      }
      PathIsUnique(nodes, t, p[..m], q[..n]);
      assert p == p[..m] + [p[m]] && q == q[..n] + [q[n]];
    } else {
      assert m == 0 && n == 0;
    }
  }

  // ----- Subtree weight: the work left on a search stack -----

  ghost function Weight(nodes: seq<Node>, t: Shape, i: nat): (n: nat)
    requires Tree(nodes, t) && i < |nodes|
    ensures n >= 1
    decreases t.rank[i], 1, 0
  {
    match nodes[i].kind
    case Leaf(_) => 1
    case Internal(cs) =>
      assert Linked(nodes, t, i);
      assert forall k :: 0 <= k < |cs| ==> ChildOf(nodes, t, i, cs[k]);
      1 + WeightBelow(nodes, t, cs, t.rank[i])
  }

  ghost function WeightBelow(nodes: seq<Node>, t: Shape, cs: seq<nat>, rank: nat): nat
    requires Tree(nodes, t)
    requires forall k :: 0 <= k < |cs| ==> cs[k] < |nodes| && t.rank[cs[k]] < rank
    decreases rank, 0, |cs|
  {
    if cs == [] then 0
    else WeightBelow(nodes, t, cs[..|cs| - 1], rank) + Weight(nodes, t, cs[|cs| - 1])
  }

  ghost function StackWeight(nodes: seq<Node>, t: Shape, stack: seq<nat>): nat
    requires Tree(nodes, t) && InRange(stack, |nodes|)
  {
    if stack == [] then 0
    else StackWeight(nodes, t, stack[..|stack| - 1]) + Weight(nodes, t, stack[|stack| - 1])
  }

  /** The children that may still improve on `found`, in order. */
  function Promising(nodes: seq<Node>, cs: seq<nat>, found: nat): (r: seq<nat>)
    requires InRange(cs, |nodes|)
    ensures InRange(r, |nodes|)
    ensures forall c :: c in r <==> c in cs && nodes[c].maxOrder > found
  {
    if cs == [] then []
    else
      var front, last := cs[..|cs| - 1], cs[|cs| - 1];
      assert cs == front + [last];
      Promising(nodes, front, found) + (if nodes[last].maxOrder > found then [last] else [])
  }

  lemma {:induction false} StackWeightAppend(nodes: seq<Node>, t: Shape, s: seq<nat>, r: seq<nat>)
    requires Tree(nodes, t) && InRange(s, |nodes|) && InRange(r, |nodes|)
    ensures StackWeight(nodes, t, s + r) == StackWeight(nodes, t, s) + StackWeight(nodes, t, r)
  {
    if r == [] {
      assert s + r == s;
    } else {
      StackWeightAppend(nodes, t, s, r[..|r| - 1]);
      assert (s + r)[..|s + r| - 1] == s + r[..|r| - 1];
    }
  }

  lemma {:induction false} PromisingWeight(nodes: seq<Node>, t: Shape, cs: seq<nat>, rank: nat, found: nat)
    requires Tree(nodes, t) && InRange(cs, |nodes|)
    requires forall k :: 0 <= k < |cs| ==> t.rank[cs[k]] < rank
    ensures StackWeight(nodes, t, Promising(nodes, cs, found)) <= WeightBelow(nodes, t, cs, rank)
  {
    if cs != [] {
      var front, last := cs[..|cs| - 1], cs[|cs| - 1];
      PromisingWeight(nodes, t, front, rank, found);
      var r := Promising(nodes, front, found);
      if nodes[last].maxOrder > found {
        PushWeight(nodes, t, r, last);
        assert Promising(nodes, cs, found) == r + [last];
      } else {
        assert Promising(nodes, cs, found) == r;
      }
    }
  }

  lemma PushWeight(nodes: seq<Node>, t: Shape, s: seq<nat>, i: nat)
    requires Tree(nodes, t) && InRange(s, |nodes|) && i < |nodes|
    ensures InRange(s + [i], |nodes|)
    ensures StackWeight(nodes, t, s + [i]) == StackWeight(nodes, t, s) + Weight(nodes, t, i)
  {
    assert (s + [i])[..|s + [i]| - 1] == s;
  }

  // ----- Attaching a leaf: the three shapes an insertion can take -----

  /** Rewriting a node without changing which children it has keeps the tree. */
  lemma ReorderKeepsTree(nodes: seq<Node>, t: Shape, p: nat, node: Node)
    requires Tree(nodes, t) && p < |nodes| && nodes[p].kind.Internal? && node.kind.Internal?
    requires SameChildren(nodes[p].kind.children, node.kind.children)
    ensures Tree(nodes[p := node], t)
  {
    var after := nodes[p := node];
    forall i | 0 <= i < |after| ensures Linked(after, t, i) && Attached(after, t, i) {
      assert Linked(nodes, t, i) && Attached(nodes, t, i);
    }
  }

  /** A leaf root gets a new root above it and the new leaf beside it. */
  lemma GrowRoot(nodes: seq<Node>, t: Shape, leaf: Node, top: Node)
    requires Tree(nodes, t) && leaf.kind.Leaf?
    requires top.kind == Internal([t.root, |nodes|]) || top.kind == Internal([|nodes|, t.root])
    ensures Tree(nodes + [leaf, top],
                 Shape(|nodes| + 1, t.rank + [0, t.rank[t.root] + 1],
                       t.parent[t.root := |nodes| + 1] + [|nodes| + 1, 0]))
  {
    var after := nodes + [leaf, top];
    var u := Shape(|nodes| + 1, t.rank + [0, t.rank[t.root] + 1],
                   t.parent[t.root := |nodes| + 1] + [|nodes| + 1, 0]);
    forall i | 0 <= i < |after| ensures Linked(after, u, i) && Attached(after, u, i) {
      if i < |nodes| {
        assert Linked(nodes, t, i) && Attached(nodes, t, i);
      }
    }
  }

  lemma RootSummary(base: seq<Node>, r: nat, leaf: Node, top: Node)
    requires Summarized(base) && r < |base| && leaf.kind == Leaf(leaf.maxOrder)
    requires Extends(base[r], top, leaf.bounds, leaf.maxOrder)
    requires top.kind == Internal(if leaf.maxOrder > base[r].maxOrder then [r, |base|] else [|base|, r])
    ensures Summarized(base + [leaf, top])
  {
    var nodes := base + [leaf, top];
    UnionIsLeastUpperBound(base[r].bounds, leaf.bounds, leaf.bounds);
    hide Bounds.Contains, Bounds.Union;
    forall i | 0 <= i < |nodes| ensures Summarizes(nodes, nodes[i]) {
      if i < |base| {
        assert Summarizes(base, base[i]);
      }
    }
  }

  /** A node with room takes the new leaf as one more child. */
  lemma AttachLeaf(nodes: seq<Node>, t: Shape, leaf: Node, p: nat, node: Node)
    requires Tree(nodes, t) && leaf.kind.Leaf? && p < |nodes| && nodes[p].kind.Internal? && node.kind.Internal?
    requires |nodes[p].kind.children| < MAX_CHILDREN
    requires SameChildren(nodes[p].kind.children + [|nodes|], node.kind.children)
    ensures Tree((nodes + [leaf])[p := node], Shape(t.root, t.rank + [0], t.parent + [p]))
  {
    var after := (nodes + [leaf])[p := node];
    var u := Shape(t.root, t.rank + [0], t.parent + [p]);
    assert 0 < t.rank[p] by {
      assert Linked(nodes, t, p);
      assert nodes[p].kind.children[0] in nodes[p].kind.children;
    }
    forall i | 0 <= i < |after| ensures Linked(after, u, i) && Attached(after, u, i) {
      if i < |nodes| {
        assert Linked(nodes, t, i) && Attached(nodes, t, i);
      }
    }
  }

  /** A full node replaces one of its leaves by a new node above that leaf and the new one. */
  lemma SplitLeaf(nodes: seq<Node>, t: Shape, leaf: Node, inner: Node, p: nat, pos: nat, node: Node)
    requires Tree(nodes, t) && leaf.kind.Leaf? && p < |nodes| && nodes[p].kind.Internal? && node.kind.Internal?
    requires pos < |nodes[p].kind.children|
    requires var b := nodes[p].kind.children[pos];
             && b < |nodes| && nodes[b].kind.Leaf?
             && (inner.kind == Internal([b, |nodes|]) || inner.kind == Internal([|nodes|, b]))
    requires SameChildren(nodes[p].kind.children[pos := |nodes| + 1], node.kind.children)
    ensures Tree((nodes + [leaf, inner])[p := node], SplitShape(t, p, nodes[p].kind.children[pos]))
  {
    var after := (nodes + [leaf, inner])[p := node];
    var b := nodes[p].kind.children[pos];
    var u := SplitShape(t, p, b);
    assert Linked(nodes, t, p);
    assert ChildOf(nodes, t, p, b);
    forall i | 0 <= i < |after| ensures Linked(after, u, i) && Attached(after, u, i) {
      if i < |nodes| {
        assert Linked(nodes, t, i) && Attached(nodes, t, i);
        if i == p {
          ReplacedChildren(nodes[p].kind.children, pos, |nodes| + 1, node.kind.children);
        } else if nodes[i].kind.Internal? {
          forall c | c in nodes[i].kind.children ensures ChildOf(after, u, i, c) {
            assert ChildOf(nodes, t, i, c);
          }
        }
        if i != t.root && i != b && t.parent[i] == p {
          ReplacedChildren(nodes[p].kind.children, pos, |nodes| + 1, node.kind.children);
        }
      } else if i == |nodes| + 1 {
        ReplacedChildren(nodes[p].kind.children, pos, |nodes| + 1, node.kind.children);
      }
    }
  }

  ghost function SplitShape(t: Shape, p: nat, b: nat): Shape
    requires b < |t.rank| == |t.parent|
  {
    var n := |t.rank|;
    Shape(t.root,
          seq(n, i requires 0 <= i < n => 2 * t.rank[i]) + [0, 2 * t.rank[b] + 1],
          t.parent[b := n + 1] + [n + 1, p])
  }

  lemma ReplacedChildren(cs: seq<nat>, pos: nat, x: nat, r: seq<nat>)
    requires pos < |cs| && Distinct(cs) && SameChildren(cs[pos := x], r)
    ensures forall c :: c in r <==> c == x || (c in cs && c != cs[pos])
  {
    forall c ensures c in cs[pos := x] <==> c == x || (c in cs && c != cs[pos]) {
      if c == x {
        assert cs[pos := x][pos] == x;
      } else if c in cs && c != cs[pos] {
        var k :| 0 <= k < |cs| && cs[k] == c;
        assert cs[pos := x][k] == c;
      }
    }
  }

  // ----- The upward pass -----

  function MaxNat(a: nat, b: nat): nat {
    if a < b then b else a
  }

  /**
   What the upward pass makes of one node of the path: it covers the new rectangle, and if the new order
   is its new maximum the child that was just updated trades places with the last.
   */
  function Absorb(node: Node, bounds: Bounds, order: nat, updated: Option<nat>): Node
    requires node.kind.Internal?
  {
    if node.maxOrder < order then
      Node(node.bounds.Union(bounds), order,
           if updated.Some? && updated.value in node.kind.children
           then Internal(MoveToEnd(node.kind.children, updated.value)) else node.kind)
    else
      node.(bounds := node.bounds.Union(bounds))
  }

  /** `after` is `before` extended by a leaf with the given rectangle and order somewhere below. */
  ghost predicate Extends(before: Node, after: Node, bounds: Bounds, order: nat) {
    && after.bounds == before.bounds.Union(bounds)
    && after.maxOrder == MaxNat(before.maxOrder, order)
  }

  /** All nodes but `p` and its parent are right; `p` will be right after absorbing the leaf, and until
      then the parent is right about `before`, which `p` extends. */
  ghost predicate Rising(nodes: seq<Node>, t: Shape, p: nat, before: Node,
                         bounds: Bounds, order: nat, updated: Option<nat>)
    requires Tree(nodes, t) && p < |nodes| && nodes[p].kind.Internal?
  {
    && (forall i :: 0 <= i < |nodes| && i != p && (p == t.root || i != t.parent[p]) ==> Summarizes(nodes, nodes[i]))
    && (p != t.root ==>
          t.parent[p] < |nodes| && Summarizes(nodes[p := before], nodes[t.parent[p]]))
    && Summarizes(nodes, Absorb(nodes[p], bounds, order, updated))
    && Extends(before, Absorb(nodes[p], bounds, order, updated), bounds, order)
  }

  /** Absorbing only reorders children. */
  lemma AbsorbSameChildren(node: Node, bounds: Bounds, order: nat, updated: Option<nat>)
    requires node.kind.Internal? && Distinct(node.kind.children)
    ensures var after := Absorb(node, bounds, order, updated);
            after.kind.Internal? && SameChildren(node.kind.children, after.kind.children)
  {
    var cs := node.kind.children;
    if updated.Some? && updated.value in cs {
      SwapSameChildren(cs, Position(cs, updated.value), |cs| - 1);
    }
  }

  /** A node that was right before child `c` was extended is right after absorbing the same leaf. */
  lemma ParentAbsorbs(old_: seq<Node>, new_: seq<Node>, parent: Node, c: nat, bounds: Bounds, order: nat)
    requires |old_| == |new_| && c < |old_| && new_ == old_[c := new_[c]]
    requires parent.kind.Internal? && Distinct(parent.kind.children) && c in parent.kind.children
    requires Summarizes(old_, parent)
    requires Extends(old_[c], new_[c], bounds, order)
    ensures Summarizes(new_, Absorb(parent, bounds, order, Some(c)))
    ensures Extends(parent, Absorb(parent, bounds, order, Some(c)), bounds, order)
  {
    var cs := parent.kind.children;
    var after := Absorb(parent, bounds, order, Some(c));
    AbsorbSameChildren(parent, bounds, order, Some(c));
    hide MoveToEnd, SameChildren, Bounds.Contains, Bounds.Union;
    forall x | x in cs ensures Covers(after, new_, x) {
      var m :| 0 <= m < |cs| && cs[m] == x;
      assert Covers(parent, old_, cs[m]);
      CoverGrows(parent.bounds, bounds, old_[x].bounds, new_[x].bounds);
    }
    EachChild(cs, after.kind.children);
    assert Covers(after, new_, c);
    var last := after.kind.children[|cs| - 1];
    assert Covers(after, new_, last);
  }

  lemma EachChild(cs: seq<nat>, rs: seq<nat>)
    requires SameChildren(cs, rs)
    ensures forall k :: 0 <= k < |rs| ==> rs[k] in cs
  {
  }

  lemma CoverGrows(outer: Bounds, bounds: Bounds, inner: Bounds, grown: Bounds)
    requires outer.Contains(inner) && (grown == inner || grown == inner.Union(bounds))
    ensures outer.Union(bounds).Contains(grown)
  {
  }

  /** One step of the upward pass carries the condition from a node to its parent. */
  lemma RiseStep(nodes: seq<Node>, t: Shape, p: nat, before: Node, bounds: Bounds, order: nat, updated: Option<nat>)
    requires Tree(nodes, t) && p < |nodes| && nodes[p].kind.Internal?
    requires Rising(nodes, t, p, before, bounds, order, updated)
    ensures var after := nodes[p := Absorb(nodes[p], bounds, order, updated)];
            && Tree(after, t)
            && if p == t.root then Summarized(after)
               else
                 var up := t.parent[p];
                 up < |after| && up != p && after[up] == nodes[up] && after[up].kind.Internal?
                 && Rising(after, t, up, after[up], bounds, order, Some(p))
  {
    assert Linked(nodes, t, p) && Attached(nodes, t, p);
    AbsorbSameChildren(nodes[p], bounds, order, updated);
    ReorderKeepsTree(nodes, t, p, Absorb(nodes[p], bounds, order, updated));
    var after := nodes[p := Absorb(nodes[p], bounds, order, updated)];
    forall i | 0 <= i < |nodes| && (p == t.root || i != t.parent[p])
      ensures Summarizes(after, after[i])
    {
      assert Linked(after, t, i);
      SummaryFrame(nodes, after, after[i], p);
    }
    if p != t.root {
      var up := t.parent[p];
      assert Linked(nodes, t, up);
      ParentAbsorbs(nodes[p := before], after, nodes[up], p, bounds, order);
      assert after[up := after[up]] == after;
      if up != t.root {
        assert Attached(nodes, t, up);
        assert Linked(nodes, t, t.parent[up]);
      }
    }
  }

  /** Summaries look only at the children. */
  lemma SummaryFrame(nodes: seq<Node>, after: seq<Node>, node: Node, p: nat)
    requires |after| == |nodes| && p < |nodes| && after == nodes[p := after[p]]
    requires Summarizes(nodes, node)
    requires node.kind.Internal? ==> p !in node.kind.children
    ensures Summarizes(after, node)
  {
    if node.kind.Internal? {
      assert forall k :: 0 <= k < |node.kind.children| ==> node.kind.children[k] in node.kind.children;
    }
  }

  // ----- The search -----

  /** Every leaf that could still improve the result is below some node of the stack. */
  ghost predicate Covered(nodes: seq<Node>, t: Shape, stack: seq<nat>, query: Bounds, found: nat)
    requires Tree(nodes, t) && InRange(stack, |nodes|)
  {
    forall l: nat :: l < |nodes| && Improves(nodes[l], query, found) ==> UnderStack(nodes, t, stack, l)
  }

  ghost predicate Improves(node: Node, query: Bounds, found: nat) {
    node.kind.Leaf? && query.Intersects(node.bounds) && node.maxOrder > found
  }

  ghost predicate UnderStack(nodes: seq<Node>, t: Shape, stack: seq<nat>, l: nat)
    requires Tree(nodes, t) && InRange(stack, |nodes|)
  {
    exists k :: 0 <= k < |stack| && Under(nodes, t, stack[k], l)
  }

  lemma NothingBelowImproves(nodes: seq<Node>, t: Shape, i: nat, l: nat, query: Bounds, found: nat)
    requires Tree(nodes, t) && Summarized(nodes) && i < |nodes| && l < |nodes| && Under(nodes, t, i, l)
    requires nodes[i].maxOrder <= found || !query.Intersects(nodes[i].bounds)
    ensures !Improves(nodes[l], query, found)
  {
    SubtreeBounded(nodes, t, i, l);
    if query.Intersects(nodes[l].bounds) {
      ContainerIntersects(query, nodes[i].bounds, nodes[l].bounds);
    }
  }

  /** A popped node may be skipped when its order is too low or its rectangle misses the query. */
  lemma SkipIsSafe(nodes: seq<Node>, t: Shape, stack: seq<nat>, i: nat, query: Bounds, found: nat)
    requires Tree(nodes, t) && Summarized(nodes) && InRange(stack, |nodes|) && i < |nodes|
    requires Covered(nodes, t, stack + [i], query, found)
    requires nodes[i].maxOrder <= found || !query.Intersects(nodes[i].bounds)
    ensures Covered(nodes, t, stack, query, found)
  {
    forall l: nat | l < |nodes| && Improves(nodes[l], query, found) ensures UnderStack(nodes, t, stack, l) {
      assert UnderStack(nodes, t, stack + [i], l);
      var k :| 0 <= k < |stack + [i]| && Under(nodes, t, (stack + [i])[k], l);
      if k == |stack| {
        NothingBelowImproves(nodes, t, i, l, query, found);
      } else {
        assert Under(nodes, t, stack[k], l);
      }
    }
  }

  /** A popped leaf is accounted for by raising the result to its order. */
  lemma LeafIsCounted(nodes: seq<Node>, t: Shape, stack: seq<nat>, i: nat, query: Bounds, found: nat)
    requires Tree(nodes, t) && Summarized(nodes) && InRange(stack, |nodes|) && i < |nodes|
    requires Covered(nodes, t, stack + [i], query, found)
    requires nodes[i].kind.Leaf? && found <= nodes[i].maxOrder
    ensures nodes[i].kind.order == nodes[i].maxOrder
    ensures Covered(nodes, t, stack, query, nodes[i].maxOrder)
  {
    assert Summarizes(nodes, nodes[i]);
    forall l: nat | l < |nodes| && Improves(nodes[l], query, nodes[i].maxOrder) ensures UnderStack(nodes, t, stack, l) {
      assert UnderStack(nodes, t, stack + [i], l);
      var k :| 0 <= k < |stack + [i]| && Under(nodes, t, (stack + [i])[k], l);
      assert k < |stack|;
      assert Under(nodes, t, stack[k], l);
    }
  }

  /** A popped internal node may be replaced by those children that can still improve the result. */
  lemma ExpandIsSafe(nodes: seq<Node>, t: Shape, stack: seq<nat>, i: nat, query: Bounds, found: nat)
    requires Tree(nodes, t) && Summarized(nodes) && InRange(stack, |nodes|) && i < |nodes|
    requires nodes[i].kind.Internal? && InRange(nodes[i].kind.children, |nodes|)
    requires Covered(nodes, t, stack + [i], query, found)
    ensures Covered(nodes, t, stack + Promising(nodes, nodes[i].kind.children, found), query, found)
  {
    var cs := nodes[i].kind.children;
    var more := Promising(nodes, cs, found);
    forall l: nat | l < |nodes| && Improves(nodes[l], query, found) ensures UnderStack(nodes, t, stack + more, l) {
      assert UnderStack(nodes, t, stack + [i], l);
      var k :| 0 <= k < |stack + [i]| && Under(nodes, t, (stack + [i])[k], l);
      if k == |stack| {
        var c :| c in cs && Under(nodes, t, c, l);
        assert Linked(nodes, t, i);
        SubtreeBounded(nodes, t, c, l);
        var m :| 0 <= m < |more| && more[m] == c;
        assert (stack + more)[|stack| + m] == c;
      } else {
        assert (stack + more)[k] == stack[k];
      }
    }
  }

  /** Expanding a node leaves less work than the node itself was. */
  lemma ExpandShrinks(nodes: seq<Node>, t: Shape, stack: seq<nat>, i: nat, found: nat)
    requires Tree(nodes, t) && InRange(stack, |nodes|) && i < |nodes|
    requires nodes[i].kind.Internal? && InRange(nodes[i].kind.children, |nodes|)
    ensures StackWeight(nodes, t, stack + Promising(nodes, nodes[i].kind.children, found))
            < StackWeight(nodes, t, stack) + Weight(nodes, t, i)
  {
    var cs := nodes[i].kind.children;
    assert Linked(nodes, t, i);
    assert forall k :: 0 <= k < |cs| ==> ChildOf(nodes, t, i, cs[k]);
    PromisingWeight(nodes, t, cs, t.rank[i], found);
    StackWeightAppend(nodes, t, stack, Promising(nodes, cs, found));
  }

  /** Some leaf that meets the query has order `found`, unless nothing was found yet. */
  ghost predicate Attained(nodes: seq<Node>, query: Bounds, found: nat) {
    found != 0 ==> exists l :: 0 <= l < |nodes| && nodes[l].kind.Leaf?
                               && query.Intersects(nodes[l].bounds) && nodes[l].maxOrder == found
  }

  /** The root alone covers all leaves. */
  lemma RootCovers(nodes: seq<Node>, t: Shape, query: Bounds)
    requires Tree(nodes, t)
    ensures InRange([t.root], |nodes|) && Covered(nodes, t, [t.root], query, 0)
  {
    forall l: nat | l < |nodes| && Improves(nodes[l], query, 0) ensures UnderStack(nodes, t, [t.root], l) {
      AllUnderRoot(nodes, t, l);
      assert Under(nodes, t, [t.root][0], l);
    }
  }

  lemma InternalChildren(nodes: seq<Node>, i: nat)
    requires Summarized(nodes) && i < |nodes| && nodes[i].kind.Internal?
    ensures InRange(nodes[i].kind.children, |nodes|)
  {
    assert Summarizes(nodes, nodes[i]);
  }

  // ----- Leaves and insertions -----

  /** The leaves of the vector are exactly the inserted rectangles, each once and in order. */
  ghost predicate Holds(nodes: seq<Node>, items: seq<Placed>, leafOf: seq<nat>) {
    && |leafOf| == |items|
    && (forall k :: 0 <= k < |items| ==>
          leafOf[k] < |nodes| && nodes[leafOf[k]] == Node(items[k].bounds, items[k].order, Leaf(items[k].order)))
    && (forall i :: 0 <= i < |nodes| && nodes[i].kind.Leaf? ==> i in leafOf)
    && (forall j, k :: 0 <= j < k < |leafOf| ==> leafOf[j] < leafOf[k])
  }

  /** Internal nodes may change and be added; leaves stay as they are. */
  ghost predicate SameLeaves(nodes: seq<Node>, after: seq<Node>) {
    && |nodes| <= |after|
    && (forall i :: 0 <= i < |nodes| && nodes[i].kind.Leaf? ==> after[i] == nodes[i])
    && (forall i :: 0 <= i < |nodes| && nodes[i].kind.Internal? ==> after[i].kind.Internal?)
    && (forall i :: |nodes| <= i < |after| ==> after[i].kind.Internal?)
  }

  lemma SameLeavesSelf(a: seq<Node>)
    ensures SameLeaves(a, a)
  {
  }

  lemma AbsorbKeepsLeaves(a: seq<Node>, b: seq<Node>, i: nat, bounds: Bounds, order: nat, updated: Option<nat>)
    requires SameLeaves(a, b) && |a| == |b| && i < |b| && b[i].kind.Internal?
    ensures SameLeaves(a, b[i := Absorb(b[i], bounds, order, updated)])
  {
  }

  lemma SameLeavesCompose(a: seq<Node>, b: seq<Node>, c: seq<Node>)
    requires SameLeaves(a, b) && SameLeaves(b, c)
    ensures SameLeaves(a, c)
  {
  }

  lemma RootInRange(nodes: seq<Node>, t: Shape)
    requires Tree(nodes, t)
    ensures t.root < |nodes| == |t.rank| == |t.parent|
  {
  }

  lemma SingleLeaf(leaf: Node)
    requires leaf.kind == Leaf(leaf.maxOrder)
    ensures Tree([leaf], Shape(0, [0], [0])) && Summarized([leaf]) && SameLeaves([leaf], [leaf])
  {
  }

  lemma LeavesFrom(nodes: seq<Node>, after: seq<Node>)
    requires SameLeaves(nodes, after)
    ensures forall i :: 0 <= i < |after| && after[i].kind.Leaf? ==> i < |nodes| && after[i] == nodes[i]
  {
  }

  lemma HoldsFrame(nodes: seq<Node>, after: seq<Node>, items: seq<Placed>, leafOf: seq<nat>)
    requires Holds(nodes, items, leafOf) && SameLeaves(nodes, after)
    ensures Holds(after, items, leafOf)
  {
    forall k | 0 <= k < |items|
      ensures leafOf[k] < |after| && after[leafOf[k]] == Node(items[k].bounds, items[k].order, Leaf(items[k].order))
    {
      assert nodes[leafOf[k]].kind.Leaf?;
    }
  }

  /** An uncovered search result is the scan's result. */
  lemma SearchIsScan(nodes: seq<Node>, items: seq<Placed>, leafOf: seq<nat>, query: Bounds, found: nat)
    requires Holds(nodes, items, leafOf)
    requires Attained(nodes, query, found)
    requires forall l :: 0 <= l < |nodes| ==> !Improves(nodes[l], query, found)
    ensures found == MaxIntersecting(items, query)
  {
    MaxIntersectingIsMax(items, query);
    if found != 0 {
      var l :| 0 <= l < |nodes| && nodes[l].kind.Leaf?
               && query.Intersects(nodes[l].bounds) && nodes[l].maxOrder == found;
      var k :| 0 <= k < |leafOf| && leafOf[k] == l;
      assert query.Intersects(items[k].bounds);
    }
    if MaxIntersecting(items, query) != 0 {
      var k :| 0 <= k < |items| && query.Intersects(items[k].bounds)
               && items[k].order == MaxIntersecting(items, query);
      assert !Improves(nodes[leafOf[k]], query, found);
    }
  }

  lemma SearchDone(nodes: seq<Node>, t: Shape, items: seq<Placed>, leafOf: seq<nat>, query: Bounds, found: nat)
    requires Tree(nodes, t) && Covered(nodes, t, [], query, found) && Attained(nodes, query, found)
    requires Holds(nodes, items, leafOf)
    ensures found == MaxIntersecting(items, query)
  {
    forall l: nat | l < |nodes| ensures !Improves(nodes[l], query, found) {
      assert !UnderStack(nodes, t, [], l);
    }
    SearchIsScan(nodes, items, leafOf, query, found);
  }

  lemma EmptyHolds(nodes: seq<Node>, items: seq<Placed>, leafOf: seq<nat>, query: Bounds)
    requires Holds(nodes, items, leafOf) && nodes == []
    ensures items == [] && MaxIntersecting(items, query) == 0
  {
    if items != [] {
      ItemHasLeaf(nodes, items, leafOf, 0);
    }
  }

  lemma ItemHasLeaf(nodes: seq<Node>, items: seq<Placed>, leafOf: seq<nat>, k: nat)
    requires Holds(nodes, items, leafOf) && k < |items|
    ensures leafOf[k] < |nodes|
  {
  }

  class BoundsTree {
    var nodes: seq<Node>
    var root: Option<nat>
    var maxLeaf: Option<nat>
    var insertPath: seq<nat>
    var searchStack: seq<nat>

    ghost var shape: Shape
    ghost var items: seq<Placed>
    ghost var leafOf: seq<nat>

    ghost predicate TreeValid()
      reads this
    {
      && Holds(nodes, items, leafOf)
      && (root.None? ==> nodes == [])
      && (root.Some? ==> shape.root == root.value && Tree(nodes, shape) && Summarized(nodes))
    }

    ghost predicate MaxLeafValid()
      reads this
    {
      && (root.None? <==> maxLeaf.None?)
      && (maxLeaf.Some? ==>
            && maxLeaf.value < |nodes| && nodes[maxLeaf.value].kind.Leaf?
            && forall i :: 0 <= i < |nodes| && nodes[i].kind.Leaf? ==> nodes[i].maxOrder <= nodes[maxLeaf.value].maxOrder)
    }

    /** `items` lists every rectangle inserted since the last clear, with its order. */
    ghost predicate Valid()
      reads this
    {
      TreeValid() && MaxLeafValid() && WellOrdered(items)
    }

    constructor ()
      ensures Valid() && items == []
    {
      nodes, root, maxLeaf, insertPath, searchStack := [], None, None, [], [];
      shape, items, leafOf := Shape(0, [], []), [], [];
    }

    method Clear()
      modifies this
      ensures Valid() && items == []
    {
      nodes, root, maxLeaf, insertPath, searchStack := [], None, None, [], [];
      items, leafOf := [], [];
    }

    method Insert(newBounds: Bounds) returns (ordering: nat)
      requires Valid()
      modifies this
      ensures Valid()
      ensures ordering == 1 + MaxIntersecting(old(items), newBounds)
      ensures items == old(items) + [Placed(newBounds, ordering)]
      ensures ordering <= |items|
    {
      hide Tree, Summarized, Holds, WellOrdered, MaxIntersecting;
      var maxIntersecting := FindMaxOrdering(newBounds);
      ordering := maxIntersecting + 1;
      WellOrderedPush(items, newBounds);
      ghost var pushed := nodes + [Node(newBounds, ordering, Leaf(ordering))];
      var newLeaf := InsertLeaf(newBounds, ordering);
      OrderBounded(items, |items| - 1);
      LeavesFrom(pushed, nodes);
      maxLeaf := match maxLeaf
        case None => Some(newLeaf)
        case Some(old_) => if nodes[old_].maxOrder < ordering then Some(newLeaf) else maxLeaf;
    }

    method FindMaxOrdering(query: Bounds) returns (found: nat)
      requires Valid()
      modifies this`searchStack
      ensures found == MaxIntersecting(items, query)
    {
      hide Tree, Summarized, Holds, WellOrdered, MaxIntersecting, Covered, StackWeight, Weight, Promising;
      if root.None? {
        EmptyHolds(nodes, items, leafOf, query);
        return 0;
      }
      if maxLeaf.Some? {
        var maxNode := nodes[maxLeaf.value];
        if query.Intersects(maxNode.bounds) {
          assert Attained(nodes, query, maxNode.maxOrder);
          SearchIsScan(nodes, items, leafOf, query, maxNode.maxOrder);
          return maxNode.maxOrder;
        }
      }
      searchStack := [root.value];
      found := 0;
      RootCovers(nodes, shape, query);
      while searchStack != []
        invariant InRange(searchStack, |nodes|)
        invariant Covered(nodes, shape, searchStack, query, found)
        invariant Attained(nodes, query, found)
        decreases StackWeight(nodes, shape, searchStack)
      {
        var i := searchStack[|searchStack| - 1];
        ghost var stack := searchStack;
        searchStack := searchStack[..|searchStack| - 1];
        assert stack == searchStack + [i];
        PushWeight(nodes, shape, searchStack, i);
        if nodes[i].maxOrder <= found {
          SkipIsSafe(nodes, shape, searchStack, i, query, found);
        } else if !query.Intersects(nodes[i].bounds) {
          SkipIsSafe(nodes, shape, searchStack, i, query, found);
        } else {
          match nodes[i].kind
          case Leaf(order) =>
            LeafIsCounted(nodes, shape, searchStack, i, query, found);
            found := MaxNat(found, order);
          case Internal(children) =>
            InternalChildren(nodes, i);
            ExpandIsSafe(nodes, shape, searchStack, i, query, found);
            ExpandShrinks(nodes, shape, searchStack, i, found);
            searchStack := searchStack + Promising(nodes, children, found);
        }
      }
      SearchDone(nodes, shape, items, leafOf, query, found);
    }

    method InsertLeaf(bounds: Bounds, order: nat) returns (newLeaf: nat)
      requires TreeValid()
      modifies `nodes, `root, `insertPath, `shape, `items, `leafOf
      ensures TreeValid() && root.Some?
      ensures items == old(items) + [Placed(bounds, order)]
      ensures newLeaf == |old(nodes)|
      ensures SameLeaves(old(nodes) + [Node(bounds, order, Leaf(order))], nodes)
    {
      hide Tree, Summarized, Holds, Path, Rising, SameLeaves;
      newLeaf := |nodes|;
      ghost var base := nodes;
      var leaf := Node(bounds, order, Leaf(order));
      nodes := nodes + [leaf];
      items, leafOf := items + [Placed(bounds, order)], leafOf + [newLeaf];
      ghost var pushed := nodes;
      assert Holds(pushed, items, leafOf) by {
        PushHolds(base, old(items), old(leafOf), leaf);
      }
      if root.None? {
        root := Some(newLeaf);
        shape := Shape(0, [0], [0]);
        assert nodes == [leaf];
        SingleLeaf(leaf);
        return;
      }
      RootInRange(base, shape);
      if nodes[root.value].kind.Leaf? {
        PushRoot(bounds, order, newLeaf, base);
      } else {
        var current, pos := Descend(bounds, base);
        if |nodes[current].kind.children| < MAX_CHILDREN {
          AddChild(bounds, order, newLeaf, current, base);
        } else {
          SplitChild(bounds, order, newLeaf, current, pos, base);
        }
        ghost var attached := nodes;
        Propagate(bounds, order, base[current]);
        SameLeavesCompose(pushed, attached, nodes);
        assert Holds(nodes, items, leafOf) by { HoldsFrame(pushed, nodes, items, leafOf); }
        return;
      }
      assert Holds(nodes, items, leafOf) by { HoldsFrame(pushed, nodes, items, leafOf); }
    }

    /** The root was a leaf: a new root holds it and the new leaf, the higher one last. */
    method PushRoot(bounds: Bounds, order: nat, newLeaf: nat, ghost base: seq<Node>)
      requires root == Some(shape.root) && Tree(base, shape) && Summarized(base)
      requires base[shape.root].kind.Leaf?
      requires newLeaf == |base| && nodes == base + [Node(bounds, order, Leaf(order))]
      modifies `nodes, `root, `shape
      ensures root == Some(shape.root) && Tree(nodes, shape) && Summarized(nodes)
      ensures SameLeaves(old(nodes), nodes)
    {
      hide Tree, Summarized;
      var rootIdx := root.value;
      RootInRange(base, shape);
      var rootBounds, rootOrder := nodes[rootIdx].bounds, nodes[rootIdx].maxOrder;
      var children := if order > rootOrder then [rootIdx, newLeaf] else [newLeaf, rootIdx];
      var top := Node(rootBounds.Union(bounds), MaxNat(rootOrder, order), Internal(children));
      GrowRoot(base, shape, Node(bounds, order, Leaf(order)), top);
      RootSummary(base, rootIdx, Node(bounds, order, Leaf(order)), top);
      nodes := nodes + [top];
      root := Some(|nodes| - 1);
      shape := Shape(|base| + 1, shape.rank + [0, shape.rank[shape.root] + 1],
                     shape.parent[shape.root := |base| + 1] + [|base| + 1, 0]);
      assert nodes == base + [Node(bounds, order, Leaf(order)), top];
    }

    /** Walks down to an internal node whose cheapest child is a leaf. */
    method Descend(bounds: Bounds, ghost base: seq<Node>) returns (current: nat, pos: nat)
      requires base <= nodes && Tree(base, shape)
      requires root == Some(shape.root) && base[shape.root].kind.Internal?
      modifies `insertPath
      ensures Path(base, insertPath) && insertPath[0] == shape.root && insertPath[|insertPath| - 1] == current
      ensures current < |base| && base[current].kind.Internal?
      ensures pos < |base[current].kind.children| && base[current].kind.children[pos] < |base|
      ensures base[base[current].kind.children[pos]].kind.Leaf?
    {
      insertPath := [];
      current := root.value;
      while true
        invariant current < |base| && base[current].kind.Internal?
        invariant Path(base, insertPath + [current]) && (insertPath + [current])[0] == shape.root
        decreases shape.rank[current]
      {
        insertPath := insertPath + [current];
        assert Linked(base, shape, current);
        var children := nodes[current].kind.children;
        assert forall k :: 0 <= k < |children| ==> ChildOf(base, shape, current, children[k]);
        pos := BestChild(bounds, children);
        var best := children[pos];
        if nodes[best].kind.Leaf? {
          return;
        }
        assert ChildEdge(base, current, best);
        current := best;
      }
    }

    /** The first child that the new rectangle enlarges to the smallest half perimeter. */
    method BestChild(bounds: Bounds, children: seq<nat>) returns (pos: nat)
      requires |children| > 0 && InRange(children, |nodes|)
      ensures pos < |children|
      ensures forall k :: 0 <= k < |children| ==>
                            Cost(bounds, nodes[children[pos]]) <= Cost(bounds, nodes[children[k]])
      ensures forall k :: 0 <= k < pos ==>
                            Cost(bounds, nodes[children[pos]]) < Cost(bounds, nodes[children[k]])
    {
      pos := 0;
      var bestCost := Cost(bounds, nodes[children[0]]);
      for k := 1 to |children|
        invariant pos < k
        invariant bestCost == Cost(bounds, nodes[children[pos]])
        invariant forall m :: 0 <= m < k ==> bestCost <= Cost(bounds, nodes[children[m]])
        invariant forall m :: 0 <= m < pos ==> bestCost < Cost(bounds, nodes[children[m]])
      {
        var cost := Cost(bounds, nodes[children[k]]);
        if cost < bestCost {
          bestCost, pos := cost, k;
        }
      }
    }

    /** There is room: the new leaf joins the children of `p`, last only if it is the highest. */
    method AddChild(bounds: Bounds, order: nat, newLeaf: nat, p: nat, ghost base: seq<Node>)
      requires root == Some(shape.root) && Tree(base, shape) && Summarized(base)
      requires newLeaf == |base| && nodes == base + [Node(bounds, order, Leaf(order))]
      requires p < |base| && base[p].kind.Internal? && |base[p].kind.children| < MAX_CHILDREN
      requires Path(base, insertPath) && insertPath[0] == shape.root && insertPath[|insertPath| - 1] == p
      modifies `nodes, `shape
      ensures root == Some(shape.root) && Tree(nodes, shape) && SameLeaves(old(nodes), nodes)
      ensures Path(nodes, insertPath) && nodes[p].kind.Internal?
      ensures Rising(nodes, shape, p, base[p], bounds, order, None)
    {
      hide Tree, Summarized, Path, Rising, SameChildren, Distinct;
      var node := nodes[p];
      var pushed := node.kind.children + [newLeaf];
      ChildrenDistinct(base, shape, p);
      PushDistinct(node.kind.children, newLeaf);
      var last := |pushed| - 1;
      var children := if order <= node.maxOrder then Swap(pushed, last - 1, last) else pushed;
      SwapSameChildren(pushed, last - 1, last);
      SwapSameChildren(pushed, last, last);
      assert Swap(pushed, last, last) == pushed;
      ghost var leaf := Node(bounds, order, Leaf(order));
      var grown := Node(node.bounds.Union(bounds), MaxNat(node.maxOrder, order), Internal(children));
      AttachLeaf(base, shape, leaf, p, grown);
      SameChildrenKeep(node.kind.children, pushed, children);
      nodes := nodes[p := grown];
      ghost var t := shape;
      shape := Shape(shape.root, shape.rank + [0], shape.parent + [p]);
      PathExtends(base, nodes, insertPath, p);
      AddChildRises(base, t, nodes, shape, p, bounds, order);
    }

    /** `p` is full: its child at `pos` moves, with the new leaf, below a new internal node. */
    method SplitChild(bounds: Bounds, order: nat, newLeaf: nat, p: nat, pos: nat, ghost base: seq<Node>)
      requires root == Some(shape.root) && Tree(base, shape) && Summarized(base)
      requires newLeaf == |base| && nodes == base + [Node(bounds, order, Leaf(order))]
      requires p < |base| && base[p].kind.Internal? && pos < |base[p].kind.children|
      requires base[p].kind.children[pos] < |base| && base[base[p].kind.children[pos]].kind.Leaf?
      requires Path(base, insertPath) && insertPath[0] == shape.root && insertPath[|insertPath| - 1] == p
      modifies `nodes, `shape
      ensures root == Some(shape.root) && Tree(nodes, shape) && SameLeaves(old(nodes), nodes)
      ensures Path(nodes, insertPath) && nodes[p].kind.Internal?
      ensures Rising(nodes, shape, p, base[p], bounds, order, None)
    {
      hide Tree, Summarized, Path, Rising, SameChildren, Distinct;
      var node := nodes[p];
      ChildrenDistinct(base, shape, p);
      var best := node.kind.children[pos];
      var siblingBounds, siblingOrder := nodes[best].bounds, nodes[best].maxOrder;
      var newChildren := if order > siblingOrder then [best, newLeaf] else [newLeaf, best];
      var newInternal := |nodes|;
      var newMax := MaxNat(siblingOrder, order);
      var inner := Node(siblingBounds.Union(bounds), newMax, Internal(newChildren));
      nodes := nodes + [inner];
      var replaced := node.kind.children[pos := newInternal];
      ReplaceDistinct(node.kind.children, pos, newInternal);
      var children := if newMax > node.maxOrder then Swap(replaced, pos, |replaced| - 1) else replaced;
      SwapSameChildren(replaced, pos, |replaced| - 1);
      SwapSameChildren(replaced, pos, pos);
      assert Swap(replaced, pos, pos) == replaced;
      SplitLeaf(base, shape, Node(bounds, order, Leaf(order)), inner, p, pos, node.(kind := Internal(children)));
      ReplacedChildren(node.kind.children, pos, newInternal, children);
      assert nodes == base + [Node(bounds, order, Leaf(order)), inner];
      nodes := nodes[p := node.(kind := Internal(children))];
      ghost var t := shape;
      shape := SplitShape(shape, p, best);
      PathKept(base, nodes, insertPath, p, best);
      SplitChildRises(base, t, nodes, shape, p, pos, bounds, order);
    }

    /** Carries the new rectangle and order from the end of the path up to the root. */
    method Propagate(bounds: Bounds, order: nat, ghost before: Node)
      requires root == Some(shape.root) && Tree(nodes, shape)
      requires Path(nodes, insertPath) && insertPath[0] == shape.root
      requires nodes[insertPath[|insertPath| - 1]].kind.Internal?
      requires Rising(nodes, shape, insertPath[|insertPath| - 1], before, bounds, order, None)
      modifies `nodes
      ensures Tree(nodes, shape) && Summarized(nodes)
      ensures SameLeaves(old(nodes), nodes) && |nodes| == |old(nodes)|
    {
      hide Tree, Summarized, Rising, SameLeaves, Absorb;
      var updated: Option<nat> := None;
      ghost var was := before;
      SameLeavesSelf(nodes);
      var j := |insertPath|;
      while j > 0
        invariant 0 <= j <= |insertPath|
        invariant Tree(nodes, shape) && SameLeaves(old(nodes), nodes) && |nodes| == |old(nodes)|
        invariant forall k :: 0 <= k < j ==> nodes[insertPath[k]] == old(nodes)[insertPath[k]]
        invariant j > 0 ==> nodes[insertPath[j - 1]].kind.Internal?
                            && Rising(nodes, shape, insertPath[j - 1], was, bounds, order, updated)
        invariant j == 0 ==> Summarized(nodes)
      {
        j := j - 1;
        var i := insertPath[j];
        RiseStep(nodes, shape, i, was, bounds, order, updated);
        PathAbove(old(nodes), shape, insertPath, j);
        AbsorbKeepsLeaves(old(nodes), nodes, i, bounds, order, updated);
        nodes := nodes[i := Absorb(nodes[i], bounds, order, updated)];
        updated := Some(i);
        was := if j == 0 then before else nodes[insertPath[j - 1]];
      }
    }
  }

  function Cost(bounds: Bounds, node: Node): real {
    bounds.Union(node.bounds).HalfPerimeter()
  }

  lemma PushHolds(nodes: seq<Node>, items: seq<Placed>, leafOf: seq<nat>, leaf: Node)
    requires Holds(nodes, items, leafOf) && leaf.kind == Leaf(leaf.maxOrder)
    ensures Holds(nodes + [leaf], items + [Placed(leaf.bounds, leaf.maxOrder)], leafOf + [|nodes|])
  {
    var more := leafOf + [|nodes|];
    forall i | 0 <= i < |nodes| + 1 && (nodes + [leaf])[i].kind.Leaf? ensures i in more {
      assert more[|leafOf|] == |nodes|;
    }
  }

  lemma PathExtends(base: seq<Node>, nodes: seq<Node>, path: seq<nat>, p: nat)
    requires Path(base, path) && p < |base| <= |nodes|
    requires base[p].kind.Internal? && nodes[p].kind.Internal?
    requires forall c :: c in base[p].kind.children ==> c in nodes[p].kind.children
    requires forall i :: 0 <= i < |base| && i != p ==> nodes[i] == base[i]
    ensures Path(nodes, path)
  {
    forall k | 0 < k < |path| ensures ChildEdge(nodes, path[k - 1], path[k]) {
      assert ChildEdge(base, path[k - 1], path[k]);
    }
  }

  lemma ChildrenDistinct(nodes: seq<Node>, t: Shape, p: nat)
    requires Tree(nodes, t) && p < |nodes| && nodes[p].kind.Internal?
    ensures Distinct(nodes[p].kind.children) && InRange(nodes[p].kind.children, |nodes|)
    ensures 2 <= |nodes[p].kind.children| <= MAX_CHILDREN
    ensures forall k :: 0 <= k < |nodes[p].kind.children| ==> nodes[p].kind.children[k] != p
    ensures |t.rank| == |t.parent| == |nodes|
  {
    assert Linked(nodes, t, p);
    var cs := nodes[p].kind.children;
    assert forall k :: 0 <= k < |cs| ==> ChildOf(nodes, t, p, cs[k]);
  }

  lemma PushDistinct(cs: seq<nat>, x: nat)
    requires Distinct(cs) && InRange(cs, x)
    ensures Distinct(cs + [x])
  {
  }

  lemma ReplaceDistinct(cs: seq<nat>, pos: nat, x: nat)
    requires Distinct(cs) && InRange(cs, x) && pos < |cs|
    ensures Distinct(cs[pos := x])
  {
  }

  lemma SameChildrenKeep(cs: seq<nat>, pushed: seq<nat>, r: seq<nat>)
    requires cs <= pushed && SameChildren(pushed, r)
    ensures forall c :: c in cs ==> c in r
  {
  }

  /** The split child is a leaf, so no path goes through it. */
  lemma PathKept(base: seq<Node>, nodes: seq<Node>, path: seq<nat>, p: nat, best: nat)
    requires Path(base, path) && path[|path| - 1] == p && |base| <= |nodes|
    requires base[p].kind.Internal? && nodes[p].kind.Internal?
    requires best < |base| && base[best].kind.Leaf?
    requires forall c :: c in base[p].kind.children && c != best ==> c in nodes[p].kind.children
    requires forall i :: 0 <= i < |base| && i != p ==> nodes[i] == base[i]
    ensures Path(nodes, path)
  {
    forall k | 0 < k < |path| ensures ChildEdge(nodes, path[k - 1], path[k]) {
      assert ChildEdge(base, path[k - 1], path[k]);
      if k < |path| - 1 {
        assert ChildEdge(base, path[k], path[k + 1]);
      }
    }
  }

  lemma {:induction false} PathDescends(nodes: seq<Node>, t: Shape, path: seq<nat>, k: nat, j: nat)
    requires Tree(nodes, t) && Path(nodes, path) && k < j < |path|
    ensures t.rank[path[j]] < t.rank[path[k]]
    decreases j
  {
    assert ChildEdge(nodes, path[j - 1], path[j]);
    assert Linked(nodes, t, path[j - 1]);
    if k < j - 1 {
      PathDescends(nodes, t, path, k, j - 1);
    }
  }

  /** The node before `path[j]` on a path from the root is its parent, and no earlier node is `path[j]`. */
  lemma PathAbove(nodes: seq<Node>, t: Shape, path: seq<nat>, j: nat)
    requires Tree(nodes, t) && Path(nodes, path) && j < |path| && path[0] == t.root
    ensures j > 0 ==> path[j] != t.root && t.parent[path[j]] == path[j - 1]
    ensures forall k :: 0 <= k < j ==> path[k] != path[j]
  {
    if j > 0 {
      assert ChildEdge(nodes, path[j - 1], path[j]);
      assert Linked(nodes, t, path[j - 1]);
    }
    forall k | 0 <= k < j ensures path[k] != path[j] {
      PathDescends(nodes, t, path, k, j);
    }
  }

  /** Changing `p` and adding correct nodes disturbs no summary but those of `p` and its parent. */
  lemma OthersKeepSummaries(base: seq<Node>, t: Shape, nodes: seq<Node>, u: Shape, p: nat)
    requires Tree(base, t) && Summarized(base) && Tree(nodes, u)
    requires p < |base| <= |nodes| && u.root == t.root && u.parent[p] == t.parent[p]
    requires forall i :: 0 <= i < |base| && i != p ==> nodes[i] == base[i]
    requires forall i :: |base| <= i < |nodes| ==> Summarizes(nodes, nodes[i])
    ensures forall i :: 0 <= i < |nodes| && i != p && (p == u.root || i != u.parent[p]) ==> Summarizes(nodes, nodes[i])
    ensures p != u.root ==> u.parent[p] < |nodes| && Summarizes(nodes[p := base[p]], nodes[u.parent[p]])
  {
    forall i | 0 <= i < |base| && i != p && (p == u.root || i != u.parent[p]) ensures Summarizes(nodes, nodes[i]) {
      assert Summarizes(base, base[i]) && Linked(base, t, i);
      if base[i].kind.Internal? {
        var cs := base[i].kind.children;
        assert forall k :: 0 <= k < |cs| ==> ChildOf(base, t, i, cs[k]);
      }
    }
    if p != u.root {
      var q := t.parent[p];
      assert Attached(base, t, p) && Linked(base, t, q) && Summarizes(base, base[q]);
      assert p != q by {
        assert ChildOf(base, t, q, p);
      }
    }
  }

  lemma UnionTwice(a: Bounds, b: Bounds)
    ensures a.Union(b).Union(b) == a.Union(b)
  {
  }

  lemma AddChildRises(base: seq<Node>, t: Shape, nodes: seq<Node>, u: Shape, p: nat, bounds: Bounds, order: nat)
    requires Tree(base, t) && Summarized(base) && Tree(nodes, u)
    requires p < |base| <= |nodes| && u.root == t.root && u.parent[p] == t.parent[p]
    requires base[p].kind.Internal? && nodes[p].kind.Internal?
    requires var leaf := Node(bounds, order, Leaf(order));
             var pushed := base[p].kind.children + [|base|];
             && nodes == (base + [leaf])[p := nodes[p]]
             && |pushed| > 1
             && nodes[p].kind.children
                == (if order <= base[p].maxOrder then Swap(pushed, |pushed| - 2, |pushed| - 1) else pushed)
             && Extends(base[p], nodes[p], bounds, order)
    ensures Rising(nodes, u, p, base[p], bounds, order, None)
  {
    hide Tree;
    ChildrenDistinct(base, t, p);
    OthersKeepSummaries(base, t, nodes, u, p);
    assert Summarizes(base, base[p]);
    AddSummary(base, nodes, p, bounds, order);
  }

  lemma AddSummary(base: seq<Node>, nodes: seq<Node>, p: nat, bounds: Bounds, order: nat)
    requires p < |base| < |nodes| && base[p].kind.Internal? && Summarizes(base, base[p])
    requires forall k :: 0 <= k < |base[p].kind.children| ==> base[p].kind.children[k] != p
    requires nodes == (base + [Node(bounds, order, Leaf(order))])[p := nodes[p]]
    requires nodes[p].kind.Internal? && Extends(base[p], nodes[p], bounds, order)
    requires var pushed := base[p].kind.children + [|base|];
             && |pushed| > 1
             && nodes[p].kind.children
                == (if order <= base[p].maxOrder then Swap(pushed, |pushed| - 2, |pushed| - 1) else pushed)
    ensures var after := Absorb(nodes[p], bounds, order, None);
            Summarizes(nodes, after) && Extends(base[p], after, bounds, order)
  {
    UnionTwice(base[p].bounds, bounds);
    UnionIsLeastUpperBound(base[p].bounds, bounds, bounds);
    hide Bounds.Contains, Bounds.Union;
    var old_ := base[p].kind.children;
    var cs := nodes[p].kind.children;
    var n, last := |base|, |old_| - 1;
    var after := Absorb(nodes[p], bounds, order, None);
    assert after.bounds == nodes[p].bounds == base[p].bounds.Union(bounds);
    forall k | 0 <= k < |old_| ensures Covers(after, nodes, old_[k]) {
      CoverGrows(base[p].bounds, bounds, base[old_[k]].bounds, base[old_[k]].bounds);
    }
    assert Covers(after, nodes, n);
    forall k | 0 <= k < |cs| ensures Covers(after, nodes, cs[k]) {
      assert cs[k] == n || cs[k] == old_[last] || (k < |old_| && cs[k] == old_[k]);
    }
  }

  lemma SplitChildRises(base: seq<Node>, t: Shape, nodes: seq<Node>, u: Shape, p: nat, pos: nat,
                        bounds: Bounds, order: nat)
    requires Tree(base, t) && Summarized(base) && Tree(nodes, u)
    requires p < |base| <= |nodes| && u.root == t.root && u.parent[p] == t.parent[p]
    requires base[p].kind.Internal? && nodes[p].kind.Internal?
    requires pos < |base[p].kind.children| && base[p].kind.children[pos] < |base|
    requires base[base[p].kind.children[pos]].kind.Leaf?
    requires var n := |base|;
             var leaf := Node(bounds, order, Leaf(order));
             var best := base[p].kind.children[pos];
             var newMax := MaxNat(base[best].maxOrder, order);
             var inner := Node(base[best].bounds.Union(bounds), newMax,
                               Internal(if order > base[best].maxOrder then [best, n] else [n, best]));
             var replaced := base[p].kind.children[pos := n + 1];
             && nodes == (base + [leaf, inner])[p := nodes[p]]
             && nodes[p] == base[p].(kind := Internal(
                                             if newMax > base[p].maxOrder
                                             then Swap(replaced, pos, |replaced| - 1) else replaced))
    ensures Rising(nodes, u, p, base[p], bounds, order, None)
  {
    hide Tree;
    var old_ := base[p].kind.children;
    ChildrenDistinct(base, t, p);
    assert Summarizes(base, base[p]);
    assert Summarizes(base, base[old_[pos]]);
    assert Summarizes(nodes, nodes[|base| + 1]) by {
      UnionIsLeastUpperBound(base[old_[pos]].bounds, bounds, base[p].bounds);
    }
    hide Bounds.Contains, Bounds.Union;
    OthersKeepSummaries(base, t, nodes, u, p);
    assert old_[pos] != p;
    SplitSummary(base, nodes, p, pos, bounds, order);
  }

  lemma SplitSummary(base: seq<Node>, nodes: seq<Node>, p: nat, pos: nat, bounds: Bounds, order: nat)
    requires p < |base| && |base| + 2 == |nodes| && base[p].kind.Internal? && Summarizes(base, base[p])
    requires pos < |base[p].kind.children|
    requires forall k :: 0 <= k < |base[p].kind.children| ==> base[p].kind.children[k] != p
    requires forall i :: 0 <= i < |base| && i != p ==> nodes[i] == base[i]
    requires var inner := nodes[|base| + 1];
             var best := base[p].kind.children[pos];
             var replaced := base[p].kind.children[pos := |base| + 1];
             && Extends(base[best], inner, bounds, order)
             && nodes[p] == base[p].(kind := Internal(
                                             if inner.maxOrder > base[p].maxOrder
                                             then Swap(replaced, pos, |replaced| - 1) else replaced))
    ensures var after := Absorb(nodes[p], bounds, order, None);
            Summarizes(nodes, after) && Extends(base[p], after, bounds, order)
  {
    hide Bounds.Contains, Bounds.Union;
    var old_ := base[p].kind.children;
    var cs := nodes[p].kind.children;
    var n, last := |base| + 1, |old_| - 1;
    var after := Absorb(nodes[p], bounds, order, None);
    forall k | 0 <= k < |old_| ensures Covers(after, nodes, old_[k]) {
      CoverGrows(base[p].bounds, bounds, base[old_[k]].bounds, base[old_[k]].bounds);
    }
    assert Covers(after, nodes, n) by {
      CoverGrows(base[p].bounds, bounds, base[old_[pos]].bounds, nodes[n].bounds);
    }
    forall k | 0 <= k < |cs| ensures Covers(after, nodes, cs[k]) {
      assert cs[k] == n || cs[k] == old_[k] || cs[k] == old_[last];
    }
  }

  // ----- Whole runs -----

  datatype Command = InsertBounds(bounds: Bounds) | ClearAll

  /** What a plain list of rectangles would hold after the commands. */
  function Layout(commands: seq<Command>): seq<Placed> {
    if commands == [] then []
    else
      var before := Layout(commands[..|commands| - 1]);
      match commands[|commands| - 1]
      case ClearAll => []
      case InsertBounds(b) => before + [Placed(b, 1 + MaxIntersecting(before, b))]
  }

  /** The orders a plain list would have returned, one for every insertion. */
  function ScanOrders(commands: seq<Command>): seq<nat> {
    if commands == [] then []
    else
      var front := commands[..|commands| - 1];
      match commands[|commands| - 1]
      case ClearAll => ScanOrders(front)
      case InsertBounds(b) => ScanOrders(front) + [1 + MaxIntersecting(Layout(front), b)]
  }

  /** For every sequence of insertions and clears the tree returns exactly the orders of the naive scan. */
  method Run(commands: seq<Command>) returns (orders: seq<nat>)
    ensures orders == ScanOrders(commands)
  {
    hide BoundsTree.Valid, MaxIntersecting;
    var tree := new BoundsTree();
    orders := [];
    for n := 0 to |commands|
      invariant fresh(tree) && tree.Valid()
      invariant tree.items == Layout(commands[..n])
      invariant orders == ScanOrders(commands[..n])
    {
      assert commands[..n + 1][..n] == commands[..n];
      match commands[n]
      case ClearAll =>
        tree.Clear();
      case InsertBounds(b) =>
        var order := tree.Insert(b);
        orders := orders + [order];
    }
    assert commands[..|commands|] == commands;
  }

  /** Layouts are well ordered, so all the laws of `ZOrder` apply to every run. */
  lemma {:induction false} LayoutWellOrdered(commands: seq<Command>)
    ensures WellOrdered(Layout(commands))
  {
    if commands != [] {
      var front := commands[..|commands| - 1];
      LayoutWellOrdered(front);
      match commands[|commands| - 1]
      case ClearAll =>
      case InsertBounds(b) =>
        WellOrderedPush(Layout(front), b);
    }
  }
}
