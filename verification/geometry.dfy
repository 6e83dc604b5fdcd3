/** Axis-aligned rectangles, over exact reals (crates/gpui/src/geometry.rs). */
module Geometry {

  datatype Point = Point(x: real, y: real)

  datatype Size = Size(width: real, height: real)

  /** A rectangle is its top-left corner and its size; nothing forbids an empty or negative size. */
  datatype Bounds = Bounds(origin: Point, size: Size) {

    function BottomRight(): Point {
      Point(origin.x + size.width, origin.y + size.height)
    }

    /** Strict overlap: rectangles that only touch do not intersect. */
    predicate Intersects(other: Bounds) {
      && origin.x < other.BottomRight().x
      && BottomRight().x > other.origin.x
      && origin.y < other.BottomRight().y
      && BottomRight().y > other.origin.y
    }

    function Union(other: Bounds): Bounds {
      FromCorners(Min(origin, other.origin), Max(BottomRight(), other.BottomRight()))
    }

    function HalfPerimeter(): real {
      size.width + size.height
    }

    /** The point lies inside, not on an edge. */
    predicate HasInside(p: Point) {
      origin.x < p.x < BottomRight().x && origin.y < p.y < BottomRight().y
    }

    /** `inner` lies inside this rectangle, edges included. */
    predicate Contains(inner: Bounds) {
      && origin.x <= inner.origin.x
      && origin.y <= inner.origin.y
      && inner.BottomRight().x <= BottomRight().x
      && inner.BottomRight().y <= BottomRight().y
    }
  }

  function Min(a: Point, b: Point): Point {
    Point(if a.x <= b.x then a.x else b.x, if a.y <= b.y then a.y else b.y)
  }

  function Max(a: Point, b: Point): Point {
    Point(if a.x > b.x then a.x else b.x, if a.y > b.y then a.y else b.y)
  }

  function FromCorners(topLeft: Point, bottomRight: Point): Bounds {
    Bounds(topLeft, Size(bottomRight.x - topLeft.x, bottomRight.y - topLeft.y))
  }

  /** `Union` is the smallest rectangle that contains both operands. */
  lemma UnionIsLeastUpperBound(a: Bounds, b: Bounds, c: Bounds)
    ensures a.Union(b).Contains(a) && a.Union(b).Contains(b)
    ensures c.Contains(a.Union(b)) <==> c.Contains(a) && c.Contains(b)
  {
  }

  /** Two rectangles that are not empty intersect exactly if they have an inner point in common: sharing an edge
      or a corner is not enough, and lying side by side or one above the other is not either. */
  lemma IntersectsIsCommonPoint(a: Bounds, b: Bounds)
    requires a.size.width > 0.0 && a.size.height > 0.0 && b.size.width > 0.0 && b.size.height > 0.0
    ensures a.Intersects(b) <==> exists p: Point :: a.HasInside(p) && b.HasInside(p)
  {
    if a.Intersects(b) {
      var from, to := Max(a.origin, b.origin), Min(a.BottomRight(), b.BottomRight());
      var p := Point((from.x + to.x) / 2.0, (from.y + to.y) / 2.0);
      assert a.HasInside(p) && b.HasInside(p);
    }
  }

  /** A rectangle without extent counts as its corner: it intersects what has that point inside. */
  lemma EmptyIntersects(a: Bounds, b: Bounds)
    requires a.size == Size(0.0, 0.0)
    ensures a.Intersects(b) <==> b.HasInside(a.origin)
  {
  }

  /** Whatever meets a rectangle meets every rectangle around it: why a subtree may be skipped. */
  lemma ContainerIntersects(query: Bounds, outer: Bounds, inner: Bounds)
    requires outer.Contains(inner)
    requires query.Intersects(inner)
    ensures query.Intersects(outer)
  {
  }
}
