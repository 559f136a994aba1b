/** An axis-aligned rectangle value: a position and a size, with derived edges and centre. */
module Rectangle {

  datatype Rect = Rect(x: real, y: real, width: real, height: real) {

    function Left(): real { x }

    function Top(): real { y }

    function Right(): real { x + width }

    function Bottom(): real { y + height }

    function CenterX(): real { x + width / 2.0 }

    function CenterY(): real { y + height / 2.0 }

    /** Point containment; every edge belongs to the rectangle. */
    predicate Contains(px: real, py: real) {
      px >= Left() && px <= Right() && py >= Top() && py <= Bottom()
    }

    /** Overlap with another rectangle; touching edges do not overlap. */
    predicate Intersects(other: Rect) {
      Right() > other.Left() && Left() < other.Right() && Bottom() > other.Top() && Top() < other.Bottom()
    }
  }

  /** The four edges are the position and the position plus the size. */
  lemma EdgesFromFields(r: Rect)
    ensures r.Left() == r.x && r.Top() == r.y
    ensures r.Right() == r.x + r.width && r.Bottom() == r.y + r.height
  {
  }

  /** The centre lies halfway between opposite edges. */
  lemma CenterIsMidpoint(r: Rect)
    ensures r.CenterX() - r.Left() == r.Right() - r.CenterX()
    ensures r.CenterY() - r.Top() == r.Bottom() - r.CenterY()
  {
  }

  /** Containment is inclusive: all four corners are contained. */
  lemma CornersContained(r: Rect)
    requires r.width >= 0.0 && r.height >= 0.0
    ensures r.Contains(r.Left(), r.Top()) && r.Contains(r.Right(), r.Top())
    ensures r.Contains(r.Left(), r.Bottom()) && r.Contains(r.Right(), r.Bottom())
  {
  }

  /** A rectangle of negative width or height contains no point at all. */
  lemma NegativeSizeContainsNothing(r: Rect, px: real, py: real)
    requires r.width < 0.0 || r.height < 0.0
    ensures !r.Contains(px, py)
  {
  }

  /** The centre of a rectangle of non-negative size is contained in it. */
  lemma CenterContained(r: Rect)
    requires r.width >= 0.0 && r.height >= 0.0
    ensures r.Contains(r.CenterX(), r.CenterY())
  {
  }

  /** Overlap is strict: rectangles that only share a vertical or a horizontal edge do not intersect. */
  lemma SharedEdgeDoesNotIntersect(a: Rect, b: Rect)
    requires a.Right() == b.Left() || a.Bottom() == b.Top()
    ensures !a.Intersects(b) && !b.Intersects(a)
  {
  }

  lemma IntersectsSymmetric(a: Rect, b: Rect)
    ensures a.Intersects(b) <==> b.Intersects(a)
  {
  }

  /** A rectangle of non-negative size intersects itself exactly when it has a positive area. */
  lemma SelfIntersection(r: Rect)
    requires r.width >= 0.0 && r.height >= 0.0
    ensures r.Intersects(r) <==> r.width > 0.0 && r.height > 0.0
  {
  }

  /** Overlapping rectangles of non-negative size share a point that both contain. */
  lemma IntersectingShareAPoint(a: Rect, b: Rect)
    requires a.width >= 0.0 && a.height >= 0.0 && b.width >= 0.0 && b.height >= 0.0
    requires a.Intersects(b)
    ensures exists px: real, py: real :: a.Contains(px, py) && b.Contains(px, py)
  {
    var px := if a.Left() < b.Left() then b.Left() else a.Left();
    var py := if a.Top() < b.Top() then b.Top() else a.Top();
    assert a.Contains(px, py) && b.Contains(px, py);
  }
}
