/**
  The integer geometry of Qt 5 that the area selector relies on: QPoint and
  QRect. A QRect is stored as its two INCLUSIVE corners (x1, y1) and (x2, y2),
  so that width() is x2 - x1 + 1; a rectangle built from two points therefore
  covers both points, and a "backwards" rectangle can have width 0 or less.
 */
module QtGeometry {

  /** A QPoint: integer coordinates on the overlay surface. */
  datatype Point = Point(x: int, y: int) {

    /** QPoint::isNull: both coordinates are zero, the value of a default QPoint. */
    predicate IsNull()
      ensures IsNull() <==> this == Point(0, 0)
    {
      x == 0 && y == 0
    }
  }

  function Min(a: int, b: int): int {
    if a <= b then a else b
  }

  function Max(a: int, b: int): int {
    if a <= b then b else a
  }

  function Abs(a: int): nat {
    if a < 0 then -a else a
  }

  /** A QRect, in the representation Qt 5 keeps: the inclusive corners. */
  datatype Rect = Rect(x1: int, y1: int, x2: int, y2: int) {

    function Left(): int { x1 }

    function Top(): int { y1 }

    function Right(): int { x2 }

    function Bottom(): int { y2 }

    function TopLeft(): Point { Point(x1, y1) }

    function BottomRight(): Point { Point(x2, y2) }

    /** QRect::width: the number of columns from Left to Right, both included. */
    function Width(): (w: int)
      ensures w > 0 <==> Left() <= Right()
      ensures Left() + w - 1 == Right()
    {
      x2 - x1 + 1
    }

    /** QRect::height: the number of rows from Top to Bottom, both included. */
    function Height(): (h: int)
      ensures h > 0 <==> Top() <= Bottom()
      ensures Top() + h - 1 == Bottom()
    {
      y2 - y1 + 1
    }

    /**
      QRect::normalized: an axis is flipped only when its extent is negative,
      that is when x2 < x1 - 1 (resp. y2 < y1 - 1). An extent of exactly zero
      (x2 == x1 - 1) is left alone.
     */
    function Normalized(): (n: Rect)
      ensures n.Width() >= 0 && n.Height() >= 0
      ensures (n.x1 == x1 && n.x2 == x2) || (n.x1 == x2 && n.x2 == x1)
      ensures (n.y1 == y1 && n.y2 == y2) || (n.y1 == y2 && n.y2 == y1)
      ensures Width() >= 0 ==> n.x1 == x1 && n.x2 == x2
      ensures Height() >= 0 ==> n.y1 == y1 && n.y2 == y2
    {
      var flipX := x2 < x1 - 1;
      var flipY := y2 < y1 - 1;
      Rect(if flipX then x2 else x1, if flipY then y2 else y1,
           if flipX then x1 else x2, if flipY then y1 else y2)
    }
  }

  /** QRect(QPoint topLeft, QPoint bottomRight): both points are inclusive corners. */
  function FromCorners(topLeft: Point, bottomRight: Point): (r: Rect)
    ensures r.Width() == bottomRight.x - topLeft.x + 1
    ensures r.Height() == bottomRight.y - topLeft.y + 1
    ensures r.TopLeft() == topLeft && r.BottomRight() == bottomRight
  {
    Rect(topLeft.x, topLeft.y, bottomRight.x, bottomRight.y)
  }

  /** QRect(int x, int y, int width, int height). */
  function FromSize(x: int, y: int, width: int, height: int): (r: Rect)
    ensures r.Left() == x && r.Top() == y
    ensures r.Width() == width && r.Height() == height
    ensures r.Right() == x + width - 1 && r.Bottom() == y + height - 1
  {
    Rect(x, y, x + width - 1, y + height - 1)
  }

  /** Normalizing twice is normalizing once. */
  lemma NormalizedIdempotent(r: Rect)
    ensures r.Normalized().Normalized() == r.Normalized()
  {
  }

  /**
    The extent of a rectangle dragged from a to b, after normalization: the
    number of pixel columns between the two points inclusive, except that a
    drag of exactly one pixel backwards gives 0.
   */
  lemma DragExtent(a: Point, b: Point)
    ensures FromCorners(a, b).Normalized().Width()
            == if b.x == a.x - 1 then 0 else Abs(b.x - a.x) + 1
    ensures FromCorners(a, b).Normalized().Height()
            == if b.y == a.y - 1 then 0 else Abs(b.y - a.y) + 1
  {
  }

  /**
    Except for a one-pixel backward drag, the normalized rectangle spans
    exactly from the smaller to the larger coordinate of the two points.
   */
  lemma DragSpansPoints(a: Point, b: Point)
    ensures b.x != a.x - 1 ==>
      FromCorners(a, b).Normalized().Left() == Min(a.x, b.x) &&
      FromCorners(a, b).Normalized().Right() == Max(a.x, b.x)
    ensures b.y != a.y - 1 ==>
      FromCorners(a, b).Normalized().Top() == Min(a.y, b.y) &&
      FromCorners(a, b).Normalized().Bottom() == Max(a.y, b.y)
  {
  }

  /**
    Dragging from a to b and from b to a give the same normalized rectangle
    exactly when neither axis differs by one pixel.
   */
  lemma DragOrderIndependentIff(a: Point, b: Point)
    ensures FromCorners(a, b).Normalized() == FromCorners(b, a).Normalized()
            <==> Abs(a.x - b.x) != 1 && Abs(a.y - b.y) != 1
  {
    var n, m := FromCorners(a, b).Normalized(), FromCorners(b, a).Normalized();
    if Abs(a.x - b.x) == 1 {
      assert n.Width() != m.Width();
    } else if Abs(a.y - b.y) == 1 {
      assert n.Height() != m.Height();
    }
  }
}
