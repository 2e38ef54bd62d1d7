/**
  Integer plane geometry with the conventions of Qt's QPoint, QRect and QLine.

  A rectangle is stored the way QRect stores it: by its four INCLUSIVE edge
  coordinates. Hence `Width() == right - left + 1`, and a rectangle whose
  right edge lies left of its left edge has a negative width until it is
  normalised.
 */
module Geometry {

  datatype Point = Point(x: int, y: int) {

    /** Component-wise sum (QPoint's operator+). */
    function Plus(d: Point): (r: Point)
      ensures r.x - x == d.x && r.y - y == d.y
    {
      Point(x + d.x, y + d.y)
    }

    /** Component-wise difference (QPoint's operator-), the delta from `origin` to this point. */
    function Minus(origin: Point): (r: Point)
      ensures origin.Plus(r) == this
    {
      Point(x - origin.x, y - origin.y)
    }
  }

  datatype Rect = Rect(left: int, top: int, right: int, bottom: int) {

    function Width(): int {
      right - left + 1
    }

    function Height(): int {
      bottom - top + 1
    }

    function TopLeft(): Point {
      Point(left, top)
    }

    /** Non-negative width and height: what QRect::normalized promises of its result. */
    predicate IsNormal() {
      Width() >= 0 && Height() >= 0
    }

    /** QRect::setWidth: the left edge stays, the right edge follows. */
    function WithWidth(w: int): (r: Rect)
      ensures r.left == left && r.top == top && r.bottom == bottom
      ensures r.Width() == w
    {
      this.(right := left + w - 1)
    }

    /** QRect::setHeight: the top edge stays, the bottom edge follows. */
    function WithHeight(h: int): (r: Rect)
      ensures r.left == left && r.top == top && r.right == right
      ensures r.Height() == h
    {
      this.(bottom := top + h - 1)
    }

    /** QWidget::move / QRect::moveTopLeft: same size, new top-left corner. */
    function MovedTo(p: Point): (r: Rect)
      ensures r.TopLeft() == p
      ensures r.Width() == Width() && r.Height() == Height()
    {
      Rect(p.x, p.y, p.x + Width() - 1, p.y + Height() - 1)
    }

    /** Every pixel of `inner` is a pixel of this rectangle. */
    predicate Contains(inner: Rect) {
      left <= inner.left && inner.right <= right && top <= inner.top && inner.bottom <= bottom
    }
  }

  /** QRect(x, y, w, h): the rectangle with top-left (x, y) and size w by h. */
  function FromGeometry(x: int, y: int, w: int, h: int): (r: Rect)
    ensures r.TopLeft() == Point(x, y)
    ensures r.Width() == w && r.Height() == h
  {
    Rect(x, y, x + w - 1, y + h - 1)
  }

  /** A line segment from (x1, y1) to (x2, y2), as QLine. */
  datatype Line = Line(x1: int, y1: int, x2: int, y2: int)

  /**
    One admissible normalisation: crossed edges are swapped past each other,
    so that a rectangle of width -k (k > 0) becomes one of width k
    spanning the pixels between them. It only serves to show that the type
    `Normalizer` below is inhabited; the model never depends on it.
   */
  function SwapCrossedEdges(r: Rect): (n: Rect)
    ensures n.IsNormal()
    ensures r.IsNormal() ==> n == r
  {
    var (l, ri) := if r.right < r.left then (r.right + 1, r.left - 1) else (r.left, r.right);
    var (t, b) := if r.bottom < r.top then (r.bottom + 1, r.top - 1) else (r.top, r.bottom);
    Rect(l, t, ri, b)
  }

  /**
    QRect::normalized, kept abstract: the only thing assumed about it is
    that its result has non-negative width and height.
   */
  type Normalizer = f: Rect -> Rect | forall r :: f(r).IsNormal()
    witness SwapCrossedEdges
}
