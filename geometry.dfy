/** Axis-aligned rectangles and the overlap test that decides collisions. */
module Geometry {

  /** A rectangle given by its four edges, in screen coordinates (y grows downwards). */
  datatype Rect = Rect(top: int, bottom: int, left: int, right: int)

  /** A rectangle whose edges are in order, as every bounding box on screen is. */
  predicate WellFormed(r: Rect) {
    r.top <= r.bottom && r.left <= r.right
  }

  /** The point (px, py) lies in `r`, edges included. */
  predicate Contains(r: Rect, px: int, py: int) {
    r.top <= py <= r.bottom && r.left <= px <= r.right
  }

  /** checkCollision: two rectangles overlap unless one is strictly above,
      below, left of or right of the other. */
  predicate Overlaps(a: Rect, b: Rect) {
    !(a.top > b.bottom || a.bottom < b.top || a.right < b.left || a.left > b.right)
  }

  function Max(a: int, b: int): int {
    if a < b then b else a
  }

  /** For well-formed rectangles the four-edge test means exactly "they share
      a point", the boundary included. */
  lemma OverlapsIffCommonPoint(a: Rect, b: Rect)
    requires WellFormed(a) && WellFormed(b)
    ensures Overlaps(a, b) <==> exists px, py :: Contains(a, px, py) && Contains(b, px, py)
  {
    if Overlaps(a, b) {
      var px, py := Max(a.left, b.left), Max(a.top, b.top);
      assert Contains(a, px, py) && Contains(b, px, py);
    }
  }

  /** The test does not depend on the order of its arguments. */
  lemma OverlapsSymmetric(a: Rect, b: Rect)
    ensures Overlaps(a, b) == Overlaps(b, a)
  {
  }

  /** Rectangles that only touch collide: a shared horizontal or vertical edge
      is enough, and so is a shared corner; a well-formed rectangle collides
      with itself. */
  lemma TouchingRectanglesOverlap(a: Rect, b: Rect)
    requires WellFormed(a) && WellFormed(b)
    ensures a.bottom == b.top && a.left <= b.right && b.left <= a.right ==> Overlaps(a, b)
    ensures a.right == b.left && a.top <= b.bottom && b.top <= a.bottom ==> Overlaps(a, b)
    ensures a.bottom == b.top && a.right == b.left ==> Overlaps(a, b)
    ensures Overlaps(a, a)
  {
  }

  /** A positive gap on either axis separates the rectangles. */
  lemma GapSeparates(a: Rect, b: Rect)
    ensures a.bottom < b.top || b.bottom < a.top ==> !Overlaps(a, b)
    ensures a.right < b.left || b.right < a.left ==> !Overlaps(a, b)
  {
  }
}
