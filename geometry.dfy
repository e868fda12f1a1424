/** Axis-aligned screen rectangles and the overlap test the mini-game uses
    to decide whether the character touches a coin. Coordinates are integer
    pixels in screen orientation: `top <= bottom` for a well-formed box. */
module Geometry {

  datatype Rect = Rect(left: int, right: int, top: int, bottom: int)

  predicate WellFormed(r: Rect) {
    r.left <= r.right && r.top <= r.bottom
  }

  /** The point (px, py) lies in the closed rectangle r (edges included). */
  predicate Contains(r: Rect, px: int, py: int) {
    r.left <= px <= r.right && r.top <= py <= r.bottom
  }

  /** The separating-axis test: the boxes collide unless one lies strictly
      to the left of, right of, above or below the other. */
  predicate IsColliding(a: Rect, b: Rect) {
    !(a.right < b.left || a.left > b.right || a.bottom < b.top || a.top > b.bottom)
  }

  /** The test does not depend on the order of its arguments. */
  lemma IsCollidingSymmetric(a: Rect, b: Rect)
    ensures IsColliding(a, b) == IsColliding(b, a)
  {
  }

  /** Boxes that only share an edge (or a corner) still collide: the right
      edge of one on the left edge of the other with the vertical extents
      overlapping, or the bottom edge on the top edge with the horizontal
      extents overlapping. */
  lemma EdgeTouchCollides(a: Rect, b: Rect)
    requires WellFormed(a) && WellFormed(b)
    requires (a.right == b.left && a.top <= b.bottom && b.top <= a.bottom) ||
             (a.bottom == b.top && a.left <= b.right && b.left <= a.right)
    ensures IsColliding(a, b)
  {
  }

  /** Two well-formed boxes collide exactly when some integer point lies in
      both of them: the separating-axis test agrees with the geometric
      meaning of overlap. */
  lemma CollidingIffSharedPoint(a: Rect, b: Rect)
    requires WellFormed(a) && WellFormed(b)
    ensures IsColliding(a, b) <==> exists px, py :: Contains(a, px, py) && Contains(b, px, py)
  {
    if IsColliding(a, b) {
      var px := if a.left < b.left then b.left else a.left;
      var py := if a.top < b.top then b.top else a.top;
      assert Contains(a, px, py) && Contains(b, px, py);
    } else {
      forall px, py | Contains(a, px, py)
        ensures !Contains(b, px, py)
      {
      }
    }
  }
}
