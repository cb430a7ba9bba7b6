/** Axis-aligned bounds shared by every body in both iterations of the game.

    Screen space: x grows to the right and y grows DOWNWARD, so a shape's
    Top() is numerically smaller than its Bottom(). Every body has its origin
    set to its centre, so a shape is a centre plus a half-extent: half the
    width and half the height for a rectangle, the radius for a circle. All
    sizes the game uses are even whole numbers, so the bounds are exact
    integers. */
module Geometry {

  datatype Shape =
    | Rect(x: int, y: int, halfWidth: nat, halfHeight: nat)
    | Circle(x: int, y: int, radius: nat)
  {
    /** Half of the horizontal extent. */
    function HalfX(): nat {
      if Rect? then halfWidth else radius
    }

    /** Half of the vertical extent. */
    function HalfY(): nat {
      if Rect? then halfHeight else radius
    }

    function Left(): (l: int)
      ensures l <= x
    {
      x - HalfX()
    }

    function Right(): (r: int)
      ensures x <= r
    {
      x + HalfX()
    }

    /** The smaller y: the edge nearer the top of the window. */
    function Top(): (t: int)
      ensures t <= y
    {
      y - HalfY()
    }

    function Bottom(): (b: int)
      ensures y <= b
    {
      y + HalfY()
    }

    /** The body translated by (dx, dy), as SFML's `move` does. */
    function Moved(dx: int, dy: int): (s: Shape)
      ensures s.Rect? == Rect? && s.HalfX() == HalfX() && s.HalfY() == HalfY()
      ensures s.x == x + dx && s.y == y + dy
      ensures s.Left() == Left() + dx && s.Right() == Right() + dx
      ensures s.Top() == Top() + dy && s.Bottom() == Bottom() + dy
    {
      match this
      case Rect(cx, cy, hw, hh) => Rect(cx + dx, cy + dy, hw, hh)
      case Circle(cx, cy, r) => Circle(cx + dx, cy + dy, r)
    }
  }

  /** The single overlap test of both iterations: closed intervals on both
      axes, so shapes whose edges merely touch count as intersecting. Two
      shapes fail the test exactly when one lies strictly to one side of the
      other: left of it, right of it, above it or below it. */
  predicate Intersecting(a: Shape, b: Shape)
    ensures !Intersecting(a, b) <==>
      a.Right() < b.Left() || b.Right() < a.Left() || a.Bottom() < b.Top() || b.Bottom() < a.Top()
  {
    a.Right() >= b.Left()
    && a.Left() <= b.Right()
    && a.Bottom() >= b.Top()
    && a.Top() <= b.Bottom()
  }

  /** The point (px, py) lies in the closed region covered by s. */
  predicate Contains(s: Shape, px: int, py: int) {
    s.Left() <= px <= s.Right() && s.Top() <= py <= s.Bottom()
  }

  /** The bounds are the centre plus or minus the half-extent: the centre is
      the midpoint of both spans, and each span is twice the half-extent. */
  lemma BoundsAroundCentre(s: Shape)
    ensures s.Left() + s.Right() == 2 * s.x && s.Top() + s.Bottom() == 2 * s.y
    ensures s.Right() - s.Left() == 2 * s.HalfX() && s.Bottom() - s.Top() == 2 * s.HalfY()
    ensures s.Rect? ==> s.HalfX() == s.halfWidth && s.HalfY() == s.halfHeight
    ensures s.Circle? ==> s.HalfX() == s.radius && s.HalfY() == s.radius
  {
  }

  lemma IntersectingSymmetric(a: Shape, b: Shape)
    ensures Intersecting(a, b) <==> Intersecting(b, a)
  {
  }

  /** Edge contact counts: when a's right edge is exactly b's left edge and
      the vertical spans overlap, the two intersect (in both orders). */
  lemma TouchingEdgesIntersect(a: Shape, b: Shape)
    requires a.Right() == b.Left()
    requires a.Bottom() >= b.Top() && a.Top() <= b.Bottom()
    ensures Intersecting(a, b) && Intersecting(b, a)
  {
  }

  /** Reference meaning of the overlap test: two shapes intersect exactly
      when some integer point lies in both of them. */
  lemma IntersectingIffCommonPoint(a: Shape, b: Shape)
    ensures Intersecting(a, b) <==> exists px, py :: Contains(a, px, py) && Contains(b, px, py)
  {
    if Intersecting(a, b) {
      var px := if a.Left() <= b.Left() then b.Left() else a.Left();
      var py := if a.Top() <= b.Top() then b.Top() else a.Top();
      assert Contains(a, px, py) && Contains(b, px, py);
    }
  }
}
