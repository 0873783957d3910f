/** Screen wrapping (Assets/Scripts/Boid.cs, `Wrap`): a boid that leaves the
    visible rectangle on one side is moved one screen width (or height) back
    toward the other side, once per tick and per axis. */
module BoundaryWrap {
  import opened Vectors

  /** The screen rectangle in world coordinates, as `Start` stores it in
      `_left`, `_right`, `_top`, `_bottom`, `_width` and `_height`. */
  datatype WorldBounds = WorldBounds(left: real, right: real, top: real, bottom: real, width: real, height: real)
  {
    /** `_width` and `_height` are the extents of the rectangle. */
    predicate Consistent() {
      width == right - left && height == top - bottom
    }

    predicate Contains(p: Vec2) {
      left <= p.x <= right && bottom <= p.y <= top
    }
  }

  /** The bounds `Start` computes from the screen corners mapped into the
      world: the width and height are derived from the edges. */
  function FromEdges(left: real, right: real, top: real, bottom: real): (b: WorldBounds)
    ensures b.Consistent()
    ensures b.left == left && b.right == right && b.top == top && b.bottom == bottom
  {
    WorldBounds(left, right, top, bottom, right - left, top - bottom)
  }

  /** One axis of `Wrap`: below `lo` add `span`, otherwise above `hi`
      subtract it, otherwise leave the coordinate alone. */
  function WrapAxis(v: real, lo: real, hi: real, span: real): (r: real)
    ensures lo <= v <= hi ==> r == v
    ensures r == v || r == v + span || r == v - span
    ensures span == hi - lo && lo - span <= v <= hi + span ==> lo <= r <= hi
  {
    if v < lo then v + span
    else if v > hi then v - span
    else v
  }

  /** The position `Wrap` leaves behind. The y test sees the position after
      the x correction, whose y coordinate that correction does not touch,
      so the two axes are wrapped independently. */
  function Wrapped(p: Vec2, b: WorldBounds): (r: Vec2)
    ensures b.Contains(p) ==> r == p
    ensures r.x == p.x || r.x == p.x + b.width || r.x == p.x - b.width
    ensures r.y == p.y || r.y == p.y + b.height || r.y == p.y - b.height
  {
    Vec2(WrapAxis(p.x, b.left, b.right, b.width), WrapAxis(p.y, b.bottom, b.top, b.height))
  }

  /** The x coordinate after wrapping depends on the x coordinate alone, and
      the y coordinate on the y coordinate alone. */
  lemma AxesIndependent(p: Vec2, q: Vec2, b: WorldBounds)
    ensures p.x == q.x ==> Wrapped(p, b).x == Wrapped(q, b).x
    ensures p.y == q.y ==> Wrapped(p, b).y == Wrapped(q, b).y
  {
  }

  /** Leaving past the right edge by `e` (at most a screen width) brings the
      boid back in `e` to the right of the left edge, and leaving past the
      left edge brings it back as far left of the right edge. */
  lemma HorizontalReentry(p: Vec2, b: WorldBounds, e: real)
    requires b.Consistent() && 0.0 < e <= b.width
    ensures p.x == b.right + e ==> Wrapped(p, b).x == b.left + e
    ensures p.x == b.left - e ==> Wrapped(p, b).x == b.right - e
  {
  }

  /** The same on the vertical axis, between bottom and top. */
  lemma VerticalReentry(p: Vec2, b: WorldBounds, e: real)
    requires b.Consistent() && 0.0 < e <= b.height
    ensures p.y == b.top + e ==> Wrapped(p, b).y == b.bottom + e
    ensures p.y == b.bottom - e ==> Wrapped(p, b).y == b.top - e
  {
  }

  /** A boid that has strayed less than one screen beyond an edge (as one
      tick's movement normally does) is back on screen after wrapping, and
      wrapping it again changes nothing. */
  lemma WrapReturnsToScreen(p: Vec2, b: WorldBounds)
    requires b.Consistent() && b.left <= b.right && b.bottom <= b.top
    requires b.left - b.width <= p.x <= b.right + b.width
    requires b.bottom - b.height <= p.y <= b.top + b.height
    ensures b.Contains(Wrapped(p, b))
    ensures Wrapped(Wrapped(p, b), b) == Wrapped(p, b)
  {
  }

  /** Only one correction is applied per tick: a boid more than a screen
      width beyond the left edge is still off screen after wrapping. */
  lemma SingleCorrection(p: Vec2, b: WorldBounds)
    requires b.Consistent() && b.left <= b.right && p.x < b.left - b.width
    ensures Wrapped(p, b).x < b.left
    ensures !b.Contains(Wrapped(p, b))
  {
  }
}
