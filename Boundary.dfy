/**
 * The pairwise and boundary primitives of engine.py: `relative_2d` (relative
 * position, minimum image, cutoff) and `assign_2d` (boundary resolution).
 * Distances are compared through squared norms, which is exact for the
 * non-negative modulus `abs(z)` of the source.
 */
module Boundary {

  import opened Wrappers
  import opened Enums

  /** A point or displacement of the plane (the source's complex numbers). */
  datatype Vec = Vec(x: real, y: real)

  /** A velocity in polar form: speed `v` and heading `a`. */
  datatype Polar = Polar(v: real, a: real)

  function Abs(r: real): real {
    if r < 0.0 then -r else r
  }

  function Norm2(z: Vec): real {
    z.x * z.x + z.y * z.y
  }

  /** `abs(z) > r` for a vector of squared modulus `d2 >= 0`. */
  predicate Beyond(d2: real, r: real) {
    r < 0.0 || d2 > r * r
  }

  /** `abs(z) < r` for a vector of squared modulus `d2 >= 0`. */
  predicate Closer(d2: real, r: real) {
    r > 0.0 && d2 < r * r
  }

  /**
   * The offset `x1 - x0` along one axis; on a periodic axis of half-extent
   * `half` a difference larger than `half` is replaced by the nearer image,
   * shifted by 2*half towards zero.
   */
  function AxisOffset(x0: real, x1: real, half: real, periodic: bool): (d: real)
    ensures !periodic ==> d == x1 - x0
    ensures periodic ==> d == x1 - x0 || d == x1 - x0 - 2.0 * half || d == x1 - x0 + 2.0 * half
    // minimum image: both coordinates inside the arena give an offset of at most half the extent
    ensures periodic && -half <= x0 <= half && -half <= x1 <= half ==> Abs(d) <= half
  {
    if periodic then
      if Abs(x1 - x0) <= half then x1 - x0
      else if x1 > x0 then x1 - x0 - 2.0 * half
      else x1 - x0 + 2.0 * half
    else
      x1 - x0
  }

  /** The displacement from `p0` to `p1`: raw in a circular arena, per-axis offsets in a rectangular one. */
  function Offset(p0: Vec, p1: Vec, arena: ArenaKind, halfX: real, halfY: real,
                  periodicX: bool, periodicY: bool): (z: Vec)
    ensures arena == Circular ==> z == Vec(p1.x - p0.x, p1.y - p0.y)
    ensures arena == Rectangular ==> z == Vec(AxisOffset(p0.x, p1.x, halfX, periodicX),
                                              AxisOffset(p0.y, p1.y, halfY, periodicY))
    // minimum image: on a periodic axis, two points inside the arena are at most half the extent apart
    ensures arena == Rectangular && periodicX && -halfX <= p0.x <= halfX && -halfX <= p1.x <= halfX ==>
              Abs(z.x) <= halfX
    ensures arena == Rectangular && periodicY && -halfY <= p0.y <= halfY && -halfY <= p1.y <= halfY ==>
              Abs(z.y) <= halfY
  {
    match arena
    case Circular => Vec(p1.x - p0.x, p1.y - p0.y)
    case Rectangular => Vec(AxisOffset(p0.x, p1.x, halfX, periodicX), AxisOffset(p0.y, p1.y, halfY, periodicY))
  }

  /**
   * What `relative_2d` returns: the offset (left in the arena's frame, the
   * rotation by the observer's heading not being modelled), the relative
   * heading and the visibility status.
   */
  datatype Relative = Relative(offset: Vec, alpha: real, visible: bool)

  /** `relative_2d(x0, y0, a0, x1, y1, a1, rmax, arena, X, Y, periodic_X, periodic_Y)`. */
  function Relative2D(p0: Vec, a0: real, p1: Vec, a1: real, rmax: Option<real>, arena: ArenaKind,
                      halfX: real, halfY: real, periodicX: bool, periodicY: bool): (r: Relative)
    // out of reach exactly when a cutoff is set and the distance exceeds it
    ensures !r.visible <==>
            rmax.Some? && Beyond(Norm2(Offset(p0, p1, arena, halfX, halfY, periodicX, periodicY)), rmax.value)
    ensures !r.visible ==> r == Relative(Vec(0.0, 0.0), 0.0, false)
    ensures r.visible ==> r.offset == Offset(p0, p1, arena, halfX, halfY, periodicX, periodicY)
    ensures r.visible ==> r.alpha == a1 - a0
    ensures rmax.None? ==> r.visible
  {
    var z := Offset(p0, p1, arena, halfX, halfY, periodicX, periodicY);
    if rmax.Some? && Beyond(Norm2(z), rmax.value) then Relative(Vec(0.0, 0.0), 0.0, false)
    else Relative(z, a1 - a0, true)
  }

  /** On a periodic rectangular arena a visible neighbour's offset is its nearest image. */
  lemma RelativeIsMinimumImage(p0: Vec, a0: real, p1: Vec, a1: real, rmax: Option<real>,
                               halfX: real, halfY: real)
    requires -halfX <= p0.x <= halfX && -halfX <= p1.x <= halfX
    requires -halfY <= p0.y <= halfY && -halfY <= p1.y <= halfY
    ensures var r := Relative2D(p0, a0, p1, a1, rmax, Rectangular, halfX, halfY, true, true);
            Abs(r.offset.x) <= halfX && Abs(r.offset.y) <= halfY
  {
  }

  /**
   * Two agents at x = 0.49 and x = -0.49 on a periodic axis of width 1 are 0.02
   * apart through the boundary, not 0.98 apart.
   */
  lemma MinimumImageAcrossBoundary()
    ensures AxisOffset(0.49, -0.49, 0.5, true) == 0.02
    ensures AxisOffset(0.49, -0.49, 0.5, false) == -0.98
  {
  }

  /**
   * One axis of the rectangular branch of `assign_2d`: coordinate `c` of the
   * candidate position and component `vc` of the velocity. A periodic axis
   * wraps by 2*half; a reflective axis mirrors the coordinate about the wall
   * it crossed and negates the velocity component.
   */
  function AxisResolve(c: real, vc: real, half: real, periodic: bool): (r: (real, real))
    ensures periodic ==> r.1 == vc
    ensures periodic ==> r.0 == (if c > half then c - 2.0 * half else if c < -half then c + 2.0 * half else c)
    ensures !periodic ==> r.0 == (if c > half then 2.0 * half - c else if c < -half then -2.0 * half - c else c)
    // reflection negates exactly the component normal to the wall that was crossed
    ensures !periodic ==> r.1 == (if c > half || c < -half then -vc else vc)
    ensures -half <= c <= half ==> r == (c, vc)
    // one step of less than two extents lands back inside
    ensures 0.0 <= half && -3.0 * half <= c <= 3.0 * half ==> -half <= r.0 <= half
    ensures r.1 * r.1 == vc * vc
  {
    if periodic then
      if c > half then (c - 2.0 * half, vc)
      else if c < -half then (c + 2.0 * half, vc)
      else (c, vc)
    else
      if c > half then (2.0 * half - c, -vc)
      else if c < -half then (-2.0 * half - c, -vc)
      else (c, vc)
  }

  /**
   * The result of `assign_2d`: either the velocity is still the polar pair
   * (zero speed, circular arena), or it is the Cartesian velocity that the
   * rectangular branch hands to `cmath.polar`.
   */
  datatype Landing = Kept(pos: Vec, polar: Polar) | Cartesian(pos: Vec, cart: Vec)

  /**
   * The rectangular branch of `assign_2d`, `zv` being `cmath.rect(v, a)`.
   * Both axes are resolved independently.
   */
  function AssignRect(z1: Vec, v: real, a: real, zv: Vec, halfX: real, halfY: real,
                      periodicX: bool, periodicY: bool): (l: Landing)
    ensures v == 0.0 ==> l == Kept(z1, Polar(v, a))
    ensures v != 0.0 ==> l.Cartesian?
    // elastic: the speed is preserved
    ensures l.Cartesian? ==> Norm2(l.cart) == Norm2(zv)
    ensures l.Cartesian? ==> l.pos.x == AxisResolve(z1.x, zv.x, halfX, periodicX).0
    ensures l.Cartesian? ==> l.pos.y == AxisResolve(z1.y, zv.y, halfY, periodicY).0
    ensures l.Cartesian? && periodicX ==> l.cart.x == zv.x
    ensures l.Cartesian? && periodicY ==> l.cart.y == zv.y
    // a candidate within three half-extents ends up inside the arena
    ensures l.Cartesian? && 0.0 <= halfX && -3.0 * halfX <= z1.x <= 3.0 * halfX ==> -halfX <= l.pos.x <= halfX
    ensures l.Cartesian? && 0.0 <= halfY && -3.0 * halfY <= z1.y <= 3.0 * halfY ==> -halfY <= l.pos.y <= halfY
  {
    if v == 0.0 then Kept(z1, Polar(v, a))
    else
      var rx := AxisResolve(z1.x, zv.x, halfX, periodicX);
      var ry := AxisResolve(z1.y, zv.y, halfY, periodicY);
      Cartesian(Vec(rx.0, ry.0), Vec(rx.1, ry.1))
  }

  /**
   * The single-bounce reflection off the circular wall: from the start
   * position, speed, heading and radius, the final position and heading.
   * It is built from asin and complex exponentials, so the caller supplies it.
   */
  type CircularBounce = (Vec, real, real, real) -> (Vec, real)

  /** `assign_2d(z0, z1, v, a, arena, X, Y, periodic_X, periodic_Y)` with `zv = cmath.rect(v, a)`. */
  function Assign2D(z0: Vec, z1: Vec, v: real, a: real, zv: Vec, arena: ArenaKind,
                    halfX: real, halfY: real, periodicX: bool, periodicY: bool,
                    bounce: CircularBounce): (l: Landing)
    ensures v == 0.0 ==> l == Kept(z1, Polar(v, a))
    ensures arena == Rectangular ==> l == AssignRect(z1, v, a, zv, halfX, halfY, periodicX, periodicY)
    // a circular arena keeps the speed and, inside the wall, the candidate position and heading
    ensures arena == Circular ==> l.Kept? && l.polar.v == v
    ensures arena == Circular && !Beyond(Norm2(z1), halfX) ==> l == Kept(z1, Polar(v, a))
  {
    if v == 0.0 then Kept(z1, Polar(v, a))
    else
      match arena
      case Circular =>
        if Beyond(Norm2(z1), halfX) then
          var b := bounce(z0, v, a, halfX);
          Kept(b.0, Polar(v, b.1))
        else Kept(z1, Polar(v, a))
      case Rectangular => AssignRect(z1, v, a, zv, halfX, halfY, periodicX, periodicY)
  }
}
