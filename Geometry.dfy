/**
 * Arena geometry (class `Geometry` of engine.py) and the flat `geom` vector
 * through which `Engine.run` hands the arena to the kernel.
 */
module Geometry {

  import opened Wrappers
  import opened Enums

  /**
   * Periodicity as the source stores it: a circular arena keeps the single
   * flag `False`; a rectangular arena keeps one flag per axis.
   */
  datatype Periodicity = Uniform(flag: bool) | PerAxis(flags: seq<bool>)

  datatype Geometry = Geometry(dimension: nat, arena: ArenaKind, shape: seq<real>, periodic: Periodicity)

  /**
   * `Geometry.__init__(dimension, arena=…, shape=…, periodic=…)`; a keyword
   * argument that is not passed is `None` here.
   */
  function MakeGeometry(dimension: nat, arena: Option<ArenaKind>, shape: Option<seq<real>>,
                        periodic: Option<seq<bool>>): (g: Geometry)
    ensures g.dimension == dimension
    ensures g.arena == arena.GetOr(Rectangular)
    ensures shape.None? ==> g.shape == seq(dimension, _ => 1.0)
    ensures shape.Some? ==> g.shape == shape.value
    // a circular arena is never periodic, whatever was requested
    ensures g.arena == Circular ==> g.periodic == Uniform(false)
    // a rectangular arena is periodic on every axis unless told otherwise
    ensures g.arena == Rectangular && periodic.None? ==> g.periodic == PerAxis(seq(dimension, _ => true))
    ensures g.arena == Rectangular && periodic.Some? ==> g.periodic == PerAxis(periodic.value)
  {
    var kind := arena.GetOr(Rectangular);
    var extent := if shape.Some? then shape.value else seq(dimension, _ => 1.0);
    match kind
    case Circular => Geometry(dimension, kind, extent, Uniform(false))
    case Rectangular =>
      Geometry(dimension, kind, extent,
               PerAxis(if periodic.Some? then periodic.value else seq(dimension, _ => true)))
  }

  /** Whether the flags can be read for `dim` axes (`periodic[d]` raises otherwise). */
  predicate FlagsCover(p: Periodicity, dim: nat) {
    p.PerAxis? ==> |p.flags| >= dim
  }

  /** Periodicity of axis `d`. */
  function AxisPeriodic(p: Periodicity, d: nat): bool
    requires FlagsCover(p, d + 1)
  {
    match p
    case Uniform(b) => b
    case PerAxis(f) => f[d]
  }

  function BoolCode(b: bool): real {
    if b then 1.0 else 0.0
  }

  /** The half-extents `shape[d]/2` of the first `dim` axes. */
  function HalfExtents(shape: seq<real>, dim: nat): (h: seq<real>)
    requires |shape| >= dim
    ensures |h| == dim
    ensures forall d :: 0 <= d < dim ==> h[d] * 2.0 == shape[d]
  {
    seq(dim, d requires 0 <= d < dim => shape[d] / 2.0)
  }

  function FlagCodes(p: Periodicity, dim: nat): (c: seq<real>)
    requires FlagsCover(p, dim)
    ensures |c| == dim
  {
    seq(dim, d requires 0 <= d < dim => BoolCode(AxisPeriodic(p, d)))
  }

  /**
   * The `geom` vector built by `Engine.run` for dimension 1, 2 or 3: the arena
   * code at index 0, the half-extents at 1..dim, the periodic flags at
   * dim+1..2*dim. `None` where the source fails: a dimension other than 1..3
   * leaves `geom` unbound, and a shape or flag list shorter than the dimension
   * raises on indexing.
   */
  function GeomVector(g: Geometry): (v: Option<seq<real>>)
    ensures v.Some? <==> 1 <= g.dimension <= 3 && |g.shape| >= g.dimension && FlagsCover(g.periodic, g.dimension)
    ensures v.Some? ==> |v.value| == 2 * g.dimension + 1
    ensures v.Some? ==> v.value[0] == ArenaCode(g.arena) as real
    ensures v.Some? ==> forall d :: 0 <= d < g.dimension ==> v.value[1 + d] * 2.0 == g.shape[d]
    ensures v.Some? ==> forall d :: 0 <= d < g.dimension ==>
                          v.value[1 + g.dimension + d] == BoolCode(AxisPeriodic(g.periodic, d))
  {
    if 1 <= g.dimension <= 3 && |g.shape| >= g.dimension && FlagsCover(g.periodic, g.dimension) then
      Some([ArenaCode(g.arena) as real] + HalfExtents(g.shape, g.dimension) + FlagCodes(g.periodic, g.dimension))
    else
      None
  }

  /** The arena as the kernel sees it after reading `geom`. */
  datatype ArenaParams = ArenaParams(arena: ArenaKind, half: seq<real>, periodic: seq<bool>)

  /**
   * The kernel's reads of `geom`: `arena = geom[0]`, `arena_X.. = geom[1..]`,
   * `periodic_X.. = geom[dim+1..]`, a flag being periodic when non-zero.
   * `None` when the vector is too short or holds an unknown arena code.
   */
  function DecodeGeom(v: seq<real>, dim: nat): (a: Option<ArenaParams>)
    ensures a.Some? ==> |a.value.half| == dim && |a.value.periodic| == dim
  {
    if |v| < 2 * dim + 1 || ArenaOfCode(v[0]).None? then None
    else
      Some(ArenaParams(ArenaOfCode(v[0]).value,
                       v[1 .. dim + 1],
                       seq(dim, d requires 0 <= d < dim => v[1 + dim + d] != 0.0)))
  }

  /** The arena the kernel reads back is the one `Engine.run` serialized. */
  lemma DecodeGeomVector(g: Geometry)
    requires GeomVector(g).Some?
    ensures DecodeGeom(GeomVector(g).value, g.dimension).Some?
    ensures var a := DecodeGeom(GeomVector(g).value, g.dimension).value;
            && a.arena == g.arena
            && (forall d :: 0 <= d < g.dimension ==> a.half[d] * 2.0 == g.shape[d])
            && (forall d :: 0 <= d < g.dimension ==> a.periodic[d] == AxisPeriodic(g.periodic, d))
  {
    var v := GeomVector(g).value;
    assert ArenaOfCode(v[0]) == Some(g.arena);
    var a := DecodeGeom(v, g.dimension).value;
    assert a.half == v[1 .. g.dimension + 1];
    forall d | 0 <= d < g.dimension
      ensures a.half[d] * 2.0 == g.shape[d]
    {
      assert a.half[d] == v[1 + d];
    }
    forall d | 0 <= d < g.dimension
      ensures a.periodic[d] == AxisPeriodic(g.periodic, d)
    {
      assert v[1 + g.dimension + d] == BoolCode(AxisPeriodic(g.periodic, d));
    }
  }

  /** A circular arena reaches the kernel reflective on every axis, even when periodic was asked for. */
  lemma CircularArenaIsReflective(dimension: nat, shape: Option<seq<real>>, periodic: Option<seq<bool>>)
    requires GeomVector(MakeGeometry(dimension, Some(Circular), shape, periodic)).Some?
    ensures var g := MakeGeometry(dimension, Some(Circular), shape, periodic);
            var a := DecodeGeom(GeomVector(g).value, dimension);
            a.Some? && a.value.arena == Circular && forall d :: 0 <= d < dimension ==> !a.value.periodic[d]
  {
    DecodeGeomVector(MakeGeometry(dimension, Some(Circular), shape, periodic));
  }

  /** With no keyword arguments the arena is a periodic square (cube) of side 1. */
  lemma DefaultArena(dimension: nat)
    requires 1 <= dimension <= 3
    ensures var g := MakeGeometry(dimension, None, None, None);
            var a := DecodeGeom(GeomVector(g).value, dimension);
            && a.Some? && a.value.arena == Rectangular
            && (forall d :: 0 <= d < dimension ==> a.value.half[d] == 0.5 && a.value.periodic[d])
  {
    DecodeGeomVector(MakeGeometry(dimension, None, None, None));
  }
}
