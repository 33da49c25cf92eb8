/**
 * The enumerations of the MIDAS engine that the core reads or writes,
 * with the integer values they carry in the serialized tables.
 */
module Enums {

  import opened Wrappers

  /** Arena geometry: CIRCULAR = 0, RECTANGULAR = 1. */
  datatype ArenaKind = Circular | Rectangular

  function ArenaCode(k: ArenaKind): int {
    match k
    case Circular => 0
    case Rectangular => 1
  }

  /** The kernel's comparisons `arena == Arena.X.value` on a stored float. */
  function ArenaOfCode(c: real): (k: Option<ArenaKind>)
    ensures k.Some? ==> ArenaCode(k.value) as real == c
    ensures k.None? <==> c != 0.0 && c != 1.0
  {
    if c == 0.0 then Some(Circular)
    else if c == 1.0 then Some(Rectangular)
    else None
  }

  /** Agent type: FIXED = 0, RIPO = 1. */
  datatype AgentKind = Fixed | Ripo

  function AgentCode(k: AgentKind): int {
    match k
    case Fixed => 0
    case Ripo => 1
  }

  /** `gtype.name`, the default group name. */
  function AgentName(k: AgentKind): string {
    match k
    case Fixed => "FIXED"
    case Ripo => "RIPO"
  }

  /** Perception kind: PRESENCE = 0, ORIENTATION = 1, FIELD = 2, WALL = 3. */
  datatype Perception = Presence | Orientation | Field | Wall

  function PerceptionCode(p: Perception): int {
    match p
    case Presence => 0
    case Orientation => 1
    case Field => 2
    case Wall => 3
  }

  /** Normalization mode: NONE = 0, SAME_RADIUS = 1, SAME_SLICE = 2, SAME_GROUP = 3, ALL = 4. */
  datatype Normalization = Unnormalized | SameRadius | SameSlice | SameGroup | AllZones

  function NormalizationCode(n: Normalization): int {
    match n
    case Unnormalized => 0
    case SameRadius => 1
    case SameSlice => 2
    case SameGroup => 3
    case AllZones => 4
  }

  /**
   * Output action: SPEED_MODULATION = 0, REORIENTATION = 1 (alias TRANSVERSE, AXIAL),
   * REORIENTATION_LONGITUDINAL = 2 (alias SAGITTAL), REORIENTATION_FRONTAL = 3 (alias CORONAL).
   */
  datatype Action = SpeedModulation | Reorientation | ReorientationLongitudinal | ReorientationFrontal

  /** The coefficient sets that can stand in for explicit coefficients: IGNORE = 0. */
  datatype CoeffSet = Ignore
}
