/**
 * coefficients.py: the coefficients of one input (`Coefficients.__init__`)
 * and their translation into kernel weights (`Coefficients.to_weights`),
 * which flips the sign of a coefficient according to the output's action and
 * to the angular slice of its zone.
 */
module Coefficients {

  import opened Wrappers
  import opened Enums

  /** The zone grid of an input: number of zones and of angular slices. */
  datatype Grid = Grid(nZ: nat, nSa: int, nSb: int)

  /** The `C` argument: explicit values or a named set. */
  datatype CoeffSource = Given(values: seq<real>) | Named(name: CoeffSet)

  /**
   * The fields `__init__` stores: `nO` outputs, `nG` groups, the input's grid,
   * `nCpO` coefficients per output, `nC` in all, and the coefficients `C`.
   */
  datatype Coefficients = Coefficients(
    outputs: seq<Action>, nG: nat, grid: Option<Grid>, nCpO: nat, nC: nat, C: seq<real>)

  /** `Coefficients(engine, i, C)` for an engine with outputs `outputs` and `nG` groups. */
  function MakeCoefficients(outputs: seq<Action>, nG: nat, grid: Option<Grid>, src: CoeffSource): (co: Coefficients)
    // one coefficient per group and zone with a grid, a single one without
    ensures co.nCpO == if grid.Some? then nG * grid.value.nZ else 1
    ensures co.nC == |outputs| * co.nCpO
    // IGNORE: nC zero coefficients
    ensures src.Named? ==> |co.C| == co.nC && forall k :: 0 <= k < co.nC ==> co.C[k] == 0.0
    ensures src.Given? ==> co.C == src.values
    ensures co.outputs == outputs && co.grid == grid
  {
    var nCpO := if grid.Some? then nG * grid.value.nZ else 1;
    var nC := |outputs| * nCpO;
    var C := match src
      case Named(Ignore) => seq(nC, _ => 0.0)
      case Given(values) => values;
    Coefficients(outputs, nG, grid, nCpO, nC, C)
  }

  // --- Python's modulo ---------------------------------------------------------

  /** Python's `a % m` on integers: the remainder has the sign of `m`. */
  function IntMod(a: int, m: int): int
    requires m != 0
  {
    a - m * ((a as real) / (m as real)).Floor
  }

  /** Python's `x % m` on floats. */
  function RealMod(x: real, m: real): real
    requires m != 0.0
  {
    x - m * ((x / m).Floor as real)
  }

  lemma FloorOfQuotient(a: int, m: int)
    requires m > 0
    ensures ((a as real) / (m as real)).Floor == a / m
  {
    var q, r := a / m, a % m;
    assert a == q * m + r;
    assert (a as real) / (m as real) == q as real + (r as real) / (m as real);
    assert 0.0 <= (r as real) / (m as real) < 1.0;
  }

  /** For a positive modulus both agree with Dafny's `%`. */
  lemma ModOfInt(a: int, m: int)
    requires m > 0
    ensures IntMod(a, m) == a % m
    ensures RealMod(a as real, m as real) == (a % m) as real
  {
    FloorOfQuotient(a, m);
  }

  /** `ModOfInt` for any non-zero modulus, as far as it goes. */
  lemma IntModPositive(a: int, m: int)
    requires m != 0
    ensures m > 0 ==> IntMod(a, m) == a % m
  {
    if m > 0 {
      ModOfInt(a, m);
    }
  }

  // --- Signs -------------------------------------------------------------------

  /** The actions `to_weights` emits weights for. */
  predicate Emits(action: Action) {
    action == SpeedModulation || action == Reorientation
  }

  /**
   * Whether zone `j` of an output with action `action` is negated:
   * reorientation when `j % nSa >= nSa/2`, speed modulation a quarter turn
   * later, when `(j + nSa/4) % nSa >= nSa/2` (true divisions).
   */
  predicate Flipped(action: Action, j: nat, nSa: int)
    requires nSa != 0
    // only the two actions with a direction flip any zone
    ensures Flipped(action, j, nSa) ==> action == SpeedModulation || action == Reorientation
    // reorientation flips the zones in the second half of the turn
    ensures nSa > 0 && action == Reorientation ==> (Flipped(action, j, nSa) <==> 2 * (j % nSa) >= nSa)
  {
    IntModPositive(j, nSa);
    match action
    case SpeedModulation => RealMod(j as real + nSa as real / 4.0, nSa as real) >= nSa as real / 2.0
    case Reorientation => IntMod(j, nSa) as real >= nSa as real / 2.0
    case _ => false
  }

  function Signed(c: real, flip: bool): (w: real)
    ensures w == c || w == -c
  {
    if flip then -c else c
  }

  /** With four slices, reorientation negates the zones `j ≡ 2, 3 (mod 4)`. */
  lemma ReorientationSigns(j: nat)
    ensures Flipped(Reorientation, j, 4) <==> j % 4 == 2 || j % 4 == 3
  {
    ModOfInt(j, 4);
  }

  /** With four slices, speed modulation negates the zones `j ≡ 1, 2 (mod 4)`. */
  lemma SpeedModulationSigns(j: nat)
    ensures Flipped(SpeedModulation, j, 4) <==> j % 4 == 1 || j % 4 == 2
  {
    assert j as real + 4.0 / 4.0 == (j + 1) as real;
    ModOfInt(j + 1, 4);
  }

  /** For any positive slice count, reorientation negates the second half of every turn. */
  lemma ReorientationHalfTurn(j: nat, nSa: int)
    requires nSa > 0
    ensures Flipped(Reorientation, j, nSa) <==> 2 * (j % nSa) >= nSa
  {
    ModOfInt(j, nSa);
  }

  /**
   * For a slice count that is a multiple of four, speed modulation is
   * reorientation a quarter turn later: it negates zone `j` exactly when
   * `j + nSa/4` lies in the second half of the turn.
   */
  lemma SpeedModulationQuarterTurn(j: nat, nSa: int)
    requires nSa > 0 && nSa % 4 == 0
    ensures Flipped(SpeedModulation, j, nSa) <==> Flipped(Reorientation, j + nSa / 4, nSa)
    ensures Flipped(SpeedModulation, j, nSa) <==> 2 * ((j + nSa / 4) % nSa) >= nSa
  {
    assert j as real + nSa as real / 4.0 == (j + nSa / 4) as real;
    ModOfInt(j + nSa / 4, nSa);
    ReorientationHalfTurn(j + nSa / 4, nSa);
  }

  // --- to_weights --------------------------------------------------------------

  /**
   * The weights output `i` contributes: its `nCpO` coefficients, signed, for
   * an emitting action, nothing otherwise. `None` where the source raises: a
   * zero slice count, or a coefficient index past the end of `C`.
   */
  function Block(co: Coefficients, nSa: int, i: nat): (b: Option<seq<real>>)
    requires i < |co.outputs|
    ensures b.Some? && Emits(co.outputs[i]) ==> |b.value| == co.nCpO
    ensures b.Some? && !Emits(co.outputs[i]) ==> b.value == []
  {
    if !Emits(co.outputs[i]) || co.nCpO == 0 then Some([])
    else if nSa == 0 || co.nCpO * i + co.nCpO > |co.C| then None
    else Some(seq(co.nCpO, j requires 0 <= j < co.nCpO => ZoneWeight(co, nSa, i, j)))
  }

  /** `k = nCpO*i + j`, where the coefficient for zone `j` of output `i` sits. */
  function Index(co: Coefficients, i: int, j: int): int {
    co.nCpO * i + j
  }

  /** The weight for zone `j` of output `i`: coefficient `k = nCpO*i + j`, signed. */
  function ZoneWeight(co: Coefficients, nSa: int, i: nat, j: nat): real
    requires i < |co.outputs| && j < co.nCpO && nSa != 0 && Index(co, i, j) < |co.C|
  {
    Signed(co.C[Index(co, i, j)], Flipped(co.outputs[i], j, nSa))
  }

  /** The weights of the first `m` outputs, emitted output by output. */
  function WeightsUpTo(co: Coefficients, nSa: int, m: nat): (r: Option<seq<real>>)
    requires m <= |co.outputs|
    // the loops raise exactly when the block of one of the first `m` outputs raises
    ensures r.None? <==> exists i :: 0 <= i < m && Block(co, nSa, i).None?
  {
    if m == 0 then Some([])
    else
      match WeightsUpTo(co, nSa, m - 1)
      case None => None
      case Some(w) =>
        match Block(co, nSa, m - 1)
        case None => None
        case Some(b) => Some(w + b)
  }

  /** The slice count `to_weights` uses: the grid's. */
  function SliceCount(co: Coefficients): int {
    if co.grid.Some? then co.grid.value.nSa else 0
  }

  /** `to_weights()`: `C` itself without a grid, else the signed weights. `None` where it raises. */
  function ToWeights(co: Coefficients): (w: Option<seq<real>>)
    ensures co.grid.None? ==> w == Some(co.C)
  {
    if co.grid.None? then Some(co.C)
    else WeightsUpTo(co, SliceCount(co), |co.outputs|)
  }

  /** How many outputs have an emitting action. */
  function EmittingCount(outputs: seq<Action>): nat {
    if outputs == [] then 0
    else EmittingCount(outputs[..|outputs| - 1]) + (if Emits(outputs[|outputs| - 1]) then 1 else 0)
  }

  /** The weights so far have `nCpO` entries per emitting output. */
  lemma {:induction false} WeightsUpToLength(co: Coefficients, nSa: int, m: nat)
    requires m <= |co.outputs| && WeightsUpTo(co, nSa, m).Some?
    ensures |WeightsUpTo(co, nSa, m).value| == co.nCpO * EmittingCount(co.outputs[..m])
  {
    if m > 0 {
      var prefix := co.outputs[..m];
      assert prefix[..m - 1] == co.outputs[..m - 1] && prefix[m - 1] == co.outputs[m - 1];
      WeightsUpToLength(co, nSa, m - 1);
      var e := EmittingCount(co.outputs[..m - 1]);
      var b := Block(co, nSa, m - 1).value;
      assert |WeightsUpTo(co, nSa, m).value| == co.nCpO * e + |b|;
      assert co.nCpO * (e + 1) == co.nCpO * e + co.nCpO;
    }
  }

  /** When every output so far emits, there are `nCpO` weights per output. */
  lemma WeightsUpToAllLength(co: Coefficients, nSa: int, m: nat)
    requires m <= |co.outputs| && WeightsUpTo(co, nSa, m).Some?
    requires forall i :: 0 <= i < m ==> Emits(co.outputs[i])
    ensures |WeightsUpTo(co, nSa, m).value| == co.nCpO * m
  {
    WeightsUpToLength(co, nSa, m);
    EmittingAll(co.outputs, m);
  }

  /**
   * When every output so far emits, the weight for zone `j` of output `i`
   * sits at `k = nCpO*i + j` and is `C[k]` with the sign of that zone.
   */
  lemma {:induction false} WeightsUpToEntry(co: Coefficients, nSa: int, m: nat, i: nat, j: nat)
    requires m <= |co.outputs| && WeightsUpTo(co, nSa, m).Some? && nSa != 0
    requires forall i :: 0 <= i < m ==> Emits(co.outputs[i])
    requires i < m && j < co.nCpO
    ensures Index(co, i, j) < |WeightsUpTo(co, nSa, m).value|
    ensures Index(co, i, j) < |co.C|
    ensures WeightsUpTo(co, nSa, m).value[Index(co, i, j)] == ZoneWeight(co, nSa, i, j)
  {
    var n := co.nCpO;
    WeightsUpToAllLength(co, nSa, m - 1);
    var w := WeightsUpTo(co, nSa, m - 1).value;
    var b := Block(co, nSa, m - 1).value;
    assert WeightsUpTo(co, nSa, m).value == w + b;
    if i == m - 1 {
      BlockEntry(co, nSa, i, j);
      assert (w + b)[n * i + j] == b[j];
    } else {
      WeightsUpToEntry(co, nSa, m - 1, i, j);
      assert (w + b)[n * i + j] == w[n * i + j];
    }
  }

  /** Entry `j` of the block of an emitting output `i`. */
  lemma BlockEntry(co: Coefficients, nSa: int, i: nat, j: int)
    requires i < |co.outputs| && Emits(co.outputs[i]) && nSa != 0
    requires Block(co, nSa, i).Some?
    requires 0 <= j < co.nCpO
    ensures Index(co, i, j) < |co.C|
    ensures Block(co, nSa, i).value[j] == ZoneWeight(co, nSa, i, j)
  {
  }

  /** Once a block raises, so does every longer prefix. */
  lemma {:induction false} RaisedStays(co: Coefficients, nSa: int, m: nat, m': nat)
    requires m <= m' <= |co.outputs| && WeightsUpTo(co, nSa, m).None?
    ensures WeightsUpTo(co, nSa, m').None?
    decreases m' - m
  {
    if m < m' {
      RaisedStays(co, nSa, m + 1, m');
    }
  }

  lemma {:induction false} EmittingAll(outputs: seq<Action>, m: nat)
    requires m <= |outputs| && forall i :: 0 <= i < m ==> Emits(outputs[i])
    ensures EmittingCount(outputs[..m]) == m
  {
    if m > 0 {
      assert outputs[..m][..m - 1] == outputs[..m - 1];
      EmittingAll(outputs, m - 1);
    }
  }

  /**
   * When every output is a speed modulation or a reorientation, `W` has as many
   * entries as `C` is meant to have, `nO*nCpO`.
   */
  lemma WeightsMatchLength(co: Coefficients, W: seq<real>)
    requires co.grid.Some? && ToWeights(co) == Some(W)
    requires forall i :: 0 <= i < |co.outputs| ==> Emits(co.outputs[i])
    ensures |W| == |co.outputs| * co.nCpO
  {
    WeightsUpToAllLength(co, SliceCount(co), |co.outputs|);
  }

  /**
   * ... in the same order: the entry `k = nCpO*i + j` is `C[k]` or `-C[k]` as
   * zone `j` of output `i` asks, and a zero slice count would have raised.
   */
  lemma WeightsMatchCoefficients(co: Coefficients, W: seq<real>)
    requires co.grid.Some? && ToWeights(co) == Some(W)
    requires forall i :: 0 <= i < |co.outputs| ==> Emits(co.outputs[i])
    ensures |co.outputs| > 0 && co.nCpO > 0 ==> SliceCount(co) != 0
    ensures SliceCount(co) != 0 ==>
              forall i, j :: 0 <= i < |co.outputs| && 0 <= j < co.nCpO ==>
                Index(co, i, j) < |W| &&
                Index(co, i, j) < |co.C| &&
                W[Index(co, i, j)] == ZoneWeight(co, SliceCount(co), i, j)
  {
    var m := |co.outputs|;
    var nSa := SliceCount(co);
    assert WeightsUpTo(co, nSa, m) == Some(W);
    if nSa != 0 {
      forall i, j | 0 <= i < m && 0 <= j < co.nCpO
        ensures Index(co, i, j) < |W| && Index(co, i, j) < |co.C|
        ensures W[Index(co, i, j)] == ZoneWeight(co, nSa, i, j)
      {
        WeightsUpToEntry(co, nSa, m, i, j);
      }
    }
  }

  /** Outputs with another action contribute nothing: `W` has `nCpO` entries per emitting output. */
  lemma WeightsLength(co: Coefficients)
    requires co.grid.Some? && ToWeights(co).Some?
    ensures |ToWeights(co).value| == co.nCpO * EmittingCount(co.outputs)
  {
    WeightsUpToLength(co, SliceCount(co), |co.outputs|);
    assert co.outputs[..|co.outputs|] == co.outputs;
  }

  /** The IGNORE set gives zero weights, with or without a grid. */
  lemma {:induction false} IgnoredWeightsAreZero(outputs: seq<Action>, nG: nat, grid: Option<Grid>, m: nat)
    requires m <= |outputs|
    ensures var co := MakeCoefficients(outputs, nG, grid, Named(Ignore));
            grid.Some? ==> WeightsUpTo(co, SliceCount(co), m).Some? ==>
              forall k :: 0 <= k < |WeightsUpTo(co, SliceCount(co), m).value| ==>
                WeightsUpTo(co, SliceCount(co), m).value[k] == 0.0
  {
    var co := MakeCoefficients(outputs, nG, grid, Named(Ignore));
    if m > 0 && grid.Some? {
      IgnoredWeightsAreZero(outputs, nG, grid, m - 1);
    }
  }

  /**
   * The loops of `to_weights`: for each output `i` and zone `j`, append
   * `±C[nCpO*i + j]`; an index past the end of `C` or a zero slice count
   * raises.
   */
  method ToWeightsLoop(co: Coefficients) returns (w: Option<seq<real>>)
    ensures w == ToWeights(co)
  {
    if co.grid.None? {
      return Some(co.C);
    }
    var nSa := co.grid.value.nSa;
    assert ToWeights(co) == WeightsUpTo(co, nSa, |co.outputs|);
    var W: seq<real> := [];
    var i := 0;
    while i < |co.outputs|
      invariant 0 <= i <= |co.outputs|
      invariant WeightsUpTo(co, nSa, i) == Some(W)
    {
      var next := AppendBlock(co, nSa, i, W);
      if next.None? {
        RaisedStays(co, nSa, i + 1, |co.outputs|);
        return None;
      }
      W := next.value;
      i := i + 1;
    }
    return Some(W);
  }

  /**
   * The inner loop of `to_weights` for output `i`: an emitting output appends
   * its `nCpO` signed coefficients to `W`, another appends nothing.
   */
  method AppendBlock(co: Coefficients, nSa: int, i: nat, W: seq<real>) returns (r: Option<seq<real>>)
    requires i < |co.outputs|
    ensures Block(co, nSa, i).None? ==> r.None?
    ensures Block(co, nSa, i).Some? ==> r == Some(W + Block(co, nSa, i).value)
  {
    var action := co.outputs[i];
    if !Emits(action) {
      assert W + [] == W;
      return Some(W);
    }
    var out := W;
    ghost var part: seq<real> := [];
    var j := 0;
    while j < co.nCpO
      invariant 0 <= j <= co.nCpO
      invariant j > 0 ==> nSa != 0 && Index(co, i, j) <= |co.C|
      invariant out == W + part && |part| == j
      invariant forall jj :: 0 <= jj < j ==> part[jj] == ZoneWeight(co, nSa, i, jj)
    {
      var k := Index(co, i, j);
      if nSa == 0 || k >= |co.C| {
        assert Block(co, nSa, i).None?;
        return None;
      }
      out := out + [Signed(co.C[k], Flipped(action, j, nSa))];
      part := part + [ZoneWeight(co, nSa, i, j)];
      j := j + 1;
    }
    if co.nCpO > 0 {
      assert nSa != 0 && co.nCpO * i + co.nCpO <= |co.C|;
      assert Block(co, nSa, i).Some?;
      assert part == Block(co, nSa, i).value;
    } else {
      assert out == W + [];
    }
    return Some(out);
  }
}
