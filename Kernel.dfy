/**
 * The per-agent work of the `CUDA_step` kernel of engine.py in dimension 2,
 * run for one thread at a time: the fixed-agent copy, the zone indexing of
 * every visible neighbour, the presence histogram, the weighted sum of the
 * unnormalized presence inputs, the speed clamp after noise and the boundary
 * resolution of the new position. The launch runs one thread per agent over
 * an immutable previous state.
 */
module Kernel {

  import opened Wrappers
  import opened Enums
  import opened Boundary
  import opened Decode

  /** One row of `aparam` in dimension 2: speed limits, turn limit, noise amplitudes. */
  datatype AgentParam = AgentParam(vmin: real, vmax: real, damax: real, vnoise: real, anoise: real)

  /** The arena as the kernel reads it from the `geom` vector in dimension 2. */
  datatype Arena2 = Arena2(kind: ArenaKind, halfX: real, halfY: real, periodicX: bool, periodicY: bool)

  /**
   * The transcendental functions the kernel calls, supplied by the caller:
   * `rect(v, a)` is `cmath.rect`, `polar` is `cmath.polar`, `sliceFraction(z, a0)`
   * is the phase of `z` rotated by `-a0`, taken modulo 2π and divided by 2π,
   * `turn(damax, WS, outputs)` is the reorientation the output dispatch and its
   * atan/exp activation produce, and `bounce` is the circular wall reflection.
   */
  datatype Trig = Trig(
    rect: (real, real) -> Vec,
    polar: Vec -> Polar,
    sliceFraction: (Vec, real) -> real,
    turn: (real, real, seq<(real, real)>) -> real,
    bounce: CircularBounce)

  /** A phase fraction lies in [0, 1), and a zero-length vector is the origin. */
  ghost predicate ValidTrig(t: Trig) {
    && (forall z, a0 :: 0.0 <= t.sliceFraction(z, a0) < 1.0)
    && (forall a :: t.rect(0.0, a) == Vec(0.0, 0.0))
  }

  /** Positions and polar velocities of all agents: one of the two buffers. */
  datatype State = State(p: seq<Vec>, v: seq<Polar>)

  /** What every thread reads besides the agents' state. */
  datatype World = World(
    arena: Arena2,
    atype: seq<AgentKind>,
    group: seq<int>,
    aparam: seq<AgentParam>,
    gparam: seq<seq<real>>)

  /** A decoded row the zone grid can be built from: at least one angular slice. */
  predicate RowOk(rp: RowParams) {
    && rp.nR >= 1 && |rp.rS| == rp.nR - 1
    && rp.nSa >= 1
    && (PresenceTerms(rp.slots) > 0 ==> rp.nc <= |rp.weights|)
  }

  /** The group row of RIPO agent `i`, decoded. */
  function RowOf(w: World, i: nat): Option<RowParams>
    requires i < |w.group| && 0 <= w.group[i] < |w.gparam|
  {
    DecodeRow(w.gparam[w.group[i]], 2, |w.gparam|)
  }

  /** Table sizes agree with the number `n` of agents, and every RIPO row decodes. */
  predicate WellFormed(w: World, n: nat) {
    && |w.atype| == |w.group| == |w.aparam| == n
    && forall i :: 0 <= i < n && w.atype[i] == Ripo ==>
         0 <= w.group[i] < |w.gparam| && RowOf(w, i).Some? && RowOk(RowOf(w, i).value)
  }

  // --- Zone indexing ---------------------------------------------------------

  /** The radial zone at squared distance `d2`: the first radius it is closer than, else the outermost zone. */
  function RadialZone(d2: real, rS: seq<real>): (ri: nat)
    ensures ri <= |rS|
  {
    if rS == [] then 0
    else if Closer(d2, rS[0]) then 0
    else 1 + RadialZone(d2, rS[1..])
  }

  /** `RadialZone` is the first zone whose radius the distance is below, or the last one. */
  lemma {:induction false} RadialZoneIsFirst(d2: real, rS: seq<real>)
    ensures RadialZone(d2, rS) < |rS| ==> Closer(d2, rS[RadialZone(d2, rS)])
    ensures forall k :: 0 <= k < RadialZone(d2, rS) ==> !Closer(d2, rS[k])
  {
    if rS != [] && !Closer(d2, rS[0]) {
      RadialZoneIsFirst(d2, rS[1..]);
      forall k | 0 <= k < RadialZone(d2, rS)
        ensures !Closer(d2, rS[k])
      {
        if k > 0 {
          assert rS[k] == rS[1..][k - 1];
        }
      }
    }
  }

  /** Conversely, the first zone whose radius the distance is below is `RadialZone`. */
  lemma {:induction false} RadialZoneOfFirst(d2: real, rS: seq<real>, ri: nat)
    requires ri <= |rS|
    requires ri < |rS| ==> Closer(d2, rS[ri])
    requires forall k :: 0 <= k < ri ==> !Closer(d2, rS[k])
    ensures RadialZone(d2, rS) == ri
  {
    if ri > 0 {
      assert !Closer(d2, rS[0]);
      forall k | 0 <= k < ri - 1
        ensures !Closer(d2, rS[1..][k])
      {
        assert rS[1..][k] == rS[k + 1];
      }
      if ri - 1 < |rS| - 1 {
        assert rS[1..][ri - 1] == rS[ri];
      }
      RadialZoneOfFirst(d2, rS[1..], ri - 1);
    }
  }

  /**
   * The kernel's radial scan over the local array `rS`: `ri` takes every value
   * up to `nR - 1` and the scan stops at the first radius the distance is
   * below. The cell `rS[nR - 1]` the last iteration reads was never filled, and
   * whatever it holds the answer is `nR - 1` there.
   */
  method RadialIndex(d2: real, rS: array<real>, nR: int) returns (ri: int)
    requires 1 <= nR <= rS.Length
    ensures 0 <= ri < nR
    ensures ri == RadialZone(d2, rS[..nR - 1])
  {
    ri := 0;
    var k := 0;
    while k < nR
      invariant 0 <= k <= nR
      invariant ri == (if k == 0 then 0 else k - 1)
      invariant forall m :: 0 <= m < k ==> !Closer(d2, rS[m])
    {
      ri := k;
      if Closer(d2, rS[k]) {
        break;
      }
      k := k + 1;
    }
    RadialZoneOfFirst(d2, rS[..nR - 1], ri);
  }

  /** `int(fraction * nSa)`: the angular slice of a phase fraction in [0, 1). */
  function AngularIndex(fraction: real, nSa: int): (ai: int)
    requires 0.0 <= fraction < 1.0 && nSa >= 1
    ensures 0 <= ai < nSa
  {
    assert fraction * nSa as real < nSa as real by {
      assert (1.0 - fraction) * nSa as real > 0.0;
    }
    (fraction * nSa as real).Floor
  }

  /** The flat index `ri * nSa + ai` of a zone of the grid is a cell of the grid. */
  lemma FlatIndexBound(ri: int, ai: int, nR: int, nSa: int)
    requires 0 <= ri < nR && 0 <= ai < nSa
    ensures 0 <= ri * nSa + ai < nR * nSa
  {
    assert ri * nSa >= 0;
    assert (ri + 1) * nSa <= nR * nSa;
  }

  /**
   * The zone of agent `j` as agent `i` perceives it: none for itself or for an
   * agent beyond the cutoff, else its flat index `ri * nSa + ai`.
   */
  function PairZone(arena: Arena2, s: State, rp: RowParams, trig: Trig, i: nat, j: nat): (z: Option<int>)
    requires |s.p| == |s.v| && i < |s.p| && j < |s.p|
    requires RowOk(rp) && ValidTrig(trig)
    ensures z.Some? ==> 0 <= z.value < rp.nR * rp.nSa
    ensures z.None? <==> i == j || !Relative2D(s.p[i], s.v[i].a, s.p[j], s.v[j].a, rp.rmax, arena.kind,
                                             arena.halfX, arena.halfY, arena.periodicX, arena.periodicY).visible
  {
    if i == j then None
    else
      var r := Relative2D(s.p[i], s.v[i].a, s.p[j], s.v[j].a, rp.rmax, arena.kind,
                          arena.halfX, arena.halfY, arena.periodicX, arena.periodicY);
      if !r.visible then None
      else
        var ri := RadialZone(Norm2(r.offset), rp.rS);
        var ai := AngularIndex(trig.sliceFraction(r.offset, s.v[i].a), rp.nSa);
        FlatIndexBound(ri, ai, rp.nR, rp.nSa);
        Some(ri * rp.nSa + ai)
  }

  /** The zones of all agents as agent `i` perceives them. */
  function Zones(arena: Arena2, s: State, rp: RowParams, trig: Trig, i: nat): (zs: seq<Option<int>>)
    requires |s.p| == |s.v| && i < |s.p|
    requires RowOk(rp) && ValidTrig(trig)
    ensures |zs| == |s.p|
    ensures forall j :: 0 <= j < |zs| ==> zs[j] == PairZone(arena, s, rp, trig, i, j)
  {
    seq(|s.p|, j requires 0 <= j < |s.p| => PairZone(arena, s, rp, trig, i, j))
  }

  // --- Presence histogram ----------------------------------------------------

  /** How many of `zones` fall in cell `c`. */
  function CellCount(zones: seq<Option<int>>, c: int): nat {
    if zones == [] then 0
    else CellCount(zones[..|zones| - 1], c) + (if zones[|zones| - 1] == Some(c) then 1 else 0)
  }

  /** How many of `zones` are visible at all. */
  function VisibleCount(zones: seq<Option<int>>): nat {
    if zones == [] then 0
    else VisibleCount(zones[..|zones| - 1]) + (if zones[|zones| - 1].Some? then 1 else 0)
  }

  /** The presence histogram `i_pres` over `size` cells. */
  function Histogram(zones: seq<Option<int>>, size: nat): (h: seq<int>)
    ensures |h| == size
    // a cell is non-zero exactly when some agent lies in that zone, and counts at most every agent
    ensures forall c :: 0 <= c < size ==> 0 <= h[c] <= |zones| && (h[c] > 0 <==> Some(c) in zones)
  {
    CellCounts(zones);
    seq(size, c => CellCount(zones, c))
  }

  lemma {:induction false} CellCounts(zones: seq<Option<int>>)
    ensures forall c :: CellCount(zones, c) <= |zones| && (CellCount(zones, c) > 0 <==> Some(c) in zones)
  {
    if zones != [] {
      var init := zones[..|zones| - 1];
      CellCounts(init);
      assert zones == init + [zones[|zones| - 1]];
    }
  }

  /**
   * `i_pres` AS WRITTEN: a `cuda.local.array`, whose contents are whatever
   * the thread's local memory held (`start`), to which each visible
   * neighbour adds 1.
   */
  function HistogramAsWritten(start: seq<int>, zones: seq<Option<int>>): (h: seq<int>)
    ensures |h| == |start|
  {
    seq(|start|, c requires 0 <= c < |start| => start[c] + CellCount(zones, c))
  }

  /**
   * The histogram as written is the presence histogram exactly when the
   * array happened to hold zeros: a leftover 1 and no neighbour at all
   * already give a count of 1.
   */
  lemma HistogramAsWrittenNeedsZeros(start: seq<int>, zones: seq<Option<int>>)
    ensures HistogramAsWritten(start, zones) == Histogram(zones, |start|)
            <==> forall c :: 0 <= c < |start| ==> start[c] == 0
    ensures HistogramAsWritten([1], []) == [1] && Histogram([], 1) == [0]
  {
    var h, g := HistogramAsWritten(start, zones), Histogram(zones, |start|);
    if h == g {
      forall c | 0 <= c < |start|
        ensures start[c] == 0
      {
        assert h[c] == g[c];
      }
    }
    assert CellCount([], 0) == 0;
  }

  function Sum(s: seq<int>): int {
    if s == [] then 0 else Sum(s[..|s| - 1]) + s[|s| - 1]
  }

  lemma {:induction false} SumZeros(n: nat)
    ensures Sum(seq(n, _ => 0)) == 0
  {
    if n > 0 {
      assert seq(n, _ => 0)[..n - 1] == seq(n - 1, _ => 0);
      SumZeros(n - 1);
    }
  }

  /** Adding one to a single cell adds one to the sum. */
  lemma {:induction false} SumBump(s: seq<int>, t: seq<int>, c: nat)
    requires |s| == |t| && c < |s|
    requires t[c] == s[c] + 1
    requires forall k :: 0 <= k < |s| && k != c ==> t[k] == s[k]
    ensures Sum(t) == Sum(s) + 1
  {
    var n := |s|;
    if c == n - 1 {
      assert t[..n - 1] == s[..n - 1];
    } else {
      SumBump(s[..n - 1], t[..n - 1], c);
    }
  }

  /** Each visible agent increments exactly one cell: the cells add up to the visible agents. */
  lemma {:induction false} HistogramTotal(zones: seq<Option<int>>, size: nat)
    requires forall k :: 0 <= k < |zones| && zones[k].Some? ==> 0 <= zones[k].value < size
    ensures Sum(Histogram(zones, size)) == VisibleCount(zones)
  {
    if zones == [] {
      assert Histogram(zones, size) == seq(size, _ => 0);
      SumZeros(size);
    } else {
      var init := zones[..|zones| - 1];
      HistogramTotal(init, size);
      var last := zones[|zones| - 1];
      if last.Some? {
        SumBump(Histogram(init, size), Histogram(zones, size), last.value);
      } else {
        assert Histogram(init, size) == Histogram(zones, size);
      }
    }
  }

  /** Without a cutoff every other agent is visible. */
  lemma {:induction false} AllOthersVisible(arena: Arena2, s: State, rp: RowParams, trig: Trig, i: nat, m: nat)
    requires |s.p| == |s.v| && i < |s.p| && m <= |s.p|
    requires RowOk(rp) && ValidTrig(trig) && rp.rmax.None?
    ensures VisibleCount(Zones(arena, s, rp, trig, i)[..m]) == if i < m then m - 1 else m
  {
    if m > 0 {
      var zs := Zones(arena, s, rp, trig, i);
      assert zs[..m][..m - 1] == zs[..m - 1];
      AllOthersVisible(arena, s, rp, trig, i, m - 1);
    }
  }

  /** With no cutoff the presence histogram of agent `i` counts the `N - 1` other agents. */
  lemma HistogramCountsOthers(arena: Arena2, s: State, rp: RowParams, trig: Trig, i: nat, size: nat)
    requires |s.p| == |s.v| && i < |s.p|
    requires RowOk(rp) && ValidTrig(trig) && rp.rmax.None? && rp.nR * rp.nSa <= size
    ensures Sum(Histogram(Zones(arena, s, rp, trig, i), size)) == |s.p| - 1
  {
    var zs := Zones(arena, s, rp, trig, i);
    AllOthersVisible(arena, s, rp, trig, i, |s.p|);
    assert zs[..|s.p|] == zs;
    HistogramTotal(zs, size);
  }

  /**
   * The perception loop of thread `i`: every other agent within reach adds
   * one to the cell of its zone.
   */
  method PresenceHistogram(arena: Arena2, p0: array<Vec>, v0: array<Polar>, rp: RowParams, rS: array<real>,
                           trig: Trig, i: nat, size: nat) returns (hist: array<int>)
    requires p0.Length == v0.Length && i < p0.Length
    requires RowOk(rp) && ValidTrig(trig) && rp.nR * rp.nSa <= size
    requires rp.nR <= rS.Length && rS[..rp.nR - 1] == rp.rS
    ensures fresh(hist) && hist.Length == size
    ensures hist[..] == Histogram(Zones(arena, State(p0[..], v0[..]), rp, trig, i), size)
  {
    var s := State(p0[..], v0[..]);
    ghost var zones := Zones(arena, s, rp, trig, i);
    hist := new int[size](_ => 0);
    var j := 0;
    while j < p0.Length
      invariant 0 <= j <= p0.Length
      invariant forall c :: 0 <= c < size ==> hist[c] == CellCount(zones[..j], c)
    {
      var z := ZoneOf(arena, p0, v0, rp, rS, trig, i, j);
      assert z == zones[j];
      if z.Some? {
        hist[z.value] := hist[z.value] + 1;
      }
      forall c | 0 <= c < size
        ensures hist[c] == CellCount(zones[..j + 1], c)
      {
        CellCountStep(zones, j, c);
      }
      j := j + 1;
    }
    assert zones[..p0.Length] == zones;
  }

  /** The body of the perception loop for agent `j`: its zone as seen by agent `i`, if any. */
  method ZoneOf(arena: Arena2, p0: array<Vec>, v0: array<Polar>, rp: RowParams, rS: array<real>,
                trig: Trig, i: nat, j: nat) returns (z: Option<int>)
    requires p0.Length == v0.Length && i < p0.Length && j < p0.Length
    requires RowOk(rp) && ValidTrig(trig)
    requires rp.nR <= rS.Length && rS[..rp.nR - 1] == rp.rS
    ensures z == PairZone(arena, State(p0[..], v0[..]), rp, trig, i, j)
  {
    z := None;
    if i != j {
      var r := Relative2D(p0[i], v0[i].a, p0[j], v0[j].a, rp.rmax, arena.kind,
                          arena.halfX, arena.halfY, arena.periodicX, arena.periodicY);
      if r.visible {
        var ri := RadialIndex(Norm2(r.offset), rS, rp.nR);
        var ai := AngularIndex(trig.sliceFraction(r.offset, v0[i].a), rp.nSa);
        FlatIndexBound(ri, ai, rp.nR, rp.nSa);
        z := Some(ri * rp.nSa + ai);
      }
    }
  }

  /** Counting one more zone. */
  lemma CellCountStep(zones: seq<Option<int>>, j: nat, c: int)
    requires j < |zones|
    ensures CellCount(zones[..j + 1], c) == CellCount(zones[..j], c) + (if zones[j] == Some(c) then 1 else 0)
  {
    assert zones[..j + 1][..j] == zones[..j];
  }

  // --- Weighted sum ----------------------------------------------------------

  /** The presence records with the `NONE` normalization: the only ones that add to `WS`. */
  function PresenceTerms(slots: seq<InputSlot>): nat {
    if slots == [] then 0
    else PresenceTerms(slots[..|slots| - 1]) + (if slots[|slots| - 1] == PresenceSlot(0.0) then 1 else 0)
  }

  /** Σ_{ci < n} h[ci] * w[ci]. */
  function Dot(h: seq<int>, w: seq<real>, n: nat): real
    requires n <= |h| && n <= |w|
  {
    if n == 0 then 0.0 else Dot(h, w, n - 1) + h[n - 1] as real * w[n - 1]
  }

  /**
   * `WS`: every unnormalized presence record adds the histogram weighted by
   * the first `nc` weights; other records add nothing.
   */
  function WeightedSum(slots: seq<InputSlot>, hist: seq<int>, weights: seq<real>, nc: nat): (ws: real)
    requires nc <= |hist|
    requires PresenceTerms(slots) > 0 ==> nc <= |weights|
    // no neighbour in the first `nc` cells, no turn signal
    ensures (forall c :: 0 <= c < nc ==> hist[c] == 0) ==> ws == 0.0
    // non-negative coefficients never give a negative signal
    ensures nc <= |weights| && (forall c :: 0 <= c < nc ==> hist[c] >= 0 && weights[c] >= 0.0) ==> ws >= 0.0
  {
    if PresenceTerms(slots) == 0 then 0.0
    else
      DotSigns(hist, weights, nc);
      PresenceTerms(slots) as real * Dot(hist, weights, nc)
  }

  /** A dot product over empty cells is zero, and over non-negative terms non-negative. */
  lemma {:induction false} DotSigns(h: seq<int>, w: seq<real>, n: nat)
    requires n <= |h| && n <= |w|
    ensures (forall c :: 0 <= c < n ==> h[c] == 0) ==> Dot(h, w, n) == 0.0
    ensures (forall c :: 0 <= c < n ==> h[c] >= 0 && w[c] >= 0.0) ==> Dot(h, w, n) >= 0.0
  {
    if n > 0 {
      DotSigns(h, w, n - 1);
      if h[n - 1] >= 0 && w[n - 1] >= 0.0 {
        assert h[n - 1] as real * w[n - 1] >= 0.0;
      }
    }
  }

  /** With a single unnormalized presence record `WS` is Σ i_pres[ci] * weights[ci]. */
  lemma {:induction false} SinglePresenceSum(slots: seq<InputSlot>, hist: seq<int>, weights: seq<real>, nc: nat)
    requires nc <= |hist| && nc <= |weights|
    requires |slots| == 1 && slots[0] == PresenceSlot(0.0)
    ensures WeightedSum(slots, hist, weights, nc) == Dot(hist, weights, nc)
  {
    assert slots[..0] == [];
    assert PresenceTerms(slots) == 1;
  }

  /** A histogram of zeros gives a weighted sum of zero: no neighbour, no turn signal. */
  lemma {:induction false} EmptyHistogramSum(slots: seq<InputSlot>, size: nat, weights: seq<real>, nc: nat)
    requires nc <= size
    requires PresenceTerms(slots) > 0 ==> nc <= |weights|
    ensures WeightedSum(slots, seq(size, _ => 0), weights, nc) == 0.0
  {
    if PresenceTerms(slots) > 0 {
      DotZeros(size, weights, nc);
    }
  }

  lemma {:induction false} DotZeros(size: nat, weights: seq<real>, n: nat)
    requires n <= size && n <= |weights|
    ensures Dot(seq(size, _ => 0), weights, n) == 0.0
  {
    if n > 0 {
      DotZeros(size, weights, n - 1);
    }
  }

  /** The inner loop: `WS += i_pres[ci] * weights[ci]` for `ci < nc`. */
  method AddDot(ws0: real, hist: array<int>, weights: array<real>, nc: nat) returns (ws: real)
    requires nc <= hist.Length && nc <= weights.Length
    ensures ws == ws0 + Dot(hist[..], weights[..], nc)
  {
    ws := ws0;
    var ci := 0;
    while ci < nc
      invariant 0 <= ci <= nc
      invariant ws == ws0 + Dot(hist[..], weights[..], ci)
    {
      ws := ws + hist[ci] as real * weights[ci];
      ci := ci + 1;
    }
  }

  lemma AddOneTerm(t: nat, d: real)
    ensures (t + 1) as real * d == t as real * d + d
  {
  }

  /** The `WS` loop over the input records. */
  method WeightedSumLoop(slots: seq<InputSlot>, hist: array<int>, weights: array<real>, nc: nat) returns (ws: real)
    requires nc <= hist.Length
    requires PresenceTerms(slots) > 0 ==> nc <= weights.Length
    ensures ws == WeightedSum(slots, hist[..], weights[..], nc)
  {
    ghost var d := if PresenceTerms(slots) > 0 then Dot(hist[..], weights[..], nc) else 0.0;
    ws := 0.0;
    var iS := 0;
    while iS < |slots|
      invariant 0 <= iS <= |slots|
      invariant PresenceTerms(slots[..iS]) <= PresenceTerms(slots)
      invariant ws == PresenceTerms(slots[..iS]) as real * d
    {
      PresenceTermsStep(slots, iS);
      PresenceTermsPrefix(slots, iS + 1);
      if slots[iS] == PresenceSlot(0.0) {
        ws := AddDot(ws, hist, weights, nc);
        AddOneTerm(PresenceTerms(slots[..iS]), d);
      }
      iS := iS + 1;
    }
    assert slots[..|slots|] == slots;
  }

  /** Counting one more record. */
  lemma PresenceTermsStep(slots: seq<InputSlot>, m: nat)
    requires m < |slots|
    ensures PresenceTerms(slots[..m + 1]) == PresenceTerms(slots[..m]) + if slots[m] == PresenceSlot(0.0) then 1 else 0
  {
    assert slots[..m + 1][..m] == slots[..m];
  }

  lemma {:induction false} PresenceTermsPrefix(slots: seq<InputSlot>, m: nat)
    requires m <= |slots|
    ensures PresenceTerms(slots[..m]) <= PresenceTerms(slots)
    decreases |slots| - m
  {
    if m < |slots| {
      assert slots[..m + 1][..m] == slots[..m];
      PresenceTermsPrefix(slots, m + 1);
    } else {
      assert slots[..m] == slots;
    }
  }

  // --- Integration -------------------------------------------------------------

  /**
   * The velocity update: the activation's `dv` and `da`, then the speed noise
   * with the clamp into [vmin, vmax], then the heading noise. Each noise term
   * is applied only when its amplitude is non-zero; `draw` holds the two
   * standard normal draws.
   */
  function Integrate(prm: AgentParam, vel: Polar, dv: real, da: real, draw: (real, real)): (r: Polar)
    // no speed noise: no clamp either, the speed may leave [vmin, vmax]
    ensures prm.vnoise == 0.0 ==> r.v == vel.v + dv
    // speed noise: the speed ends up in [vmin, vmax], untouched when already inside
    ensures prm.vnoise != 0.0 && prm.vmin <= prm.vmax ==> prm.vmin <= r.v <= prm.vmax
    ensures prm.vnoise != 0.0 && prm.vmin <= vel.v + dv + prm.vnoise * draw.0 <= prm.vmax ==>
              r.v == vel.v + dv + prm.vnoise * draw.0
    ensures prm.vnoise != 0.0 && vel.v + dv + prm.vnoise * draw.0 < prm.vmin ==> r.v == prm.vmin
    ensures r.a == vel.a + da + (if prm.anoise != 0.0 then prm.anoise * draw.1 else 0.0)
  {
    var v := vel.v + dv;
    var a := vel.a + da;
    var v' := if prm.vnoise != 0.0 then Clamp(v + prm.vnoise * draw.0, prm.vmin, prm.vmax) else v;
    var a' := if prm.anoise != 0.0 then a + prm.anoise * draw.1 else a;
    Polar(v', a')
  }

  /** `if v < vmin: v = vmin elif v > vmax: v = vmax`. */
  function Clamp(v: real, lo: real, hi: real): (r: real)
    ensures lo <= hi ==> lo <= r <= hi
    ensures lo <= v <= hi ==> r == v
    ensures v < lo ==> r == lo
    ensures lo <= v && hi < v ==> r == hi
  {
    if v < lo then lo else if v > hi then hi else v
  }

  // --- One thread ----------------------------------------------------------------

  /** The histogram size the model allocates: every zone cell and every coefficient. */
  function HistSize(rp: RowParams): nat
    requires RowOk(rp)
  {
    FlatIndexBound(0, 0, rp.nR, rp.nSa);
    if rp.nR * rp.nSa >= rp.nc then rp.nR * rp.nSa else rp.nc
  }

  /** Some record makes the kernel run the perception loop (presence or orientation). */
  predicate HasAgentInput(slots: seq<InputSlot>) {
    exists k :: 0 <= k < |slots| && !slots[k].OtherSlot?
  }

  /** The histogram thread `i` ends up with. */
  function Presence(arena: Arena2, s: State, rp: RowParams, trig: Trig, i: nat): (h: seq<int>)
    requires |s.p| == |s.v| && i < |s.p|
    requires RowOk(rp) && ValidTrig(trig)
    ensures |h| == HistSize(rp)
    // the cells count the visible neighbours once each, or nothing without an agent-dependent input
    ensures HasAgentInput(rp.slots) ==> Sum(h) == VisibleCount(Zones(arena, s, rp, trig, i))
    ensures !HasAgentInput(rp.slots) ==> Sum(h) == 0
  {
    if HasAgentInput(rp.slots) then
      FlatIndexBound(0, 0, rp.nR, rp.nSa);
      HistogramTotal(Zones(arena, s, rp, trig, i), HistSize(rp));
      Histogram(Zones(arena, s, rp, trig, i), HistSize(rp))
    else
      SumZeros(HistSize(rp));
      seq(HistSize(rp), _ => 0)
  }

  /** The new position and velocity of RIPO agent `i`. */
  function RipoStep(w: World, s: State, trig: Trig, draw: (real, real), i: nat): (r: (Vec, Polar))
    requires WellFormed(w, |s.p|) && |s.p| == |s.v| && i < |s.p| && w.atype[i] == Ripo
    requires ValidTrig(trig)
    // in a circular arena the wall keeps the speed: without speed noise it is the old speed ...
    ensures w.arena.kind == Circular && w.aparam[i].vnoise == 0.0 ==> r.1.v == s.v[i].v
    // ... and with speed noise it lies in [vmin, vmax]
    ensures w.arena.kind == Circular && w.aparam[i].vnoise != 0.0 && w.aparam[i].vmin <= w.aparam[i].vmax ==>
              w.aparam[i].vmin <= r.1.v <= w.aparam[i].vmax
  {
    var rp := RowOf(w, i).value;
    var ws := WeightedSum(rp.slots, Presence(w.arena, s, rp, trig, i), rp.weights, rp.nc);
    Move(w.arena, w.aparam[i], s.p[i], s.v[i], trig.turn(w.aparam[i].damax, ws, rp.outputs), trig, draw)
  }

  /**
   * The motion part of a RIPO thread: turn by `da` (the speed change `dv`
   * is 0), add the noise, step by `cmath.rect` of the new velocity and
   * resolve the boundary.
   */
  function Move(arena: Arena2, prm: AgentParam, z0: Vec, v: Polar, da: real, trig: Trig, draw: (real, real)): (r: (Vec, Polar))
    ensures arena.kind == Circular && prm.vnoise == 0.0 ==> r.1.v == v.v
    ensures arena.kind == Circular && prm.vnoise != 0.0 && prm.vmin <= prm.vmax ==> prm.vmin <= r.1.v <= prm.vmax
  {
    var nv := Integrate(prm, v, 0.0, da, draw);
    var zv := trig.rect(nv.v, nv.a);
    var z1 := Vec(z0.x + zv.x, z0.y + zv.y);
    var l := Assign2D(z0, z1, nv.v, nv.a, zv, arena.kind, arena.halfX, arena.halfY,
                      arena.periodicX, arena.periodicY, trig.bounce);
    (l.pos, if l.Kept? then l.polar else trig.polar(l.cart))
  }


  /**
   * What thread `i` writes: a fixed agent copies its position and leaves the
   * velocity slot of the write buffer as it was; a RIPO agent moves.
   */
  function AgentStep(w: World, s: State, old1: seq<Polar>, trig: Trig, draw: (real, real), i: nat): (r: (Vec, Polar))
    requires WellFormed(w, |s.p|) && |s.p| == |s.v| == |old1| && i < |s.p|
    requires ValidTrig(trig)
    // a fixed agent neither moves nor touches its velocity slot
    ensures w.atype[i] == Fixed ==> r.0 == s.p[i] && r.1 == old1[i]
    // a RIPO agent in a circular arena without speed noise keeps its speed
    ensures w.atype[i] == Ripo && w.arena.kind == Circular && w.aparam[i].vnoise == 0.0 ==> r.1.v == s.v[i].v
  {
    match w.atype[i]
    case Fixed => (s.p[i], old1[i])
    case Ripo => RipoStep(w, s, trig, draw, i)
  }

  /** A RIPO agent at rest and without speed noise stays where it is, at rest. */
  lemma RestingAgentStays(w: World, s: State, old1: seq<Polar>, trig: Trig, draw: (real, real), i: nat)
    requires WellFormed(w, |s.p|) && |s.p| == |s.v| == |old1| && i < |s.p|
    requires ValidTrig(trig)
    requires w.atype[i] == Ripo ==> s.v[i].v == 0.0 && w.aparam[i].vnoise == 0.0
    ensures AgentStep(w, s, old1, trig, draw, i).0 == s.p[i]
    ensures w.atype[i] == Ripo ==> AgentStep(w, s, old1, trig, draw, i).1.v == 0.0
  {
    if w.atype[i] == Ripo {
      var rp := RowOf(w, i).value;
      var ws := WeightedSum(rp.slots, Presence(w.arena, s, rp, trig, i), rp.weights, rp.nc);
      var prm := w.aparam[i];
      var vel := Integrate(prm, s.v[i], 0.0, trig.turn(prm.damax, ws, rp.outputs), draw);
      assert vel.v == 0.0;
      assert trig.rect(vel.v, vel.a) == Vec(0.0, 0.0);
    }
  }

  /** The same for a whole kernel launch: the resting agent's row of the written state. */
  lemma RestingAgentNext(w: World, s: State, old1: State, trig: Trig, draws: seq<(real, real)>, i: nat)
    requires WellFormed(w, |s.p|) && |s.p| == |s.v| == |old1.p| == |old1.v| == |draws| && i < |s.p|
    requires ValidTrig(trig)
    requires w.atype[i] == Ripo ==> s.v[i].v == 0.0 && w.aparam[i].vnoise == 0.0
    ensures Next(w, s, old1, trig, draws).p[i] == s.p[i]
    ensures w.atype[i] == Ripo ==> Next(w, s, old1, trig, draws).v[i].v == 0.0
  {
    RestingAgentStays(w, s, old1.v, trig, draws[i], i);
  }

  /** Fills the local radii array `rS` of size `mR` from the row, as the kernel's first loop does. */
  method LoadRadii(row: seq<real>, dim: nat, nR: int, mR: nat) returns (rS: array<real>)
    requires 1 <= nR <= mR && dim + nR - 1 <= |row|
    ensures fresh(rS) && rS.Length == mR
    ensures rS[..nR - 1] == row[dim .. dim + nR - 1]
  {
    rS := new real[mR](_ => 0.0);
    var ri := 0;
    while ri < nR - 1
      invariant 0 <= ri <= nR - 1
      invariant forall m :: 0 <= m < ri ==> rS[m] == row[dim + m]
    {
      rS[ri] := row[dim + ri];
      ri := ri + 1;
    }
  }

  /** The rest of an input scan with the slots and weights gathered so far in front. */
  function Prepend(slots: seq<InputSlot>, weights: seq<real>, rest: Option<(seq<InputSlot>, seq<real>, nat)>)
    : Option<(seq<InputSlot>, seq<real>, nat)>
  {
    match rest
    case None => None
    case Some(r) => Some((slots + r.0, weights + r.1, r.2))
  }

  /**
   * The kernel's input scan: a presence or orientation record copies its `nc`
   * coefficients one by one into the local `weights` array of size `mI`, at
   * `nIn`, and moves `k` past them; another code leaves `k` where it is.
   */
  method ScanWeights(row: seq<real>, k0: nat, count: nat, nc: nat, mI: nat)
    returns (weights: array<real>, slots: seq<InputSlot>, nIn: nat, k: nat)
    requires ScanInputs(row, k0, count, nc).Some?
    requires |ScanInputs(row, k0, count, nc).value.1| <= mI
    ensures fresh(weights) && weights.Length == mI && nIn <= mI
    ensures ScanInputs(row, k0, count, nc) == Some((slots, weights[..nIn], k))
  {
    ghost var whole := ScanInputs(row, k0, count, nc);
    weights := new real[mI](_ => 0.0);
    slots := [];
    nIn := 0;
    k := k0;
    var iS := 0;
    assert weights[..0] == [];
    assert [] + whole.value.0 == whole.value.0 && [] + whole.value.1 == whole.value.1;
    while iS < count
      invariant 0 <= iS <= count && nIn <= mI
      invariant ScanInputs(row, k, count - iS, nc).Some?
      invariant whole == Prepend(slots, weights[..nIn], ScanInputs(row, k, count - iS, nc))
    {
      ghost var rest := ScanInputs(row, k, count - iS, nc).value;
      if row[k] == 0.0 || row[k] == 1.0 {
        ghost var next := ScanInputs(row, k + nc + 2, count - iS - 1, nc).value;
        assert rest.1 == row[k + 2 .. k + 2 + nc] + next.1;
        assert |whole.value.1| == nIn + nc + |next.1|;
        var slot := if row[k] == 0.0 then PresenceSlot(row[k + 1]) else OrientationSlot;
        ghost var w0 := weights[..nIn];
        CopyCoefficients(row, k + 2, nc, weights, nIn);
        nIn := nIn + nc;
        PrependStep(slots, w0, [slot], row[k + 2 .. k + 2 + nc], next);
        slots := slots + [slot];
        k := k + nc + 2;
      } else {
        ghost var next := ScanInputs(row, k, count - iS - 1, nc).value;
        PrependStep(slots, weights[..nIn], [OtherSlot(row[k])], [], next);
        slots := slots + [OtherSlot(row[k])];
      }
      iS := iS + 1;
    }
    assert slots + [] == slots && weights[..nIn] + [] == weights[..nIn];
  }

  /** The inner loop of the scan: `weights[nIn + ci] = param[k + ci]` for every coefficient. */
  method CopyCoefficients(row: seq<real>, k: nat, nc: nat, weights: array<real>, nIn: nat)
    requires k + nc <= |row| && nIn + nc <= weights.Length
    modifies weights
    ensures weights[..nIn + nc] == old(weights[..nIn]) + row[k .. k + nc]
    ensures weights[nIn + nc..] == old(weights[nIn + nc..])
  {
    ghost var w0 := weights[..nIn];
    var ci := 0;
    while ci < nc
      invariant 0 <= ci <= nc
      invariant weights[..nIn + ci] == w0 + row[k .. k + ci]
      invariant weights[nIn + nc..] == old(weights[nIn + nc..])
    {
      weights[nIn + ci] := row[k + ci];
      assert row[k .. k + ci + 1] == row[k .. k + ci] + [row[k + ci]];
      assert weights[..nIn + ci + 1] == weights[..nIn + ci] + [row[k + ci]];
      ci := ci + 1;
    }
  }

  lemma PrependStep(slots: seq<InputSlot>, weights: seq<real>, s1: seq<InputSlot>, w1: seq<real>,
                    r: (seq<InputSlot>, seq<real>, nat))
    ensures Prepend(slots, weights, Some((s1 + r.0, w1 + r.1, r.2))) == Prepend(slots + s1, weights + w1, Some(r))
  {
    assert slots + (s1 + r.0) == (slots + s1) + r.0;
    assert weights + (w1 + r.1) == (weights + w1) + r.1;
  }

  /** The work of a RIPO thread `i`, up to the values it writes. */
  method RipoThread(w: World, p0: array<Vec>, v0: array<Polar>, trig: Trig, draw: (real, real), i: nat)
    returns (pos: Vec, vel: Polar)
    requires p0.Length == v0.Length && i < p0.Length
    requires WellFormed(w, p0.Length) && ValidTrig(trig) && w.atype[i] == Ripo
    ensures (pos, vel) == RipoStep(w, State(p0[..], v0[..]), trig, draw, i)
  {
    var rp := RowOf(w, i).value;
    var ws := RipoWeightedSum(w.arena, w.gparam[w.group[i]], |w.gparam|, p0, v0, rp, trig, i);
    var r := Move(w.arena, w.aparam[i], p0[i], v0[i], trig.turn(w.aparam[i].damax, ws, rp.outputs), trig, draw);
    pos, vel := r.0, r.1;
  }

  /** The perception block of a RIPO thread: the histogram, left at zero without an agent input. */
  method Perception(arena: Arena2, p0: array<Vec>, v0: array<Polar>, rp: RowParams, rS: array<real>,
                    trig: Trig, i: nat) returns (hist: array<int>)
    requires p0.Length == v0.Length && i < p0.Length
    requires RowOk(rp) && ValidTrig(trig)
    requires rp.nR <= rS.Length && rS[..rp.nR - 1] == rp.rS
    ensures fresh(hist)
    ensures hist[..] == Presence(arena, State(p0[..], v0[..]), rp, trig, i)
  {
    var size := HistSize(rp);
    if HasAgentInput(rp.slots) {
      hist := PresenceHistogram(arena, p0, v0, rp, rS, trig, i, size);
    } else {
      hist := new int[size](_ => 0);
      assert hist[..] == seq(size, _ => 0);
    }
  }

  /** Perception and weighted sum of a RIPO thread: `WS`. */
  method RipoWeightedSum(arena: Arena2, row: seq<real>, nG: nat, p0: array<Vec>, v0: array<Polar>,
                         rp: RowParams, trig: Trig, i: nat)
    returns (ws: real)
    requires p0.Length == v0.Length && i < p0.Length
    requires DecodeRow(row, 2, nG) == Some(rp) && RowOk(rp) && ValidTrig(trig)
    ensures ws == WeightedSum(rp.slots, Presence(arena, State(p0[..], v0[..]), rp, trig, i), rp.weights, rp.nc)
  {
    var rS := LoadRadii(row, 2, rp.nR, rp.nR);
    assert rS[..rp.nR - 1] == rp.rS;
    var hist := Perception(arena, p0, v0, rp, rS, trig, i);
    DecodeScan(row, 2, nG, rp);
    var weights, slots, nIn, kOref := ScanWeights(row, rp.nR + 4, rp.nIs, rp.nc, |rp.weights|);
    assert weights[..] == weights[..nIn] == rp.weights;
    ws := WeightedSumLoop(rp.slots, hist, weights, rp.nc);
  }

  /**
   * Thread `i` of the kernel: reads the previous buffers `p0`, `v0`, writes
   * slot `i` of `p1`, `v1` and nothing else.
   */
  method AgentThread(w: World, p0: array<Vec>, v0: array<Polar>, p1: array<Vec>, v1: array<Polar>,
                     trig: Trig, draw: (real, real), i: nat)
    requires p0.Length == v0.Length == p1.Length == v1.Length && i < p0.Length
    requires p0 != p1 && v0 != v1
    requires WellFormed(w, p0.Length) && ValidTrig(trig)
    modifies p1, v1
    ensures p1[..] == old(p1[..])[i := AgentStep(w, State(p0[..], v0[..]), old(v1[..]), trig, draw, i).0]
    ensures v1[..] == old(v1[..])[i := AgentStep(w, State(p0[..], v0[..]), old(v1[..]), trig, draw, i).1]
  {
    if w.atype[i] == Fixed {
      p1[i] := p0[i];
    } else {
      var pos, vel := RipoThread(w, p0, v0, trig, draw, i);
      p1[i] := pos;
      v1[i] := vel;
    }
  }

  // --- The launch ----------------------------------------------------------------

  /** The state every thread together writes into the buffers `old1` held. */
  function Next(w: World, s: State, old1: State, trig: Trig, draws: seq<(real, real)>): (r: State)
    requires WellFormed(w, |s.p|) && |s.p| == |s.v| == |old1.p| == |old1.v| == |draws|
    requires ValidTrig(trig)
    ensures |r.p| == |r.v| == |s.p|
    ensures forall i :: 0 <= i < |s.p| ==> (r.p[i], r.v[i]) == AgentStep(w, s, old1.v, trig, draws[i], i)
  {
    State(seq(|s.p|, i requires 0 <= i < |s.p| => AgentStep(w, s, old1.v, trig, draws[i], i).0),
          seq(|s.p|, i requires 0 <= i < |s.p| => AgentStep(w, s, old1.v, trig, draws[i], i).1))
  }

  /** `gridDim = (N + blockDim - 1) // blockDim` with 32 threads per block. */
  function GridDim(n: nat): (g: nat)
    ensures g * 32 >= n
    ensures n > 0 ==> (g - 1) * 32 < n
    ensures n == 0 ==> g == 0
  {
    (n + 31) / 32
  }

  /**
   * `CUDA_step[gridDim, blockDim](...)`: threads `0 .. gridDim*32 - 1`, those
   * with `i >= N` doing nothing, run one after the other; each reads only the
   * previous buffers and writes only its own slot, so the order does not matter.
   */
  method Launch(gridDim: nat, w: World, p0: array<Vec>, v0: array<Polar>, p1: array<Vec>, v1: array<Polar>,
                trig: Trig, draws: seq<(real, real)>)
    requires p0.Length == v0.Length == p1.Length == v1.Length == |draws|
    requires gridDim * 32 >= p0.Length
    requires p0 != p1 && v0 != v1
    requires WellFormed(w, p0.Length) && ValidTrig(trig)
    modifies p1, v1
    ensures State(p1[..], v1[..]) == Next(w, State(p0[..], v0[..]), State(old(p1[..]), old(v1[..])), trig, draws)
  {
    var s := State(p0[..], v0[..]);
    ghost var old1 := State(p1[..], v1[..]);
    ghost var r := Next(w, s, old1, trig, draws);
    var n := p0.Length;
    var t := 0;
    while t < gridDim * 32
      invariant 0 <= t <= gridDim * 32
      invariant p0[..] == s.p && v0[..] == s.v
      invariant forall k :: 0 <= k < n ==> p1[k] == if k < t then r.p[k] else old1.p[k]
      invariant forall k :: 0 <= k < n ==> v1[k] == if k < t then r.v[k] else old1.v[k]
    {
      if t < n {
        AgentThread(w, p0, v0, p1, v1, trig, draws[t], t);
      }
      t := t + 1;
    }
    assert p1[..] == r.p;
    assert v1[..] == r.v;
  }
}
