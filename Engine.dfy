/**
 * The host side of engine.py in dimension 2: the agent tables (`class
 * Agents`), group registration (`Engine.add_group`), the upload to the
 * device (`class CUDA`) and the double-buffered stepping (`Engine.step`,
 * `Engine.run`).
 */
module Engine {

  import opened Wrappers
  import opened Enums
  import opened Geometry
  import opened Boundary
  import opened GroupParams
  import opened Decode
  import opened Kernel
  import opened GroupIds

  /** `class Agents`: one row per agent in every table. */
  class Agents {
    var n: nat
    var atype: seq<AgentKind>
    var pos: seq<Vec>
    var vel: seq<Polar>
    var param: seq<AgentParam>
    var group: seq<int>

    /** Every table has exactly `n` rows. */
    ghost predicate Valid()
      reads this
    {
      |atype| == n && |pos| == n && |vel| == n && |param| == n && |group| == n
    }

    constructor ()
      ensures Valid() && n == 0
      ensures atype == [] && pos == [] && vel == [] && param == [] && group == []
    {
      n := 0;
      atype, pos, vel, param, group := [], [], [], [], [];
    }

    /** The concatenations of `add_group` on the state and parameter tables, for `k` new agents. */
    method AppendRows(k: nat, newPos: seq<Vec>, newVel: seq<Polar>, newParam: seq<AgentParam>)
      modifies this`n, this`pos, this`vel, this`param
      ensures n == old(n) + k
      ensures pos == old(pos) + newPos && vel == old(vel) + newVel && param == old(param) + newParam
    {
      n := n + k;
      pos := pos + newPos;
      vel := vel + newVel;
      param := param + newParam;
    }

    /** The concatenations of `add_group` on the type and group tables: `k` new agents of type `t` in group `g`. */
    method AppendGroup(k: nat, t: AgentKind, g: int)
      modifies this`atype, this`group
      ensures atype == old(atype) + seq(k, _ => t)
      ensures group == old(group) + seq(k, _ => g)
    {
      atype := atype + seq(k, _ => t);
      group := group + seq(k, _ => g);
    }
  }

  /**
   * The keyword arguments of `add_group` in dimension 2. The initial
   * positions and headings are given (their random sampling is not modelled);
   * `speed` absent means the default initial speed 0.01. `damax` has no usable
   * default and is required. `ripo` holds the arguments `param_RIPO` reads.
   */
  datatype GroupOptions = GroupOptions(
    name: Option<string>,
    position: seq<Vec>,
    orientation: seq<real>,
    speed: Option<seq<real>>,
    vmin: Option<real>,
    vmax: Option<real>,
    damax: real,
    vnoise: Option<real>,
    anoise: Option<real>,
    ripo: RipoConfig)

  /** `Default.vmax`, the default initial speed. */
  const DefaultSpeed: real := 0.01

  /** The group name: the `name` argument, else the name of the agent type. */
  function GroupName(gtype: AgentKind, opts: GroupOptions): string {
    opts.name.GetOr(AgentName(gtype))
  }

  /** The initial speed vector `V`. */
  function Speeds(opts: GroupOptions, n: nat): (v: seq<real>)
    requires opts.speed.Some? ==> |opts.speed.value| == n
    ensures |v| == n
    ensures opts.speed.None? ==> forall k :: 0 <= k < n ==> v[k] == DefaultSpeed
  {
    if opts.speed.Some? then opts.speed.value else seq(n, _ => DefaultSpeed)
  }

  /** `vel = column_stack((V, alpha))`. */
  function Velocities(opts: GroupOptions, n: nat): (v: seq<Polar>)
    requires |opts.orientation| == n && (opts.speed.Some? ==> |opts.speed.value| == n)
    ensures |v| == n
    ensures forall k :: 0 <= k < n ==> v[k] == Polar(Speeds(opts, n)[k], opts.orientation[k])
  {
    seq(n, k requires 0 <= k < n => Polar(Speeds(opts, n)[k], opts.orientation[k]))
  }

  /**
   * `aparam = concatenate((vlim, damax, noise))`: `vmin` defaults to 0, `vmax`
   * to the agent's own initial speed, the noise amplitudes to 0.
   */
  function Params(opts: GroupOptions, n: nat): (p: seq<AgentParam>)
    requires opts.speed.Some? ==> |opts.speed.value| == n
    ensures |p| == n
    ensures forall k :: 0 <= k < n ==>
              p[k] == AgentParam(opts.vmin.GetOr(0.0), opts.vmax.GetOr(Speeds(opts, n)[k]), opts.damax,
                                 opts.vnoise.GetOr(0.0), opts.anoise.GetOr(0.0))
  {
    seq(n, k requires 0 <= k < n =>
          AgentParam(opts.vmin.GetOr(0.0), opts.vmax.GetOr(Speeds(opts, n)[k]), opts.damax,
                     opts.vnoise.GetOr(0.0), opts.anoise.GetOr(0.0)))
  }

  /** Python's `max` of a non-empty list: one of its elements, no smaller than any other. */
  function Max(s: seq<int>): (m: int)
    requires s != []
    ensures m in s && forall x :: x in s ==> x <= m
  {
    if |s| == 1 then s[0]
    else
      var m := Max(s[1..]);
      assert s == [s[0]] + s[1..];
      if s[0] >= m then s[0] else m
  }

  /** The largest sizes over all groups, which `CUDA` exposes to the kernel for its local arrays. */
  datatype Sizes = Sizes(mNR: int, mNZ: int, mNCaf: int, mNCad: int, mNI: int)

  /**
   * `CUDA.__init__`: the maximum of each size list, and `m_nCad = m_nCaf * N`
   * for `N` groups. `None` where `max` of an empty list raises `ValueError`,
   * as `l_nCaf` is when no RIPO group was added.
   */
  function DeviceSizes(lnR: seq<int>, lnZ: seq<int>, lnCaf: seq<int>, lnI: seq<int>, nG: int): (r: Option<Sizes>)
    ensures r.None? <==> lnR == [] || lnZ == [] || lnCaf == [] || lnI == []
    ensures r.Some? ==> && r.value.mNR in lnR && (forall x :: x in lnR ==> x <= r.value.mNR)
                        && r.value.mNZ in lnZ && (forall x :: x in lnZ ==> x <= r.value.mNZ)
                        && r.value.mNCaf in lnCaf && (forall x :: x in lnCaf ==> x <= r.value.mNCaf)
                        && r.value.mNI in lnI && (forall x :: x in lnI ==> x <= r.value.mNI)
                        && r.value.mNCad == r.value.mNCaf * nG
  {
    if lnR == [] || lnZ == [] || lnCaf == [] || lnI == [] then None
    else Some(Sizes(Max(lnR), Max(lnZ), Max(lnCaf), Max(lnCaf) * nG, Max(lnI)))
  }

  /** `class CUDA` after the upload: the world every thread reads and the two buffer pairs. */
  class Device {
    const gridDim: nat
    const world: World
    const p0: array<Vec>
    const v0: array<Polar>
    const p1: array<Vec>
    const v1: array<Polar>

    ghost predicate Valid()
      reads this
    {
      && p0.Length == v0.Length == p1.Length == v1.Length
      && p0 != p1 && v0 != v1
      && gridDim * 32 >= p0.Length
      && WellFormed(world, p0.Length)
    }

    /** Both buffer pairs as values. */
    function Contents(): Buffers
      reads this, p0, v0, p1, v1
    {
      Buffers(State(p0[..], v0[..]), State(p1[..], v1[..]))
    }

    /**
     * Uploads the initial state into `p0`/`v0` and allocates `p1`/`v1`,
     * whose unset contents are `junk`; `gridDim = ceil(N / 32)`.
     */
    constructor (world: World, initial: State, junk: State)
      requires |initial.p| == |initial.v| == |junk.p| == |junk.v|
      requires WellFormed(world, |initial.p|)
      ensures Valid() && this.world == world && gridDim == GridDim(|initial.p|)
      ensures Contents() == Buffers(initial, junk)
      ensures fresh(p0) && fresh(v0) && fresh(p1) && fresh(v1)
    {
      var n := |initial.p|;
      gridDim := GridDim(n);
      this.world := world;
      p0 := new Vec[n](k requires 0 <= k < n => initial.p[k]);
      v0 := new Polar[n](k requires 0 <= k < n => initial.v[k]);
      p1 := new Vec[n](k requires 0 <= k < n => junk.p[k]);
      v1 := new Polar[n](k requires 0 <= k < n => junk.v[k]);
      new;
      assert p0[..] == initial.p && v0[..] == initial.v;
      assert p1[..] == junk.p && v1[..] == junk.v;
    }
  }

  // --- Double buffer ---------------------------------------------------------

  /** The two buffer pairs: slot 0 is `p0`/`v0`, slot 1 is `p1`/`v1`. */
  datatype Buffers = Buffers(slot0: State, slot1: State)

  predicate BuffersFit(b: Buffers, n: nat) {
    |b.slot0.p| == |b.slot0.v| == |b.slot1.p| == |b.slot1.v| == n
  }

  /** The pair step `i` reads: slot 0 on an odd step, slot 1 on an even one. */
  function ReadSlot(b: Buffers, i: nat): State {
    if i % 2 == 1 then b.slot0 else b.slot1
  }

  /** The pair step `i` writes and then exposes as `agents.pos`/`vel`. */
  function Exposed(b: Buffers, i: nat): State {
    if i % 2 == 1 then b.slot1 else b.slot0
  }

  /** Step `i`: the kernel reads one pair and writes the other. */
  function StepBuffers(w: World, trig: Trig, b: Buffers, i: nat, draws: seq<(real, real)>): (r: Buffers)
    requires WellFormed(w, |b.slot0.p|) && BuffersFit(b, |b.slot0.p|) && |draws| == |b.slot0.p|
    requires ValidTrig(trig)
    ensures BuffersFit(r, |b.slot0.p|)
    ensures Exposed(r, i) == Next(w, ReadSlot(b, i), Exposed(b, i), trig, draws)
    ensures ReadSlot(r, i) == ReadSlot(b, i)
  {
    if i % 2 == 1 then Buffers(b.slot0, Next(w, b.slot0, b.slot1, trig, draws))
    else Buffers(Next(w, b.slot1, b.slot0, trig, draws), b.slot1)
  }

  predicate DrawsFit(draws: seq<seq<(real, real)>>, steps: nat, n: nat) {
    |draws| >= steps && forall k :: 0 <= k < |draws| ==> |draws[k]| == n
  }

  /** The buffers once the steps `1 .. steps - 1` have run, `draws[i]` holding the noise of step `i`. */
  function RunBuffers(w: World, trig: Trig, b0: Buffers, draws: seq<seq<(real, real)>>, steps: nat): (r: Buffers)
    requires WellFormed(w, |b0.slot0.p|) && BuffersFit(b0, |b0.slot0.p|) && DrawsFit(draws, steps, |b0.slot0.p|)
    requires ValidTrig(trig)
    ensures BuffersFit(r, |b0.slot0.p|)
    ensures |r.slot0.p| == |b0.slot0.p|
  {
    if steps <= 1 then b0
    else StepBuffers(w, trig, RunBuffers(w, trig, b0, draws, steps - 1), steps - 1, draws[steps - 1])
  }

  /**
   * Each step reads what the previous step exposed: step 1 the uploaded
   * initial state, step `i > 1` the state step `i - 1` wrote.
   */
  lemma {:induction false} StepReadsPrevious(w: World, trig: Trig, b0: Buffers, draws: seq<seq<(real, real)>>, i: nat)
    requires WellFormed(w, |b0.slot0.p|) && BuffersFit(b0, |b0.slot0.p|) && DrawsFit(draws, i + 1, |b0.slot0.p|)
    requires ValidTrig(trig) && i >= 1
    ensures ReadSlot(RunBuffers(w, trig, b0, draws, i), i) == Exposed(RunBuffers(w, trig, b0, draws, i), i - 1)
    ensures i == 1 ==> ReadSlot(RunBuffers(w, trig, b0, draws, i), i) == b0.slot0
    ensures Exposed(RunBuffers(w, trig, b0, draws, i + 1), i)
            == Next(w, Exposed(RunBuffers(w, trig, b0, draws, i), i - 1),
                    Exposed(RunBuffers(w, trig, b0, draws, i), i), trig, draws[i])
  {
    assert i % 2 == 1 <==> (i - 1) % 2 == 0;
  }

  /**
   * Agents that are fixed, or RIPO agents at rest without speed noise, never
   * move: every exposed state keeps their initial position.
   */
  lemma {:induction false} RestingAgentsStay(w: World, trig: Trig, b0: Buffers, draws: seq<seq<(real, real)>>,
                                             steps: nat, a: nat)
    requires WellFormed(w, |b0.slot0.p|) && BuffersFit(b0, |b0.slot0.p|) && DrawsFit(draws, steps, |b0.slot0.p|)
    requires ValidTrig(trig) && steps >= 1 && a < |b0.slot0.p|
    requires w.atype[a] == Ripo ==> b0.slot0.v[a].v == 0.0 && w.aparam[a].vnoise == 0.0
    ensures Exposed(RunBuffers(w, trig, b0, draws, steps), steps - 1).p[a] == b0.slot0.p[a]
    ensures w.atype[a] == Ripo ==> Exposed(RunBuffers(w, trig, b0, draws, steps), steps - 1).v[a].v == 0.0
  {
    if steps > 1 {
      var i := steps - 1;
      RestingAgentsStay(w, trig, b0, draws, i, a);
      RestingAcrossStep(w, trig, RunBuffers(w, trig, b0, draws, i), i, draws[i], a, b0.slot0.p[a]);
    }
  }

  /** One step of `RestingAgentsStay`: what step `i - 1` exposed for agent `a`, step `i` exposes again. */
  lemma RestingAcrossStep(w: World, trig: Trig, b: Buffers, i: nat, draws: seq<(real, real)>, a: nat, p: Vec)
    requires WellFormed(w, |b.slot0.p|) && BuffersFit(b, |b.slot0.p|) && |draws| == |b.slot0.p|
    requires ValidTrig(trig) && i >= 1 && a < |b.slot0.p|
    requires Exposed(b, i - 1).p[a] == p
    requires w.atype[a] == Ripo ==> Exposed(b, i - 1).v[a].v == 0.0 && w.aparam[a].vnoise == 0.0
    ensures Exposed(StepBuffers(w, trig, b, i, draws), i).p[a] == p
    ensures w.atype[a] == Ripo ==> Exposed(StepBuffers(w, trig, b, i, draws), i).v[a].v == 0.0
  {
    assert ReadSlot(b, i) == Exposed(b, i - 1) by {
      assert i % 2 == 1 <==> (i - 1) % 2 == 0;
    }
    RestingAgentNext(w, ReadSlot(b, i), Exposed(b, i), trig, draws, a);
  }

  // --- The engine --------------------------------------------------------------

  /** `class Engine` in dimension 2. */
  class Engine {
    const geom: Geometry
    const agents: Agents
    const groups: Groups
    var steps: Option<nat>
    var storage: bool
    var animation: bool
    var cuda: Device?

    ghost predicate Valid()
      reads this, agents, groups
    {
      && agents.Valid() && groups.Valid()
      && geom.dimension == 2 && groups.dimension == 2
      && agents as object != groups
      && (forall k :: 0 <= k < |agents.group| ==> 0 <= agents.group[k] < groups.count)
    }

    /** The group tables and the agents' type and group columns as a value. */
    ghost function Snapshot(): Registry
      reads this, agents`atype, agents`group, groups`names, groups`atype, groups`configs, groups`param
    {
      Registry(groups.names, groups.atype, groups.configs, groups.param, agents.atype, agents.group)
    }

    /** `Engine(dimension=2, **kwargs)`: empty tables, one step, no storage or animation. */
    constructor (geom: Geometry)
      requires geom.dimension == 2
      ensures Valid() && Coherent(Snapshot()) && this.geom == geom
      ensures agents.n == 0 && groups.count == 0 && groups.param == []
      ensures steps == Some(1) && !storage && !animation && cuda == null
    {
      this.geom := geom;
      agents := new Agents();
      groups := new Groups(2);
      steps := Some(1);
      storage := false;
      animation := false;
      cuda := null;
    }

    /**
     * `add_group(gtype, N, **kwargs)`: appends `n` rows to every agent table,
     * registers the group name if it is new, and records the group's sizes
     * (`param_RIPO` for a RIPO group, zeros otherwise). A new name also adds
     * the group's row, so that group id `k` reads row `k`.
     */
    method AddGroup(gtype: AgentKind, n: nat, opts: GroupOptions)
      requires Valid() && Coherent(Snapshot())
      requires |opts.position| == n && |opts.orientation| == n
      requires opts.speed.Some? ==> |opts.speed.value| == n
      modifies agents, groups
      ensures Valid() && Coherent(Snapshot())
      ensures Snapshot() == Register(old(Snapshot()), Registration(gtype, GroupName(gtype, opts), opts.ripo, n))
      ensures agents.n == old(agents.n) + n
      ensures agents.atype == old(agents.atype) + seq(n, _ => gtype)
      ensures agents.pos == old(agents.pos) + opts.position
      ensures agents.vel == old(agents.vel) + Velocities(opts, n)
      ensures agents.param == old(agents.param) + Params(opts, n)
      ensures agents.group == old(agents.group) + seq(n, _ => GroupIndex(old(groups.names), GroupName(gtype, opts)))
      // the new agents' group is the one carrying the name, and it has a row
      ensures forall k :: old(agents.n) <= k < agents.n ==>
                groups.names[agents.group[k]] == GroupName(gtype, opts) && agents.group[k] < |groups.param|
      ensures groups.names == if GroupName(gtype, opts) in old(groups.names) then old(groups.names)
                              else old(groups.names) + [GroupName(gtype, opts)]
      ensures groups.atype == if GroupName(gtype, opts) in old(groups.names) then old(groups.atype)
                              else old(groups.atype) + [gtype]
      ensures groups.param == if GroupName(gtype, opts) in old(groups.names) then old(groups.param)
                              else AddRow(old(groups.param), GroupRow(2, gtype, opts.ripo))
      ensures gtype == Ripo ==> groups.lnR == old(groups.lnR) + [NR(opts.ripo)]
      ensures gtype == Ripo ==> groups.lnZ == old(groups.lnZ) + [NR(opts.ripo) * NSa(2, opts.ripo) * NSb(2, opts.ripo)]
      ensures gtype == Ripo ==> groups.lnCaf == old(groups.lnCaf)
                                   + [|opts.ripo.outputs| * NR(opts.ripo) * NSa(2, opts.ripo) * NSb(2, opts.ripo)]
      ensures gtype == Ripo ==> groups.lnI == old(groups.lnI) + [NI(opts.ripo.inputs)]
      ensures gtype == Fixed ==> groups.lnCaf == old(groups.lnCaf)
      ensures gtype == Fixed ==> groups.lnR == old(groups.lnR) + [0] && groups.lnZ == old(groups.lnZ) + [0]
      ensures gtype == Fixed ==> groups.lnI == old(groups.lnI) + [0]
    {
      agents.AppendRows(n, opts.position, Velocities(opts, n), Params(opts, n));
      DefineGroup(gtype, n, GroupName(gtype, opts), opts.ripo);
    }

    /**
     * The group side of `add_group` for `n` new agents: the name's id,
     * registered if new, the group's sizes and its row, and the new agents'
     * type and group id.
     */
    method DefineGroup(gtype: AgentKind, n: nat, gname: string, c: RipoConfig)
      requires groups.Valid() && groups.dimension == 2 && agents as object != groups && Coherent(Snapshot())
      modifies groups, agents`atype, agents`group
      ensures groups.Valid() && Coherent(Snapshot())
      ensures Snapshot() == Register(old(Snapshot()), Registration(gtype, gname, c, n))
      ensures gtype == Ripo ==> groups.lnR == old(groups.lnR) + [NR(c)]
      ensures gtype == Ripo ==> groups.lnZ == old(groups.lnZ) + [NR(c) * NSa(2, c) * NSb(2, c)]
      ensures gtype == Ripo ==> groups.lnCaf == old(groups.lnCaf) + [|c.outputs| * NR(c) * NSa(2, c) * NSb(2, c)]
      ensures gtype == Ripo ==> groups.lnI == old(groups.lnI) + [NI(c.inputs)]
      ensures gtype == Fixed ==> groups.lnCaf == old(groups.lnCaf)
      ensures gtype == Fixed ==> groups.lnR == old(groups.lnR) + [0] && groups.lnZ == old(groups.lnZ) + [0]
      ensures gtype == Fixed ==> groups.lnI == old(groups.lnI) + [0]
    {
      var isNew := gname !in groups.names;
      var iname := RegisterGroup(gname, gtype, c);
      GroupParameters(gtype, c, isNew);
      agents.AppendGroup(n, gtype, iname);
      RegisterKeepsCoherent(old(Snapshot()), Registration(gtype, gname, c, n));
    }

    /** The group-definition part of `add_group`: the id of `gname`, registered if new. */
    method RegisterGroup(gname: string, gtype: AgentKind, ghost c: RipoConfig) returns (iname: nat)
      requires groups.Valid()
      modifies groups`count, groups`names, groups`atype, groups`configs
      ensures groups.Valid()
      ensures iname == GroupIndex(old(groups.names), gname)
      ensures iname < |groups.names| && groups.names[iname] == gname
      ensures groups.names == if gname in old(groups.names) then old(groups.names) else old(groups.names) + [gname]
      ensures groups.atype == if gname in old(groups.names) then old(groups.atype) else old(groups.atype) + [gtype]
      ensures groups.configs == if gname in old(groups.names) then old(groups.configs) else old(groups.configs) + [c]
    {
      iname := GroupIndex(groups.names, gname);
      if gname !in groups.names {
        AppendKeepsDistinct(groups.names, gname);
        groups.count := groups.count + 1;
        groups.names := groups.names + [gname];
        groups.atype := groups.atype + [gtype];
        groups.configs := groups.configs + [c];
      }
    }

    /**
     * `match gtype`: a RIPO group serializes its row, any other only records
     * zero sizes; a new group's row (a single zero for a fixed group) is added.
     */
    method GroupParameters(gtype: AgentKind, c: RipoConfig, newGroup: bool)
      requires groups.Valid() && groups.dimension == 2
      modifies groups`param, groups`lnR, groups`lnZ, groups`lnCaf, groups`lnI
      ensures groups.Valid()
      ensures groups.param == if newGroup then AddRow(old(groups.param), GroupRow(2, gtype, c)) else old(groups.param)
      ensures gtype == Ripo ==> groups.lnR == old(groups.lnR) + [NR(c)]
      ensures gtype == Ripo ==> groups.lnZ == old(groups.lnZ) + [NR(c) * NSa(2, c) * NSb(2, c)]
      ensures gtype == Ripo ==> groups.lnCaf == old(groups.lnCaf) + [|c.outputs| * NR(c) * NSa(2, c) * NSb(2, c)]
      ensures gtype == Ripo ==> groups.lnI == old(groups.lnI) + [NI(c.inputs)]
      ensures gtype == Fixed ==> groups.lnCaf == old(groups.lnCaf)
      ensures gtype == Fixed ==> groups.lnR == old(groups.lnR) + [0] && groups.lnZ == old(groups.lnZ) + [0]
      ensures gtype == Fixed ==> groups.lnI == old(groups.lnI) + [0]
    {
      match gtype {
        case Ripo =>
          groups.ParamRIPO(c, newGroup);
        case Fixed =>
          if newGroup {
            groups.param := AddRow(groups.param, GroupRow(2, gtype, c));
          }
          groups.lnR := groups.lnR + [0];
          groups.lnZ := groups.lnZ + [0];
          groups.lnI := groups.lnI + [0];
      }
    }

    /** What the device receives: the decoded arena and the agent and group tables. */
    function WorldOf(): World
      reads this, agents, groups
      requires Valid() && GeomVector(geom).Some?
    {
      DecodeGeomVector(geom);
      var a := DecodeGeom(GeomVector(geom).value, 2).value;
      World(Arena2(a.arena, a.half[0], a.half[1], a.periodic[0], a.periodic[1]),
            agents.atype, agents.group, agents.param, groups.param)
    }

    /**
     * `step(i)`: on an odd step the kernel reads `p0`/`v0` and writes
     * `p1`/`v1`, on an even step the other way round; the written pair is
     * then copied back as the agents' positions and velocities.
     */
    method Step(i: nat, trig: Trig, draws: seq<(real, real)>)
      requires Valid() && cuda != null && cuda.Valid() && cuda.p0.Length == agents.n
      requires |draws| == agents.n && ValidTrig(trig)
      modifies cuda.p0, cuda.v0, cuda.p1, cuda.v1, agents`pos, agents`vel
      ensures Valid()
      ensures cuda.Contents() == StepBuffers(cuda.world, trig, old(cuda.Contents()), i, draws)
      ensures State(agents.pos, agents.vel) == Exposed(cuda.Contents(), i)
    {
      var d := cuda;
      if i % 2 == 1 {
        Launch(d.gridDim, d.world, d.p0, d.v0, d.p1, d.v1, trig, draws);
        agents.pos := d.p1[..];
        agents.vel := d.v1[..];
      } else {
        Launch(d.gridDim, d.world, d.p1, d.v1, d.p0, d.v0, trig, draws);
        agents.pos := d.p0[..];
        agents.vel := d.v0[..];
      }
    }

    /**
     * `run()`: without animation it needs a number of steps and a storage
     * location, and returns at once otherwise. Building `CUDA(self)` takes
     * the maximum of the per-group size lists, and `max` raises `ValueError`
     * (`raised`) on an empty one, as `l_nCaf` is when no RIPO group was
     * added. Otherwise it goes on as `Start`.
     */
    method Run(trig: Trig, draws: seq<seq<(real, real)>>, junk: State) returns (raised: bool)
      requires Valid() && GeomVector(geom).Some?
      requires Coherent(Snapshot()) && TypesAgree(Snapshot()) && ReadableGroups(Snapshot())
      requires |junk.p| == |junk.v| == agents.n && ValidTrig(trig)
      requires steps.Some? ==> DrawsFit(draws, steps.value, agents.n)
      modifies this`cuda, agents`pos, agents`vel
      ensures Valid()
      ensures raised <==> !(!animation && (steps.None? || !storage))
                          && DeviceSizes(groups.lnR, groups.lnZ, groups.lnCaf, groups.lnI, groups.count).None?
      ensures !(!animation && (steps.None? || !storage)) && groups.lnCaf == [] ==> raised
      ensures (!animation && (steps.None? || !storage)) || raised ==>
                cuda == old(cuda) && agents.pos == old(agents.pos) && agents.vel == old(agents.vel)
      ensures !(!animation && (steps.None? || !storage)) && !raised ==>
                && cuda != null && fresh(cuda) && cuda.Valid() && cuda.world == old(WorldOf())
                && cuda.p0.Length == agents.n && cuda.gridDim == GridDim(agents.n)
      ensures animation && !raised ==> cuda != null && cuda.Contents() == Buffers(State(agents.pos, agents.vel), junk)
      ensures !animation && steps.Some? && storage && !raised ==>
                && cuda != null && cuda.Valid() && cuda.p0.Length == agents.n
                && cuda.Contents() == RunBuffers(cuda.world, trig, Buffers(State(old(agents.pos), old(agents.vel)), junk),
                                                draws, steps.value)
                && (steps.value >= 2 ==>
                      State(agents.pos, agents.vel) == Exposed(cuda.Contents(), steps.value - 1))
                && (steps.value < 2 ==> agents.pos == old(agents.pos) && agents.vel == old(agents.vel))
    {
      raised := false;
      if !animation && (steps.None? || !storage) {
        return;
      }
      if DeviceSizes(groups.lnR, groups.lnZ, groups.lnCaf, groups.lnI, groups.count).None? {
        raised := true;
        return;
      }
      CoherentWellFormed(Snapshot(), WorldOf().arena, agents.param);
      Start(trig, draws, junk);
    }

    /**
     * The rest of `run()` once the checks have passed: upload the state (the
     * unset second buffer holding `junk`) and run steps `1 .. steps - 1`,
     * step 0 being the initial state. With animation the steps are driven
     * by the animation clock and none is run here.
     */
    method Start(trig: Trig, draws: seq<seq<(real, real)>>, junk: State)
      requires Valid() && GeomVector(geom).Some? && WellFormed(WorldOf(), agents.n)
      requires animation || (steps.Some? && storage)
      requires |junk.p| == |junk.v| == agents.n && ValidTrig(trig)
      requires steps.Some? ==> DrawsFit(draws, steps.value, agents.n)
      modifies this`cuda, agents`pos, agents`vel
      ensures Valid()
      ensures cuda != null && fresh(cuda) && cuda.Valid() && cuda.world == old(WorldOf())
      ensures cuda.p0.Length == agents.n && cuda.gridDim == GridDim(agents.n)
      ensures animation ==> cuda.Contents() == Buffers(State(agents.pos, agents.vel), junk)
      ensures !animation ==>
                cuda.Contents() == RunBuffers(cuda.world, trig, Buffers(State(old(agents.pos), old(agents.vel)), junk),
                                              draws, steps.value)
      ensures !animation && steps.value >= 2 ==> State(agents.pos, agents.vel) == Exposed(cuda.Contents(), steps.value - 1)
      ensures !animation && steps.value < 2 ==> agents.pos == old(agents.pos) && agents.vel == old(agents.vel)
    {
      var b0 := Buffers(State(agents.pos, agents.vel), junk);
      var d := Upload(junk);
      if !animation {
        RunSteps(d, d.world, b0, trig, draws);
      }
    }

    /** `self.cuda = CUDA(self)` and the uploads: `p0`/`v0` hold the state, `p1`/`v1` are unset. */
    method Upload(junk: State) returns (d: Device)
      requires Valid() && GeomVector(geom).Some? && WellFormed(WorldOf(), agents.n)
      requires |junk.p| == |junk.v| == agents.n
      modifies this`cuda
      ensures Valid() && cuda == d && d.Valid() && d.world == WorldOf()
      ensures fresh(d) && fresh(d.p0) && fresh(d.v0) && fresh(d.p1) && fresh(d.v1)
      ensures d.gridDim == GridDim(agents.n) && d.p0.Length == agents.n
      ensures d.Contents() == Buffers(State(agents.pos, agents.vel), junk)
    {
      d := new Device(WorldOf(), State(agents.pos, agents.vel), junk);
      cuda := d;
    }

    /** The main loop of `run`: `for step in range(steps): if step: self.step(step)`. */
    method RunSteps(d: Device, w: World, b0: Buffers, trig: Trig, draws: seq<seq<(real, real)>>)
      requires Valid() && cuda == d && d.Valid() && d.world == w && d.p0.Length == agents.n
      requires BuffersFit(b0, agents.n) && d.Contents() == b0 && State(agents.pos, agents.vel) == b0.slot0
      requires steps.Some? && DrawsFit(draws, steps.value, agents.n) && ValidTrig(trig)
      modifies d.p0, d.v0, d.p1, d.v1, agents`pos, agents`vel
      ensures Valid() && cuda == d
      ensures cuda.Contents() == RunBuffers(w, trig, b0, draws, steps.value)
      ensures steps.value >= 2 ==> State(agents.pos, agents.vel) == Exposed(cuda.Contents(), steps.value - 1)
      ensures steps.value < 2 ==> State(agents.pos, agents.vel) == b0.slot0
    {
      var n := steps.value;
      var step := 0;
      while step < n
        invariant 0 <= step <= n
        invariant Running(d, w, b0, trig, draws, n, step)
      {
        RunIteration(d, w, b0, trig, draws, n, step);
        step := step + 1;
      }
    }

    /**
     * The state of the loop of `run` before iteration `step`: the buffers
     * are `RunBuffers` at `step` and the agents hold the last state written.
     */
    ghost predicate Running(d: Device, w: World, b0: Buffers, trig: Trig, draws: seq<seq<(real, real)>>, n: nat, step: nat)
      reads this, agents, groups, d, d.p0, d.v0, d.p1, d.v1
    {
      && Valid() && cuda == d && d.Valid() && d.world == w && d.p0.Length == agents.n
      && BuffersFit(b0, agents.n) && DrawsFit(draws, n, agents.n) && ValidTrig(trig) && step <= n
      && d.Contents() == RunBuffers(w, trig, b0, draws, step)
      && (step < 2 ==> State(agents.pos, agents.vel) == b0.slot0)
      && (step >= 2 ==> State(agents.pos, agents.vel) == Exposed(d.Contents(), step - 1))
    }

    /** One iteration of the loop of `run`: `if step: self.step(step)`. */
    method RunIteration(d: Device, w: World, b0: Buffers, trig: Trig, draws: seq<seq<(real, real)>>, n: nat, step: nat)
      requires step < n && Running(d, w, b0, trig, draws, n, step)
      modifies d.p0, d.v0, d.p1, d.v1, agents`pos, agents`vel
      ensures Running(d, w, b0, trig, draws, n, step + 1)
    {
      if step > 0 {
        Step(step, trig, draws[step]);
      }
    }
  }
}
