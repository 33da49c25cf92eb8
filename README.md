# MIDAS engine core in Dafny

MIDAS simulates groups of self-propelled agents in a bounded arena.
Agents are either FIXED or RIPO ("radial input, polar output"). A RIPO agent counts its neighbours in a
polar grid of zones around itself. It weighs the counts with per-zone coefficients and turns by the result.
This project models the core of the Python engine (`engine.py`) and of the coefficient
helper (`coefficients.py`) and proves properties of the model:

- `Geometry`: the arena (`Geometry.__init__`): its kind, extents and periodicity. It also covers the flat
  `geom` vector that `Engine.run` uploads and the kernel reads back.
- `Boundary`: the pairwise and boundary primitives. `relative_2d` computes the nearest-image offset with a
  cutoff. `assign_2d` wraps a periodic axis and reflects off a reflective wall.
- `GroupParams`: the class `Groups`. `param_RIPO` serializes one group row field by field, and the rows are
  gathered in a rectangular table. The module also has the table update as written and as intended.
- `Decode`: how the kernel reads a group row back by index arithmetic. Decoding the row that `param_RIPO`
  wrote gives back the configuration.
- `Kernel`: the per-thread work of `CUDA_step` in dimension 2:
  - the fixed-agent copy;
  - the radial and angular zone index;
  - the presence histogram and the weighted sum `WS`;
  - the speed clamp after noise and the boundary resolution.

  The launch runs one thread per agent over an immutable previous state.
- `GroupIds`: the group side of `add_group` as a value. A group name gets the id `names.index(name)`, and
  every agent stores the id of its group. The kernel reads row `id` of the parameter table. The module has the
  table as `add_group` builds it and as intended, with one row per group.
- `Engine`: the classes `Agents` and `Engine` (`add_group`, `step`, `run`) and the device upload (class
  `CUDA`). The double buffer alternates between the `p0/v0` and `p1/v1` buffers.
- `Coefficients`: the class `Coefficients`, holding its coefficient count and the initial coefficients, and
  `to_weights`. `to_weights` flips the sign of the coefficients of the zones that lie behind or beside the
  agent, depending on the action.

Transcendental functions are parameters of the model, in the datatype `Kernel.Trig` given by the caller:
- `cmath.rect`, `cmath.polar`, `cmath.phase`;
- the `atan`/`exp` activation;
- the circular wall bounce with `asin`.

The random normal draws of `xoroshiro128p_normal_float32` are also parameters, one pair per agent and step.
Lengths are compared as squared norms, which is exact for the moduli the source compares.

## Model

| member | source | states |
|---|---|---|
| Geometry.MakeGeometry | Programs/Python/MIDAS/engine.py:31-58 | The arena defaults to rectangular and the shape to 1 on every axis. A circular arena is never periodic, whatever was requested. A rectangular arena is periodic on every axis unless told otherwise. |
| Geometry.GeomVector | Programs/Python/MIDAS/engine.py:578-625 | The vector is `None` exactly when the dimension is not 1..3 or the shape or flags are too short. Otherwise it has length 2*dim+1: the arena code, then half of each extent, then 0/1 periodicity flags. |
| Geometry.DecodeGeomVector | Programs/Python/MIDAS/engine.py:766-800 | Reading `geom` as the kernel does gives back the arena kind, the half-extents and the periodicity of every axis of the geometry. |
| Geometry.CircularArenaIsReflective | Programs/Python/MIDAS/engine.py:45-55 | A circular arena reaches the kernel reflective on every axis, even when periodic boundaries were requested. |
| Geometry.DefaultArena | Programs/Python/MIDAS/engine.py:39-58 | With no keyword arguments the kernel sees a rectangular, periodic arena of half-extent 0.5 on every axis. |
| Boundary.Offset | Programs/Python/MIDAS/engine.py:1119-1145 | A circular arena gives the raw displacement and a rectangular one the per-axis offsets. On a periodic axis, two points inside the arena are at most half the extent apart along it. |
| Boundary.AxisOffset | Programs/Python/MIDAS/engine.py:1127-1143 | On a reflective axis the offset is `x1 - x0`. On a periodic axis it is `x1 - x0` shifted by at most one period. For two points inside the arena its magnitude is at most the half-extent (minimum image). |
| Boundary.Relative2D | Programs/Python/MIDAS/engine.py:1111-1153 | A neighbour is not visible exactly when a cutoff is set and the offset is longer than it; it then gets `(0, 0, False)`. A visible neighbour gets its offset and the relative heading `a1 - a0`. Without a cutoff every neighbour is visible. |
| Boundary.RelativeIsMinimumImage | Programs/Python/MIDAS/engine.py:1127-1145 | In a periodic rectangular arena, every offset component of a visible neighbour is at most the half-extent. |
| Boundary.MinimumImageAcrossBoundary | Programs/Python/MIDAS/engine.py:1130-1131 | Points at 0.49 and -0.49 on an axis of width 1 are 0.02 apart through the boundary when periodic, and -0.98 apart when reflective. |
| Boundary.AxisResolve | Programs/Python/MIDAS/engine.py:1198-1233 | A periodic axis wraps by one period and keeps the velocity component. A reflective axis mirrors about the crossed wall and negates exactly that component. A coordinate inside is left as is, and a candidate within three half-extents lands inside. The speed component's magnitude is kept. |
| Boundary.AssignRect | Programs/Python/MIDAS/engine.py:1188-1235 | At zero speed the candidate position and polar velocity are returned unchanged. Otherwise each axis is resolved on its own, the speed is preserved (elastic), and a candidate within three half-extents ends up inside the arena. |
| Boundary.Assign2D | Programs/Python/MIDAS/engine.py:1156-1235 | A rectangular arena is handled as in `AssignRect`. A circular arena always keeps the speed. Inside the wall it keeps the candidate position and the heading. |
| GroupParams.Sort | Programs/Python/MIDAS/engine.py:203-205 | `np.sort` of the zone radii: ascending, and a permutation of its input. |
| GroupParams.InsertAscending | Programs/Python/MIDAS/engine.py:203-205 | Inserting one radius into an ascending list keeps it ascending. This is the step that makes the sort ascending. |
| GroupParams.Pad | Programs/Python/MIDAS/engine.py:272-278 | `np.pad` with trailing zeros: the original row is a prefix, the rest is zeros, and the width is the larger of the two. |
| GroupParams.PadRows | Programs/Python/MIDAS/engine.py:276-277 | Every row of the table is padded to the new width. |
| GroupParams.AddRowAsWritten | Programs/Python/MIDAS/engine.py:272-280 | The table update as written. The table stays rectangular. A row is appended only into an empty table or when it is wider than the table. A row no wider than the table leaves the table unchanged. |
| GroupParams.AddRow | Programs/Python/MIDAS/engine.py:272-280 | The table update as intended. The row is always appended, the width is the larger of the two, and every old row and the new row is kept up to trailing zeros. |
| GroupParams.AddRowKeepsFirstRow | Programs/Python/MIDAS/engine.py:272-280 | After two registrations both rows are in the table and the first is only zero-padded, so decoding it is unaffected. |
| GroupParams.SecondEqualRowDropped | Programs/Python/MIDAS/engine.py:272-280 | As written, registering the same two-dimensional configuration twice leaves a one-row table. The intended update gives two rows. |
| GroupParams.AppendInput | Programs/Python/MIDAS/engine.py:255-259 | One input record is appended: perception code, normalization code, then its coefficients in order. |
| GroupParams.SerializeGrid | Programs/Python/MIDAS/engine.py:201-223 | The row starts with `nR = len(rS) + 1`, then `nSa` (default 4) when dim > 1, then `nSb` (default 4) when dim > 2. |
| GroupParams.SerializePrefix | Programs/Python/MIDAS/engine.py:201-248 | After the grid header come the sorted radii, the cutoff (0 when absent or `None`), and the counts of inputs and outputs. |
| GroupParams.SerializeRipo | Programs/Python/MIDAS/engine.py:201-265 | The built list is the whole row: prefix, input records, output pairs. `nI` is the total coefficient count. |
| GroupParams.RipoRow | Programs/Python/MIDAS/engine.py:201-265 | The row opens with `nR`. In one to three dimensions it holds `dim` grid cells, the `nR - 1` radii, the cutoff and the two counts, then two codes plus the coefficients per input and two codes per output. |
| GroupParams.AppendOutputs | Programs/Python/MIDAS/engine.py:262-264 | The output loop appends exactly the output block: one kind and one activation per output, in order. |
| GroupParams.Groups.constructor | Programs/Python/MIDAS/engine.py:148-170 | No groups, no names, an empty table and empty size lists. |
| GroupParams.Groups.ParamRIPO | Programs/Python/MIDAS/engine.py:174-287 | For a new group the table receives the serialized row (the intended update, see Findings); a known group leaves the table alone. The lists receive `nR`, `nR*nSa*nSb`, `nOut*nR*nSa*nSb` and `nI`. Names, types and the table's rectangular shape are preserved. |
| Decode.TruncInt | Programs/Python/MIDAS/engine.py:867-870 | `int()` truncation gives back any integer stored as a float. |
| Decode.ReadHeader | Programs/Python/MIDAS/engine.py:867-890 | The kernel reads `nR`, `nSa`, `nSb` and then the input and output counts after the radii. The result is `None` for fewer than one radial zone, a negative count, or a row too short to hold them. |
| Decode.ReadOutputs | Programs/Python/MIDAS/engine.py:946-958 | The `nOut` (type, activation) pairs are read at `kOref + 2*io` and `kOref + 2*io + 1`. |
| Decode.DecodeBody | Programs/Python/MIDAS/engine.py:877-946 | The radii come from `dim .. dim+nR-2`. A stored cutoff counts only when it is positive. There is one output pair per declared output. |
| Decode.Cutoff | Programs/Python/MIDAS/engine.py:882 | The stored cutoff is kept exactly when it is positive, and then unchanged. |
| Decode.DecodeRow | Programs/Python/MIDAS/engine.py:862-958 | A decoded row has at least one radial zone and `nR - 1` radii read at offset `dim`. Its cutoff is `None` or positive. It has `nOut` output pairs. |
| Decode.DecodeScan | Programs/Python/MIDAS/engine.py:901-942 | A decoded row's slots, weights and output position are what the input scan gathers from `nR + dim + 2`. |
| Decode.ScanInputs | Programs/Python/MIDAS/engine.py:912-941 | A scan that stays inside the row yields one slot per record, and the position only moves forward and ends inside the row. |
| Decode.DecodeRipoRow | Programs/Python/MIDAS/engine.py:862-958 | Decoding the row `param_RIPO` wrote gives back the configuration, even with any trailing zero padding. This covers the grid, the sorted radii, the cutoff (0 meaning none), every input slot with its coefficients in order, and the output pairs. |
| Kernel.RadialZone | Programs/Python/MIDAS/engine.py:983-986 | The radial zone is at most the number of radii. |
| Kernel.RadialZoneIsFirst | Programs/Python/MIDAS/engine.py:983-986 | The zone found is the first radius the distance is below, or the outermost zone when there is none. |
| Kernel.RadialZoneOfFirst | Programs/Python/MIDAS/engine.py:983-986 | Conversely, the first radius the distance is below is the zone found. |
| Kernel.RadialIndex | Programs/Python/MIDAS/engine.py:983-986 | The loop over `nR` radii gives a zone in `[0, nR)` equal to `RadialZone`, whatever the unfilled last cell of `rS` holds. |
| Kernel.AngularIndex | Programs/Python/MIDAS/engine.py:988 | `int(fraction * nSa)` of a phase fraction in [0, 1) is a slice in `[0, nSa)`. |
| Kernel.FlatIndexBound | Programs/Python/MIDAS/engine.py:993 | `ri*nSa + ai` is a cell of the `nR*nSa` grid. |
| Kernel.PairZone | Programs/Python/MIDAS/engine.py:969-993 | An agent has no zone exactly when it is the observer itself or `relative_2d` says it is out of reach. Otherwise its zone is a cell of the grid. |
| Kernel.Zones | Programs/Python/MIDAS/engine.py:969-993 | Agent `i` sees every agent `j` in its `PairZone`. |
| Kernel.HistogramTotal | Programs/Python/MIDAS/engine.py:998-999 | Every visible neighbour increments exactly one cell, so the cells add up to the number of visible neighbours. |
| Kernel.Histogram | Programs/Python/MIDAS/engine.py:969-999 | `i_pres` has one cell per zone. A cell counts at most every agent, and is non-zero exactly when some agent lies in that zone. |
| Kernel.HistogramCountsOthers | Programs/Python/MIDAS/engine.py:969-999 | Without a cutoff the presence histogram counts the N - 1 other agents. |
| Kernel.Presence | Programs/Python/MIDAS/engine.py:967-999 | With an agent-dependent input the cells add up to the number of visible neighbours. Without one they add up to 0. |
| Kernel.PresenceHistogram | Programs/Python/MIDAS/engine.py:967-999 | The perception loop fills a fresh array of the given size equal to the histogram of all agents' zones. |
| Kernel.HistogramAsWritten | Programs/Python/MIDAS/engine.py:920-999 | The presence histogram as written: the increments land on whatever the uninitialised local array held. |
| Kernel.HistogramAsWrittenNeedsZeros | Programs/Python/MIDAS/engine.py:920-999 | The as-written histogram equals the intended one exactly when the array starts at zero everywhere. A cell holding 1 with no neighbour reads 1 instead of 0. |
| Kernel.ZoneOf | Programs/Python/MIDAS/engine.py:969-996 | The body of the perception loop gives the other agent's zone: none for itself or an agent out of reach. |
| Kernel.Perception | Programs/Python/MIDAS/engine.py:967-999 | A fresh histogram equal to the thread's presence histogram. It stays at zero when the row has no agent-dependent input. |
| Kernel.SinglePresenceSum | Programs/Python/MIDAS/engine.py:1015-1027 | With one unnormalized presence record, `WS` is `Σ i_pres[ci] * weights[ci]`. |
| Kernel.EmptyHistogramSum | Programs/Python/MIDAS/engine.py:1015-1027 | An empty histogram gives `WS = 0`: no neighbour, no turn signal. |
| Kernel.AddDot | Programs/Python/MIDAS/engine.py:1026-1027 | The inner loop adds `Σ_{ci<nc} i_pres[ci]*weights[ci]` to `WS`. |
| Kernel.WeightedSum | Programs/Python/MIDAS/engine.py:1013-1047 | `WS` is 0 when the first `nc_ADI` cells are empty, and never negative when those cells and their weights are not negative. |
| Kernel.WeightedSumLoop | Programs/Python/MIDAS/engine.py:1013-1044 | The loop over records gives `WS`: each unnormalized presence record adds the weighted histogram and other records add nothing. |
| Kernel.Integrate | Programs/Python/MIDAS/engine.py:1076-1092 | Without speed noise the speed is `v + dv`, unclamped. With speed noise it ends in `[vmin, vmax]`, unchanged when already inside and raised to `vmin` below. The heading gets `da` plus the heading noise when its amplitude is non-zero. |
| Kernel.Clamp | Programs/Python/MIDAS/engine.py:1086-1087 | The result lies in `[lo, hi]` and equals `v` inside it. Below `lo` it is `lo`, above `hi` it is `hi`. |
| Kernel.RestingAgentStays | Programs/Python/MIDAS/engine.py:743-1101 | A fixed agent stays where it is. So does a RIPO agent at rest without speed noise, which also stays at rest. |
| Kernel.RestingAgentNext | Programs/Python/MIDAS/engine.py:743-1101 | In the state a kernel launch writes, a resting agent keeps its position, and a resting RIPO agent stays at rest. |
| Kernel.LoadRadii | Programs/Python/MIDAS/engine.py:877-879 | The local array `rS` of size `m_nR` holds the row's `nR - 1` radii. |
| Kernel.ScanWeights | Programs/Python/MIDAS/engine.py:896-942 | Copying coefficients one by one into the local `weights` array gives exactly the scan's slots, weights and final position. |
| Kernel.CopyCoefficients | Programs/Python/MIDAS/engine.py:923-925 | Copying `nc` coefficients appends exactly that slice of the row after the first `nIn` weights. The loop at lines 936-938 is the same. The rest of the array is left alone. |
| Kernel.RipoWeightedSum | Programs/Python/MIDAS/engine.py:862-1044 | Loading the radii, building the histogram, scanning the weights and summing give the `WS` of the decoded row. |
| Kernel.Move | Programs/Python/MIDAS/engine.py:1074-1101 | In a circular arena the wall keeps the speed: without speed noise the speed is unchanged, and with it the speed lies in `[vmin, vmax]`. |
| Kernel.RipoStep | Programs/Python/MIDAS/engine.py:829-1101 | A RIPO agent in a circular arena keeps its speed without speed noise, and with it moves at a speed in `[vmin, vmax]`. |
| Kernel.RipoThread | Programs/Python/MIDAS/engine.py:829-1101 | A RIPO thread's new position and velocity are `RipoStep`: perception, `WS`, turn, noise and clamp, then the boundary. |
| Kernel.AgentStep | Programs/Python/MIDAS/engine.py:743-1101 | A fixed agent neither moves nor touches its velocity slot. A RIPO agent in a circular arena without speed noise keeps its speed. |
| Kernel.AgentThread | Programs/Python/MIDAS/engine.py:743-1101 | Thread `i` writes slot `i` of `p1`/`v1` and nothing else. A fixed agent copies its position and leaves `v1[i]` untouched. |
| Kernel.Next | Programs/Python/MIDAS/engine.py:743-1101 | The state the launch writes holds, for every agent, exactly that agent's step from the previous state. |
| Kernel.GridDim | Programs/Python/MIDAS/engine.py:557-559 | `ceil(N/32)` blocks of 32 threads cover every agent with less than one block to spare. |
| Kernel.Launch | Programs/Python/MIDAS/engine.py:474-489 | Running every thread one after the other, with threads past `N` doing nothing, writes `Next` of the previous buffers into the other buffers. |
| Engine.Agents.constructor | Programs/Python/MIDAS/engine.py:117-138 | No agents and empty tables. |
| Engine.Speeds | Programs/Python/MIDAS/engine.py:351-365 | There is one initial speed per agent, and each is 0.01 unless speeds are given. |
| Engine.Velocities | Programs/Python/MIDAS/engine.py:365-370 | Agent `k`'s polar velocity is its speed and its orientation. |
| Engine.Params | Programs/Python/MIDAS/engine.py:372-392 | For each agent, `vmin` defaults to 0 and `vmax` to the agent's initial speed; `damax` is as given; both noise amplitudes default to 0. |
| GroupIds.GroupIndex | Programs/Python/MIDAS/engine.py:417-420 | `names.index(x)` when present, else `len(names)`. The index holds `x` exactly when `x` is among the names, and no earlier name is `x`. |
| GroupIds.AppendKeepsDistinct | Programs/Python/MIDAS/engine.py:417-422 | Registering only absent names keeps the group names distinct. |
| GroupIds.Enrol | Programs/Python/MIDAS/engine.py:413-434 | The part of `add_group` both tables share. The name is appended only when new, the `n` new agents get its type, and they get the id `names.index(name)`. |
| GroupIds.RegisterAsWritten | Programs/Python/MIDAS/engine.py:413-434 | `add_group` as written: only a RIPO group touches the table, through `param_RIPO`. A fixed group leaves the table unchanged and the table stays rectangular. |
| GroupIds.Register | Programs/Python/MIDAS/engine.py:413-434 | `add_group` as intended: a new name adds one row, so group id `k` reads row `k`. The table stays rectangular. |
| GroupIds.AddRowKeepsRowsMatch | Programs/Python/MIDAS/engine.py:413-434 | Appending a new group's row keeps every row that of its group, padded to the new width. |
| GroupIds.RegisterKeepsCoherent | Programs/Python/MIDAS/engine.py:413-434 | The intended registration keeps distinct names, one padded row per group, and every agent's group id a group. |
| GroupIds.RegisterKeepsTypes | Programs/Python/MIDAS/engine.py:413-434 | A registration that repeats a known name's type keeps every agent typed as its group. |
| GroupIds.ExpectedRowOk | Programs/Python/MIDAS/engine.py:862-958 | The decoded row of a configuration that is readable with `nG` groups passes the kernel's row checks. |
| GroupIds.CoherentWellFormed | Programs/Python/MIDAS/engine.py:842-870 | With one row per group, agents typed as their groups and readable configurations, every RIPO agent's group id indexes the table and its row decodes. |
| GroupIds.RegisterAsWrittenTwo | Programs/Python/MIDAS/engine.py:413-434 | As written, a fixed group then a RIPO group of one agent each give types `[FIXED, RIPO]`, ids `[0, 1]` and a one-row table. |
| GroupIds.FixedBeforeRipoHasNoRow | Programs/Python/MIDAS/engine.py:413-434 | In that case the RIPO agent's id 1 is past the end of the table, so the world is not well formed. |
| GroupIds.RegisterNewName | Programs/Python/MIDAS/engine.py:413-434 | One agent under a new name gets the next id, and the name, type and configuration are appended. |
| GroupIds.RegisterTwo | Programs/Python/MIDAS/engine.py:413-434 | Two registrations under different names, as intended, give ids `[0, 1]` and the two names, types and configurations in order. |
| GroupIds.RegisterTwoCoherent | Programs/Python/MIDAS/engine.py:413-434 | Those two registrations are coherent and keep every agent typed as its group. |
| GroupIds.TwoGroupsWellFormed | Programs/Python/MIDAS/engine.py:842-870 | A coherent fixed group and RIPO group with a configuration readable for two groups give a two-row table that the kernel reads without fault. |
| GroupIds.FixedBeforeRipoIntended | Programs/Python/MIDAS/engine.py:413-434 | As intended, a fixed group then a RIPO group give a two-row table and a well-formed world. |
| GroupIds.FixedThenRipoExample | Programs/Python/MIDAS/engine.py:413-434 | For groups named "FIXED" and "RIPO" with a concrete configuration: as written the table has one row, and as intended the world is well formed. |
| Engine.Device.constructor | Programs/Python/MIDAS/engine.py:553-575 | The device holds the initial state in `p0/v0` and unset buffers `p1/v1`, with `gridDim = ceil(N/32)`. |
| Engine.StepBuffers | Programs/Python/MIDAS/engine.py:474-501 | On an odd step the kernel reads `p0/v0` and writes `p1/v1`, on an even step the reverse. The pair it reads is left unchanged. |
| Engine.RunBuffers | Programs/Python/MIDAS/engine.py:629-642 | Steps 1 .. steps-1 run in order and the buffers keep their sizes. |
| Engine.StepReadsPrevious | Programs/Python/MIDAS/engine.py:474-501 | Step 1 reads the uploaded initial state. Every later step reads exactly what the previous step exposed and exposes `Next` of it. |
| Engine.RestingAgentsStay | Programs/Python/MIDAS/engine.py:474-501 | Over any number of steps, fixed agents and RIPO agents at rest without speed noise keep their initial position. |
| Engine.RestingAcrossStep | Programs/Python/MIDAS/engine.py:474-501 | One step of a run: whatever a resting agent's position was in the state step `i` reads, it is the same in the state step `i` writes. |
| Engine.Engine.constructor | Programs/Python/MIDAS/engine.py:300-330 | The engine starts with the given geometry, no agents, no groups, one step, and no storage, animation or device. |
| Engine.Engine.AddGroup | Programs/Python/MIDAS/engine.py:340-434 | `N` rows are appended to every agent table. The group tables change as `GroupIds.Register` says, so one row per group and every agent's group id within them are kept. The new agents' group is the one that carries the group name, and it has a row. A new name adds its type and its row; a known name adds neither. A RIPO group appends `nR`, `nR*nSa*nSb`, `nOut*nR*nSa*nSb` and `nI` to the size lists. Any other type appends 0 to `l_nR`, `l_nZ` and `l_nI`. |
| Engine.Engine.DefineGroup | Programs/Python/MIDAS/engine.py:413-434 | The group-definition part of `add_group` changes the group tables and the agents' type and group columns as `GroupIds.Register` says, and keeps them coherent. |
| Engine.Engine.RegisterGroup | Programs/Python/MIDAS/engine.py:416-422 | The group id is the name's index. The name and its type are appended only when the name is new. |
| Engine.Agents.AppendRows | Programs/Python/MIDAS/engine.py:397-411 | Appends `k` positions, velocities and parameter rows to the agent tables and adds `k` to the count. The type and group columns are left alone. |
| Engine.Agents.AppendGroup | Programs/Python/MIDAS/engine.py:400-434 | Appends `k` copies of the type to the type column and `k` copies of the group id to the group column. The other tables are left alone. |
| Engine.Engine.GroupParameters | Programs/Python/MIDAS/engine.py:424-431 | `match gtype`: RIPO calls `param_RIPO` and any other type appends 0 to `l_nR`, `l_nZ` and `l_nI`. A new group's row is appended, `[0]` for a fixed group (the intended update, see Findings). |
| Engine.Engine.Step | Programs/Python/MIDAS/engine.py:474-501 | The device buffers become `StepBuffers` of the old ones, and the agents' positions and velocities are the pair just written. |
| Engine.Engine.Run | Programs/Python/MIDAS/engine.py:517-575 | Without animation, a missing step count or storage makes it return with nothing changed. Building `CUDA(self)` raises exactly when `DeviceSizes` is `None`, and always when no RIPO group was added; nothing then changes. Otherwise it uploads the state, with `gridDim = ceil(N/32)`, and runs steps 1 .. steps-1, leaving the agents at the last state written. With animation only the upload happens. It requires one row per group, agents typed as their groups and readable RIPO configurations (see the `GroupIds` rows); that is the intended table of the first two Findings rows. |
| Engine.Engine.Start | Programs/Python/MIDAS/engine.py:553-642 | After the checks: the state is uploaded and, without animation, the buffers end at `RunBuffers` with the agents at the last state written. |
| Engine.Engine.Upload | Programs/Python/MIDAS/engine.py:553-575 | A fresh device holds the world of the engine, the agents' state in `p0/v0` and unset `p1/v1`, with `gridDim = ceil(N/32)`. |
| Engine.Max | Programs/Python/MIDAS/engine.py:719-723 | Python's `max` of a non-empty list is one of its elements and no smaller than any of them. |
| Engine.DeviceSizes | Programs/Python/MIDAS/engine.py:719-723 | `None` exactly when one of the size lists is empty, where `max` raises `ValueError`. Otherwise every exposed size is the maximum of its list, and `m_nCad = m_nCaf * N`. |
| Engine.Engine.RunSteps | Programs/Python/MIDAS/engine.py:629-642 | `for step in range(steps): if step: step(step)` leaves the buffers at `RunBuffers` and the agents at the last state written, or at the initial state for fewer than two steps. |
| Engine.Engine.RunIteration | Programs/Python/MIDAS/engine.py:640-641 | One pass of the loop takes the buffers from `RunBuffers` at `step` to `RunBuffers` at `step + 1`. It keeps the agents at the last state written. |
| Coefficients.MakeCoefficients | Programs/Python/MIDAS/coefficients.py:11-41 | There is one coefficient per output without a grid, and `nG*nZ` per output with one, so `nC = nO*nCpO`. IGNORE gives `nC` zeros, and explicit coefficients are kept as given. |
| Coefficients.ModOfInt | Programs/Python/MIDAS/coefficients.py:61-64 | Python's `%` on a positive modulus agrees with the Euclidean remainder, on ints and on exact floats. |
| Coefficients.Signed | Programs/Python/MIDAS/coefficients.py:61-64 | A weight is the coefficient or its negation. |
| Coefficients.Flipped | Programs/Python/MIDAS/coefficients.py:58-64 | Only speed modulation and reorientation negate a zone. For a positive slice count, reorientation negates exactly the zones in the second half of the turn. |
| Coefficients.ReorientationSigns | Programs/Python/MIDAS/coefficients.py:63-64 | With four slices, reorientation flips the sign of exactly the slices `j % 4` in {2, 3}. |
| Coefficients.SpeedModulationSigns | Programs/Python/MIDAS/coefficients.py:60-61 | With four slices, speed modulation flips the sign of exactly the slices `j % 4` in {1, 2}. |
| Coefficients.ReorientationHalfTurn | Programs/Python/MIDAS/coefficients.py:63-64 | For any positive slice count, reorientation flips exactly the slices in the second half of the turn, `2*(j % nSa) >= nSa`. |
| Coefficients.SpeedModulationQuarterTurn | Programs/Python/MIDAS/coefficients.py:60-61 | For any slice count that is a multiple of four, speed modulation flips zone `j` exactly when reorientation flips zone `j + nSa/4`, that is, when `j + nSa/4` lies in the second half of the turn. |
| Coefficients.Block | Programs/Python/MIDAS/coefficients.py:54-64 | An emitting output gets `nCpO` weights and any other action none. |
| Coefficients.ToWeights | Programs/Python/MIDAS/coefficients.py:43-49 | Without a grid the weights are the coefficients themselves. |
| Coefficients.WeightsUpTo | Programs/Python/MIDAS/coefficients.py:53-64 | The loops over the first `m` outputs raise exactly when the block of one of them raises. |
| Coefficients.WeightsUpToLength | Programs/Python/MIDAS/coefficients.py:53-64 | The first `m` outputs contribute `nCpO` weights for each one that emits. |
| Coefficients.WeightsUpToEntry | Programs/Python/MIDAS/coefficients.py:53-64 | When every output up to `m` emits, entry `nCpO*i + j` is coefficient `k = nCpO*i + j` with the sign its action and slice call for. |
| Coefficients.WeightsMatchLength | Programs/Python/MIDAS/coefficients.py:53-66 | When every output emits there is exactly one weight per coefficient slot, `nO*nCpO`. |
| Coefficients.WeightsMatchCoefficients | Programs/Python/MIDAS/coefficients.py:53-66 | When every output emits, weight `k = nCpO*i + j` is `±C[k]`, with the sign that output's action and slice `j` call for. |
| Coefficients.WeightsLength | Programs/Python/MIDAS/coefficients.py:53-66 | `nCpO` weights per output that emits. |
| Coefficients.IgnoredWeightsAreZero | Programs/Python/MIDAS/coefficients.py:35-66 | IGNORE coefficients export to all-zero weights. |
| Coefficients.ToWeightsLoop | Programs/Python/MIDAS/coefficients.py:43-66 | The nested loops with their appends compute `ToWeights`. |
| Coefficients.AppendBlock | Programs/Python/MIDAS/coefficients.py:54-64 | The inner loop appends output `i`'s block to `W`. It fails exactly when the block raises. |

## Left out

- Transcendental functions are supplied by the caller in `Kernel.Trig`:
  - `cmath.rect`, `cmath.polar` and `cmath.phase` with the slice fraction;
  - the `atan`/`exp` reorientation activation;
  - the circular wall bounce built on `asin` and `cmath.exp`.

  The model only assumes that a phase fraction lies in [0, 1) and that a zero-length `rect` is the origin.
- Boundary.Relative2D: the rotation of the offset by `-a0` is not applied. The offset stays in the arena's frame and the slice fraction takes the heading as an argument instead.
- Arithmetic is exact: the float32 rounding of the uploaded arrays and of the kernel is not modelled.
- Random numbers are parameters:
  - the normal draws of the xoroshiro128p generator are given per step and agent;
  - the random initial positions and orientations (`set_initial_positions`, `set_initial_orientations`) are not modelled, and positions and orientations are given.
- Only dimension 2 is modelled for the agent tables, the kernel and the engine. `Geometry`, the `geom` vector and the group row are modelled for dimensions 1 to 3.
- The orientation input (`i_ornt`, `i_orntC`) and the non-NONE normalizations are not modelled. The source leaves them as stubs. An orientation record still takes its coefficients in the scan and adds nothing to `WS`.
- Kernel.RipoThread: the output dispatch is not modelled and `da` is `trig.turn(damax, WS, outputs)`. The dispatch compares codes from `Output`/`Activation` members that the `enums.py` shown does not define. The speed change `dv` is 0 in every branch of the source, and so in the model.
- Kernel.AgentStep: a fixed agent copies its position and its thread then ends, as the kernel's comment documents. In the source the thread falls through to the update with `da`/`dv` never bound.
- Kernel.Presence: the histogram starts at zero, the intended start of the third Findings row. It has `max(nR*nSa, nc_ADI)` cells instead of `m_nCad`, the size the largest group sets.
- Kernel.RipoWeightedSum: the local `weights` array has as many cells as the decoded weights, not `m_nI`.
- Kernel.WeightedSum: every unnormalized presence record adds the histogram weighted by the first `nc_ADI` weights, because the source indexes `weights[ci]` from 0 for every record. For a single presence record, the case the source supports, this is the intended sum.
- Engine.Device.constructor: the unset contents of the second buffer pair (`cuda.device_array`) are a parameter `junk`.
- `add_group` and `param_RIPO` arguments: `damax`, `inputs` and `outputs` are required.
  - The `damax` default refers to `Default.damax`, which the enumeration module does not define.
  - The `outputs` default refers to `Output`/`Activation` members that are not defined.
  - The `inputs` loop reads `kwargs['inputs']` and so fails when it is absent.
- GroupParams.Groups.ParamRIPO, Engine.Engine.AddGroup and Engine.Engine.GroupParameters use the intended table updates of the first two Findings rows, not the code as written. A new group name adds exactly one row: the row is appended in every case, and a fixed group's row is `[0]`. A known name adds no row. The as-written updates are `GroupParams.AddRowAsWritten` and `GroupIds.RegisterAsWritten`.
- Engine.Engine.Run: of `CUDA.__init__`, only the `ValueError` of `max` on an empty size list is modelled (`Engine.DeviceSizes`). The exposed sizes are not passed on to the kernel, whose local arrays are sized by the decoded row.
- Storage, animation, verbose output, timing and `end()` are not modelled (I/O and GUI). `Run` models only which branch is taken.
- Coefficients.MakeCoefficients: `IGNORE` is the only coefficient set modelled, because the others are commented out in the enumeration.
- Coefficients.ToWeights: returns `None` where Python raises: a modulo by a zero slice count, or a coefficient index past the end of `C`.
- The circular branch of `assign_2d` keeps the speed and the bounce result. The reflection geometry itself is the caller's `bounce` function.

## Findings

| source | as written | input that shows it | evidently intended | confidence | as-written member | corrected member |
|---|---|---|---|---|---|---|
| Programs/Python/MIDAS/engine.py:272-280 | The `np.concatenate` that appends the new row sits inside the `elif` branch for a wider row. A row as wide as the table, or narrower, is padded or left alone and never appended. | Two RIPO groups with the same two-dimensional configuration (no radii, no inputs, one output): the table keeps one row, so the second group's agents read a row that is not theirs. | Pad the narrower of the two and append the row in every case. | not executed | GroupParams.AddRowAsWritten (shown by GroupParams.SecondEqualRowDropped) | GroupParams.AddRow |
| Programs/Python/MIDAS/engine.py:413-434 | Every agent gets the group id `names.index(gname)`, and the kernel reads row `gid` of `gparam`. Only a RIPO group adds a row, through `param_RIPO`, so after a fixed group the ids run ahead of the rows. | A FIXED group of one agent, then a RIPO group of one agent: the RIPO agent has id 1 in a one-row table, and `gparam[1, 0]` is out of range. | Every new group name adds exactly one row, so that id `k` reads row `k`. | not executed | GroupIds.RegisterAsWritten (shown by GroupIds.FixedBeforeRipoHasNoRow and GroupIds.FixedThenRipoExample) | GroupIds.Register (proved by GroupIds.RegisterKeepsCoherent and GroupIds.CoherentWellFormed) |
| Programs/Python/MIDAS/engine.py:920-999 | `i_pres` is a `cuda.local.array`, which is not initialised, and the perception loop only adds 1 to its cells. | Any cell whose memory held 1 before the loop: with no neighbour in that zone it reads 1 instead of 0. | The histogram starts at zero in every cell. | not executed | Kernel.HistogramAsWritten (shown by Kernel.HistogramAsWrittenNeedsZeros) | Kernel.PresenceHistogram |
