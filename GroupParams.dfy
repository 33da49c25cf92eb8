/**
 * The group parameter table of engine.py (class `Groups`): the flat row that
 * `param_RIPO` serializes for one group of RIPO agents, and the rectangular
 * table the rows are collected in.
 *
 * Row layout, for dimension `dim` in 1..3:
 *   nR | nSa (dim > 1) | nSb (dim > 2) | rS sorted (nR - 1) | rmax (0 = none) |
 *   nIs | nOut | per input: perception, normalization, coefficients... |
 *   per output: kind, activation
 */
module GroupParams {

  import opened Wrappers
  import opened Enums

  /** One configured input: perception kind, normalization mode and its coefficients. */
  datatype InputSpec = InputSpec(perception: Perception, normalization: Normalization, coefficients: seq<real>)

  /**
   * One configured output, an entry `{kind: activation}` of the outputs
   * dictionary, kept as the numeric codes that are stored in the row.
   */
  datatype OutputSpec = OutputSpec(kind: int, activation: int)

  /**
   * The keyword arguments of `param_RIPO`: zone radii `rS` (absent = none),
   * angular slice counts `nSa`/`nSb` (default 4), cutoff `rmax` (absent or
   * `None` = no cutoff), inputs and outputs.
   */
  datatype RipoConfig = RipoConfig(rS: seq<real>, nSa: Option<int>, nSb: Option<int>, rmax: Option<real>,
                                   inputs: seq<InputSpec>, outputs: seq<OutputSpec>)

  // --- Sorting the zone radii (np.sort) -----------------------------------

  predicate Ascending(s: seq<real>) {
    forall i, j :: 0 <= i < j < |s| ==> s[i] <= s[j]
  }

  function Insert(x: real, s: seq<real>): (r: seq<real>)
    ensures multiset(r) == multiset(s) + multiset{x}
    ensures |r| == |s| + 1
  {
    if s == [] then [x]
    else if x <= s[0] then [x] + s
    else
      assert s == [s[0]] + s[1..];
      [s[0]] + Insert(x, s[1..])
  }

  /** A lower bound of `x` and of every element of `s` bounds every element of the insertion. */
  lemma {:induction false} InsertBound(x: real, s: seq<real>, lo: real)
    requires lo <= x && forall k :: 0 <= k < |s| ==> lo <= s[k]
    ensures forall k :: 0 <= k < |Insert(x, s)| ==> lo <= Insert(x, s)[k]
  {
    if s != [] && x > s[0] {
      InsertBound(x, s[1..], lo);
    }
  }

  /** Inserting into an ascending sequence keeps it ascending. */
  lemma {:induction false} InsertAscending(x: real, s: seq<real>)
    requires Ascending(s)
    ensures Ascending(Insert(x, s))
  {
    var r := Insert(x, s);
    if s == [] {
    } else if x <= s[0] {
      forall i, j | 0 <= i < j < |r|
        ensures r[i] <= r[j]
      {
        if i > 0 {
          assert r[i] == s[i - 1];
        }
        assert r[j] == s[j - 1];
      }
    } else {
      var tail := Insert(x, s[1..]);
      InsertAscending(x, s[1..]);
      InsertBound(x, s[1..], s[0]);
      forall i, j | 0 <= i < j < |r|
        ensures r[i] <= r[j]
      {
        assert r[j] == tail[j - 1];
        if i > 0 {
          assert r[i] == tail[i - 1];
        }
      }
    }
  }

  /** `np.sort`: the ascending permutation of `s`. */
  function Sort(s: seq<real>): (r: seq<real>)
    ensures Ascending(r)
    ensures multiset(r) == multiset(s)
    ensures |r| == |s|
  {
    if s == [] then []
    else
      assert s == [s[0]] + s[1..];
      InsertAscending(s[0], Sort(s[1..]));
      Insert(s[0], Sort(s[1..]))
  }

  // --- Serialization -------------------------------------------------------

  /** Number of radial zones: one more than the number of zone radii. */
  function NR(c: RipoConfig): nat {
    |c.rS| + 1
  }

  /** Angular slice count in the first angle (1 in dimension 1). */
  function NSa(dim: nat, c: RipoConfig): int {
    if dim > 1 then c.nSa.GetOr(4) else 1
  }

  /** Angular slice count in the second angle (1 below dimension 3). */
  function NSb(dim: nat, c: RipoConfig): int {
    if dim > 2 then c.nSb.GetOr(4) else 1
  }

  /** Total coefficient count of the inputs (`nI`). */
  function NI(inputs: seq<InputSpec>): nat {
    if inputs == [] then 0 else |inputs[0].coefficients| + NI(inputs[1..])
  }

  function GridHeader(dim: nat, c: RipoConfig): seq<real> {
    [NR(c) as real]
    + (if dim > 1 then [NSa(dim, c) as real] else [])
    + (if dim > 2 then [NSb(dim, c) as real] else [])
  }

  function InputBlock(inp: InputSpec): seq<real> {
    [PerceptionCode(inp.perception) as real, NormalizationCode(inp.normalization) as real] + inp.coefficients
  }

  function InputsBlock(inputs: seq<InputSpec>): seq<real> {
    if inputs == [] then [] else InputBlock(inputs[0]) + InputsBlock(inputs[1..])
  }

  function OutputsBlock(outputs: seq<OutputSpec>): seq<real> {
    if outputs == [] then []
    else [outputs[0].kind as real, outputs[0].activation as real] + OutputsBlock(outputs[1..])
  }

  /** Everything before the input records. */
  function RowPrefix(dim: nat, c: RipoConfig): seq<real> {
    GridHeader(dim, c) + Sort(c.rS) + [c.rmax.GetOr(0.0)] + [|c.inputs| as real, |c.outputs| as real]
  }

  /** The row `param_RIPO` serializes for configuration `c`. */
  function RipoRow(dim: nat, c: RipoConfig): (r: seq<real>)
    // the row opens with `nR`
    ensures |r| > 0 && r[0] == NR(c) as real
    // grid header, radii, cutoff, two counts, then two codes and the coefficients per input
    // and two codes per output
    ensures 1 <= dim <= 3 ==>
              |r| == dim + (NR(c) - 1) + 3 + (2 * |c.inputs| + NI(c.inputs)) + 2 * |c.outputs|
  {
    var r := RowPrefix(dim, c) + InputsBlock(c.inputs) + OutputsBlock(c.outputs);
    InputsBlockLength(c.inputs);
    OutputsBlockLength(c.outputs);
    if 1 <= dim <= 3 then (GridHeaderLength(dim, c); r) else r
  }

  lemma GridHeaderLength(dim: nat, c: RipoConfig)
    requires 1 <= dim <= 3
    ensures |GridHeader(dim, c)| == dim
  {
  }

  lemma {:induction false} InputsBlockLength(inputs: seq<InputSpec>)
    ensures |InputsBlock(inputs)| == 2 * |inputs| + NI(inputs)
  {
    if inputs != [] {
      InputsBlockLength(inputs[1..]);
    }
  }

  lemma {:induction false} OutputsBlockLength(outputs: seq<OutputSpec>)
    ensures |OutputsBlock(outputs)| == 2 * |outputs|
  {
    if outputs != [] {
      OutputsBlockLength(outputs[1..]);
    }
  }

  lemma {:induction false} InputsBlockSnoc(inputs: seq<InputSpec>, inp: InputSpec)
    ensures InputsBlock(inputs + [inp]) == InputsBlock(inputs) + InputBlock(inp)
    ensures NI(inputs + [inp]) == NI(inputs) + |inp.coefficients|
  {
    if inputs == [] {
      assert [inp][1..] == [];
    } else {
      assert (inputs + [inp])[1..] == inputs[1..] + [inp];
      InputsBlockSnoc(inputs[1..], inp);
    }
  }

  lemma {:induction false} OutputsBlockSnoc(outputs: seq<OutputSpec>, o: OutputSpec)
    ensures OutputsBlock(outputs + [o]) == OutputsBlock(outputs) + [o.kind as real, o.activation as real]
  {
    if outputs == [] {
      assert [o][1..] == [];
    } else {
      assert (outputs + [o])[1..] == outputs[1..] + [o];
      OutputsBlockSnoc(outputs[1..], o);
    }
  }

  // --- The rectangular table -----------------------------------------------

  /** Column count of the table (0 while it is empty). */
  function Width(t: seq<seq<real>>): nat {
    if |t| == 0 then 0 else |t[0]|
  }

  predicate Rectangular(t: seq<seq<real>>) {
    forall k :: 0 <= k < |t| ==> |t[k]| == Width(t)
  }

  /** The shape every table built from non-empty rows has. */
  predicate TableShape(t: seq<seq<real>>) {
    Rectangular(t) && (|t| > 0 ==> Width(t) > 0)
  }

  function Zeros(n: nat): (z: seq<real>)
    ensures |z| == n && forall k :: 0 <= k < n ==> z[k] == 0.0
  {
    seq(n, _ => 0.0)
  }

  /** `np.pad` with trailing zeros up to width `w` (a longer row is left as is). */
  function Pad(r: seq<real>, w: nat): (p: seq<real>)
    ensures |p| == if |r| < w then w else |r|
    ensures p[..|r|] == r
    ensures forall k :: |r| <= k < |p| ==> p[k] == 0.0
  {
    if |r| < w then r + Zeros(w - |r|) else r
  }

  function PadRows(t: seq<seq<real>>, w: nat): (p: seq<seq<real>>)
    ensures |p| == |t|
    ensures forall k :: 0 <= k < |t| ==> p[k] == Pad(t[k], w)
  {
    seq(|t|, k requires 0 <= k < |t| => Pad(t[k], w))
  }

  /**
   * The table update at the end of `param_RIPO`, AS WRITTEN: the new row is
   * appended only in the branch where it is longer than the table, because
   * the concatenation sits inside that branch.
   */
  function AddRowAsWritten(t: seq<seq<real>>, row: seq<real>): (r: seq<seq<real>>)
    requires TableShape(t) && |row| > 0
    ensures TableShape(r)
    ensures |t| == 0 || Width(t) < |row| ==> |r| == |t| + 1 && r[|t|] == row
    // a row no longer than the table is dropped: the table does not change
    ensures |t| > 0 && |row| <= Width(t) ==> r == t
  {
    if |t| * Width(t) != 0 then
      if Width(t) > |row| then t
      else if Width(t) < |row| then PadRows(t, |row|) + [row]
      else t
    else
      [row]
  }

  /**
   * The table update as evidently intended: the row is zero-padded to the
   * table's width or the table to the row's, and the row is appended in
   * every case.
   */
  function AddRow(t: seq<seq<real>>, row: seq<real>): (r: seq<seq<real>>)
    requires TableShape(t) && |row| > 0
    ensures TableShape(r)
    ensures |r| == |t| + 1
    // the width never shrinks
    ensures Width(r) == if Width(t) < |row| then |row| else Width(t)
    // existing rows are kept, up to trailing zeros
    ensures forall k :: 0 <= k < |t| ==> r[k] == Pad(t[k], Width(r)) && r[k][..Width(t)] == t[k]
    ensures r[|t|] == Pad(row, Width(r)) && r[|t|][..|row|] == row
  {
    if |t| * Width(t) != 0 then
      if Width(t) > |row| then t + [Pad(row, Width(t))]
      else if Width(t) < |row| then PadRows(t, |row|) + [row]
      else t + [row]
    else
      [row]
  }

  /**
   * Decoding the first group's row from the table is unaffected by adding a
   * second group: its row is the same up to trailing zeros.
   */
  lemma AddRowKeepsFirstRow(row1: seq<real>, row2: seq<real>)
    requires |row1| > 0 && |row2| > 0
    ensures var t := AddRow(AddRow([], row1), row2);
            |t| == 2 && t[0][..|row1|] == row1 && t[1][..|row2|] == row2
            && forall k :: |row1| <= k < |t[0]| ==> t[0][k] == 0.0
  {
  }

  /** The default configuration of a two-dimensional group with no inputs and one output. */
  function ExampleConfig(): RipoConfig {
    RipoConfig([], None, None, None, [], [OutputSpec(1, 0)])
  }

  /**
   * As written, registering two RIPO groups whose rows have equal length
   * (here twice the same configuration) leaves a one-row table: the second
   * group has no row for the kernel to read.
   */
  lemma SecondEqualRowDropped()
    ensures var row := RipoRow(2, ExampleConfig());
            |AddRowAsWritten(AddRowAsWritten([], row), row)| == 1
    ensures var row := RipoRow(2, ExampleConfig());
            |AddRow(AddRow([], row), row)| == 2
  {
    var row := RipoRow(2, ExampleConfig());
    assert |row| > 0 by {
      assert RipoRow(2, ExampleConfig())[0] == 1.0;
    }
  }

  // --- The intended id-to-row mapping -------------------------------------

  /**
   * The row a newly named group receives when group id `k` is to be row `k`
   * of the table: the serialized row for a RIPO group, a single zero (padded
   * along with the table) for any other type.
   */
  function GroupRow(dim: nat, gtype: AgentKind, c: RipoConfig): (r: seq<real>)
    ensures |r| > 0
  {
    if gtype == Ripo then
      assert RipoRow(dim, c)[0] == NR(c) as real;
      RipoRow(dim, c)
    else
      [0.0]
  }

  /** Padding an already padded row further is padding the original row. */
  lemma PadTwice(r: seq<real>, w1: nat, w2: nat)
    requires |r| <= w1 <= w2
    ensures Pad(Pad(r, w1), w2) == Pad(r, w2)
  {
    var p, q := Pad(Pad(r, w1), w2), Pad(r, w2);
    assert |p| == w2 == |q|;
    forall k | 0 <= k < w2
      ensures p[k] == q[k]
    {
      if k < |r| {
        assert p[k] == p[..w1][k] == Pad(r, w1)[k] == Pad(r, w1)[..|r|][k];
        assert q[k] == q[..|r|][k];
      }
    }
  }

  /** Append one input record field by field. */
  method AppendInput(row: seq<real>, inp: InputSpec) returns (r: seq<real>)
    ensures r == row + InputBlock(inp)
  {
    r := row + [PerceptionCode(inp.perception) as real];
    r := r + [NormalizationCode(inp.normalization) as real];
    var j := 0;
    while j < |inp.coefficients|
      invariant 0 <= j <= |inp.coefficients|
      invariant r == row + [PerceptionCode(inp.perception) as real, NormalizationCode(inp.normalization) as real]
                         + inp.coefficients[..j]
    {
      r := r + [inp.coefficients[j]];
      j := j + 1;
    }
    assert inp.coefficients[..j] == inp.coefficients;
  }

  /** The fields before the input records, appended one by one. */
  method SerializePrefix(dim: nat, c: RipoConfig) returns (row: seq<real>)
    ensures row == RowPrefix(dim, c)
  {
    row := SerializeGrid(dim, c);
    var rS := Sort(c.rS);
    var r := 0;
    while r < |rS|
      invariant 0 <= r <= |rS|
      invariant row == GridHeader(dim, c) + rS[..r]
    {
      row := row + [rS[r]];
      r := r + 1;
    }
    assert rS[..|rS|] == rS;
    row := row + [c.rmax.GetOr(0.0)];
    row := row + [|c.inputs| as real];
    row := row + [|c.outputs| as real];
  }

  /** The zone-grid shape: `nR`, then `nSa` and `nSb` where the dimension has them. */
  method SerializeGrid(dim: nat, c: RipoConfig) returns (row: seq<real>)
    ensures row == GridHeader(dim, c)
  {
    var nR := |c.rS| + 1;
    row := [nR as real];
    if dim > 1 {
      row := row + [c.nSa.GetOr(4) as real];
    }
    if dim > 2 {
      row := row + [c.nSb.GetOr(4) as real];
    }
  }

  /**
   * The row building of `param_RIPO`: the list `param` grown by appends, and
   * the coefficient count `nI`.
   */
  method SerializeRipo(dim: nat, c: RipoConfig) returns (row: seq<real>, nI: nat)
    ensures row == RipoRow(dim, c)
    ensures nI == NI(c.inputs)
  {
    row := SerializePrefix(dim, c);
    nI := 0;
    var i := 0;
    while i < |c.inputs|
      invariant 0 <= i <= |c.inputs|
      invariant row == RowPrefix(dim, c) + InputsBlock(c.inputs[..i])
      invariant nI == NI(c.inputs[..i])
    {
      row := AppendInput(row, c.inputs[i]);
      nI := nI + |c.inputs[i].coefficients|;
      assert c.inputs[..i + 1] == c.inputs[..i] + [c.inputs[i]];
      InputsBlockSnoc(c.inputs[..i], c.inputs[i]);
      i := i + 1;
    }
    assert c.inputs[..i] == c.inputs;
    row := AppendOutputs(row, c.outputs);
  }

  /** The output loop of `param_RIPO`: two appends per output. */
  method AppendOutputs(prefix: seq<real>, outputs: seq<OutputSpec>) returns (row: seq<real>)
    ensures row == prefix + OutputsBlock(outputs)
  {
    row := prefix;
    var o := 0;
    while o < |outputs|
      invariant 0 <= o <= |outputs|
      invariant row == prefix + OutputsBlock(outputs[..o])
    {
      row := row + [outputs[o].kind as real];
      row := row + [outputs[o].activation as real];
      assert outputs[..o + 1] == outputs[..o] + [outputs[o]];
      OutputsBlockSnoc(outputs[..o], outputs[o]);
      o := o + 1;
    }
    assert outputs[..o] == outputs;
  }

  // --- The Groups object ---------------------------------------------------

  predicate Distinct(names: seq<string>) {
    forall i, j :: 0 <= i < j < |names| ==> names[i] != names[j]
  }

  /**
   * `class Groups`: the group names and types, the serialized parameter
   * table and the per-group size lists the kernel's scratch sizes come from.
   */
  class Groups {
    const dimension: nat
    var count: nat
    var names: seq<string>
    var atype: seq<AgentKind>
    var param: seq<seq<real>>
    var lnR: seq<int>
    var lnZ: seq<int>
    var lnCaf: seq<int>
    var lnI: seq<int>
    /** The configuration each group was first registered with, by group id. */
    ghost var configs: seq<RipoConfig>

    ghost predicate Valid()
      reads this
    {
      && TableShape(param)
      && count == |names| == |atype| == |configs|
      && Distinct(names)
      && |lnR| == |lnZ| == |lnI|
    }

    constructor (dimension: nat)
      ensures Valid()
      ensures this.dimension == dimension && count == 0 && names == [] && atype == [] && configs == []
      ensures param == [] && lnR == [] && lnZ == [] && lnCaf == [] && lnI == []
    {
      this.dimension := dimension;
      count := 0;
      names := [];
      atype := [];
      configs := [];
      param := [];
      lnR, lnZ, lnCaf, lnI := [], [], [], [];
    }

    /**
     * `param_RIPO(**kwargs)`: serialize the group's row by appending field by
     * field, extend the size lists and, when the group is new, add the row to
     * the table, so that group id `k` keeps row `k`.
     */
    method ParamRIPO(c: RipoConfig, newGroup: bool)
      requires Valid()
      modifies this`param, this`lnR, this`lnZ, this`lnCaf, this`lnI
      ensures Valid()
      ensures param == if newGroup then AddRow(old(param), RipoRow(dimension, c)) else old(param)
      ensures lnR == old(lnR) + [NR(c)]
      ensures lnZ == old(lnZ) + [NR(c) * NSa(dimension, c) * NSb(dimension, c)]
      ensures lnCaf == old(lnCaf) + [|c.outputs| * NR(c) * NSa(dimension, c) * NSb(dimension, c)]
      ensures lnI == old(lnI) + [NI(c.inputs)]
    {
      var row, nI := SerializeRipo(dimension, c);
      var nR, nSa, nSb := NR(c), NSa(dimension, c), NSb(dimension, c);
      if newGroup {
        param := AddRow(param, row);
      }
      lnR := lnR + [nR];
      lnZ := lnZ + [nR * nSa * nSb];
      lnCaf := lnCaf + [|c.outputs| * nR * nSa * nSb];
      lnI := lnI + [nI];
    }
  }
}
