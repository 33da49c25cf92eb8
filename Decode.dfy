/**
 * The kernel side of the group parameter row: how `CUDA_step` reads one
 * row of `gparam` back by index arithmetic (engine.py, the deserialization
 * of the RIPO parameters), and the round trip with `param_RIPO`.
 */
module Decode {

  import opened Wrappers
  import opened Enums
  import opened GroupParams

  /** `int(x)`: truncation toward zero. */
  function Trunc(x: real): (n: int)
    ensures x >= 0.0 ==> n == x.Floor
    ensures x < 0.0 ==> n == -((-x).Floor)
  {
    if x >= 0.0 then x.Floor else -((-x).Floor)
  }

  lemma TruncInt(n: int)
    ensures Trunc(n as real) == n
  {
    if n < 0 {
      assert -(n as real) == (-n) as real;
    }
  }

  /**
   * One input record as the kernel's `match gparam[gid, k]` sees it. Only a
   * presence record has its normalization read; a code the kernel does not
   * know leaves the read position where it was.
   */
  datatype InputSlot = PresenceSlot(normalization: real) | OrientationSlot | OtherSlot(code: real)

  /** The decoded row: every quantity the kernel derives from it. */
  datatype RowParams = RowParams(
    nR: int, nSa: int, nSb: int,
    rS: seq<real>,
    rmax: Option<real>,
    nIs: int, nOut: int,
    nc: nat,                    // nc_ADI, coefficients per agent-dependent input
    slots: seq<InputSlot>,
    weights: seq<real>,         // the local `weights` array, in the order it is filled
    kOref: nat,                 // where the output pairs start
    outputs: seq<(real, real)>)

  /**
   * The input scan from position `k` for `count` records, each known record
   * carrying `nc` coefficients: the slots seen, the weights gathered and the
   * position reached. `None` where a read would leave the row.
   */
  function ScanInputs(row: seq<real>, k: nat, count: nat, nc: nat): (r: Option<(seq<InputSlot>, seq<real>, nat)>)
    // one slot per record, and the position moves forward and stays inside the row
    ensures r.Some? ==> |r.value.0| == count && k <= r.value.2 && (count > 0 ==> r.value.2 <= |row|)
    decreases count
  {
    if count == 0 then Some(([], [], k))
    else if k >= |row| then None
    else if row[k] == 0.0 || row[k] == 1.0 then
      if k + 2 + nc > |row| then None
      else
        var slot := if row[k] == 0.0 then PresenceSlot(row[k + 1]) else OrientationSlot;
        match ScanInputs(row, k + nc + 2, count - 1, nc)
        case None => None
        case Some(rest) => Some(([slot] + rest.0, row[k + 2 .. k + 2 + nc] + rest.1, rest.2))
    else
      match ScanInputs(row, k, count - 1, nc)
      case None => None
      case Some(rest) => Some(([OtherSlot(row[k])] + rest.0, rest.1, rest.2))
  }

  /** `rmax = x if x > 0 else None`: a stored cutoff counts only when it is positive. */
  function Cutoff(x: real): (r: Option<real>)
    ensures r.Some? <==> x > 0.0
    ensures r.Some? ==> r.value == x
  {
    if x > 0.0 then Some(x) else None
  }

  /** The counts at the head of a row: zones, slices and record counts. */
  datatype Header = Header(nR: int, nSa: int, nSb: int, nIs: int, nOut: int)

  /**
   * The counts the kernel reads first: `nR` at 0, `nSa` at 1 and `nSb` at 2
   * (each 1 where the dimension has no such angle), then `nIs` and `nOut`
   * after the radii and the cutoff. `None` for fewer than one radial zone, a
   * negative count, or a row too short to hold them.
   */
  function ReadHeader(row: seq<real>, dim: nat): (h: Option<Header>)
    requires 1 <= dim <= 3
    ensures h.Some? ==> h.value.nR >= 1 && h.value.nSa >= 0 && h.value.nSb >= 0
    ensures h.Some? ==> h.value.nIs >= 0 && h.value.nOut >= 0
    ensures h.Some? ==> h.value.nR + dim + 2 <= |row|
  {
    if |row| < dim then None
    else
      var nR := Trunc(row[0]);
      var nSa := if dim > 1 then Trunc(row[1]) else 1;
      var nSb := if dim > 2 then Trunc(row[2]) else 1;
      if nR < 1 || nSa < 0 || nSb < 0 || |row| < nR + dim + 2 then None
      else
        var nIs := Trunc(row[nR + dim]);
        var nOut := Trunc(row[nR + dim + 1]);
        if nIs < 0 || nOut < 0 then None
        else Some(Header(nR, nSa, nSb, nIs, nOut))
  }

  /** `nc_ADI`: one coefficient per output, group, radial and angular zone. */
  function Product(nOut: int, nG: int, nR: int, nSa: int, nSb: int): int {
    nOut * nG * nR * nSa * nSb
  }

  /** The `nOut` (type, activation) pairs stored from position `k`. */
  function ReadOutputs(row: seq<real>, k: nat, nOut: nat): (p: seq<(real, real)>)
    requires k + 2 * nOut <= |row|
    ensures |p| == nOut
    ensures forall io :: 0 <= io < nOut ==> p[io] == (row[k + 2 * io], row[k + 2 * io + 1])
  {
    seq(nOut, io requires 0 <= io < nOut => (row[k + 2 * io], row[k + 2 * io + 1]))
  }

  /** Everything the kernel reads after the counts `h`. */
  function DecodeBody(row: seq<real>, dim: nat, nG: nat, h: Header): (d: Option<RowParams>)
    requires 1 <= dim <= 3
    requires h.nR >= 1 && h.nSa >= 0 && h.nSb >= 0 && h.nIs >= 0 && h.nOut >= 0
    requires h.nR + dim + 2 <= |row|
    ensures d.Some? ==> d.value.nR == h.nR && |d.value.rS| == h.nR - 1
    ensures d.Some? ==> forall ri :: 0 <= ri < h.nR - 1 ==> d.value.rS[ri] == row[dim + ri]
    ensures d.Some? ==> d.value.rmax.Some? ==> d.value.rmax.value > 0.0
    ensures d.Some? ==> |d.value.outputs| == d.value.nOut
  {
    var nc := Product(h.nOut, nG, h.nR, h.nSa, h.nSb);
    var rmax := Cutoff(row[h.nR + dim - 1]);
    match ScanInputs(row, h.nR + dim + 2, h.nIs, nc)
    case None => None
    case Some(scan) =>
      var kOref := scan.2;
      if kOref + 2 * h.nOut > |row| then None
      else
        Some(RowParams(h.nR, h.nSa, h.nSb, row[dim .. dim + h.nR - 1], rmax, h.nIs, h.nOut, nc,
                       scan.0, scan.1, kOref, ReadOutputs(row, kOref, h.nOut)))
  }

  /**
   * The kernel's decoding of one row in dimension `dim` with `nG` rows in the
   * table. `None` for a row the encoder never produces (fewer than one radial
   * zone, a negative count) or whose reads would leave the row.
   */
  function DecodeRow(row: seq<real>, dim: nat, nG: nat): (d: Option<RowParams>)
    requires 1 <= dim <= 3
    ensures d.Some? ==> d.value.nR >= 1 && |d.value.rS| == d.value.nR - 1
    ensures d.Some? ==> d.value.nR + dim + 2 <= |row|
    ensures d.Some? ==> forall ri :: 0 <= ri < d.value.nR - 1 ==> d.value.rS[ri] == row[dim + ri]
    ensures d.Some? ==> d.value.rmax.Some? ==> d.value.rmax.value > 0.0
    ensures d.Some? ==> |d.value.outputs| == d.value.nOut
  {
    match ReadHeader(row, dim)
    case None => None
    case Some(h) => DecodeBody(row, dim, nG, h)
  }

  /** A decoded row holds what the input scan gathers from just after the counts. */
  lemma DecodeScan(row: seq<real>, dim: nat, nG: nat, rp: RowParams)
    requires 1 <= dim <= 3 && DecodeRow(row, dim, nG) == Some(rp)
    ensures rp.nIs >= 0
    ensures ScanInputs(row, rp.nR + dim + 2, rp.nIs, rp.nc) == Some((rp.slots, rp.weights, rp.kOref))
  {
    var h := ReadHeader(row, dim).value;
    assert DecodeBody(row, dim, nG, h) == Some(rp);
  }

  // --- Round trip with param_RIPO -------------------------------------------

  /** Coefficients per agent-dependent input for configuration `c` with `nG` groups. */
  function NcADI(dim: nat, nG: nat, c: RipoConfig): int {
    Product(|c.outputs|, nG, NR(c), NSa(dim, c), NSb(dim, c))
  }

  /**
   * A configuration the kernel can read back: slice counts at least 1, every
   * input a presence or orientation input with one coefficient per zone,
   * output and group.
   */
  predicate Readable(dim: nat, nG: nat, c: RipoConfig) {
    && 1 <= dim <= 3
    && NSa(dim, c) >= 1 && NSb(dim, c) >= 1
    && forall i :: 0 <= i < |c.inputs| ==>
         && c.inputs[i].perception in {Presence, Orientation}
         && |c.inputs[i].coefficients| == NcADI(dim, nG, c)
  }

  function SlotOf(inp: InputSpec): InputSlot {
    if inp.perception == Presence then PresenceSlot(NormalizationCode(inp.normalization) as real)
    else OrientationSlot
  }

  function Slots(inputs: seq<InputSpec>): (s: seq<InputSlot>)
    ensures |s| == |inputs|
    ensures forall i :: 0 <= i < |inputs| ==> s[i] == SlotOf(inputs[i])
  {
    if inputs == [] then [] else [SlotOf(inputs[0])] + Slots(inputs[1..])
  }

  function Coefficients(inputs: seq<InputSpec>): seq<real> {
    if inputs == [] then [] else inputs[0].coefficients + Coefficients(inputs[1..])
  }

  function OutputPairs(outputs: seq<OutputSpec>): (p: seq<(real, real)>)
    ensures |p| == |outputs|
    ensures forall io :: 0 <= io < |outputs| ==> p[io] == (outputs[io].kind as real, outputs[io].activation as real)
  {
    seq(|outputs|, io requires 0 <= io < |outputs| => (outputs[io].kind as real, outputs[io].activation as real))
  }

  /** Where the output pairs of `c` start in its serialization. */
  function KOref(dim: nat, c: RipoConfig): nat {
    |RowPrefix(dim, c)| + |InputsBlock(c.inputs)|
  }

  /** What decoding the row of `c` must give back. */
  function Expected(dim: nat, nG: nat, c: RipoConfig): RowParams
    requires Readable(dim, nG, c)
  {
    RowParams(NR(c), NSa(dim, c), NSb(dim, c), Sort(c.rS),
              Cutoff(c.rmax.GetOr(0.0)),
              |c.inputs|, |c.outputs|, NcADI(dim, nG, c),
              Slots(c.inputs), Coefficients(c.inputs),
              KOref(dim, c),
              OutputPairs(c.outputs))
  }

  lemma SliceOfSlice(s: seq<real>, a: nat, b: nat, c: nat, d: nat)
    requires a <= b <= |s| && c <= d <= b - a
    ensures s[a..b][c..d] == s[a + c .. a + d]
  {
    forall i | 0 <= i < d - c
      ensures s[a..b][c..d][i] == s[a + c .. a + d][i]
    {
    }
  }

  lemma PrefixIndex(row: seq<real>, p: seq<real>, i: nat)
    requires |p| <= |row| && row[..|p|] == p && i < |p|
    ensures row[i] == p[i]
  {
    assert row[..|p|][i] == row[i];
  }

  /** A slice holding `a + b` holds `a` in its first part and `b` in the rest. */
  lemma SplitSlice(row: seq<real>, k: nat, a: seq<real>, b: seq<real>)
    requires k + |a| + |b| <= |row| && row[k .. k + |a| + |b|] == a + b
    ensures row[k .. k + |a|] == a
    ensures row[k + |a| .. k + |a| + |b|] == b
  {
    SliceOfSlice(row, k, k + |a| + |b|, 0, |a|);
    SliceOfSlice(row, k, k + |a| + |b|, |a|, |a| + |b|);
    assert (a + b)[..|a|] == a && (a + b)[|a|..] == b;
  }

  /** Reading the first record of a block of input records laid out from position `k`. */
  lemma FirstRecordAt(row: seq<real>, k: nat, inputs: seq<InputSpec>, nc: nat)
    requires inputs != []
    requires |inputs[0].coefficients| == nc
    requires k + |InputsBlock(inputs)| <= |row|
    requires row[k .. k + |InputsBlock(inputs)|] == InputsBlock(inputs)
    ensures k + nc + 2 + |InputsBlock(inputs[1..])| == k + |InputsBlock(inputs)|
    ensures row[k] == PerceptionCode(inputs[0].perception) as real
    ensures row[k + 1] == NormalizationCode(inputs[0].normalization) as real
    ensures row[k + 2 .. k + 2 + nc] == inputs[0].coefficients
    ensures row[k + nc + 2 .. k + nc + 2 + |InputsBlock(inputs[1..])|] == InputsBlock(inputs[1..])
  {
    var codes := [PerceptionCode(inputs[0].perception) as real, NormalizationCode(inputs[0].normalization) as real];
    var a, b := InputBlock(inputs[0]), InputsBlock(inputs[1..]);
    assert InputsBlock(inputs) == a + b && a == codes + inputs[0].coefficients;
    SplitSlice(row, k, a, b);
    SplitSlice(row, k, codes, inputs[0].coefficients);
    assert row[k] == row[k .. k + 2][0] && row[k + 1] == row[k .. k + 2][1];
  }

  lemma {:induction false} ScanInputsBlock(row: seq<real>, k: nat, inputs: seq<InputSpec>, nc: nat)
    requires k + |InputsBlock(inputs)| <= |row|
    requires row[k .. k + |InputsBlock(inputs)|] == InputsBlock(inputs)
    requires forall i :: 0 <= i < |inputs| ==>
               inputs[i].perception in {Presence, Orientation} && |inputs[i].coefficients| == nc
    ensures ScanInputs(row, k, |inputs|, nc) == Some((Slots(inputs), Coefficients(inputs), k + |InputsBlock(inputs)|))
    decreases |inputs|
  {
    if inputs != [] {
      FirstRecordAt(row, k, inputs, nc);
      assert forall i :: 0 <= i < |inputs[1..]| ==> inputs[1..][i] == inputs[i + 1];
      ScanInputsBlock(row, k + nc + 2, inputs[1..], nc);
      assert row[k] == 0.0 || row[k] == 1.0;
      assert SlotOf(inputs[0]) == if row[k] == 0.0 then PresenceSlot(row[k + 1]) else OrientationSlot;
    }
  }

  lemma {:induction false} OutputsBlockAt(outputs: seq<OutputSpec>, io: nat)
    requires io < |outputs|
    ensures |OutputsBlock(outputs)| == 2 * |outputs|
    ensures OutputsBlock(outputs)[2 * io] == outputs[io].kind as real
    ensures OutputsBlock(outputs)[2 * io + 1] == outputs[io].activation as real
  {
    if io > 0 {
      OutputsBlockAt(outputs[1..], io - 1);
    } else if |outputs| > 1 {
      OutputsBlockAt(outputs[1..], 0);
    }
  }

  /** The fields before the input records, at their offsets in the serialization. */
  lemma PrefixValues(dim: nat, c: RipoConfig)
    requires 1 <= dim <= 3
    ensures var p := RowPrefix(dim, c);
            && |p| == NR(c) + dim + 2
            && p[0] == NR(c) as real
            && (dim > 1 ==> p[1] == NSa(dim, c) as real)
            && (dim > 2 ==> p[2] == NSb(dim, c) as real)
            && p[dim .. dim + NR(c) - 1] == Sort(c.rS)
            && p[NR(c) + dim - 1] == c.rmax.GetOr(0.0)
            && p[NR(c) + dim] == |c.inputs| as real
            && p[NR(c) + dim + 1] == |c.outputs| as real
  {
    var header := GridHeader(dim, c);
    var radii := Sort(c.rS);
    GridHeaderLength(dim, c);
    assert RowPrefix(dim, c) == header + radii + [c.rmax.GetOr(0.0), |c.inputs| as real, |c.outputs| as real];
  }

  /** The fields before the input records, read at the kernel's offsets. */
  lemma PrefixAt(dim: nat, c: RipoConfig, row: seq<real>)
    requires 1 <= dim <= 3
    requires |RowPrefix(dim, c)| <= |row| && row[..|RowPrefix(dim, c)|] == RowPrefix(dim, c)
    ensures |RowPrefix(dim, c)| == NR(c) + dim + 2
    ensures row[0] == NR(c) as real
    ensures dim > 1 ==> row[1] == NSa(dim, c) as real
    ensures dim > 2 ==> row[2] == NSb(dim, c) as real
    ensures row[dim .. dim + NR(c) - 1] == Sort(c.rS)
    ensures row[NR(c) + dim - 1] == c.rmax.GetOr(0.0)
    ensures row[NR(c) + dim] == |c.inputs| as real
    ensures row[NR(c) + dim + 1] == |c.outputs| as real
  {
    var prefix := RowPrefix(dim, c);
    var nR := NR(c);
    PrefixValues(dim, c);
    PrefixIndex(row, prefix, 0);
    if dim > 1 { PrefixIndex(row, prefix, 1); }
    if dim > 2 { PrefixIndex(row, prefix, 2); }
    PrefixSlice(row, prefix, dim, dim + nR - 1);
    PrefixIndex(row, prefix, nR + dim - 1);
    PrefixIndex(row, prefix, nR + dim);
    PrefixIndex(row, prefix, nR + dim + 1);
  }

  lemma NcADINonNegative(dim: nat, nG: nat, c: RipoConfig)
    requires Readable(dim, nG, c)
    ensures NcADI(dim, nG, c) >= 0
  {
  }

  lemma PrefixSlice(row: seq<real>, p: seq<real>, a: nat, b: nat)
    requires |p| <= |row| && row[..|p|] == p && a <= b <= |p|
    ensures row[a..b] == p[a..b]
  {
    SliceOfSlice(row, 0, |p|, a, b);
  }

  /** The input records follow the prefix in the serialized row. */
  lemma InputsAt(dim: nat, c: RipoConfig)
    ensures var enc := RipoRow(dim, c);
            var n := |RowPrefix(dim, c)|;
            n + |InputsBlock(c.inputs)| <= |enc|
            && enc[..n] == RowPrefix(dim, c)
            && enc[n .. n + |InputsBlock(c.inputs)|] == InputsBlock(c.inputs)
  {
  }

  /** Output pair `io` follows the input records in the serialized row. */
  lemma OutputAt(dim: nat, c: RipoConfig, io: nat)
    requires io < |c.outputs|
    ensures var enc := RipoRow(dim, c);
            var k := |RowPrefix(dim, c)| + |InputsBlock(c.inputs)|;
            k + 2 * |c.outputs| == |enc|
            && enc[k + 2 * io] == c.outputs[io].kind as real
            && enc[k + 2 * io + 1] == c.outputs[io].activation as real
  {
    OutputsBlockAt(c.outputs, io);
    var ob := OutputsBlock(c.outputs);
    var enc := RipoRow(dim, c);
    var k := |RowPrefix(dim, c)| + |InputsBlock(c.inputs)|;
    assert enc == (RowPrefix(dim, c) + InputsBlock(c.inputs)) + ob;
    assert enc[k + 2 * io] == ob[2 * io];
    assert enc[k + 2 * io + 1] == ob[2 * io + 1];
  }

  function HeaderOf(dim: nat, c: RipoConfig): Header {
    Header(NR(c), NSa(dim, c), NSb(dim, c), |c.inputs|, |c.outputs|)
  }

  /** The counts are read back from their offsets. */
  lemma ReadHeaderLayout(row: seq<real>, dim: nat, c: RipoConfig)
    requires 1 <= dim <= 3 && NSa(dim, c) >= 1 && NSb(dim, c) >= 1
    requires NR(c) + dim + 2 <= |row|
    requires row[0] == NR(c) as real
    requires dim > 1 ==> row[1] == NSa(dim, c) as real
    requires dim > 2 ==> row[2] == NSb(dim, c) as real
    requires row[NR(c) + dim] == |c.inputs| as real
    requires row[NR(c) + dim + 1] == |c.outputs| as real
    ensures ReadHeader(row, dim) == Some(HeaderOf(dim, c))
  {
    TruncInt(NR(c));
    TruncInt(NSa(dim, c));
    TruncInt(NSb(dim, c));
    TruncInt(|c.inputs|);
    TruncInt(|c.outputs|);
  }

  /** The output pairs are read back from their offsets. */
  lemma ReadOutputsLayout(row: seq<real>, k: nat, outputs: seq<OutputSpec>)
    requires k + 2 * |outputs| <= |row|
    requires forall io :: 0 <= io < |outputs| ==>
               && row[k + 2 * io] == outputs[io].kind as real
               && row[k + 2 * io + 1] == outputs[io].activation as real
    ensures ReadOutputs(row, k, |outputs|) == OutputPairs(outputs)
  {
  }

  /** Given the counts, the rest of the row is read back from its offsets. */
  lemma DecodeBodyLayout(row: seq<real>, dim: nat, nG: nat, c: RipoConfig)
    requires Readable(dim, nG, c)
    requires NR(c) + dim + 2 <= |row|
    requires row[dim .. dim + NR(c) - 1] == Sort(c.rS)
    requires row[NR(c) + dim - 1] == c.rmax.GetOr(0.0)
    requires NcADI(dim, nG, c) >= 0
    requires ScanInputs(row, NR(c) + dim + 2, |c.inputs|, NcADI(dim, nG, c))
             == Some((Slots(c.inputs), Coefficients(c.inputs), KOref(dim, c)))
    requires KOref(dim, c) + 2 * |c.outputs| <= |row|
    requires ReadOutputs(row, KOref(dim, c), |c.outputs|) == OutputPairs(c.outputs)
    ensures DecodeBody(row, dim, nG, HeaderOf(dim, c)) == Some(Expected(dim, nG, c))
  {
    var h := HeaderOf(dim, c);
    var e := Expected(dim, nG, c);
    ExpectedCounts(dim, nG, c);
    ExpectedValues(row, dim, nG, c);
    DecodeBodyOf(row, dim, nG, h, NR(c) + dim + 2, NcADI(dim, nG, c), e.slots, e.weights, KOref(dim, c), e);
  }

  /** The counts of `Expected` are those of the header. */
  lemma ExpectedCounts(dim: nat, nG: nat, c: RipoConfig)
    requires Readable(dim, nG, c)
    ensures var h, e := HeaderOf(dim, c), Expected(dim, nG, c);
            && e.nR == h.nR && e.nSa == h.nSa && e.nSb == h.nSb && e.nIs == h.nIs && e.nOut == h.nOut
            && e.nc == NcADI(dim, nG, c) && e.kOref == KOref(dim, c)
  {
  }

  /** The radii, cutoff and output pairs of `Expected` are the values a decoder finds at their offsets. */
  lemma ExpectedValues(row: seq<real>, dim: nat, nG: nat, c: RipoConfig)
    requires Readable(dim, nG, c)
    requires NR(c) + dim + 2 <= |row|
    requires row[dim .. dim + NR(c) - 1] == Sort(c.rS)
    requires row[NR(c) + dim - 1] == c.rmax.GetOr(0.0)
    requires KOref(dim, c) + 2 * |c.outputs| <= |row|
    requires ReadOutputs(row, KOref(dim, c), |c.outputs|) == OutputPairs(c.outputs)
    ensures var e := Expected(dim, nG, c);
            && e.rS == row[dim .. dim + NR(c) - 1]
            && e.rmax == Cutoff(row[NR(c) + dim - 1])
            && e.outputs == ReadOutputs(row, KOref(dim, c), |c.outputs|)
  {
  }

  /** `DecodeBody` once the input scan is known to succeed and the output pairs to fit. */
  lemma DecodeBodyOf(row: seq<real>, dim: nat, nG: nat, h: Header, k: nat, nc: nat,
                     slots: seq<InputSlot>, weights: seq<real>, kOref: nat, e: RowParams)
    requires 1 <= dim <= 3
    requires h.nR >= 1 && h.nSa >= 0 && h.nSb >= 0 && h.nIs >= 0 && h.nOut >= 0
    requires k == h.nR + dim + 2 <= |row|
    requires nc == Product(h.nOut, nG, h.nR, h.nSa, h.nSb)
    requires ScanInputs(row, k, h.nIs, nc) == Some((slots, weights, kOref))
    requires kOref + 2 * h.nOut <= |row|
    requires e.nR == h.nR && e.nSa == h.nSa && e.nSb == h.nSb && e.nIs == h.nIs && e.nOut == h.nOut
    requires e.rS == row[dim .. dim + h.nR - 1]
    requires e.rmax == Cutoff(row[h.nR + dim - 1])
    requires e.nc == nc && e.slots == slots && e.weights == weights && e.kOref == kOref
    requires e.outputs == ReadOutputs(row, kOref, h.nOut)
    ensures DecodeBody(row, dim, nG, h) == Some(e)
  {
  }

  lemma RowPrefixLength(dim: nat, c: RipoConfig)
    requires 1 <= dim <= 3
    ensures |RowPrefix(dim, c)| == NR(c) + dim + 2
  {
    GridHeaderLength(dim, c);
  }

  /** A row that starts with the serialization of `c`. */
  predicate StartsWithRow(row: seq<real>, dim: nat, c: RipoConfig) {
    |RipoRow(dim, c)| <= |row| && row[..|RipoRow(dim, c)|] == RipoRow(dim, c)
  }

  lemma ScanLayout(row: seq<real>, dim: nat, nG: nat, c: RipoConfig)
    requires Readable(dim, nG, c) && StartsWithRow(row, dim, c)
    ensures NcADI(dim, nG, c) >= 0
    ensures ScanInputs(row, NR(c) + dim + 2, |c.inputs|, NcADI(dim, nG, c))
            == Some((Slots(c.inputs), Coefficients(c.inputs), KOref(dim, c)))
  {
    var enc := RipoRow(dim, c);
    var n := |RowPrefix(dim, c)|;
    var ib := InputsBlock(c.inputs);
    var k := NR(c) + dim + 2;
    InputsAt(dim, c);
    RowPrefixLength(dim, c);
    assert n == k && KOref(dim, c) == k + |ib|;
    PrefixSlice(row, enc, k, k + |ib|);
    NcADINonNegative(dim, nG, c);
    ScanInputsBlock(row, k, c.inputs, NcADI(dim, nG, c));
  }

  lemma OutputsLayout(row: seq<real>, dim: nat, nG: nat, c: RipoConfig)
    requires Readable(dim, nG, c) && StartsWithRow(row, dim, c)
    ensures KOref(dim, c) + 2 * |c.outputs| <= |row|
    ensures ReadOutputs(row, KOref(dim, c), |c.outputs|) == OutputPairs(c.outputs)
  {
    var enc := RipoRow(dim, c);
    var kOref := KOref(dim, c);
    OutputsBlockLength(c.outputs);
    assert kOref + 2 * |c.outputs| == |enc|;
    forall io | 0 <= io < |c.outputs|
      ensures row[kOref + 2 * io] == c.outputs[io].kind as real
      ensures row[kOref + 2 * io + 1] == c.outputs[io].activation as real
    {
      OutputAt(dim, c, io);
      PrefixIndex(row, enc, kOref + 2 * io);
      PrefixIndex(row, enc, kOref + 2 * io + 1);
    }
    ReadOutputsLayout(row, kOref, c.outputs);
  }

  lemma HeaderLayout(row: seq<real>, dim: nat, c: RipoConfig)
    requires 1 <= dim <= 3 && StartsWithRow(row, dim, c)
    ensures NR(c) + dim + 2 <= |row|
    ensures row[0] == NR(c) as real
    ensures dim > 1 ==> row[1] == NSa(dim, c) as real
    ensures dim > 2 ==> row[2] == NSb(dim, c) as real
    ensures row[dim .. dim + NR(c) - 1] == Sort(c.rS)
    ensures row[NR(c) + dim - 1] == c.rmax.GetOr(0.0)
    ensures row[NR(c) + dim] == |c.inputs| as real
    ensures row[NR(c) + dim + 1] == |c.outputs| as real
  {
    var enc := RipoRow(dim, c);
    var n := |RowPrefix(dim, c)|;
    InputsAt(dim, c);
    PrefixSlice(row, enc, 0, n);
    PrefixAt(dim, c, row);
  }

  /**
   * Decoding, at the kernel's offsets, the row `param_RIPO` serialized (padded
   * with any number of trailing zeros by later, longer groups) gives back the
   * configuration: the zone grid, the radii in ascending order, the cutoff
   * (a stored 0 meaning none), the input records with their coefficients and
   * the output pairs.
   */
  lemma DecodeRipoRow(dim: nat, nG: nat, c: RipoConfig, width: nat)
    requires Readable(dim, nG, c)
    ensures DecodeRow(Pad(RipoRow(dim, c), width), dim, nG) == Some(Expected(dim, nG, c))
  {
    var row := Pad(RipoRow(dim, c), width);
    assert StartsWithRow(row, dim, c);
    HeaderLayout(row, dim, c);
    ScanLayout(row, dim, nG, c);
    OutputsLayout(row, dim, nG, c);
    ReadHeaderLayout(row, dim, c);
    DecodeBodyLayout(row, dim, nG, c);
  }
}
