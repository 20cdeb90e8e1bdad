// The bytes of the codestream around the packets: precincts with their filler, slices, and the end marker.
module StreamLayout {
  import opened Wrappers
  import opened HeaderTypes
  import opened Geometry
  import opened GeometryTiling
  import opened GeometryPackets
  import opened BodyCodec
  import opened WaveletLevels
  import Codec
  import HeaderCodec
  import HeaderLayout
  import Precinct
  import PrecinctHeaders

  /** With every band there, every mode is listed. */
  lemma {:induction false} AllListed(d: seq<nat>)
    requires forall b | 0 <= b < |d| :: d[b] < 4
    ensures PrecinctHeaders.ModeValues(seq(|d|, _ => true), d) == d
  {
    if d != [] {
      AllListed(d[1..]);
      assert seq(|d|, _ => true)[1..] == seq(|d[1..]|, _ => true);
    }
  }

  /**
   * A precinct: the length of its packets and filler, Q and R, two bits of D per band, packets, and zeros up to the
   * length announced; without one, no filler.
   */
  lemma StepLayout(h: Headers, p: nat, plan: Plan, c: Precinct.Coeffs, st: Precinct.State)
    requires Supported(h) && p < NumPrecincts(h) && StepEncode(h, p, plan, c, st).Ok?
    ensures ShapeOf(h, p).Ok() && |WeightsFor(h)| == ShapeOf(h, p).Bands()
    ensures var enc := Precinct.Encode(ShapeOf(h, p), ModeOf(h), WeightsFor(h), plan.coding, c, st);
            && enc.Ok?
            && var lprc := if plan.lprc.Some? then plan.lprc.value else |enc.value.bytes|;
               && |enc.value.bytes| <= lprc
               && StepEncode(h, p, plan, c, st).value.0 ==
                  HeaderLayout.U24Bytes(lprc) + [plan.coding.q, plan.coding.r] + HeaderLayout.ModeBytes(plan.coding.d)
                  + enc.value.bytes + seq(lprc - |enc.value.bytes|, _ => 0)
  {
    hide Supported, NumPrecincts, NumBands, ShapeOf, ModeOf, WeightsFor, Precinct.Encode, PrecinctHeaders.Write,
         HeaderLayout.U24Bytes, HeaderLayout.ModeBytes, PrecinctHeaders.ModeValues;
    HeaderShapes(h);
    ShapeIsOk(h, p);
    ShapeHasBands(h, p);
    var enc := Precinct.Encode(ShapeOf(h, p), ModeOf(h), WeightsFor(h), plan.coding, c, st).value;
    var lprc := if plan.lprc.Some? then plan.lprc.value else |enc.bytes|;
    HeaderLayout.PrecinctHeaderLayout(Existing(h), HeaderFor(plan, lprc));
    AllListed(plan.coding.d);
  }

  lemma ShapeHasBands(h: Headers, p: nat)
    requires Supported(h) && p < NumPrecincts(h)
    ensures ShapeOf(h, p).Bands() == NumBands(h) && |WeightsFor(h)| == |h.weights|
  {
    hide Supported, NumPrecincts, NumBands, LineStart, LineCount, BandPrecinctWidth, Packets;
  }

  /** Slice t starts with marker SLH, length 4 and its number. */
  lemma SliceStarts(h: Headers, policy: Policy, img: BandPlanes, t: nat, columns: seq<Precinct.State>)
    requires Supported(h) && Allocated(h, img) && ColumnsOk(h, columns)
    requires t < NumSlices(h) && SlicesEncode(h, policy, img, t, columns).Ok?
    ensures [0xFF, 0x20, 0, 4, t / 0x100, t % 0x100] <= SlicesEncode(h, policy, img, t, columns).value.0
  {
    hide Supported, NumPrecincts, NumBands, NumSlices, RunEncode, Invalidated, PrecinctHeaders.WriteSlice;
    SliceIndexFits(h, t);
    HeaderLayout.SliceLayout(SliceOf(t));
  }

  /** A codestream ends with marker EOC. */
  lemma StreamEnds(c: Codec.EncoderConfig, picture: Codec.Picture)
    requires Codec.PlanesOk(picture) && Codec.Encode(c, picture).Ok?
    ensures var bytes := Codec.Encode(c, picture).value; |bytes| >= 2 && bytes[|bytes| - 2..] == [0xFF, 0x11]
  {
    hide Supported, Codec.Analyse, Codec.MakeHeaders, HeaderCodec.WriteHeaders, Codec.PolicyOf, SlicesEncode, Npx, NumBands;
  }
}
