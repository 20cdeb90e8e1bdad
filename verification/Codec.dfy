// The whole codec: picture to codestream and back.
module Codec {
  import opened Wrappers
  import opened Arith
  import opened BitIO
  import opened HeaderTypes
  import opened Geometry
  import opened GeometryTiling
  import opened GeometryPackets
  import Precinct
  import opened Planes
  import opened WaveletLevels
  import opened MultiComponent
  import opened SampleScaling
  import opened BodyCodec
  import AnnexWeights
  import HeaderCodec
  import PrecinctHeaders
  import Segments
  import StarTetrix

  // ---- configuration ---------------------------------------------------------------------------------

  /** Encoder settings; the byte target replaces the bit rate. */
  datatype EncoderConfig = EncoderConfig(
    components: seq<Component>, width: u16, height: u16, nlx: u8, nly: u8, cw: u16, hsl: u16, cpih: u8, cts: Cts,
    crg: Option<Crg>, sd: u8, qpih: u8, fs: u8, rm: u8, rl: u8, lh: u8, weights: seq<BandWeights>,
    significance: bool, vertical: bool, lossless: bool, target: nat)

  /** RGGB. */
  const DEFAULT_CRG := Crg([0, 32768, 0, 32768], [0, 0, 32768, 32768])

  function CapOf(c: EncoderConfig): u32 {
    (if c.cpih == 3 then 2 else 0) + (if c.sd > 0 then 32 else 0) + (if c.lossless then 64 else 0) + if c.rl != 0 then 256 else 0
  }

  /** The capabilities asked for: Star-Tetrix, components without decomposition, lossless coding, raw mode per packet. */
  predicate Asked(c: EncoderConfig, bit: nat) {
    || (bit == 1 && c.cpih == 3) || (bit == 5 && c.sd > 0) || (bit == 6 && c.lossless) || (bit == 8 && c.rl != 0)
  }

  lemma PowersToNine()
    ensures Pow2(0) == 1 && Pow2(1) == 2 && Pow2(2) == 4 && Pow2(3) == 8 && Pow2(4) == 16
    ensures Pow2(5) == 32 && Pow2(6) == 64 && Pow2(7) == 128 && Pow2(8) == 256 && Pow2(9) == 512
  {
  }

  /** One bit between lower and higher ones. */
  lemma BitAmong(low: int, x: int, high: int, p: int)
    requires 0 <= low < p && 0 <= x < 2
    ensures (low + p * x + (2 * p) * high) / p % 2 == x
  {
    assert low + p * x + (2 * p) * high == (x + 2 * high) * p + low;
    DivUnique(low + p * x + (2 * p) * high, p, x + 2 * high);
  }

  lemma BitsOfSum(a: int, b: int, c: int, d: int, bit: nat)
    requires 0 <= a < 2 && 0 <= b < 2 && 0 <= c < 2 && 0 <= d < 2
    ensures var cap := 2 * a + 32 * b + 64 * c + 256 * d;
            Shr(cap, bit) % 2 == if bit == 1 then a else if bit == 5 then b else if bit == 6 then c else if bit == 8 then d else 0
  {
    hide Pow2;
    PowersToNine();
    match bit
    case 0 => BitAmong(0, 0, a + 16 * b + 32 * c + 128 * d, 1);
    case 1 => BitAmong(0, a, 8 * b + 16 * c + 64 * d, 2);
    case 2 => BitAmong(2 * a, 0, 4 * b + 8 * c + 32 * d, 4);
    case 3 => BitAmong(2 * a, 0, 2 * b + 4 * c + 16 * d, 8);
    case 4 => BitAmong(2 * a, 0, b + 2 * c + 8 * d, 16);
    case 5 => BitAmong(2 * a, b, c + 4 * d, 32);
    case 6 => BitAmong(2 * a + 32 * b, c, 2 * d, 64);
    case 7 => BitAmong(2 * a + 32 * b + 64 * c, 0, d, 128);
    case 8 => BitAmong(2 * a + 32 * b + 64 * c, d, 0, 256);
    case _ =>
      Pow2Monotone(9, bit);
      DivUnique(2 * a + 32 * b + 64 * c + 256 * d, Pow2(bit), 0);
  }

  /** Capability bits of a configuration. */
  lemma CapabilitiesTold(c: EncoderConfig, bit: nat)
    ensures Has(CapOf(c), bit) <==> Asked(c, bit)
  {
    hide Shr;
    BitsOfSum(if c.cpih == 3 then 1 else 0, if c.sd > 0 then 1 else 0, if c.lossless then 1 else 0, if c.rl != 0 then 1 else 0,
              bit);
  }

  function MakeHeaders(c: EncoderConfig): (r: Result<Headers>)
    ensures r.Ok? ==> Valid(r.value) && r.value.nlt.None? && r.value.refresh.None?
    ensures r.Ok? && c.lossless ==> r.value.pih.fq == 0
  {
    if c.components == [] then Err(BadHeader) else
    var b0 := c.components[0].bitDepth;
    var bw: u8, fq: u8, br: u8 := if c.lossless then b0 else 20, if c.lossless then 0 else 8,
                                  if c.lossless && b0 > 12 then 5 else 4;
    var nc: u8 := |c.components| % 256;
    var pih := PictureHeader(0, 0, 0, c.width, c.height, c.cw, c.hsl, nc, 4, 8, bw, fq, br, 0, 0, c.cpih, c.nlx, c.nly,
                             c.lh, c.rl, c.qpih, c.fs, c.rm);
    var crg := if c.cpih == 3 && c.crg.None? then Some(DEFAULT_CRG) else c.crg;
    var layout :- ComputeBandLayout(pih, c.components, c.sd);
    var weights :- WeightTable(c);
    var h := Headers(CapOf(c), pih, c.components, weights, None, None, c.sd, if c.cpih == 3 then Some(c.cts) else None, crg,
                     None, []);
    if |weights| != layout.numBands || !Valid(h) then Err(BadHeader) else Ok(h)
  }

  /** The configured weights; none select the tables of Annex I, which are for Star-Tetrix with one plain component. */
  function WeightTable(c: EncoderConfig): Result<seq<BandWeights>> {
    if c.weights != [] then Ok(c.weights)
    else if c.cpih != 3 || c.sd != 1 then Err(BadHeader)
    else AnnexWeights.AnnexIWeights(c.nlx, c.nly, c.cts.cf)
  }

  // ---- pictures --------------------------------------------------------------------------------------

  /** One plane per component. */
  type Picture = seq<Plane>

  predicate PlanesOk(picture: Picture) {
    forall k | 0 <= k < |picture| :: picture[k].Ok()
  }

  /** Every component has the size the headers give it. */
  predicate SizesMatch(h: Headers, picture: Picture)
    requires Supported(h)
  {
    HeaderFacts(h);
    && |picture| == h.pih.nc
    && forall k | 0 <= k < |picture| ::
         picture[k].width == ComponentWidth(h, k) && picture[k].height == ComponentHeight(h, k)
  }

  /** Samples of every component below 2^B. */
  predicate WithinDepth(h: Headers, picture: Picture)
    requires Valid(h) && PlanesOk(picture) && |picture| == h.pih.nc
  {
    forall k | 0 <= k < |picture| :: SamplesWithin(picture[k], h.components[k].bitDepth)
  }

  function ScaleIn(h: Headers, picture: Picture, k: nat): (r: Result<Picture>)
    requires Valid(h) && PlanesOk(picture) && k <= |picture| == h.pih.nc
    ensures r.Ok? ==> PlanesOk(r.value) && |r.value| == |picture| - k
    decreases |picture| - k
  {
    if k == |picture| then Ok([]) else
    var first :- ScaleFromInput(h, k, picture[k]);
    var rest :- ScaleIn(h, picture, k + 1);
    Ok([first] + rest)
  }

  function ScaleOut(h: Headers, planes: Picture, k: nat): (r: Result<Picture>)
    requires Valid(h) && PlanesOk(planes) && k <= |planes| == h.pih.nc
    ensures r.Ok? ==> PlanesOk(r.value)
    decreases |planes| - k
  {
    if k == |planes| then Ok([]) else
    var first :- ScaleToOutput(h, k, planes[k]);
    var rest :- ScaleOut(h, planes, k + 1);
    Ok([first] + rest)
  }

  function ForwardAll(h: Headers, planes: Picture, k: nat, img: BandPlanes): (r: Result<BandPlanes>)
    requires Supported(h) && PlanesOk(planes) && k <= |planes| == h.pih.nc && AllOk(img)
    ensures r.Ok? ==> AllOk(r.value)
    decreases |planes| - k
  {
    if k == |planes| then Ok(img) else
    var next :- ForwardDwt(h, k, planes[k], img);
    ForwardAll(h, planes, k + 1, next)
  }

  function InverseAll(h: Headers, img: BandPlanes, k: nat): (r: Result<Picture>)
    requires Supported(h) && AllOk(img) && k <= h.pih.nc
    ensures r.Ok? ==> PlanesOk(r.value) && |r.value| == h.pih.nc - k
    decreases h.pih.nc - k
  {
    if k == h.pih.nc then Ok([]) else
    var first :- InverseDwt(h, k, img);
    var rest :- InverseAll(h, img, k + 1);
    Ok([first] + rest)
  }

  /** Band buffers of the right sizes, all zero. */
  function Blank(h: Headers): (img: BandPlanes)
    requires Supported(h)
    ensures Allocated(h, img)
  {
    seq(NumBands(h), b requires 0 <= b < NumBands(h) => Zeros(BandOf(h, b).width, BandOf(h, b).height))
  }

  function NoStates(h: Headers): (columns: seq<Precinct.State>)
    requires Supported(h)
    ensures ColumnsOk(h, columns)
  {
    seq(Npx(h), _ => Precinct.State([], [], false))
  }

  /** Scaling, multi-component transform and wavelet transform. */
  function Analyse(h: Headers, picture: Picture): (r: Result<BandPlanes>)
    requires Supported(h) && PlanesOk(picture) && |picture| == h.pih.nc
    ensures r.Ok? ==> AllOk(r.value)
  {
    GridNotEmpty(h);
    var planes :- ScaleIn(h, picture, 0);
    var mixed :- Mct(h, planes, true);
    MctShape(h, planes, true);
    ForwardAll(h, mixed, 0, Blank(h))
  }

  function Synthesise(h: Headers, img: BandPlanes): (r: Result<Picture>)
    requires Supported(h) && AllOk(img)
  {
    GridNotEmpty(h);
    var mixed :- InverseAll(h, img, 0);
    var planes :- Mct(h, mixed, false);
    MctShape(h, mixed, false);
    ScaleOut(h, planes, 0)
  }

  lemma GridNotEmpty(h: Headers)
    requires Supported(h)
    ensures h.pih.wf >= 1 && h.pih.hf >= 1 && h.pih.nc <= 8
  {
    HeaderFacts(h);
    MulMonotone(1, MaxSx(h.components), Pow2(h.pih.nlx));
  }

  lemma MctShape(h: Headers, planes: Picture, forward: bool)
    requires PictureOk(h, planes) && Mct(h, planes, forward).Ok?
    ensures var r := Mct(h, planes, forward).value; PlanesOk(r) && |r| == |planes| && SameSizes(planes, r)
  {
    hide Rct, StarTetrixForward, StarTetrixInverse, PatternType;
    if h.pih.cpih == 1 {
      RctRest(planes, h.pih.wf, h.pih.hf, forward);
    } else if h.pih.cpih == 3 {
      TetrixRest(TetrixOf(h).value, planes);
    }
  }

  // ---- rate ------------------------------------------------------------------------------------------

  function SliceBytes(h: Headers): nat
    requires Supported(h)
  {
    Mul(NumSlices(h), PrecinctHeaders.SLICE_HEADER_BYTES)
  }

  /** Bytes spent before any packet: headers, slice and precinct headers, end marker. */
  function FixedBytes(h: Headers, headerBytes: nat): nat
    requires Supported(h)
  {
    headerBytes + SliceBytes(h) + 2 + Mul(NumPrecincts(h), PrecinctHeaders.HeaderBytes(Existing(h), false))
  }

  /** The same byte budget for every precinct. */
  function BudgetOf(h: Headers, headerBytes: nat, target: nat): Result<nat>
    requires Supported(h)
  {
    PrecinctsExist(h);
    var left := target - FixedBytes(h, headerBytes);
    if left <= NumPrecincts(h) then Err(BudgetTooSmall) else
    DivNonNegative(left, NumPrecincts(h));
    if left / NumPrecincts(h) >= 0x10_0000 then Err(LengthOutOfRange) else Ok(left / NumPrecincts(h))
  }

  lemma PrecinctsExist(h: Headers)
    requires Supported(h)
    ensures NumPrecincts(h) >= 1
  {
    hide Supported, Npx, Npy;
    GridFacts(h);
    MulMonotone(1, Npx(h), Npy(h));
  }

  function PolicyOf(c: EncoderConfig, h: Headers, headerBytes: nat): Result<Policy>
    requires Supported(h)
  {
    if c.lossless then Ok(Lossless(c.vertical, c.significance)) else
    var budget :- BudgetOf(h, headerBytes, c.target);
    Ok(ConstantRate(c.vertical, c.significance, budget))
  }

  const END_MARKER: seq<byte> := [0xFF, 0x11]

  /** Headers with the size of the codestream filled in. */
  function WithLength(h: Headers, length: nat): Headers {
    h.(pih := h.pih.(lcod := length % 0x1_0000_0000))
  }

  // ---- encode and decode -----------------------------------------------------------------------------

  function Encode(c: EncoderConfig, picture: Picture): Result<seq<byte>>
    requires PlanesOk(picture)
  {
    hide MakeHeaders, EncodeWith;
    var h :- MakeHeaders(c);
    if !Supported(h) then Err(Unsupported)
    else if !SizesMatch(h, picture) then Err(BadShape)
    else EncodeWith(c, h, picture)
  }

  function EncodeWith(c: EncoderConfig, h: Headers, picture: Picture): Result<seq<byte>>
    requires Supported(h) && PlanesOk(picture) && |picture| == h.pih.nc
  {
    hide Supported, Analyse, HeaderCodec.WriteHeaders, PolicyOf, SlicesEncode, NumBands, Npx;
    var img :- Analyse(h, picture);
    var front :- HeaderCodec.WriteHeaders(h);
    var policy :- PolicyOf(c, h, |front|);
    if !Allocated(h, img) then Err(BadBand) else
    var (body, _) :- SlicesEncode(h, policy, img, 0, NoStates(h));
    if c.lossless then Ok(front + body + END_MARKER) else
    var final :- HeaderCodec.WriteHeaders(WithLength(h, |front| + |body| + 2));
    Ok(final + body + END_MARKER)
  }

  /** Slices, end marker and transforms of a picture whose headers are known. */
  function DecodePicture(h: Headers, data: seq<byte>): Result<Picture>
    requires Supported(h)
  {
    var read :- SlicesDecode(h, 0, NoStates(h), Blank(h), data);
    if |read.rest| < 2 || read.rest[0] != 0xFF || read.rest[1] != 0x11 then Err(BadMarker)
    else Synthesise(h, read.img)
  }

  /** Lcod is carried but never used below the headers: the picture is decoded without it. */
  function Decode(data: seq<byte>): Result<(Headers, Picture)> {
    hide HeaderCodec.ParseHeaders, DecodePicture;
    var (h, offset) :- HeaderCodec.ParseHeaders(data);
    var g := WithLength(h, 0);
    if !Supported(g) then Err(Unsupported)
    else if !(0 <= offset <= |data|) then Err(EndOfData)
    else
      var picture :- DecodePicture(g, data[offset..]);
      Ok((h, picture))
  }

  // ---- transforms there and back ---------------------------------------------------------------------

  lemma {:induction false} ScaledBack(h: Headers, picture: Picture, k: nat)
    requires Valid(h) && PlanesOk(picture) && k <= |picture| == h.pih.nc && h.nlt.None? && WithinDepth(h, picture)
    requires ScaleIn(h, picture, k).Ok?
    ensures forall i | 0 <= i < |picture| - k ::
              ScaleFromInput(h, k + i, picture[k + i]) == Ok(ScaleIn(h, picture, k).value[i])
    decreases |picture| - k
  {
    hide Valid, ScaleFromInput, SamplesWithin, BitDepth;
    if k < |picture| {
      ScaledBack(h, picture, k + 1);
      var all := ScaleIn(h, picture, k).value;
      forall i | 0 <= i < |picture| - k
        ensures ScaleFromInput(h, k + i, picture[k + i]) == Ok(all[i])
      {
        if i > 0 {
          assert all[i] == ScaleIn(h, picture, k + 1).value[i - 1];
          assert (k + 1) + (i - 1) == k + i;
        }
      }
    }
  }

  lemma {:induction false} ScaledOut(h: Headers, picture: Picture, planes: Picture, k: nat)
    requires Valid(h) && PlanesOk(picture) && PlanesOk(planes) && k <= |picture| == |planes| == h.pih.nc
    requires h.nlt.None? && WithinDepth(h, picture)
    requires forall i: nat | i < |picture| :: ScaleFromInput(h, i, picture[i]) == Ok(planes[i])
    ensures ScaleOut(h, planes, k) == Ok(picture[k..])
    decreases |picture| - k
  {
    hide Valid, ScaleFromInput, ScaleToOutput, SamplesWithin;
    if k < |picture| {
      LinearPlane(h, k, picture[k]);
      ScaledOut(h, picture, planes, k + 1);
      assert picture[k..] == [picture[k]] + picture[k + 1..];
    } else {
      assert picture[k..] == [];
    }
  }

  lemma MctKeepsFit(h: Headers, planes: Picture, forward: bool)
    requires PictureOk(h, planes) && StarTetrix.AllFit(planes, |planes|) && Mct(h, planes, forward).Ok?
    ensures var r := Mct(h, planes, forward).value; |r| == |planes| && StarTetrix.AllFit(r, |r|)
  {
    MctShape(h, planes, forward);
    hide Fits, ForwardSteps, InverseSteps, StarTetrix.Run, RctPlane, PatternType;
    if h.pih.cpih == 3 {
      var st := TetrixOf(h).value;
      StepsOk(st);
      if forward {
        RunKeepsFit(st, ForwardSteps(st), Swap(planes), |planes|);
      } else {
        RunKeepsFit(st, InverseSteps(st), planes, |planes|);
      }
    }
  }

  /** Every component of a transformed picture can be reconstructed from the bands, and nothing else is needed. */
  lemma {:induction false} ForwardAllRestores(h: Headers, planes: Picture, k: nat, img: BandPlanes)
    requires Supported(h) && PlanesOk(planes) && k <= |planes| == h.pih.nc && Allocated(h, img)
    requires StarTetrix.AllFit(planes, |planes|) && h.pih.fq == 0 && ForwardAll(h, planes, k, img).Ok?
    ensures var done := ForwardAll(h, planes, k, img).value;
            && Allocated(h, done)
            && (forall i: nat | k <= i < |planes| :: InverseDwt(h, i, done) == Ok(planes[i]))
            && forall b: nat | b < |img| && (forall i: nat | k <= i < |planes| :: !BandOfComponent(h, i, b)) :: done[b] == img[b]
    decreases |planes| - k
  {
    hide Supported, ForwardDwt, InverseDwt, BandOfComponent, Fits, NumBands, BandOf;
    if k < |planes| {
      var next := ForwardDwt(h, k, planes[k], img).value;
      ForwardKeepsAllocated(h, k, planes[k], img);
      DwtRestores(h, k, planes[k], img);
      ForwardDwtFrame(h, k, planes[k], img);
      ForwardAllRestores(h, planes, k + 1, next);
      var done := ForwardAll(h, planes, k + 1, next).value;
      forall b: nat | b < |next| && BandOfComponent(h, k, b)
        ensures done[b] == next[b]
      {
        forall i: nat | k + 1 <= i < |planes|
          ensures !BandOfComponent(h, i, b)
        {
          DifferentComponents(h, k, i, b);
        }
      }
      InverseDwtReads(h, k, next, done);
    }
  }

  lemma ForwardKeepsAllocated(h: Headers, k: nat, p: Plane, img: BandPlanes)
    requires Supported(h) && k < h.pih.nc && p.Ok() && Allocated(h, img) && ForwardDwt(h, k, p, img).Ok?
    ensures Allocated(h, ForwardDwt(h, k, p, img).value)
  {
    hide Supported, ForwardFrom, StoreBand, NumBands, ComponentWidth, ComponentHeight, PlainBandIndex;
    HeaderFacts(h);
    ForwardDwtMatches(h, k, p, img);
  }

  lemma {:induction false} InverseAllIs(h: Headers, planes: Picture, img: BandPlanes, k: nat)
    requires Supported(h) && PlanesOk(planes) && k <= |planes| == h.pih.nc && AllOk(img)
    requires forall i: nat | k <= i < |planes| :: InverseDwt(h, i, img) == Ok(planes[i])
    ensures InverseAll(h, img, k) == Ok(planes[k..])
    decreases |planes| - k
  {
    hide Supported, InverseDwt;
    if k < |planes| {
      InverseAllIs(h, planes, img, k + 1);
      assert planes[k..] == [planes[k]] + planes[k + 1..];
    } else {
      assert planes[k..] == [];
    }
  }

  lemma SupportedIsValid(h: Headers)
    requires Supported(h)
    ensures Valid(h)
  {
  }

  /** Without fractional bits and non-linearity the decoder's transforms undo the encoder's. */
  lemma SynthesisUndoes(h: Headers, picture: Picture)
    requires Supported(h) && PlanesOk(picture) && |picture| == h.pih.nc && h.pih.fq == 0 && h.nlt.None? && WithinDepth(h, picture)
    requires Analyse(h, picture).Ok?
    ensures Allocated(h, Analyse(h, picture).value)
    ensures Synthesise(h, Analyse(h, picture).value) == Ok(picture)
  {
    hide Supported, ScaleFromInput, ScaleIn, ScaleOut, ForwardAll, InverseAll, Mct, WithinDepth, Fits, Allocated, NumBands;
    SupportedIsValid(h);
    GridNotEmpty(h);
    var planes := ScaleIn(h, picture, 0).value;
    ScaledBack(h, picture, 0);
    ScaledFits(h, picture, planes);
    var mixed := Mct(h, planes, true).value;
    MctShape(h, planes, true);
    MctKeepsFit(h, planes, true);
    MctUndone(h, planes, true);
    ForwardAllRestores(h, mixed, 0, Blank(h));
    var img := ForwardAll(h, mixed, 0, Blank(h)).value;
    InverseAllIs(h, mixed, img, 0);
    assert mixed[0..] == mixed;
    ScaledOut(h, picture, planes, 0);
    assert picture[0..] == picture;
  }

  lemma ScaledFits(h: Headers, picture: Picture, planes: Picture)
    requires Valid(h) && PlanesOk(picture) && PlanesOk(planes) && |picture| == |planes| == h.pih.nc
    requires forall i: nat | i < |picture| :: ScaleFromInput(h, 0 + i, picture[0 + i]) == Ok(planes[i])
    ensures StarTetrix.AllFit(planes, |planes|)
    ensures forall i: nat | i < |picture| :: ScaleFromInput(h, i, picture[i]) == Ok(planes[i])
  {
    hide Valid, Fits;
    forall i: nat | i < |picture|
      ensures ScaleFromInput(h, i, picture[i]) == Ok(planes[i]) && Fits(planes[i])
    {
      assert ScaleFromInput(h, 0 + i, picture[0 + i]) == Ok(planes[i]);
    }
  }

  // ---- the end-to-end theorem ------------------------------------------------------------------------

  /** Headers without refresh weights and non-linearity parse back unchanged: all bands exist. */
  lemma PlainHeadersBack(h: Headers, tail: seq<byte>)
    requires Supported(h) && h.nlt.None? && h.refresh.None? && HeaderCodec.WriteHeaders(h).Ok? && Segments.EndsHeaders(tail)
    ensures HeaderCodec.ParseHeaders(HeaderCodec.WriteHeaders(h).value + tail) == Ok((h, |HeaderCodec.WriteHeaders(h).value|))
  {
    hide Valid, HeaderCodec.WriteHeaders, HeaderCodec.ParseHeaders, Segments.EndsHeaders, NumBands, HeaderCodec.LayoutOf;
    HeaderShapes(h);
    HeaderCodec.HeadersExact(h, tail);
    var w := h.weights;
    assert forall b | 0 <= b < |w| :: HeaderCodec.LayoutOf(h).exists_[b];
  }

  lemma BodyEndsHeaders(h: Headers, policy: Policy, img: BandPlanes, columns: seq<Precinct.State>, tail: seq<byte>)
    requires Supported(h) && Allocated(h, img) && ColumnsOk(h, columns) && SlicesEncode(h, policy, img, 0, columns).Ok?
    ensures Segments.EndsHeaders(SlicesEncode(h, policy, img, 0, columns).value.0 + tail)
  {
    hide Supported, Allocated, RunEncode, PrecinctHeaders.WriteSlice, NumSlices, Npx, SliceFirst, SliceEnd, Segments.EndsHeaders,
         NumPrecincts, Invalidated, SliceOf;
    SomeSlice(h);
    var run := RunEncode(h, policy, img, SliceFirst(h, 0), SliceEnd(h, 0), Invalidated(columns)).value;
    var rest := SlicesEncode(h, policy, img, 1, run.columns).value.0;
    var slice, more := PrecinctHeaders.WriteSlice(SliceOf(0)), run.bytes + rest + tail;
    assert SlicesEncode(h, policy, img, 0, columns).value.0 + tail == [] + slice + more == slice + more by {
      Regrouped(slice, run.bytes, rest, tail);
    }
    PrecinctHeaders.SliceRoundTrip(SliceOf(0), [], more);
  }

  lemma Regrouped(a: seq<byte>, b: seq<byte>, c: seq<byte>, d: seq<byte>)
    ensures a + b + c + d == [] + a + (b + c + d) == a + (b + c + d)
  {
  }

  lemma NoStatesInRange(h: Headers)
    requires Supported(h)
    ensures StatesInRange(NoStates(h), h.pih.br)
  {
    hide Supported, Npx, Pow2;
  }

  /** A well-formed picture for which encoding returns a codestream. */
  ghost predicate Encodes(c: EncoderConfig, picture: Picture) {
    hide EncodeWith, SizesMatch;
    PlanesOk(picture) && Encode(c, picture).Ok?
  }

  /**
   * The codestream of a picture, with anything behind it, decodes to its headers and to exactly the same planes,
   * provided that the samples are within their bit depth.
   */
  ghost predicate Restored(c: EncoderConfig, picture: Picture, tail: seq<byte>) {
    hide EncodeWith, SizesMatch, DecodePicture, HeaderCodec.ParseHeaders, Valid;
    && Encodes(c, picture) && MakeHeaders(c).Ok?
    && var h := MakeHeaders(c).value;
       && Supported(h) && |picture| == h.pih.nc
       && (WithinDepth(h, picture) ==> Decode(Encode(c, picture).value + tail) == Ok((h, picture)))
  }

  /**
   * Lossless coding: for every configuration and every picture with samples within their bit depth,
   * whenever encoding returns a codestream, decoding it, with anything behind it, gives the headers and
   * exactly the same planes.
   */
  lemma LosslessEndToEnd(c: EncoderConfig, picture: Picture, tail: seq<byte>)
    requires c.lossless && Encodes(c, picture)
    ensures Restored(c, picture, tail)
  {
    hide MakeHeaders, Supported, EncodeWith, Decode, WithinDepth, ComponentWidth, ComponentHeight;
    var h := MakeHeaders(c).value;
    HeaderFacts(h);
    MadeWithoutLength(c);
    if WithinDepth(h, picture) {
      LosslessDecode(c, h, picture, tail);
    }
  }

  lemma MadeWithoutLength(c: EncoderConfig)
    requires MakeHeaders(c).Ok?
    ensures WithLength(MakeHeaders(c).value, 0) == MakeHeaders(c).value
  {
    hide Valid, ComputeBandLayout;
  }

  /** Headers as the encoder makes them, before any length is filled in. */
  ghost predicate Plain(h: Headers) {
    WithLength(h, 0) == h && h.nlt.None? && h.refresh.None?
  }

  ghost predicate EncodesWith(c: EncoderConfig, h: Headers, picture: Picture) {
    hide Supported, Analyse, HeaderCodec.WriteHeaders, PolicyOf, SlicesEncode;
    Supported(h) && PlanesOk(picture) && |picture| == h.pih.nc && EncodeWith(c, h, picture).Ok?
  }

  ghost predicate InDepth(h: Headers, picture: Picture) {
    Valid(h) && PlanesOk(picture) && |picture| == h.pih.nc && WithinDepth(h, picture)
  }

  ghost predicate RestoredWith(c: EncoderConfig, h: Headers, picture: Picture, tail: seq<byte>) {
    hide Supported, Analyse, HeaderCodec.WriteHeaders, PolicyOf, SlicesEncode, DecodePicture, HeaderCodec.ParseHeaders;
    EncodesWith(c, h, picture) && Decode(EncodeWith(c, h, picture).value + tail) == Ok((h, picture))
  }

  lemma LosslessDecode(c: EncoderConfig, h: Headers, picture: Picture, tail: seq<byte>)
    requires c.lossless && Plain(h) && h.pih.fq == 0 && InDepth(h, picture) && EncodesWith(c, h, picture)
    ensures RestoredWith(c, h, picture, tail)
  {
    hide Supported, Analyse, Synthesise, HeaderCodec.WriteHeaders, HeaderCodec.ParseHeaders, SlicesEncode, SlicesDecode,
         Allocated, WithinDepth, Npx, NumBands, StatesInRange, Segments.EndsHeaders, WithLength;
    var img := Analyse(h, picture).value;
    var front := HeaderCodec.WriteHeaders(h).value;
    var policy := Lossless(c.vertical, c.significance);
    var body := SlicesEncode(h, policy, img, 0, NoStates(h)).value.0;
    var behind := END_MARKER + tail;
    BodyEndsHeaders(h, policy, img, NoStates(h), behind);
    var data := EncodeWith(c, h, picture).value + tail;
    assert data == front + (body + behind);
    PlainHeadersBack(h, body + behind);
    assert data[|front|..] == body + behind;
    NoStatesInRange(h);
    LosslessBody(h, policy, img, NoStates(h), Blank(h), behind);
    SynthesisUndoes(h, picture);
  }
}
