// Concrete streams on the far side of the conditions proved elsewhere: headers the constraints admit, and what
// becomes of them.
module Instances {
  import opened Wrappers
  import opened Arith
  import opened BitIO
  import opened HeaderTypes
  import opened Geometry
  import opened GeometryTiling
  import opened GeometryPackets
  import opened Planes
  import opened HeaderCodec
  import opened SampleScaling
  import opened Codec
  import GreyPictures
  import HeaderFields
  import HeaderLimits
  import Precinct
  import Scaling
  import Segments
  import SmallPictures
  import SmallPrecincts

  /** One 16-bit component of two samples, one horizontal level, extended non-linearity (Bw = 18, Fq = 6, Br = 4). */
  function ExtendedHeaders(t1: u32, t2: u32, e: u8, refresh: Option<seq<BandWeights>>): Headers {
    Headers(8, PictureHeader(0, 0, 0, 2, 1, 0, 1, 1, 4, 8, 18, 6, 4, 0, 0, 0, 1, 0, 0, 0, 0, 0, 0),
            [Component(16, 1, 1)], [BandWeights(0, 0), BandWeights(0, 0)], refresh, Some(Nlt(2, 0, t1, t2, e)),
            0, None, None, None, [])
  }

  lemma Capability3()
    ensures Has(8, EXTENDED_NLT) && !Has(8, VERTICAL_SUBSAMPLING) && !Has(8, RAW_PER_PACKET)
  {
  }

  lemma TwoBands(h: Headers)
    requires |h.components| == h.pih.nc == 1 && h.sd == 0 && h.components[0].sy == 1 && h.pih.nlx == 1 && h.pih.nly == 0
    ensures var layout := ComputeBandLayout(h.pih, h.components, h.sd);
            layout.Ok? && layout.value.numBands == 2 && layout.value.exists_ == [true, true]
  {
    assert NumFilterTypes(1, 0) == 2;
    var layout := ComputeBandLayout(h.pih, h.components, h.sd).value;
    assert Mul(1, 2) == 2;
    assert layout.exists_[0] && layout.exists_[1];
  }

  lemma ExtendedValid(t1: u32, t2: u32, e: u8, refresh: Option<seq<BandWeights>>)
    requires refresh.Some? ==> |refresh.value| == 2
    ensures Valid(ExtendedHeaders(t1, t2, e, refresh)) && LayoutOf(ExtendedHeaders(t1, t2, e, refresh)).exists_ == [true, true]
  {
    hide ComputeBandLayout, Has;
    var h := ExtendedHeaders(t1, t2, e, refresh);
    Capability3();
    SmallPowers();
    TwoBands(h);
    assert MaxSx(h.components) == 1 && MaxSy(h.components) == 1;
  }

  /**
   * Thresholds in the wrong order: a stream with T1 = 2^17 and T2 = 0 can be written and parsed, and its sample
   * 32768 comes back as 24119.
   */
  lemma ReversedStreamFails(tail: seq<byte>)
    requires Segments.EndsHeaders(tail)
    ensures var h := ExtendedHeaders(131072, 0, 1, None);
            && Valid(h) && WriteHeaders(h).Ok?
            && ParseHeaders(WriteHeaders(h).value + tail) == Ok((h, |WriteHeaders(h).value|))
            && BitDepth(h, 0) == 16 && CurveOk(h)
            && OutSample(h, 0, InSample(h, 0, 32768)) == 24119
  {
    hide Valid, WriteHeaders, ParseHeaders, LayoutOf, Pow2, Scaling.ExtendedIn, Scaling.ExtendedOut;
    var h := ExtendedHeaders(131072, 0, 1, None);
    ExtendedValid(131072, 0, 1, None);
    HeaderLimits.WriteHeadersExact(h);
    HeadersExact(h, tail);
    assert HeaderFields.Present(LayoutOf(h).exists_, h.weights) == h.weights;
    Scaling.ReversedThresholdsFail();
    assert h.pih.bw - h.nlt.value.e - 1 == 16;
  }

  /** A slope of 5 satisfies the constraints, is written, and is refused by the parser. */
  lemma WrittenSlopeRefused(tail: seq<byte>)
    requires Segments.EndsHeaders(tail)
    ensures var h := ExtendedHeaders(0, 0, 5, None);
            Valid(h) && WriteHeaders(h).Ok? && ParseHeaders(WriteHeaders(h).value + tail) == Err(BadHeader)
  {
    hide Valid, WriteHeaders, ParseHeaders, LayoutOf;
    var h := ExtendedHeaders(0, 0, 5, None);
    ExtendedValid(0, 0, 5, None);
    HeaderLimits.WriteHeadersExact(h);
    HeadersRoundTrip(h, tail);
  }

  /** A refresh gain of 16 satisfies the constraints, is written, and is refused by the parser. */
  lemma WrittenGainRefused(tail: seq<byte>)
    requires Segments.EndsHeaders(tail)
    ensures var h := ExtendedHeaders(0, 0, 1, Some([BandWeights(16, 0), BandWeights(0, 0)]));
            Valid(h) && WriteHeaders(h).Ok? && ParseHeaders(WriteHeaders(h).value + tail) == Err(BadHeader)
  {
    hide Valid, WriteHeaders, ParseHeaders, LayoutOf;
    var refresh := [BandWeights(16, 0), BandWeights(0, 0)];
    var h := ExtendedHeaders(0, 0, 1, Some(refresh));
    ExtendedValid(0, 0, 1, Some(refresh));
    HeaderLimits.WriteHeadersExact(h);
    HeadersRoundTrip(h, tail);
    assert HeaderFields.Present(LayoutOf(h).exists_, refresh)[0].gain == 16;
  }

  // ---- a picture that is encoded ---------------------------------------------------------------------

  /** Lossless coding of one 8-bit component of two samples in a row. */
  function PairConfig(): EncoderConfig {
    EncoderConfig([Component(8, 1, 1)], 2, 1, 1, 0, 0, 1, 0, Cts(0, 0, 0), None, 0, 0, 0, 0, 0, 0,
                  [BandWeights(0, 0), BandWeights(0, 0)], false, true, true, 0)
  }

  function PairHeaders(): Headers {
    Headers(64, PictureHeader(0, 0, 0, 2, 1, 0, 1, 1, 4, 8, 8, 0, 4, 0, 0, 0, 1, 0, 0, 0, 0, 0, 0),
            [Component(8, 1, 1)], [BandWeights(0, 0), BandWeights(0, 0)], None, None, 0, None, None, None, [])
  }

  const GREY_PAIR: Picture := [Plane(2, 1, [[128, 128]])]

  lemma Capability6()
    ensures Has(64, LOSSLESS) && !Has(64, VERTICAL_SUBSAMPLING) && !Has(64, RAW_PER_PACKET)
  {
  }

  lemma PairValid()
    ensures Supported(PairHeaders())
  {
    hide ComputeBandLayout, Has;
    var h := PairHeaders();
    Capability6();
    SmallPowers();
    TwoBands(h);
    assert MaxSx(h.components) == 1 && MaxSy(h.components) == 1;
  }

  lemma PairMade()
    ensures MakeHeaders(PairConfig()) == Ok(PairHeaders())
  {
    hide ComputeBandLayout, Valid;
    PairValid();
    TwoBands(PairHeaders());
    assert PairConfig().weights != [];
  }

  /** The fields that sizes and packets depend on. */
  predicate IsPair(h: Headers) {
    && h.pih.nlx == 1 && h.pih.nly == 0 && h.pih.wf == 2 && h.pih.hf == 1 && h.pih.cw == 0 && h.pih.nc == 1 && h.sd == 0
    && h.components == [Component(8, 1, 1)]
  }

  lemma PairGrid(h: Headers)
    requires Supported(h) && IsPair(h)
    ensures Npx(h) == 1 && Npy(h) == 1 && NumPrecincts(h) == 1 && NumBands(h) == 2 && Decomposed(h) == 1
  {
    hide Supported, Mul;
    SmallPowers();
    OneTimes(1);
    OneTimes(2);
  }

  lemma PairBand(h: Headers, b: nat)
    requires Supported(h) && IsPair(h) && b < 2
    ensures b < NumBands(h) && BandOf(h, b).width == 1 && BandOf(h, b).height == 1
  {
    hide Supported;
    PairGrid(h);
    HeaderFacts(h);
    SmallPowers();
    WithoutDivisor(b);
    BandIndex(h, b, 0);
    OneTimes(b);
  }

  lemma WithoutDivisor(b: nat)
    ensures b / 1 == b && b % 1 == 0
  {
  }

  lemma PairWidth(h: Headers, b: nat)
    requires Supported(h) && IsPair(h) && b < 2
    ensures 0 < NumPrecincts(h) && b < NumBands(h) && BandPrecinctWidth(h, 0, b) == 1
  {
    hide Supported, NumPrecincts, NumBands, BandOf, BandPrecinctWidth, FullColumn, Npx;
    PairGrid(h);
    PairBand(h, b);
    SingleWidth(h, 0, b);
    MulZero(Npx(h) - 1, FullColumn(h, b));
  }

  lemma PairLine(h: Headers, b: nat)
    requires Supported(h) && IsPair(h) && b < 2
    ensures 0 < NumPrecincts(h) && b < NumBands(h) && LineCount(h, 0, b) == 1
  {
    hide Supported, NumPrecincts, NumBands, BandOf, Npx, Pow2;
    PairGrid(h);
    PairBand(h, b);
    BandFacts(h, b);
    SmallPowers();
    assert Span(h, b) == 1 && Row(h, 0) == 0;
  }

  lemma PairChunks(h: Headers)
    requires Supported(h) && IsPair(h)
    ensures Chunks(GridOf(h)) == [Chunk(0, 2, 0)]
  {
    hide Supported, Mul;
    SmallPowers();
    OneTimes(2);
    var g := GridOf(h);
    assert g.d == 1 && g.beta1 == 2 && g.nly == 0 && g.sd == 0;
    assert PlainLine(g, 0, 0) == [] && PlainLines(g, 1, 1) == [];
    assert PlainLines(g, 0, 1) == [];
  }

  lemma PairEntries(h: Headers)
    requires Supported(h) && IsPair(h)
    ensures 0 < NumPrecincts(h) && NumBands(h) == 2
    ensures EntriesOf(h, 0, 0, 2, 0) == [Precinct.Entry(0, LineStart(h, 0)), Precinct.Entry(1, LineStart(h, 1))]
  {
    hide Supported, NumPrecincts, NumBands, LineCount, LineStart, EntriesOf;
    PairGrid(h);
    PairLine(h, 0);
    PairLine(h, 1);
    EntriesSplit(h, 0, 0, 2, 0);
    EntriesSplit(h, 0, 1, 2, 0);
    NoEntries(h, 0, 2, 0);
  }

  /** One packet with one line of each band. */
  lemma PairPacket(h: Headers)
    requires Supported(h) && IsPair(h)
    ensures 0 < NumPrecincts(h) && NumBands(h) == 2
    ensures Packets(h, 0) == [[Precinct.Entry(0, LineStart(h, 0)), Precinct.Entry(1, LineStart(h, 1))]]
  {
    hide Supported, NumPrecincts, NumBands, LineStart, EntriesOf, Chunks, GridOf, PacketsOf;
    PairEntries(h);
    PairChunks(h);
    AllWithin(h);
    PacketsOfOne(h, 0, Chunk(0, 2, 0), []);
    assert [] + PacketsOf(h, 0, [Chunk(0, 2, 0)]) == PacketsOf(h, 0, [Chunk(0, 2, 0)]);
  }

  lemma PairGroups(h: Headers)
    requires Supported(h) && IsPair(h)
    ensures 0 < NumPrecincts(h) && ShapeOf(h, 0).Ok() && ShapeOf(h, 0).Bands() == 2
    ensures ShapeOf(h, 0).Groups(0) == 1 && ShapeOf(h, 0).Groups(1) == 1
  {
    hide Supported, NumPrecincts, NumBands, LineCount, LineStart, BandPrecinctWidth, Packets;
    PairGrid(h);
    PairWidth(h, 0);
    PairWidth(h, 1);
    ShapeIsOk(h, 0);
  }

  lemma PairSmall(h: Headers)
    requires Supported(h) && IsPair(h)
    ensures NumPrecincts(h) == 1 && SmallPictures.PrecinctSmall(h, 0)
  {
    hide Supported, NumPrecincts, NumBands, LineCount, LineStart, BandPrecinctWidth, Packets, SmallPrecincts.GroupsOf;
    PairGrid(h);
    PairPacket(h);
    PairGroups(h);
    TwoEntries(ShapeOf(h, 0), Packets(h, 0)[0]);
  }

  lemma TwoEntries(sh: Precinct.Shape, es: seq<Precinct.Entry>)
    requires sh.Ok() && sh.EntriesOk(es) && |es| == 2
    ensures SmallPrecincts.GroupsOf(sh, es) == sh.Groups(es[0].band) + sh.Groups(es[1].band)
  {
    hide Precinct.Shape.Groups;
    assert es[1..][0] == es[1] && es[1..][1..] == [];
    assert SmallPrecincts.GroupsOf(sh, es[1..]) == sh.Groups(es[1].band) + SmallPrecincts.GroupsOf(sh, es[1..][1..]);
  }

  /** A mid-grey pair of samples is encoded, and so comes back: the lossless theorem is not about nothing. */
  lemma GreyPairEncodes(tail: seq<byte>)
    ensures Encodes(PairConfig(), GREY_PAIR) && Restored(PairConfig(), GREY_PAIR, tail)
    ensures InDepth(PairHeaders(), GREY_PAIR)
  {
    hide Supported, Valid, MakeHeaders, EncodeWith, HeaderLimits.Writable, SizesMatch, GreyPictures.Grey, NumPrecincts,
         SmallPictures.PrecinctSmall, Restored, WithinDepth, WriteHeaders;
    var c, h := PairConfig(), PairHeaders();
    PairMade();
    PairValid();
    PairFits(h);
    PairSmall(h);
    SupportedIsValid(h);
    HeaderLimits.WriteHeadersExact(h);
    GreyPictures.GreyEncodes(c, h, GREY_PAIR);
    LosslessEndToEnd(c, GREY_PAIR, tail);
  }

  lemma PairFits(h: Headers)
    requires h == PairHeaders() && Supported(h)
    ensures Valid(h) && PlanesOk(GREY_PAIR) && |GREY_PAIR| == h.pih.nc
    ensures SizesMatch(h, GREY_PAIR) && GreyPictures.Grey(h, GREY_PAIR) && WithinDepth(h, GREY_PAIR) && HeaderLimits.Writable(h)
  {
    hide Supported, Valid, Pow2, CeilDiv;
    SupportedIsValid(h);
    HeaderLimits.FieldPowers();
    CeilDivOne(2);
    CeilDivOne(1);
  }
}
