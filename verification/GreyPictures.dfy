// Mid-grey pictures: their coefficients are all zero, so nothing but lengths can stop the encoder, and a picture of small
// precincts is encoded.
module GreyPictures {
  import opened Wrappers
  import opened Arith
  import opened HeaderTypes
  import opened Geometry
  import opened GeometryTiling
  import opened GeometryPackets
  import opened Placement
  import opened Planes
  import opened Lifting
  import opened Wavelet
  import opened WaveletLevels
  import opened SampleScaling
  import opened BodyCodec
  import opened Codec
  import opened CodecFailures
  import opened SmallPictures
  import ConstantRate
  import HeaderCodec
  import Precinct

  predicate ZeroRow(row: seq<int>) {
    forall x | 0 <= x < |row| :: row[x] == 0
  }

  predicate Zero(p: Plane) {
    forall y | 0 <= y < |p.rows| :: ZeroRow(p.rows[y])
  }

  predicate AllZero(img: seq<Plane>) {
    forall b | 0 <= b < |img| :: Zero(img[b])
  }

  // ---- zeros stay zeros ------------------------------------------------------------------------------

  lemma ZeroLine(x: seq<int>)
    requires |x| >= 2 && ZeroRow(x)
    ensures ZeroRow(ForwardLine(x))
  {
    assert ZeroRow(LiftOdd(x, false));
  }

  lemma ZeroHalves(p: Plane)
    requires p.Ok() && Zero(p)
    ensures match HorizontalForward(p)
            case Ok((low, high)) => Zero(low) && Zero(high)
            case Err(e) => e == BadBand
  {
    hide ForwardLine;
    if p.width >= 2 {
      forall y | 0 <= y < p.height
        ensures ZeroRow(LowRow(p, y)) && ZeroRow(HighRow(p, y))
      {
        ZeroLine(p.rows[y]);
      }
      ZeroFits(LowHalf(p));
      ZeroFits(HighHalf(p));
    }
  }

  lemma ZeroFits(p: Plane)
    requires p.Ok() && Zero(p)
    ensures Fits(p)
  {
    forall y | 0 <= y < p.height
      ensures RowFits(p.rows[y])
    {
      assert ZeroRow(p.rows[y]);
    }
  }

  lemma ZeroTransposed(p: Plane)
    requires p.Ok() && Zero(p)
    ensures Zero(Transpose(p))
  {
    forall x | 0 <= x < p.width
      ensures ZeroRow(Planes.Column(p, x))
    {
      forall y | 0 <= y < p.height
        ensures Planes.Column(p, x)[y] == 0
      {
        assert ZeroRow(p.rows[y]);
      }
    }
  }

  lemma ZeroColumns(p: Plane)
    requires p.Ok() && Zero(p)
    ensures match VerticalForward(p)
            case Ok((low, high)) => Zero(low) && Zero(high)
            case Err(e) => e == BadBand
  {
    hide HorizontalForward, Transpose, Zero;
    ZeroTransposed(p);
    ZeroHalves(Transpose(p));
    if HorizontalForward(Transpose(p)).Ok? {
      var (low, high) := HorizontalForward(Transpose(p)).value;
      ZeroTransposed(low);
      ZeroTransposed(high);
    }
  }

  lemma ZeroSplit(ll: Plane)
    requires ll.Ok() && Zero(ll)
    ensures match SplitLevel(ll)
            case Ok(q) => Zero(q.ll) && Zero(q.hl) && Zero(q.lh) && Zero(q.hh)
            case Err(e) => e == BadBand
  {
    hide HorizontalForward, VerticalForward, Zero;
    ZeroColumns(ll);
    if VerticalForward(ll).Ok? {
      var (upper, lower) := VerticalForward(ll).value;
      ZeroHalves(upper);
      ZeroHalves(lower);
    }
  }

  lemma ZeroRounded(p: Plane, fq: nat)
    requires p.Ok() && Zero(p)
    ensures Zero(Rounded(p, fq))
  {
    assert Round(0, fq) == 0 by { RoundShrinks(0, fq); }
    hide Round;
    forall y | 0 <= y < p.height
      ensures ZeroRow(RoundedRow(p.rows[y], fq))
    {
      assert ZeroRow(p.rows[y]);
    }
  }

  lemma ZeroStored(h: Headers, t: Plane, b: nat, img: BandPlanes)
    requires Supported(h) && b < NumBands(h) && t.Ok() && AllOk(img) && Zero(t) && AllZero(img)
    ensures match StoreBand(h, t, b, img)
            case Ok(img') => AllZero(img')
            case Err(e) => e == BadBand
  {
    hide Supported, NumBands, Rounded, Zero, BandOf;
    ZeroRounded(t, h.pih.fq);
  }

  lemma ZeroQuad(h: Headers, k: nat, e: nat, q: Quad, img: BandPlanes)
    requires Supported(h) && k < Decomposed(h) && e < h.pih.nly <= h.pih.nlx && q.Ok() && AllOk(img) && AllZero(img)
    requires Zero(q.hl) && Zero(q.lh) && Zero(q.hh)
    ensures match StoreLevel(h, k, e, q, img)
            case Ok(img') => AllZero(img')
            case Err(e) => e == BadBand
  {
    hide Supported, NumBands, StoreBand, Zero, LevelBand, AllZero;
    ZeroStored(h, q.hl, LevelBand(h, k, e, 0), img);
    if StoreBand(h, q.hl, LevelBand(h, k, e, 0), img).Ok? {
      var img1 := StoreBand(h, q.hl, LevelBand(h, k, e, 0), img).value;
      ZeroStored(h, q.lh, LevelBand(h, k, e, 1), img1);
      if StoreBand(h, q.lh, LevelBand(h, k, e, 1), img1).Ok? {
        ZeroStored(h, q.hh, LevelBand(h, k, e, 2), StoreBand(h, q.lh, LevelBand(h, k, e, 1), img1).value);
      }
    }
  }

  lemma {:induction false} ZeroLevels(h: Headers, k: nat, ll: Plane, e: nat, img: BandPlanes)
    requires Supported(h) && k < Decomposed(h) && e <= h.pih.nlx && ll.Ok() && AllOk(img) && Zero(ll) && AllZero(img)
    ensures match ForwardFrom(h, k, ll, e, img)
            case Ok(img') => AllZero(img')
            case Err(e) => e == BadBand
    decreases h.pih.nlx - e
  {
    hide Supported, SplitLevel, StoreLevel, HorizontalForward, StoreBand, NumBands, LevelBand, LowestBand, Zero, AllZero;
    HeaderFacts(h);
    if e == h.pih.nlx {
      ZeroStored(h, ll, LowestBand(h, k), img);
    } else if e < h.pih.nly {
      ZeroSplit(ll);
      if SplitLevel(ll).Ok? {
        var q := SplitLevel(ll).value;
        ZeroQuad(h, k, e, q, img);
        if StoreLevel(h, k, e, q, img).Ok? {
          ZeroLevels(h, k, q.ll, e + 1, StoreLevel(h, k, e, q, img).value);
        }
      }
    } else {
      ZeroHalves(ll);
      if HorizontalForward(ll).Ok? {
        var (low, high) := HorizontalForward(ll).value;
        ZeroStored(h, high, LevelBand(h, k, e, 0), img);
        if StoreBand(h, high, LevelBand(h, k, e, 0), img).Ok? {
          ZeroLevels(h, k, low, e + 1, StoreBand(h, high, LevelBand(h, k, e, 0), img).value);
        }
      }
    }
  }

  /** A zero plane of the component's size decomposes, into zeros. */
  lemma ZeroTransforms(h: Headers, k: nat, p: Plane, img: BandPlanes)
    requires Supported(h) && k < h.pih.nc && p.Ok() && Allocated(h, img) && Zero(p) && AllZero(img)
    requires k < |h.components| && h.components[k].sx > 0 && h.components[k].sy > 0
    requires p.width == ComponentWidth(h, k) && p.height == ComponentHeight(h, k)
    ensures ForwardDwt(h, k, p, img).Ok? && AllZero(ForwardDwt(h, k, p, img).value)
  {
    hide Supported, ForwardFrom, StoreBand, NumBands, PlainBandIndex, ComponentWidth, ComponentHeight, Zero, AllZero;
    HeaderFacts(h);
    ForwardDwtMatches(h, k, p, img);
    if k < Decomposed(h) {
      ZeroLevels(h, k, p, 0, img);
    } else {
      ZeroStored(h, p, PlainBandIndex(h, k), img);
    }
  }

  lemma {:induction false} AllTransform(h: Headers, planes: Picture, k: nat, img: BandPlanes)
    requires Supported(h) && PlanesOk(planes) && k <= |planes| == h.pih.nc && SizesMatch(h, planes) && Allocated(h, img)
    requires AllZero(planes) && AllZero(img)
    ensures AllOk(img) && ForwardAll(h, planes, k, img).Ok? && AllZero(ForwardAll(h, planes, k, img).value)
    decreases |planes| - k
  {
    hide Supported, ForwardDwt, Allocated, ComponentWidth, ComponentHeight, Zero;
    HeaderFacts(h);
    AllocatedOk(h, img);
    if k < |planes| {
      ZeroTransforms(h, k, planes[k], img);
      ForwardDwtMatches(h, k, planes[k], img);
      AllTransform(h, planes, k + 1, ForwardDwt(h, k, planes[k], img).value);
    }
  }

  // ---- the whole picture -----------------------------------------------------------------------------

  /** Every sample is half the range of its component. */
  predicate Grey(h: Headers, picture: Picture)
    requires Valid(h) && |picture| == h.pih.nc
  {
    forall k, y, x | 0 <= k < |picture| && 0 <= y < |picture[k].rows| && 0 <= x < |picture[k].rows[y]| ::
      picture[k].rows[y][x] == Pow2(BitDepth(h, k)) / 2
  }

  /** Scaling centres mid-grey on zero, whatever the working precision. */
  lemma GreyScales(h: Headers, k: nat, p: Plane)
    requires Valid(h) && k < h.pih.nc && p.Ok() && h.nlt.None?
    requires forall y, x | 0 <= y < |p.rows| && 0 <= x < |p.rows[y]| :: p.rows[y][x] == Pow2(BitDepth(h, k)) / 2
    ensures ScaleFromInput(h, k, p).Ok? && Zero(ScaleFromInput(h, k, p).value)
  {
    hide Valid;
    var bw, b := h.pih.bw, BitDepth(h, k);
    assert InSample(h, k, Pow2(b) / 2) == 0 by {
      Pow2Add(b - 1, bw - b);
    }
    hide Pow2, InSample, Fits, BitDepth;
    var q := InPlane(h, k, p);
    forall y | 0 <= y < |q.rows|
      ensures ZeroRow(q.rows[y])
    {
    }
    ZeroFits(q);
  }

  lemma {:induction false} GreyScaled(h: Headers, picture: Picture, k: nat)
    requires Valid(h) && PlanesOk(picture) && k <= |picture| == h.pih.nc && h.nlt.None? && Grey(h, picture)
    ensures ScaleIn(h, picture, k).Ok? && AllZero(ScaleIn(h, picture, k).value)
    decreases |picture| - k
  {
    hide Valid, ScaleFromInput, Zero, BitDepth, Pow2;
    if k < |picture| {
      GreyScales(h, k, picture[k]);
      GreyScaled(h, picture, k + 1);
    }
  }

  lemma BlankIsZero(h: Headers)
    requires Supported(h)
    ensures AllZero(Blank(h))
  {
    hide Supported, NumBands, BandOf;
    forall b | 0 <= b < NumBands(h)
      ensures Zero(Zeros(BandOf(h, b).width, BandOf(h, b).height))
    {
    }
  }

  /** Coefficients of a mid-grey picture without multi-component transform. */
  lemma GreyAnalysed(h: Headers, picture: Picture)
    requires Supported(h) && PlanesOk(picture) && SizesMatch(h, picture) && h.nlt.None? && h.pih.cpih == 0
    requires Valid(h) && |picture| == h.pih.nc && Grey(h, picture)
    ensures Analyse(h, picture).Ok? && Allocated(h, Analyse(h, picture).value) && AllZero(Analyse(h, picture).value)
  {
    hide Supported, Valid, SizesMatch, Grey, ScaleIn, ForwardAll, Zero, AllZero, Blank;
    GridNotEmpty(h);
    GreyScaled(h, picture, 0);
    ScaleInFails(h, picture, 0);
    var planes := ScaleIn(h, picture, 0).value;
    assert picture[0..] == picture;
    SizesKept(h, picture, planes);
    BlankIsZero(h);
    AllTransform(h, planes, 0, Blank(h));
    ForwardAllFails(h, planes, 0, Blank(h));
  }

  lemma ZeroFitsCoded(h: Headers, q: nat, img: BandPlanes)
    requires Supported(h) && q < NumPrecincts(h) && Allocated(h, img) && AllZero(img)
    ensures CoeffsFitIn(h, q, img)
  {
    hide Supported, NumPrecincts, NumBands, LineStart, LineCount, BandPrecinctWidth, ShapeOf, Precinct.Shape.Entries, PosX,
         PosY, BandOf,
         Pow2;
    EntriesOfBand(h, q);
    var c := Extract(h, q, img);
    forall e, x | e in c && 0 <= x < |c[e]|
      ensures c[e][x] == 0
    {
      ZeroSample(h, q, e, x, img);
    }
  }

  lemma ZeroSample(h: Headers, p: nat, e: Precinct.Entry, xi: nat, img: BandPlanes)
    requires Supported(h) && p < NumPrecincts(h) && e.band < NumBands(h) && e.line >= LineStart(h, e.band)
    requires Allocated(h, img) && AllZero(img)
    ensures ExtractedSample(h, p, e, xi, img) == 0
  {
    hide Supported, NumPrecincts, NumBands, LineStart, PosX, PosY, BandOf;
    assert Zero(img[e.band]);
    assert forall y | 0 <= y < |img[e.band].rows| :: ZeroRow(img[e.band].rows[y]);
  }

  /** The encoder works losslessly or with an ample budget. */
  ghost predicate AmpleFor(c: EncoderConfig, h: Headers) {
    hide Supported, HeaderCodec.WriteHeaders;
    && Supported(h) && HeaderCodec.WriteHeaders(h).Ok?
    && PolicyOf(c, h, |HeaderCodec.WriteHeaders(h).value|).Ok?
    && Ample(PolicyOf(c, h, |HeaderCodec.WriteHeaders(h).value|).value)
  }

  /** A mid-grey picture of small precincts is encoded, for every size, depth and level count. */
  lemma GreyEncodes(c: EncoderConfig, h: Headers, picture: Picture)
    requires Supported(h) && Valid(h) && PlanesOk(picture) && SizesMatch(h, picture) && |picture| == h.pih.nc && Grey(h, picture)
    requires h.nlt.None? && h.pih.cpih == 0 && AmpleFor(c, h)
    requires forall q: nat | q < NumPrecincts(h) :: PrecinctSmall(h, q)
    ensures EncodeWith(c, h, picture).Ok?
  {
    hide Supported, Valid, SizesMatch, Grey, Analyse, HeaderCodec.WriteHeaders, SlicesEncode, NumBands, NumPrecincts, Npx,
         Allocated, Zero, WithLength, PolicyOf, Ample,
         AllZero, PrecinctSmall, CoeffsFitIn, StatesInRange;
    GreyAnalysed(h, picture);
    var img, front := Analyse(h, picture).value, HeaderCodec.WriteHeaders(h).value;
    var policy := PolicyOf(c, h, |front|).value;
    forall q: nat | q < NumPrecincts(h)
      ensures CoeffsFitIn(h, q, img)
    {
      ZeroFitsCoded(h, q, img);
    }
    NoStatesInRange(h);
    BodyEncodes(h, policy, img, NoStates(h));
    ConstantRate.HeaderSizeSame(h, |front| + |SlicesEncode(h, policy, img, 0, NoStates(h)).value.0| + 2);
  }
}
