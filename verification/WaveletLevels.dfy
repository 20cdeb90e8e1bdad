// The multi-level wavelet transform of one component (Annex E) and its agreement with the geometry.
module WaveletLevels {
  import opened Wrappers
  import opened Arith
  import opened HeaderTypes
  import opened Geometry
  import opened Planes
  import opened Wavelet

  /** One plane per band, indexed like the band table. */
  type BandPlanes = seq<Plane>

  predicate AllOk(img: BandPlanes) {
    forall b | 0 <= b < |img| :: img[b].Ok()
  }

  predicate Sized(h: Headers, b: nat, p: Plane)
    requires Supported(h) && b < NumBands(h)
  {
    p.width == BandOf(h, b).width && p.height == BandOf(h, b).height
  }

  predicate Allocated(h: Headers, img: BandPlanes)
    requires Supported(h)
  {
    |img| == NumBands(h) && forall b | 0 <= b < |img| :: img[b].Ok() && Sized(h, b, img[b])
  }

  // ---- fractional bits -----------------------------------------------------------------------------

  /** Round half away from zero, then drop fq bits. */
  function Round(v: int, fq: nat): int {
    var r := Pow2(fq) / 2;
    if v >= 0 then (v + r) / Pow2(fq) else -((-v + r) / Pow2(fq))
  }

  lemma RoundScaled(v: int, fq: nat)
    ensures Round(v * Pow2(fq), fq) == v
  {
    var s := Pow2(fq);
    ScaledSign(v, s);
    RoundedMultiple(Abs(v), s);
    if v < 0 {
      MulNegative(v, s);
    }
  }

  lemma ScaledSign(v: int, s: nat)
    requires s >= 1
    ensures v * s >= 0 <==> v >= 0
  {
    if v >= 0 {
      MulMonotone(0, v, s);
    } else {
      MulMonotone(v, -1, s);
    }
  }

  lemma MulNegative(v: int, s: int)
    ensures -(v * s) == (-v) * s
  {
  }

  lemma RoundedMultiple(v: nat, s: nat)
    requires s >= 1
    ensures (v * s + s / 2) / s == v
  {
    DivUnique(v * s + s / 2, s, v);
  }

  lemma RoundNothing(v: int)
    ensures Round(v, 0) == v
  {
  }

  /** Rounding brings every value nearer to zero, so what fits in 32 bits still does. */
  lemma RoundShrinks(v: int, fq: nat)
    ensures Abs(Round(v, fq)) <= Abs(v)
  {
    var s := Pow2(fq);
    DivNonNegative(Abs(v) + s / 2, s);
    if s == 1 {
    } else if v != 0 {
      ShrinkStep(Abs(v), s);
    } else {
      DivUnique(s / 2, s, 0);
    }
  }

  lemma ShrinkStep(v: nat, s: nat)
    requires s >= 2 && v >= 1
    ensures (v + s / 2) / s <= v
  {
    DivBounds(v + s / 2, s);
    var q := (v + s / 2) / s;
    MulMonotone(2, s, v);
    assert (v + 1) * s == v * s + s;
    if q > v {
      MulMonotone(v + 1, q, s);
    }
  }

  function RoundedRow(row: seq<int>, fq: nat): (r: seq<int>)
    ensures |r| == |row|
  {
    seq(|row|, x requires 0 <= x < |row| => Round(row[x], fq))
  }

  function Rounded(p: Plane, fq: nat): (r: Plane)
    requires p.Ok()
    ensures r.Ok()
  {
    Plane(p.width, p.height, seq(p.height, y requires 0 <= y < p.height => RoundedRow(p.rows[y], fq)))
  }

  function ScaledRow(row: seq<int>, fq: nat): (r: seq<int>)
    ensures |r| == |row|
  {
    seq(|row|, x requires 0 <= x < |row| => row[x] * Pow2(fq))
  }

  function ScaledUp(p: Plane, fq: nat): (r: Plane)
    requires p.Ok()
    ensures r.Ok()
  {
    Plane(p.width, p.height, seq(p.height, y requires 0 <= y < p.height => ScaledRow(p.rows[y], fq)))
  }

  lemma RoundedScaledUp(p: Plane, fq: nat)
    requires p.Ok()
    ensures Rounded(ScaledUp(p, fq), fq) == p
  {
    hide Round, Pow2;
    forall y | 0 <= y < p.height
      ensures RoundedRow(ScaledRow(p.rows[y], fq), fq) == p.rows[y]
    {
      forall x | 0 <= x < p.width
        ensures Round(p.rows[y][x] * Pow2(fq), fq) == p.rows[y][x]
      {
        RoundScaled(p.rows[y][x], fq);
      }
    }
  }

  lemma RoundedFits(p: Plane, fq: nat)
    requires p.Ok() && Fits(p)
    ensures Fits(Rounded(p, fq))
  {
    hide Round;
    forall y, x | 0 <= y < p.height && 0 <= x < p.width
      ensures IsInt32(Rounded(p, fq).rows[y][x])
    {
      assert RowFits(p.rows[y]) && IsInt32(p.rows[y][x]);
      RoundShrinks(p.rows[y][x], fq);
      RoundKeepsSign(p.rows[y][x], fq);
    }
  }

  lemma RoundKeepsSign(v: int, fq: nat)
    ensures v >= 0 ==> Round(v, fq) >= 0
    ensures v < 0 ==> Round(v, fq) <= 0
  {
    DivNonNegative(Abs(v) + Pow2(fq) / 2, Pow2(fq));
  }

  lemma NoFraction(p: Plane)
    requires p.Ok()
    ensures Rounded(p, 0) == p && ScaledUp(p, 0) == p
  {
    hide Round;
    assert Pow2(0) == 1;
    forall y | 0 <= y < p.height
      ensures RoundedRow(p.rows[y], 0) == p.rows[y] && ScaledRow(p.rows[y], 0) == p.rows[y]
    {
      forall x | 0 <= x < p.width
        ensures Round(p.rows[y][x], 0) == p.rows[y][x]
      {
        RoundNothing(p.rows[y][x]);
      }
    }
  }

  /** A band with its fractional bits appended (Table E.2). */
  function ScaledBand(h: Headers, img: BandPlanes, b: nat): (r: Result<Plane>)
    requires Supported(h) && b < NumBands(h) && AllOk(img)
    ensures r.Ok? ==> r.value.Ok()
  {
    if b >= |img| || !Sized(h, b, img[b]) then Err(BadBand)
    else if !Fits(ScaledUp(img[b], h.pih.fq)) then Err(Overflow)
    else Ok(ScaledUp(img[b], h.pih.fq))
  }

  /** A band rounded and stored (Table E.13). */
  function StoreBand(h: Headers, t: Plane, b: nat, img: BandPlanes): (r: Result<BandPlanes>)
    requires Supported(h) && b < NumBands(h) && t.Ok() && AllOk(img)
    ensures r.Ok? ==> AllOk(r.value) && |r.value| == |img|
  {
    if b >= |img| || !Sized(h, b, t) then Err(BadBand)
    else if img[b].width != 0 && img[b].height != 0 && !Sized(h, b, img[b]) then Err(BadBand)
    else Ok(img[b := Rounded(t, h.pih.fq)])
  }

  // ---- the band of each filter type ------------------------------------------------------------------

  /** Filter type of the horizontal high-pass band at depth d beyond the two-dimensional levels. */
  function BetaH(h: Headers, d: nat): int {
    1 + h.pih.nlx - d
  }

  /** First filter type (HL) of the two-dimensional level at depth d; LH and HH follow. */
  function Beta2(h: Headers, d: nat): int {
    Beta1(h.pih.nlx, h.pih.nly) + 3 * (h.pih.nly - d)
  }

  function Index(h: Headers, k: nat, beta: nat): (b: nat)
    requires Supported(h) && k < Decomposed(h) && beta < NBeta(h)
    ensures b < NumBands(h)
  {
    BandIndex(h, beta, k);
    Mul(Decomposed(h), beta) + k
  }

  /** Filter types of the levels beyond depth e. */
  function BetaEnd(h: Headers, e: nat): int {
    if e < h.pih.nly then Beta2(h, e + 1) + 3 else BetaH(h, e + 1) + 1
  }

  lemma BetaEnds(h: Headers, e: nat)
    requires Supported(h) && e < h.pih.nlx
    ensures 1 <= BetaEnd(h, e + 1) < BetaEnd(h, e) <= NBeta(h)
    ensures BetaEnd(h, h.pih.nlx) == 1 && BetaEnd(h, 0) == NBeta(h)
    ensures if e < h.pih.nly then Beta2(h, e + 1) == BetaEnd(h, e + 1) && Beta2(h, e + 1) + 3 == BetaEnd(h, e)
            else BetaH(h, e + 1) == BetaEnd(h, e + 1) && BetaH(h, e + 1) + 1 == BetaEnd(h, e)
  {
    hide Valid, NBeta;
    HeaderFacts(h);
  }

  function LowWidth(h: Headers, k: nat, e: nat): nat
    requires Supported(h) && k < h.pih.nc
  {
    HeaderFacts(h);
    LowPassSize(ComponentWidth(h, k), e)
  }

  function LowHeight(h: Headers, k: nat, e: nat): nat
    requires Supported(h) && k < h.pih.nc
  {
    HeaderFacts(h);
    LowPassSize(ComponentHeight(h, k), Min(e, h.pih.nly))
  }

  /** Halving a line of the low-pass band gives the sizes the geometry lists. */
  lemma HalfSizes(n: nat, e: nat)
    ensures (LowPassSize(n, e) + 1) / 2 == LowPassSize(n, e + 1)
    ensures LowPassSize(n, e) / 2 == HighPassSize(n, e + 1)
  {
    CeilDivCeilDiv(n, Pow2(e), 2);
    assert Pow2(e) * 2 == Pow2(e + 1);
  }

  /** Every line that is filtered has at least two samples (E.6). */
  lemma LongEnough(n: nat, e: nat, d: nat)
    requires e < d && n >= Pow2(d)
    ensures LowPassSize(n, e) >= 2
  {
    Pow2Strict(e, d);
    CeilDivLeast(n, Pow2(e), 1);
  }

  lemma EnoughSamples(h: Headers, k: nat)
    requires Supported(h) && k < h.pih.nc
    ensures ComponentWidth(h, k) >= Pow2(h.pih.nlx) && ComponentHeight(h, k) >= Pow2(h.pih.nly)
  {
    hide Valid, Pow2;
    HeaderFacts(h);
    PictureSizes(h);
    CeilDivOne(h.pih.hf);
    AtLeast(h.pih.wf, h.components[k].sx, MaxSx(h.components), Pow2(h.pih.nlx));
  }

  lemma AtLeast(wf: nat, s: nat, m: nat, w: nat)
    requires 1 <= s <= m && w >= 1 && wf >= m * w
    ensures CeilDiv(wf, s) >= w
  {
    CeilDivLeast(wf, s, w - 1);
    MulMonotone(s, m, w);
    assert (w - 1) * s == w * s - s;
  }

  lemma LevelSizes(h: Headers, k: nat, e: nat)
    requires Supported(h) && k < Decomposed(h) && e < h.pih.nlx
    ensures k < h.pih.nc
    ensures LowWidth(h, k, e) >= 2 && LowWidth(h, k, e + 1) == (LowWidth(h, k, e) + 1) / 2
    ensures LowWidth(h, k, e) / 2 == HighPassSize(ComponentWidth(h, k), e + 1)
    ensures e < h.pih.nly ==>
              && LowHeight(h, k, e) >= 2 && LowHeight(h, k, e + 1) == (LowHeight(h, k, e) + 1) / 2
              && LowHeight(h, k, e) / 2 == HighPassSize(ComponentHeight(h, k), e + 1)
    ensures e >= h.pih.nly ==> LowHeight(h, k, e + 1) == LowHeight(h, k, e)
  {
    hide Supported, LowPassSize, HighPassSize, ComponentWidth, ComponentHeight;
    HeaderFacts(h);
    EnoughSamples(h, k);
    HalfSizes(ComponentWidth(h, k), e);
    LongEnough(ComponentWidth(h, k), e, h.pih.nlx);
    if e < h.pih.nly {
      HalfSizes(ComponentHeight(h, k), e);
      LongEnough(ComponentHeight(h, k), e, h.pih.nly);
    }
  }

  /** Sizes of the bands of one level, in terms of the low-pass band they split. */
  lemma LevelBandSizes(h: Headers, k: nat, e: nat)
    requires Supported(h) && k < Decomposed(h) && e < h.pih.nlx
    ensures k < h.pih.nc && 1 <= BetaEnd(h, e + 1) < BetaEnd(h, e) <= NBeta(h)
    ensures e < h.pih.nly ==>
              && BetaEnd(h, e + 1) + 3 == BetaEnd(h, e)
              && BandSizeIs(h, Index(h, k, BetaEnd(h, e + 1)), LowWidth(h, k, e) / 2, LowHeight(h, k, e + 1))
              && BandSizeIs(h, Index(h, k, BetaEnd(h, e + 1) + 1), LowWidth(h, k, e + 1), LowHeight(h, k, e) / 2)
              && BandSizeIs(h, Index(h, k, BetaEnd(h, e + 1) + 2), LowWidth(h, k, e) / 2, LowHeight(h, k, e) / 2)
    ensures e >= h.pih.nly ==>
              && BetaEnd(h, e + 1) + 1 == BetaEnd(h, e)
              && BandSizeIs(h, Index(h, k, BetaEnd(h, e + 1)), LowWidth(h, k, e) / 2, LowHeight(h, k, e))
  {
    hide Supported, LowPassSize, HighPassSize, ComponentWidth, ComponentHeight, NBeta, BetaEnd, BandOf, NumBands, Index;
    HeaderFacts(h);
    BetaEnds(h, e);
    LevelSizes(h, k, e);
    TypeSize(h, k, BetaEnd(h, e + 1), e);
    if e < h.pih.nly {
      TypeSize(h, k, BetaEnd(h, e + 1) + 1, e);
      TypeSize(h, k, BetaEnd(h, e + 1) + 2, e);
    }
  }

  predicate BandSizeIs(h: Headers, b: nat, width: nat, height: nat)
    requires Supported(h) && b < NumBands(h)
  {
    BandOf(h, b).width == width && BandOf(h, b).height == height
  }

  lemma TypeSize(h: Headers, k: nat, beta: nat, e: nat)
    requires Supported(h) && k < Decomposed(h) && e < h.pih.nlx && BetaEnd(h, e + 1) <= beta < BetaEnd(h, e) <= NBeta(h)
    requires k < h.pih.nc && BetaEnd(h, e + 1) >= 1
    ensures var j := if e < h.pih.nly then beta - BetaEnd(h, e + 1) else 0;
            BandSizeIs(h, Index(h, k, beta),
                       if j == 1 then LowPassSize(ComponentWidth(h, k), e + 1) else HighPassSize(ComponentWidth(h, k), e + 1),
                       if j == 0 then LowPassSize(ComponentHeight(h, k), Min(e + 1, h.pih.nly))
                       else HighPassSize(ComponentHeight(h, k), e + 1))
  {
    hide Supported, LowPassSize, HighPassSize, ComponentWidth, ComponentHeight, NBeta, BandOf, NumBands, HorizontalType,
         VerticalType, Mul;
    HeaderFacts(h);
    BandIndex(h, beta, k);
    TypeOfLevel(h.pih.nlx, h.pih.nly, beta, e);
  }

  /** The filter types between two depths have the finer of them. */
  lemma TypeOfLevel(nlx: nat, nly: nat, beta: nat, e: nat)
    requires nly <= nlx && e < nlx
    requires if e < nly then 0 <= beta - Beta1(nlx, nly) - 3 * (nly - e - 1) < 3 else beta == nlx - e
    ensures var j := if e < nly then beta - Beta1(nlx, nly) - 3 * (nly - e - 1) else 0;
            && HorizontalType(nlx, nly, beta) == (e + 1, j != 1)
            && VerticalType(nlx, nly, beta) == (Min(e + 1, nly), j != 0)
  {
  }

  lemma LowestSize(h: Headers, k: nat)
    requires Supported(h) && k < Decomposed(h)
    ensures k < h.pih.nc && 0 < NBeta(h)
    ensures BandSizeIs(h, Index(h, k, 0), LowWidth(h, k, h.pih.nlx), LowHeight(h, k, h.pih.nlx))
  {
    hide Supported, LowPassSize, HighPassSize, ComponentWidth, ComponentHeight, NBeta, BandOf, NumBands;
    HeaderFacts(h);
    BandIndex(h, 0, k);
  }

  // ---- decomposition and reconstruction --------------------------------------------------------------

  /** Band j of the level between depths e and e + 1: HL, LH, HH, or the one HL of a horizontal level. */
  function LevelBand(h: Headers, k: nat, e: nat, j: nat): (b: nat)
    requires Supported(h) && k < Decomposed(h) && e < h.pih.nlx && j < if e < h.pih.nly then 3 else 1
    ensures b < NumBands(h)
  {
    BetaEnds(h, e);
    Index(h, k, BetaEnd(h, e + 1) + j)
  }

  function LowestBand(h: Headers, k: nat): (b: nat)
    requires Supported(h) && k < Decomposed(h)
    ensures b < NumBands(h)
  {
    HeaderFacts(h);
    Index(h, k, 0)
  }

  /** Bands of one two-dimensional level: the next low-pass band, HL, LH and HH. */
  datatype Quad = Quad(ll: Plane, hl: Plane, lh: Plane, hh: Plane) {
    predicate Ok() {
      ll.Ok() && hl.Ok() && lh.Ok() && hh.Ok()
    }
  }

  function SplitLevel(ll: Plane): (r: Result<Quad>)
    requires ll.Ok()
    ensures r.Ok? ==> r.value.Ok()
  {
    var (upper, lower) :- VerticalForward(ll);
    var (next, hl) :- HorizontalForward(upper);
    var (lh, hh) :- HorizontalForward(lower);
    Ok(Quad(next, hl, lh, hh))
  }

  function JoinLevel(q: Quad): (r: Result<Plane>)
    requires q.Ok()
    ensures r.Ok? ==> r.value.Ok()
  {
    var upper :- HorizontalInverse(q.ll, q.hl);
    var lower :- HorizontalInverse(q.lh, q.hh);
    VerticalInverse(upper, lower)
  }

  function StoreLevel(h: Headers, k: nat, e: nat, q: Quad, img: BandPlanes): (r: Result<BandPlanes>)
    requires Supported(h) && k < Decomposed(h) && e < h.pih.nly <= h.pih.nlx && q.Ok() && AllOk(img)
    ensures r.Ok? ==> AllOk(r.value) && |r.value| == |img|
  {
    var img1 :- StoreBand(h, q.hl, LevelBand(h, k, e, 0), img);
    var img2 :- StoreBand(h, q.lh, LevelBand(h, k, e, 1), img1);
    StoreBand(h, q.hh, LevelBand(h, k, e, 2), img2)
  }

  /** Decomposes the low-pass band at depth e further: two-dimensional levels, then horizontal ones. */
  function ForwardFrom(h: Headers, k: nat, ll: Plane, e: nat, img: BandPlanes): (r: Result<BandPlanes>)
    requires Supported(h) && k < Decomposed(h) && e <= h.pih.nlx && ll.Ok() && AllOk(img)
    ensures r.Ok? ==> AllOk(r.value) && |r.value| == |img|
    decreases h.pih.nlx - e
  {
    HeaderFacts(h);
    if e == h.pih.nlx then StoreBand(h, ll, LowestBand(h, k), img)
    else if e < h.pih.nly then
      var q :- SplitLevel(ll);
      var img' :- StoreLevel(h, k, e, q, img);
      ForwardFrom(h, k, q.ll, e + 1, img')
    else
      var (low, high) :- HorizontalForward(ll);
      var img' :- StoreBand(h, high, LevelBand(h, k, e, 0), img);
      ForwardFrom(h, k, low, e + 1, img')
  }

  /** Table E.8. */
  function ForwardDwt(h: Headers, k: nat, p: Plane, img: BandPlanes): (r: Result<BandPlanes>)
    requires Supported(h) && k < h.pih.nc && p.Ok() && AllOk(img)
    ensures r.Ok? ==> AllOk(r.value) && |r.value| == |img|
  {
    HeaderFacts(h);
    if p.width != ComponentWidth(h, k) || p.height != ComponentHeight(h, k) then Err(BadBand)
    else if k >= Decomposed(h) then StoreBand(h, p, PlainBandIndex(h, k), img)
    else ForwardFrom(h, k, p, 0, img)
  }

  function PlainBandIndex(h: Headers, k: nat): (b: nat)
    requires Supported(h) && Decomposed(h) <= k < h.pih.nc
    ensures b < NumBands(h)
  {
    PlainIndex(h, k);
    Mul(Decomposed(h), NBeta(h)) + (k - Decomposed(h))
  }

  function LoadLevel(h: Headers, k: nat, e: nat, img: BandPlanes, ll: Plane): (r: Result<Quad>)
    requires Supported(h) && k < Decomposed(h) && e < h.pih.nly <= h.pih.nlx && AllOk(img) && ll.Ok()
    ensures r.Ok? ==> r.value.Ok() && r.value.ll == ll
  {
    var hl :- ScaledBand(h, img, LevelBand(h, k, e, 0));
    var lh :- ScaledBand(h, img, LevelBand(h, k, e, 1));
    var hh :- ScaledBand(h, img, LevelBand(h, k, e, 2));
    Ok(Quad(ll, hl, lh, hh))
  }

  /** The low-pass band at depth e, rebuilt from the coarsest level up. */
  function InverseTo(h: Headers, k: nat, img: BandPlanes, e: nat): (r: Result<Plane>)
    requires Supported(h) && k < Decomposed(h) && e <= h.pih.nlx && AllOk(img)
    ensures r.Ok? ==> r.value.Ok()
    decreases h.pih.nlx - e
  {
    HeaderFacts(h);
    if e == h.pih.nlx then ScaledBand(h, img, LowestBand(h, k)) else
    var ll :- InverseTo(h, k, img, e + 1);
    if e < h.pih.nly then
      var q :- LoadLevel(h, k, e, img, ll);
      JoinLevel(q)
    else
      var hl :- ScaledBand(h, img, LevelBand(h, k, e, 0));
      HorizontalInverse(ll, hl)
  }

  /** Table E.1. */
  function InverseDwt(h: Headers, k: nat, img: BandPlanes): (r: Result<Plane>)
    requires Supported(h) && k < h.pih.nc && AllOk(img)
    ensures r.Ok? ==> r.value.Ok()
  {
    HeaderFacts(h);
    if k >= Decomposed(h) then ScaledBand(h, img, PlainBandIndex(h, k)) else
    var p :- InverseTo(h, k, img, 0);
    if p.width != ComponentWidth(h, k) || p.height != ComponentHeight(h, k) then Err(BadBand) else Ok(p)
  }

  // ---- one level -------------------------------------------------------------------------------------

  ghost predicate QuadFits(q: Quad)
    requires q.Ok()
  {
    Fits(q.ll) && Fits(q.hl) && Fits(q.lh) && Fits(q.hh)
  }

  lemma LevelRestores(ll: Plane)
    requires ll.Ok() && Fits(ll) && SplitLevel(ll).Ok?
    ensures JoinLevel(SplitLevel(ll).value) == Ok(ll)
  {
    hide HorizontalForward, HorizontalInverse, VerticalForward, VerticalInverse, Fits;
    var (upper, lower) := VerticalForward(ll).value;
    VerticalSizes(ll);
    HorizontalRestores(upper);
    HorizontalRestores(lower);
    VerticalRestores(ll);
  }

  lemma LevelSplitsAgain(q: Quad)
    requires q.Ok() && QuadFits(q) && JoinLevel(q).Ok?
    ensures SplitLevel(JoinLevel(q).value) == Ok(q)
  {
    hide HorizontalForward, HorizontalInverse, VerticalForward, VerticalInverse, Fits;
    var upper, lower := HorizontalInverse(q.ll, q.hl).value, HorizontalInverse(q.lh, q.hh).value;
    InverseSizes(q.ll, q.hl);
    InverseSizes(q.lh, q.hh);
    HorizontalSplitsAgain(q.ll, q.hl);
    HorizontalSplitsAgain(q.lh, q.hh);
    VerticalSplitsAgain(upper, lower);
  }

  lemma SplitSizes(ll: Plane)
    requires ll.Ok() && SplitLevel(ll).Ok?
    ensures var q := SplitLevel(ll).value;
            && QuadFits(q)
            && q.ll.width == q.lh.width == (ll.width + 1) / 2 && q.hl.width == q.hh.width == ll.width / 2
            && q.ll.height == q.hl.height == (ll.height + 1) / 2 && q.lh.height == q.hh.height == ll.height / 2
  {
    hide HorizontalForward, VerticalForward, Fits;
    var (upper, lower) := VerticalForward(ll).value;
    VerticalSizes(ll);
    HorizontalSizes(upper);
    HorizontalSizes(lower);
  }

  lemma JoinSizes(q: Quad)
    requires q.Ok() && JoinLevel(q).Ok?
    ensures var p := JoinLevel(q).value;
            Fits(p) && p.width == q.ll.width + q.hl.width && p.height == q.ll.height + q.lh.height
  {
    hide HorizontalInverse, VerticalInverse, Fits;
    var upper, lower := HorizontalInverse(q.ll, q.hl).value, HorizontalInverse(q.lh, q.hh).value;
    InverseSizes(q.ll, q.hl);
    InverseSizes(q.lh, q.hh);
    InverseSizes(upper, lower);
  }

  // ---- which bands a component owns ------------------------------------------------------------------

  /** Band b is a band of decomposed component k below filter type end. */
  predicate Owned(h: Headers, k: nat, end: int, b: nat)
    requires Supported(h) && k < Decomposed(h)
  {
    HeaderFacts(h);
    b % Decomposed(h) == k && b / Decomposed(h) < end
  }

  lemma OwnedIndex(h: Headers, k: nat, end: int, beta: nat)
    requires Supported(h) && k < Decomposed(h) && beta < NBeta(h)
    ensures Owned(h, k, end, Index(h, k, beta)) <==> beta < end
  {
    hide Supported, NBeta, Mul, NumBands;
    HeaderFacts(h);
    IndexParts(Decomposed(h), beta, k);
  }

  /** Only bands of component k below filter type end differ. */
  ghost predicate SameElsewhere(h: Headers, k: nat, end: int, img: BandPlanes, img': BandPlanes)
    requires Supported(h) && k < Decomposed(h)
  {
    |img'| == |img| && forall b: nat | b < |img| && !Owned(h, k, end, b) :: img'[b] == img[b]
  }

  /** LevelBand j lies in the level: owned up to depth e, not beyond depth e + 1. */
  lemma LevelOwned(h: Headers, k: nat, e: nat, j: nat)
    requires Supported(h) && k < Decomposed(h) && e < h.pih.nlx && j < if e < h.pih.nly then 3 else 1
    ensures Owned(h, k, BetaEnd(h, e), LevelBand(h, k, e, j)) && !Owned(h, k, BetaEnd(h, e + 1), LevelBand(h, k, e, j))
    ensures forall b | Owned(h, k, BetaEnd(h, e + 1), b) :: Owned(h, k, BetaEnd(h, e), b)
    ensures forall i: nat | i < (if e < h.pih.nly then 3 else 1) && i != j :: LevelBand(h, k, e, i) != LevelBand(h, k, e, j)
  {
    hide Supported, NBeta, BetaEnd, NumBands, Index;
    HeaderFacts(h);
    BetaEnds(h, e);
    OwnedIndex(h, k, BetaEnd(h, e), BetaEnd(h, e + 1) + j);
    OwnedIndex(h, k, BetaEnd(h, e + 1), BetaEnd(h, e + 1) + j);
    forall i: nat | i < (if e < h.pih.nly then 3 else 1) && i != j
      ensures LevelBand(h, k, e, i) != LevelBand(h, k, e, j)
    {
      OwnedIndex(h, k, BetaEnd(h, e + 1) + i, BetaEnd(h, e + 1) + i);
      OwnedIndex(h, k, BetaEnd(h, e + 1) + i, BetaEnd(h, e + 1) + j);
      OwnedIndex(h, k, BetaEnd(h, e + 1) + j, BetaEnd(h, e + 1) + i);
      OwnedIndex(h, k, BetaEnd(h, e + 1) + j, BetaEnd(h, e + 1) + j);
    }
  }

  lemma LowestOwned(h: Headers, k: nat)
    requires Supported(h) && k < Decomposed(h)
    ensures Owned(h, k, BetaEnd(h, h.pih.nlx), LowestBand(h, k))
  {
    hide Supported, NBeta, NumBands, Index;
    HeaderFacts(h);
    BetaEnds(h, 0);
    OwnedIndex(h, k, BetaEnd(h, h.pih.nlx), 0);
  }

  /** The bands between two depths are exactly the LevelBands. */
  lemma OwnedIsLevelBand(h: Headers, k: nat, e: nat, b: nat) returns (j: nat)
    requires Supported(h) && k < Decomposed(h) && e < h.pih.nlx
    requires Owned(h, k, BetaEnd(h, e), b) && !Owned(h, k, BetaEnd(h, e + 1), b)
    ensures j < (if e < h.pih.nly then 3 else 1) && b == LevelBand(h, k, e, j)
  {
    hide Supported, NBeta, BetaEnd, NumBands;
    HeaderFacts(h);
    BetaEnds(h, e);
    j := b / Decomposed(h) - BetaEnd(h, e + 1);
    DivMod(b, Decomposed(h));
    hide Mul;
  }

  lemma OwnedIsLowest(h: Headers, k: nat, b: nat)
    requires Supported(h) && k < Decomposed(h) && Owned(h, k, 1, b)
    ensures b == LowestBand(h, k)
  {
    hide Supported, NBeta, NumBands;
    HeaderFacts(h);
    DivNonNegative(b, Decomposed(h));
    DivMod(b, Decomposed(h));
    assert Mul(Decomposed(h), 0) == 0;
  }

  // ---- storing and loading ---------------------------------------------------------------------------

  lemma StoredBand(h: Headers, t: Plane, b: nat, img: BandPlanes)
    requires Supported(h) && b < NumBands(h) && t.Ok() && AllOk(img) && StoreBand(h, t, b, img).Ok?
    ensures var img' := StoreBand(h, t, b, img).value;
            b < |img'| == |img| && img'[b] == Rounded(t, h.pih.fq) && Sized(h, b, t)
            && forall c | 0 <= c < |img| && c != b :: img'[c] == img[c]
  {
  }

  /** A band stored without fractional bits loads as it was. */
  lemma LoadStored(h: Headers, t: Plane, b: nat, img: BandPlanes)
    requires Supported(h) && b < NumBands(h) && h.pih.fq == 0 && t.Ok() && Fits(t) && Sized(h, b, t)
    requires AllOk(img) && b < |img| && img[b] == Rounded(t, 0)
    ensures ScaledBand(h, img, b) == Ok(t)
  {
    hide Supported, Rounded, ScaledUp, Fits, NumBands, BandOf;
    NoFraction(t);
  }

  /** Whatever fractional bits, storing a loaded band puts it back. */
  lemma StoreLoaded(h: Headers, b: nat, src: BandPlanes, img: BandPlanes)
    requires Supported(h) && b < NumBands(h) && AllOk(src) && ScaledBand(h, src, b).Ok?
    requires Allocated(h, img)
    ensures b < |src| && b < |img|
    ensures StoreBand(h, ScaledBand(h, src, b).value, b, img) == Ok(img[b := src[b]])
    ensures Allocated(h, img[b := src[b]])
  {
    hide Supported, Fits, NumBands, BandOf, Rounded;
    RoundedScaledUp(src[b], h.pih.fq);
  }

  lemma StoredLevel(h: Headers, k: nat, e: nat, q: Quad, img: BandPlanes)
    requires Supported(h) && k < Decomposed(h) && e < h.pih.nly <= h.pih.nlx && q.Ok() && AllOk(img)
    requires StoreLevel(h, k, e, q, img).Ok?
    ensures var img' := StoreLevel(h, k, e, q, img).value;
            var (b0, b1, b2) := (LevelBand(h, k, e, 0), LevelBand(h, k, e, 1), LevelBand(h, k, e, 2));
            && b0 < |img'| && b1 < |img'| && b2 < |img'| && |img'| == |img|
            && img'[b0] == Rounded(q.hl, h.pih.fq) && img'[b1] == Rounded(q.lh, h.pih.fq) && img'[b2] == Rounded(q.hh, h.pih.fq)
            && Sized(h, b0, q.hl) && Sized(h, b1, q.lh) && Sized(h, b2, q.hh)
            && forall c | 0 <= c < |img| && c != b0 && c != b1 && c != b2 :: img'[c] == img[c]
  {
    hide Supported, Rounded, NumBands, LevelBand, StoreBand, Sized;
    var (b0, b1, b2) := (LevelBand(h, k, e, 0), LevelBand(h, k, e, 1), LevelBand(h, k, e, 2));
    LevelOwned(h, k, e, 0);
    LevelOwned(h, k, e, 1);
    var img1 := StoreBand(h, q.hl, b0, img).value;
    var img2 := StoreBand(h, q.lh, b1, img1).value;
    StoredBand(h, q.hl, b0, img);
    StoredBand(h, q.lh, b1, img1);
    StoredBand(h, q.hh, b2, img2);
  }

  /** Decomposition writes bands of its component below its level only. */
  lemma {:induction false} ForwardFrame(h: Headers, k: nat, ll: Plane, e: nat, img: BandPlanes)
    requires Supported(h) && k < Decomposed(h) && e <= h.pih.nlx && ll.Ok() && AllOk(img)
    requires ForwardFrom(h, k, ll, e, img).Ok?
    ensures SameElsewhere(h, k, BetaEnd(h, e), img, ForwardFrom(h, k, ll, e, img).value)
    decreases h.pih.nlx - e
  {
    hide Supported, SplitLevel, HorizontalForward, StoreLevel, StoreBand, BetaEnd, Rounded, LevelBand, NumBands, Owned, LowestBand;
    HeaderFacts(h);
    if e == h.pih.nlx {
      StoredBand(h, ll, LowestBand(h, k), img);
      LowestOwned(h, k);
    } else if e < h.pih.nly {
      var q := SplitLevel(ll).value;
      var img' := StoreLevel(h, k, e, q, img).value;
      StoredLevel(h, k, e, q, img);
      ForwardFrame(h, k, q.ll, e + 1, img');
      LevelOwned(h, k, e, 0);
      LevelOwned(h, k, e, 1);
      LevelOwned(h, k, e, 2);
    } else {
      var (low, high) := HorizontalForward(ll).value;
      StoredBand(h, high, LevelBand(h, k, e, 0), img);
      ForwardFrame(h, k, low, e + 1, StoreBand(h, high, LevelBand(h, k, e, 0), img).value);
      LevelOwned(h, k, e, 0);
    }
  }

  // ---- inverse of forward, without fractional bits ---------------------------------------------------

  lemma {:induction false} ForwardRestores(h: Headers, k: nat, ll: Plane, e: nat, img: BandPlanes)
    requires Supported(h) && k < Decomposed(h) && e <= h.pih.nlx && ll.Ok() && Fits(ll) && AllOk(img) && h.pih.fq == 0
    requires ForwardFrom(h, k, ll, e, img).Ok?
    ensures InverseTo(h, k, ForwardFrom(h, k, ll, e, img).value, e) == Ok(ll)
    decreases h.pih.nlx - e
  {
    hide Supported, SplitLevel, JoinLevel, HorizontalForward, HorizontalInverse, StoreLevel, StoreBand, ScaledBand, BetaEnd,
         Rounded, LevelBand, NumBands, Owned, LowestBand, Fits, Sized;
    HeaderFacts(h);
    var done := ForwardFrom(h, k, ll, e, img).value;
    if e == h.pih.nlx {
      StoredBand(h, ll, LowestBand(h, k), img);
      LoadStored(h, ll, LowestBand(h, k), done);
    } else if e < h.pih.nly {
      var q := SplitLevel(ll).value;
      var img' := StoreLevel(h, k, e, q, img).value;
      StoredLevel(h, k, e, q, img);
      SplitSizes(ll);
      ForwardFrame(h, k, q.ll, e + 1, img');
      ForwardRestores(h, k, q.ll, e + 1, img');
      LevelOwned(h, k, e, 0);
      LevelOwned(h, k, e, 1);
      LevelOwned(h, k, e, 2);
      LoadStored(h, q.hl, LevelBand(h, k, e, 0), done);
      LoadStored(h, q.lh, LevelBand(h, k, e, 1), done);
      LoadStored(h, q.hh, LevelBand(h, k, e, 2), done);
      assert LoadLevel(h, k, e, done, q.ll) == Ok(q);
      LevelRestores(ll);
    } else {
      var (low, high) := HorizontalForward(ll).value;
      var img' := StoreBand(h, high, LevelBand(h, k, e, 0), img).value;
      StoredBand(h, high, LevelBand(h, k, e, 0), img);
      HorizontalSizes(ll);
      ForwardFrame(h, k, low, e + 1, img');
      ForwardRestores(h, k, low, e + 1, img');
      LevelOwned(h, k, e, 0);
      LoadStored(h, high, LevelBand(h, k, e, 0), done);
      HorizontalRestores(ll);
    }
  }

  /** Without fractional bits the inverse transform undoes the forward transform. */
  lemma DwtRestores(h: Headers, k: nat, p: Plane, img: BandPlanes)
    requires Supported(h) && k < h.pih.nc && p.Ok() && Fits(p) && AllOk(img) && h.pih.fq == 0
    requires ForwardDwt(h, k, p, img).Ok?
    ensures InverseDwt(h, k, ForwardDwt(h, k, p, img).value) == Ok(p)
  {
    hide Supported, ForwardFrom, InverseTo, StoreBand, ScaledBand, NumBands, Rounded, Fits, Sized, PlainBandIndex;
    HeaderFacts(h);
    if k >= Decomposed(h) {
      StoredBand(h, p, PlainBandIndex(h, k), img);
      LoadStored(h, p, PlainBandIndex(h, k), ForwardDwt(h, k, p, img).value);
    } else {
      ForwardRestores(h, k, p, 0, img);
    }
  }

  // ---- forward of inverse, for any number of fractional bits ----------------------------------------

  lemma {:induction false} InverseFits(h: Headers, k: nat, img: BandPlanes, e: nat)
    requires Supported(h) && k < Decomposed(h) && e <= h.pih.nlx && AllOk(img) && InverseTo(h, k, img, e).Ok?
    ensures Fits(InverseTo(h, k, img, e).value)
    decreases h.pih.nlx - e
  {
    hide Supported, JoinLevel, HorizontalInverse, LevelBand, NumBands, LowestBand, Fits, Sized, LoadLevel, ScaledBand;
    HeaderFacts(h);
    if e == h.pih.nlx {
      BandFits(h, img, LowestBand(h, k));
    } else {
      var ll := InverseTo(h, k, img, e + 1).value;
      if e < h.pih.nly {
        JoinSizes(LoadLevel(h, k, e, img, ll).value);
      } else {
        InverseSizes(ll, ScaledBand(h, img, LevelBand(h, k, e, 0)).value);
      }
    }
  }

  lemma BandFits(h: Headers, img: BandPlanes, b: nat)
    requires Supported(h) && b < NumBands(h) && AllOk(img) && ScaledBand(h, img, b).Ok?
    ensures Fits(ScaledBand(h, img, b).value)
  {
  }

  /** Bands of component k below filter type end agree. */
  ghost predicate SameOwned(h: Headers, k: nat, end: int, img: BandPlanes, img': BandPlanes)
    requires Supported(h) && k < Decomposed(h)
  {
    |img| == |img'| && forall b: nat | b < |img| && Owned(h, k, end, b) :: img'[b] == img[b]
  }

  /** Bands that agree below depth e + 1, and on the level itself before that, agree below depth e. */
  lemma SameLevel(h: Headers, k: nat, e: nat, img: BandPlanes, other: BandPlanes, img': BandPlanes, other': BandPlanes)
    requires Supported(h) && k < Decomposed(h) && e < h.pih.nlx && |img| == |other|
    requires forall j: nat | j < (if e < h.pih.nly then 3 else 1) && LevelBand(h, k, e, j) < |img| ::
               img[LevelBand(h, k, e, j)] == other[LevelBand(h, k, e, j)]
    requires SameElsewhere(h, k, BetaEnd(h, e + 1), img, img') && SameElsewhere(h, k, BetaEnd(h, e + 1), other, other')
    requires SameOwned(h, k, BetaEnd(h, e + 1), img', other')
    ensures SameOwned(h, k, BetaEnd(h, e), img', other')
  {
    hide Supported, BetaEnd, LevelBand, NumBands, Owned;
    forall b: nat | b < |img'| && Owned(h, k, BetaEnd(h, e), b)
      ensures other'[b] == img'[b]
    {
      if !Owned(h, k, BetaEnd(h, e + 1), b) {
        var j := OwnedIsLevelBand(h, k, e, b);
      }
    }
  }

  lemma {:induction false} InverseSplitsAgain(h: Headers, k: nat, src: BandPlanes, e: nat, img: BandPlanes)
    requires Supported(h) && k < Decomposed(h) && e <= h.pih.nlx && Allocated(h, src) && Allocated(h, img)
    requires InverseTo(h, k, src, e).Ok?
    ensures var r := ForwardFrom(h, k, InverseTo(h, k, src, e).value, e, img);
            r.Ok? && SameOwned(h, k, BetaEnd(h, e), src, r.value)
    decreases h.pih.nlx - e
  {
    hide Supported, SplitLevel, JoinLevel, HorizontalForward, HorizontalInverse, StoreBand, ScaledBand, BetaEnd,
         Rounded, LevelBand, NumBands, Owned, LowestBand, Fits, Sized;
    HeaderFacts(h);
    BetaEnds(h, 0);
    if e == h.pih.nlx {
      StoreLoaded(h, LowestBand(h, k), src, img);
      forall b: nat | b < |src| && Owned(h, k, BetaEnd(h, e), b)
        ensures b == LowestBand(h, k)
      {
        OwnedIsLowest(h, k, b);
      }
    } else {
      var ll := InverseTo(h, k, src, e + 1).value;
      InverseFits(h, k, src, e + 1);
      BetaEnds(h, e);
      var img': BandPlanes;
      if e < h.pih.nly {
        var q := LoadLevel(h, k, e, src, ll).value;
        BandFits(h, src, LevelBand(h, k, e, 0));
        BandFits(h, src, LevelBand(h, k, e, 1));
        BandFits(h, src, LevelBand(h, k, e, 2));
        LevelSplitsAgain(q);
        var (b0, b1, b2) := (LevelBand(h, k, e, 0), LevelBand(h, k, e, 1), LevelBand(h, k, e, 2));
        StoreLoaded(h, b0, src, img);
        StoreLoaded(h, b1, src, img[b0 := src[b0]]);
        StoreLoaded(h, b2, src, img[b0 := src[b0]][b1 := src[b1]]);
        img' := img[b0 := src[b0]][b1 := src[b1]][b2 := src[b2]];
        assert StoreLevel(h, k, e, q, img) == Ok(img');
        LevelOwned(h, k, e, 0);
        LevelOwned(h, k, e, 1);
      } else {
        var b0 := LevelBand(h, k, e, 0);
        var hl := ScaledBand(h, src, b0).value;
        BandFits(h, src, b0);
        HorizontalSplitsAgain(ll, hl);
        StoreLoaded(h, b0, src, img);
        img' := img[b0 := src[b0]];
      }
      InverseSplitsAgain(h, k, src, e + 1, img');
      ForwardFrame(h, k, ll, e + 1, img');
      SameLevel(h, k, e, src, img', src, ForwardFrom(h, k, ll, e + 1, img').value);
    }
  }

  /** The bands of component k. */
  predicate BandOfComponent(h: Headers, k: nat, b: nat)
    requires Supported(h) && k < h.pih.nc
  {
    if k < Decomposed(h) then Owned(h, k, NBeta(h), b) else b == PlainBandIndex(h, k)
  }

  /** For every number of fractional bits the forward transform undoes the inverse transform. */
  lemma DwtSplitsAgain(h: Headers, k: nat, src: BandPlanes, img: BandPlanes)
    requires Supported(h) && k < h.pih.nc && Allocated(h, src) && Allocated(h, img) && InverseDwt(h, k, src).Ok?
    ensures var r := ForwardDwt(h, k, InverseDwt(h, k, src).value, img);
            && r.Ok? && |r.value| == |src|
            && forall b: nat | b < |src| && BandOfComponent(h, k, b) :: r.value[b] == src[b]
  {
    hide Supported, ForwardFrom, InverseTo, StoreBand, ScaledBand, NumBands, Rounded, Fits, PlainBandIndex, Owned, BetaEnd, BandOf,
         NBeta;
    HeaderFacts(h);
    if k >= Decomposed(h) {
      StoreLoaded(h, PlainBandIndex(h, k), src, img);
      PlainSize(h, k);
      LoadedSize(h, src, PlainBandIndex(h, k));
    } else {
      BetaEnds(h, 0);
      InverseSplitsAgain(h, k, src, 0, img);
    }
  }

  lemma PlainSize(h: Headers, k: nat)
    requires Supported(h) && Decomposed(h) <= k < h.pih.nc
    ensures k < |h.components| && h.components[k].sx > 0 && h.components[k].sy > 0
    ensures BandSizeIs(h, PlainBandIndex(h, k), ComponentWidth(h, k), ComponentHeight(h, k))
  {
    hide Supported, NumBands, ComponentWidth, ComponentHeight, NBeta, Mul;
    HeaderFacts(h);
    PlainIndex(h, k);
  }

  lemma LoadedSize(h: Headers, img: BandPlanes, b: nat)
    requires Supported(h) && b < NumBands(h) && AllOk(img) && ScaledBand(h, img, b).Ok?
    ensures Sized(h, b, ScaledBand(h, img, b).value)
  {
  }

  // ---- the transform never misses a band -------------------------------------------------------------

  /** A plane of the low-pass size at depth e. */
  predicate LowSized(h: Headers, k: nat, e: nat, p: Plane)
    requires Supported(h) && k < h.pih.nc
  {
    p.width == LowWidth(h, k, e) && p.height == LowHeight(h, k, e)
  }

  lemma StoreAllocated(h: Headers, t: Plane, b: nat, img: BandPlanes)
    requires Supported(h) && b < NumBands(h) && t.Ok() && Sized(h, b, t) && Allocated(h, img)
    ensures |img| == NumBands(h)
    ensures StoreBand(h, t, b, img) == Ok(img[b := Rounded(t, h.pih.fq)]) && Allocated(h, img[b := Rounded(t, h.pih.fq)])
  {
    hide Supported, NumBands, BandOf;
  }

  lemma SplitOverflows(ll: Plane)
    requires ll.Ok() && ll.width >= 2 && ll.height >= 2 && SplitLevel(ll).Err?
    ensures SplitLevel(ll).error == Overflow
  {
    hide Fits;
    if VerticalForward(ll).Ok? {
      VerticalSizes(ll);
    }
  }

  lemma LowestPart(h: Headers, k: nat)
    requires Supported(h) && k < Decomposed(h)
    ensures k < h.pih.nc && BandSizeIs(h, LowestBand(h, k), LowWidth(h, k, h.pih.nlx), LowHeight(h, k, h.pih.nlx))
  {
    hide Supported, NumBands, LowWidth, LowHeight, Index;
    LowestSize(h, k);
  }

  lemma LevelParts(h: Headers, k: nat, e: nat)
    requires Supported(h) && k < Decomposed(h) && e < h.pih.nlx
    ensures k < h.pih.nc
    ensures e < h.pih.nly ==>
              && BandSizeIs(h, LevelBand(h, k, e, 0), LowWidth(h, k, e) / 2, LowHeight(h, k, e + 1))
              && BandSizeIs(h, LevelBand(h, k, e, 1), LowWidth(h, k, e + 1), LowHeight(h, k, e) / 2)
              && BandSizeIs(h, LevelBand(h, k, e, 2), LowWidth(h, k, e) / 2, LowHeight(h, k, e) / 2)
    ensures e >= h.pih.nly ==> BandSizeIs(h, LevelBand(h, k, e, 0), LowWidth(h, k, e) / 2, LowHeight(h, k, e))
  {
    hide Supported, NumBands, LowWidth, LowHeight, Index, BandSizeIs, BetaEnd;
    LevelBandSizes(h, k, e);
  }

  /**
   * On a plane of the right size every band asked for exists with the size the geometry lists and
   * every filtered line is long enough: the only error left is a value beyond 32 bits. What the
   * buffers held before does not matter: every sample of every band of the component is written.
   */
  lemma {:induction false} ForwardMatches(h: Headers, k: nat, ll: Plane, e: nat, img: BandPlanes, other: BandPlanes)
    requires Supported(h) && k < Decomposed(h) && e <= h.pih.nlx && ll.Ok() && Allocated(h, img) && Allocated(h, other)
    requires k < h.pih.nc && LowSized(h, k, e, ll)
    ensures var r := ForwardFrom(h, k, ll, e, img);
            var s := ForwardFrom(h, k, ll, e, other);
            if r.Ok? then
              Allocated(h, r.value) && s.Ok? && SameOwned(h, k, BetaEnd(h, e), r.value, s.value)
            else r.error == Overflow
    decreases h.pih.nlx - e
  {
    hide Supported, SplitLevel, HorizontalForward, StoreBand, BetaEnd, Rounded, LevelBand, NumBands, Owned, LowestBand, Fits,
         LowWidth, LowHeight, BandOf;
    HeaderFacts(h);
    BetaEnds(h, 0);
    if e == h.pih.nlx {
      LowestPart(h, k);
      StoreAllocated(h, ll, LowestBand(h, k), img);
      StoreAllocated(h, ll, LowestBand(h, k), other);
      forall b: nat | b < |img| && Owned(h, k, BetaEnd(h, e), b)
        ensures b == LowestBand(h, k)
      {
        OwnedIsLowest(h, k, b);
      }
    } else {
      LevelSizes(h, k, e);
      LevelParts(h, k, e);
      if e < h.pih.nly {
        if SplitLevel(ll).Err? {
          SplitOverflows(ll);
        } else {
          Level2Matches(h, k, SplitLevel(ll).value, ll, e, img, other);
        }
      } else if HorizontalForward(ll).Err? {
        assert HorizontalForward(ll).error == Overflow by { OnlyOverflow(ll); }
      } else {
        Level1Matches(h, k, ll, e, img, other);
      }
    }
  }

  lemma OnlyOverflow(p: Plane)
    requires p.Ok() && p.width >= 2 && HorizontalForward(p).Err?
    ensures HorizontalForward(p).error == Overflow
  {
  }

  lemma StoreLevelAllocated(h: Headers, k: nat, e: nat, q: Quad, img: BandPlanes)
    requires Supported(h) && k < Decomposed(h) && e < h.pih.nly <= h.pih.nlx && q.Ok() && Allocated(h, img)
    requires Sized(h, LevelBand(h, k, e, 0), q.hl) && Sized(h, LevelBand(h, k, e, 1), q.lh) && Sized(h, LevelBand(h, k, e, 2), q.hh)
    ensures AllOk(img) && StoreLevel(h, k, e, q, img).Ok? && Allocated(h, StoreLevel(h, k, e, q, img).value)
  {
    hide Supported, StoreBand, LevelBand, NumBands, BandOf, Sized, Rounded;
    var (b0, b1, b2) := (LevelBand(h, k, e, 0), LevelBand(h, k, e, 1), LevelBand(h, k, e, 2));
    StoreAllocated(h, q.hl, b0, img);
    var img1 := StoreBand(h, q.hl, b0, img).value;
    StoreAllocated(h, q.lh, b1, img1);
    StoreAllocated(h, q.hh, b2, StoreBand(h, q.lh, b1, img1).value);
  }

  lemma QuadSized(h: Headers, k: nat, e: nat, ll: Plane)
    requires Supported(h) && k < Decomposed(h) && e < h.pih.nly <= h.pih.nlx && ll.Ok() && SplitLevel(ll).Ok?
    requires k < h.pih.nc && LowSized(h, k, e, ll)
    ensures var q := SplitLevel(ll).value;
            && LowSized(h, k, e + 1, q.ll)
            && Sized(h, LevelBand(h, k, e, 0), q.hl) && Sized(h, LevelBand(h, k, e, 1), q.lh)
            && Sized(h, LevelBand(h, k, e, 2), q.hh)
  {
    hide Supported, SplitLevel, LevelBand, NumBands, QuadFits, LowWidth, LowHeight, BandOf;
    LevelSizes(h, k, e);
    LevelParts(h, k, e);
    SplitSizes(ll);
  }

  lemma ForwardLevel2(h: Headers, k: nat, q: Quad, ll: Plane, e: nat, img: BandPlanes)
    requires Supported(h) && k < Decomposed(h) && e < h.pih.nly <= h.pih.nlx && ll.Ok() && AllOk(img)
    requires SplitLevel(ll) == Ok(q) && StoreLevel(h, k, e, q, img).Ok?
    ensures ForwardFrom(h, k, ll, e, img) == ForwardFrom(h, k, q.ll, e + 1, StoreLevel(h, k, e, q, img).value)
  {
    hide Supported, SplitLevel, StoreLevel;
  }

  lemma {:induction false} Level2Matches(h: Headers, k: nat, q: Quad, ll: Plane, e: nat, img: BandPlanes, other: BandPlanes)
    requires Supported(h) && k < Decomposed(h) && e < h.pih.nly <= h.pih.nlx && ll.Ok() && Allocated(h, img) && Allocated(h, other)
    requires k < h.pih.nc && LowSized(h, k, e, ll) && SplitLevel(ll) == Ok(q)
    ensures var r := ForwardFrom(h, k, ll, e, img);
            var s := ForwardFrom(h, k, ll, e, other);
            if r.Ok? then
              Allocated(h, r.value) && s.Ok? && SameOwned(h, k, BetaEnd(h, e), r.value, s.value)
            else r.error == Overflow
    decreases h.pih.nlx - e, 0
  {
    hide Supported, SplitLevel, HorizontalForward, StoreLevel, BetaEnd, Rounded, LevelBand, NumBands, Owned, LowestBand,
         LowSized, BandOf, Allocated, Sized, ForwardFrom;
    HeaderFacts(h);
    QuadSized(h, k, e, ll);
    StoreLevelAllocated(h, k, e, q, img);
    StoreLevelAllocated(h, k, e, q, other);
    ForwardLevel2(h, k, q, ll, e, img);
    ForwardLevel2(h, k, q, ll, e, other);
    var img', other' := StoreLevel(h, k, e, q, img).value, StoreLevel(h, k, e, q, other).value;
    StoredLevel(h, k, e, q, img);
    StoredLevel(h, k, e, q, other);
    ForwardMatches(h, k, q.ll, e + 1, img', other');
    if ForwardFrom(h, k, q.ll, e + 1, img').Ok? {
      ForwardFrame(h, k, q.ll, e + 1, img');
      ForwardFrame(h, k, q.ll, e + 1, other');
      SameLevel(h, k, e, img', other', ForwardFrom(h, k, q.ll, e + 1, img').value, ForwardFrom(h, k, q.ll, e + 1, other').value);
    }
  }

  lemma {:induction false} Level1Matches(h: Headers, k: nat, ll: Plane, e: nat, img: BandPlanes, other: BandPlanes)
    requires Supported(h) && k < Decomposed(h) && h.pih.nly <= e < h.pih.nlx && ll.Ok() && Allocated(h, img) && Allocated(h, other)
    requires k < h.pih.nc && LowSized(h, k, e, ll) && HorizontalForward(ll).Ok?
    ensures var r := ForwardFrom(h, k, ll, e, img);
            var s := ForwardFrom(h, k, ll, e, other);
            if r.Ok? then
              Allocated(h, r.value) && s.Ok? && SameOwned(h, k, BetaEnd(h, e), r.value, s.value)
            else r.error == Overflow
    decreases h.pih.nlx - e, 0
  {
    hide Supported, SplitLevel, HorizontalForward, StoreBand, BetaEnd, Rounded, LevelBand, NumBands, Owned, LowestBand, Fits,
         LowWidth, LowHeight, BandOf;
    HeaderFacts(h);
    LevelSizes(h, k, e);
    LevelParts(h, k, e);
    HorizontalSizes(ll);
    var (low, high) := HorizontalForward(ll).value;
    var b0 := LevelBand(h, k, e, 0);
    StoreAllocated(h, high, b0, img);
    StoreAllocated(h, high, b0, other);
    var img', other' := StoreBand(h, high, b0, img).value, StoreBand(h, high, b0, other).value;
    ForwardMatches(h, k, low, e + 1, img', other');
    if ForwardFrom(h, k, low, e + 1, img').Ok? {
      ForwardFrame(h, k, low, e + 1, img');
      ForwardFrame(h, k, low, e + 1, other');
      SameLevel(h, k, e, img', other', ForwardFrom(h, k, low, e + 1, img').value, ForwardFrom(h, k, low, e + 1, other').value);
    }
  }

  // ---- reconstruction reads the component's own bands ------------------------------------------------

  lemma {:induction false} InverseReads(h: Headers, k: nat, img: BandPlanes, img': BandPlanes, e: nat)
    requires Supported(h) && k < Decomposed(h) && e <= h.pih.nlx && AllOk(img) && AllOk(img')
    requires SameOwned(h, k, BetaEnd(h, e), img, img')
    ensures InverseTo(h, k, img', e) == InverseTo(h, k, img, e)
    decreases h.pih.nlx - e
  {
    hide Supported, JoinLevel, HorizontalInverse, BetaEnd, LevelBand, NumBands, Owned, LowestBand, ScaledBand;
    HeaderFacts(h);
    if e == h.pih.nlx {
      LowestOwned(h, k);
      BandReads(h, LowestBand(h, k), img, img');
    } else {
      LevelOwned(h, k, e, 0);
      BandReads(h, LevelBand(h, k, e, 0), img, img');
      if e < h.pih.nly {
        LevelOwned(h, k, e, 1);
        LevelOwned(h, k, e, 2);
        BandReads(h, LevelBand(h, k, e, 1), img, img');
        BandReads(h, LevelBand(h, k, e, 2), img, img');
      }
      InverseReads(h, k, img, img', e + 1);
    }
  }

  lemma BandReads(h: Headers, b: nat, img: BandPlanes, img': BandPlanes)
    requires Supported(h) && b < NumBands(h) && AllOk(img) && AllOk(img') && |img| == |img'| && (b < |img| ==> img'[b] == img[b])
    ensures ScaledBand(h, img', b) == ScaledBand(h, img, b)
  {
    hide Supported, NumBands, BandOf, Fits;
  }

  lemma InverseDwtReads(h: Headers, k: nat, img: BandPlanes, img': BandPlanes)
    requires Supported(h) && k < h.pih.nc && AllOk(img) && AllOk(img') && |img| == |img'|
    requires forall b: nat | b < |img| && BandOfComponent(h, k, b) :: img'[b] == img[b]
    ensures InverseDwt(h, k, img') == InverseDwt(h, k, img)
  {
    hide Supported, InverseTo, BetaEnd, PlainBandIndex, NumBands, Owned, Fits, BandOf, NBeta;
    HeaderFacts(h);
    if k < Decomposed(h) {
      BetaEnds(h, 0);
      InverseReads(h, k, img, img', 0);
    }
  }

  /** Transforming one component leaves the bands of all others alone. */
  lemma ForwardDwtFrame(h: Headers, k: nat, p: Plane, img: BandPlanes)
    requires Supported(h) && k < h.pih.nc && p.Ok() && AllOk(img) && ForwardDwt(h, k, p, img).Ok?
    ensures var img' := ForwardDwt(h, k, p, img).value;
            |img'| == |img| && forall b: nat | b < |img| && !BandOfComponent(h, k, b) :: img'[b] == img[b]
  {
    hide Supported, ForwardFrom, StoreBand, NumBands, Owned, PlainBandIndex, BetaEnd, NBeta, Rounded;
    HeaderFacts(h);
    BetaEnds(h, 0);
    if k < Decomposed(h) {
      ForwardFrame(h, k, p, 0, img);
    } else {
      StoredBand(h, p, PlainBandIndex(h, k), img);
    }
  }

  /** A plane of the component's size goes through unless a value leaves 32 bits. */
  lemma ForwardDwtMatches(h: Headers, k: nat, p: Plane, img: BandPlanes)
    requires Supported(h) && k < h.pih.nc && p.Ok() && Allocated(h, img)
    requires k < |h.components| && h.components[k].sx > 0 && h.components[k].sy > 0
    requires p.width == ComponentWidth(h, k) && p.height == ComponentHeight(h, k)
    ensures var r := ForwardDwt(h, k, p, img); if r.Ok? then Allocated(h, r.value) else r.error == Overflow
  {
    hide Supported, ForwardFrom, StoreBand, NumBands, Owned, PlainBandIndex, BetaEnd, ComponentWidth, ComponentHeight, Rounded,
         BandOf;
    HeaderFacts(h);
    if k < Decomposed(h) {
      WholePlane(h, k);
      ForwardMatches(h, k, p, 0, img, img);
    } else {
      PlainSize(h, k);
      StoreAllocated(h, p, PlainBandIndex(h, k), img);
    }
  }

  lemma WholePlane(h: Headers, k: nat)
    requires Supported(h) && k < h.pih.nc
    ensures k < |h.components| && h.components[k].sx > 0 && h.components[k].sy > 0
    ensures LowWidth(h, k, 0) == ComponentWidth(h, k) && LowHeight(h, k, 0) == ComponentHeight(h, k)
  {
    hide Supported, ComponentWidth, ComponentHeight;
    HeaderFacts(h);
    CeilDivOne(ComponentWidth(h, k));
    CeilDivOne(ComponentHeight(h, k));
  }

  lemma DifferentComponents(h: Headers, k: nat, k': nat, b: nat)
    requires Supported(h) && k < h.pih.nc && k' < h.pih.nc && k != k' && BandOfComponent(h, k, b)
    ensures !BandOfComponent(h, k', b)
  {
    HeaderFacts(h);
    hide Valid, Mul;
    var d := Decomposed(h);
    if k < d && k' >= d {
      DivMod(b, d);
      DivNonNegative(b, d);
      MulNext(d, b / d, NBeta(h));
    } else if k >= d && k' < d {
      DivMod(b, d);
      DivNonNegative(b, d);
      if b / d < NBeta(h) {
        MulNext(d, b / d, NBeta(h));
      }
    }
  }
}
