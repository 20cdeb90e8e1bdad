// Bands, precincts, lines and packets of a picture (Annex B).
module Geometry {
  import opened Wrappers
  import opened Arith
  import opened HeaderTypes
  import opened Precinct

  datatype Band = Band(index: nat, component: nat, beta: nat, dx: nat, dy: nat, highX: bool, highY: bool,
                       decomposed: bool, exists_: bool, width: nat, height: nat)

  /** Everything derived from the headers once; the other quantities are functions of it. */
  datatype Geometry = Geometry(h: Headers, layout: BandLayout, bands: seq<Band>, beta1: nat,
                               cs: nat, npx: nat, npy: nat, hp: nat)

  function LowPassSize(n: nat, depth: nat): nat {
    CeilDiv(n, Pow2(depth))
  }

  function HighPassSize(n: nat, depth: nat): nat
    requires depth > 0
  {
    CeilDiv(n, Pow2(depth - 1)) / 2
  }

  // ---- the band table --------------------------------------------------------------------------

  /** Headers the geometry accepts: valid and not subsampled vertically. */
  predicate Supported(h: Headers) {
    Valid(h) && forall i | 0 <= i < |h.components| :: h.components[i].sy == 1
  }

  /** Components with a wavelet decomposition. */
  function Decomposed(h: Headers): int {
    h.pih.nc - h.sd
  }

  function NBeta(h: Headers): nat {
    NumFilterTypes(h.pih.nlx, h.pih.nly)
  }

  /** Horizontal depth and high-pass flag of a filter type (B.3). */
  function HorizontalType(nlx: nat, nly: nat, beta: nat): (int, bool) {
    if beta >= Beta1(nlx, nly) then
      var k := beta - Beta1(nlx, nly);
      (nly - k / 3, k % 3 != 1)
    else (if beta == 0 then nlx else nlx - (beta - 1), beta > 0)
  }

  lemma HeaderFacts(h: Headers)
    requires Supported(h)
    ensures |h.components| == h.pih.nc && 0 <= h.sd < h.pih.nc && h.pih.nly <= h.pih.nlx && 1 <= h.pih.nlx <= 8
    ensures h.pih.hsl >= 1 && h.pih.wf >= 1 && h.pih.hf >= 1
    ensures NBeta(h) == Beta1(h.pih.nlx, h.pih.nly) + 3 * h.pih.nly
    ensures forall i | 0 <= i < |h.components| ::
              h.components[i].sy == 1 && h.components[i].sx in {1, 2} && h.components[i].sx <= MaxSx(h.components)
    ensures MaxSx(h.components) in {1, 2}
  {
    MaxSxBound(h.components);
    MaxSyAtLeast(h.components);
    MulMonotone(1, MaxSx(h.components), Pow2(h.pih.nlx));
    MulMonotone(1, MaxSy(h.components), Pow2(h.pih.nly));
  }

  /** The picture is no smaller than its decomposition. */
  lemma PictureSizes(h: Headers)
    requires Supported(h)
    ensures h.pih.wf >= MaxSx(h.components) * Pow2(h.pih.nlx) && h.pih.hf >= Pow2(h.pih.nly)
  {
    HeaderFacts(h);
    MaxSxBound(h.components);
    MaxSyAtLeast(h.components);
    MulMonotone(1, MaxSx(h.components), Pow2(h.pih.nlx));
    MulMonotone(1, MaxSy(h.components), Pow2(h.pih.nly));
  }

  lemma {:induction false} MaxSxBound(components: seq<Component>)
    requires forall i | 0 <= i < |components| :: components[i].sx == 1 || components[i].sx == 2
    ensures 1 <= MaxSx(components) <= 2
    ensures forall i | 0 <= i < |components| :: components[i].sx <= MaxSx(components)
  {
    if components != [] {
      MaxSxBound(components[1..]);
      assert forall i | 1 <= i < |components| :: components[i] == components[1..][i - 1];
    }
  }

  lemma {:induction false} MaxSyAtLeast(components: seq<Component>)
    ensures MaxSy(components) >= 1
  {
    if components != [] {
      MaxSyAtLeast(components[1..]);
    }
  }

  /** Depths stay within the decomposition, and high-pass directions have positive depth. */
  lemma TypeBounds(nlx: nat, nly: nat, beta: nat)
    requires nly <= nlx && beta < Beta1(nlx, nly) + 3 * nly
    ensures 0 <= HorizontalType(nlx, nly, beta).0 <= nlx
    ensures 0 <= VerticalType(nlx, nly, beta).0 <= nly
    ensures HorizontalType(nlx, nly, beta).1 ==> HorizontalType(nlx, nly, beta).0 >= 1
    ensures VerticalType(nlx, nly, beta).1 ==> VerticalType(nlx, nly, beta).0 >= 1
  {
  }

  function ComponentWidth(h: Headers, i: nat): nat
    requires i < |h.components| && h.components[i].sx > 0
  {
    CeilDiv(h.pih.wf, h.components[i].sx)
  }

  function ComponentHeight(h: Headers, i: nat): nat
    requires i < |h.components| && h.components[i].sy > 0
  {
    CeilDiv(h.pih.hf, h.components[i].sy)
  }

  /** Filter type beta of decomposed component i. */
  function DecomposedBand(h: Headers, beta: nat, i: nat): Band
    requires Supported(h) && beta < NBeta(h) && i < Decomposed(h)
  {
    HeaderFacts(h);
    TypeBounds(h.pih.nlx, h.pih.nly, beta);
    var (dx, highX) := HorizontalType(h.pih.nlx, h.pih.nly, beta);
    var (dy, highY) := VerticalType(h.pih.nlx, h.pih.nly, beta);
    var w, hh := ComponentWidth(h, i), ComponentHeight(h, i);
    Band(Mul(Decomposed(h), beta) + i, i, beta, dx, dy, highX, highY, true, true,
         if highX then HighPassSize(w, dx) else LowPassSize(w, dx),
         if highY then HighPassSize(hh, dy) else LowPassSize(hh, dy))
  }

  /** The single band of a component without decomposition. */
  function PlainBand(h: Headers, i: nat): Band
    requires Supported(h) && Decomposed(h) <= i < h.pih.nc
  {
    HeaderFacts(h);
    Band(Mul(Decomposed(h), NBeta(h)) + (i - Decomposed(h)), i, 0, 0, 0, false, false, false, true,
         ComponentWidth(h, i), ComponentHeight(h, i))
  }

  function NumBands(h: Headers): nat
    requires Supported(h)
  {
    HeaderFacts(h);
    Mul(Decomposed(h), NBeta(h)) + h.sd
  }

  /** Bands are numbered by filter type, then component; plain components come last. */
  function BandOf(h: Headers, b: nat): Band
    requires Supported(h) && b < NumBands(h)
  {
    HeaderFacts(h);
    var d := Decomposed(h);
    DivMod(b, d);
    DivNonNegative(b, d);
    if b < Mul(d, NBeta(h)) then
      DivLessMul(b, d, NBeta(h));
      DecomposedBand(h, b / d, b % d)
    else PlainBand(h, d + (b - Mul(d, NBeta(h))))
  }

  lemma DivLessMul(b: nat, d: nat, n: nat)
    requires d > 0 && b < Mul(d, n)
    ensures b / d < n
  {
    DivBounds(b, d);
    if b / d >= n {
      MulMonotone(n, b / d, d);
    }
  }

  lemma BandIndex(h: Headers, beta: nat, i: nat)
    requires Supported(h) && beta < NBeta(h) && i < Decomposed(h)
    ensures Mul(Decomposed(h), beta) + i < Mul(Decomposed(h), NBeta(h)) <= NumBands(h)
    ensures BandOf(h, Mul(Decomposed(h), beta) + i) == DecomposedBand(h, beta, i)
  {
    hide Supported, Valid, DecomposedBand, NBeta, NumBands, Mul;
    HeaderFacts(h);
    CountBands(h);
    MulNext(Decomposed(h), beta, NBeta(h));
    IndexParts(Decomposed(h), beta, i);
  }

  lemma IndexParts(d: nat, beta: nat, i: nat)
    requires i < d
    ensures (Mul(d, beta) + i) / d == beta && (Mul(d, beta) + i) % d == i
  {
    DivUnique(Mul(d, beta) + i, d, beta);
    DivMod(Mul(d, beta) + i, d);
  }

  function ColumnWidth(h: Headers): nat {
    if h.pih.cw > 0 then Mul(Mul(8 * h.pih.cw, MaxSx(h.components)), Pow2(h.pih.nlx)) else h.pih.wf
  }

  lemma ColumnPositive(h: Headers)
    requires Supported(h)
    ensures ColumnWidth(h) > 0
  {
    HeaderFacts(h);
    if h.pih.cw > 0 {
      MulMonotone(1, 8 * h.pih.cw, MaxSx(h.components));
      MulMonotone(1, Mul(8 * h.pih.cw, MaxSx(h.components)), Pow2(h.pih.nlx));
    }
  }

  /** The geometry of supported headers. */
  function Of(h: Headers): Geometry
    requires Supported(h)
  {
    HeaderFacts(h);
    ColumnPositive(h);
    Geometry(h, ComputeBandLayout(h.pih, h.components, h.sd).value,
             seq(NumBands(h), b requires 0 <= b < NumBands(h) => BandOf(h, b)),
             Beta1(h.pih.nlx, h.pih.nly), ColumnWidth(h), CeilDiv(h.pih.wf, ColumnWidth(h)),
             CeilDiv(h.pih.hf, Pow2(h.pih.nly)), Pow2(h.pih.nly))
  }

  /** With sy = 1 everywhere no band is missing. */
  lemma AllBandsExist(h: Headers)
    requires Supported(h)
    ensures ComputeBandLayout(h.pih, h.components, h.sd).Ok?
    ensures ComputeBandLayout(h.pih, h.components, h.sd).value ==
            BandLayout(NBeta(h), NumBands(h), seq(NumBands(h), _ => true))
  {
    HeaderFacts(h);
    var layout := ComputeBandLayout(h.pih, h.components, h.sd).value;
    forall b: nat | b < NumBands(h)
      ensures layout.exists_[b]
    {
      DivMod(b, Decomposed(h));
    }
    assert layout.exists_ == seq(NumBands(h), _ => true);
  }

  /** Appends the bands of one filter type, one per decomposed component. */
  method AddFilterType(h: Headers, layout: BandLayout, beta: nat, bands0: seq<Band>) returns (bands: seq<Band>)
    requires Supported(h) && beta < NBeta(h) && layout == BandLayout(NBeta(h), NumBands(h), seq(NumBands(h), _ => true))
    requires |bands0| == Mul(Decomposed(h), beta) && forall b | 0 <= b < |bands0| :: b < NumBands(h) && bands0[b] == BandOf(h, b)
    ensures |bands| == Mul(Decomposed(h), beta + 1) <= NumBands(h)
    ensures forall b | 0 <= b < |bands| :: bands[b] == BandOf(h, b)
  {
    hide Supported, Valid, BandOf, NumBands, NBeta, Mul, Decomposed;
    HeaderFacts(h);
    var nlx, nly := h.pih.nlx, h.pih.nly;
    var beta1 := nlx - nly + 1;
    TypeBounds(nlx, nly, beta);
    var dx, dy, hpx, hpy;
    if beta < beta1 {
      dx := if beta == 0 then nlx else nlx - (beta - 1);
      dy := nly;
      hpx := beta > 0;
      hpy := false;
    } else {
      var k := beta - beta1;
      dx, dy := nly - k / 3, nly - k / 3;
      hpx := k % 3 != 1;
      hpy := k % 3 != 0;
    }
    bands := AddBands(h, layout, beta, dx, dy, hpx, hpy, bands0);
  }

  method AddBands(h: Headers, layout: BandLayout, beta: nat, dx: nat, dy: nat, hpx: bool, hpy: bool, bands0: seq<Band>)
    returns (bands: seq<Band>)
    requires Supported(h) && beta < NBeta(h) && layout == BandLayout(NBeta(h), NumBands(h), seq(NumBands(h), _ => true))
    requires (dx, hpx) == HorizontalType(h.pih.nlx, h.pih.nly, beta) && (dy, hpy) == VerticalType(h.pih.nlx, h.pih.nly, beta)
    requires |bands0| == Mul(Decomposed(h), beta) && forall b | 0 <= b < |bands0| :: b < NumBands(h) && bands0[b] == BandOf(h, b)
    ensures |bands| == Mul(Decomposed(h), beta + 1) <= NumBands(h)
    ensures forall b | 0 <= b < |bands| :: bands[b] == BandOf(h, b)
  {
    hide Supported, Valid, BandOf, HighPassSize, LowPassSize, Pow2, NumBands, Mul, HorizontalType, VerticalType, NBeta, Beta1;
    HeaderFacts(h);
    TypeBounds(h.pih.nlx, h.pih.nly, beta);
    var d: nat := h.pih.nc - h.sd;
    NextBeta(h, d, beta);
    bands := bands0;
    for i := 0 to d
      invariant |bands| == Mul(d, beta) + i <= NumBands(h)
      invariant forall b | 0 <= b < |bands| :: bands[b] == BandOf(h, b)
    {
      BandIndex(h, beta, i);
      var wc, hc := ComponentWidth(h, i), ComponentHeight(h, i);
      bands := bands + [Band(|bands|, i, beta, dx, dy, hpx, hpy, true, layout.exists_[|bands|],
                             if hpx then HighPassSize(wc, dx) else LowPassSize(wc, dx),
                             if hpy then HighPassSize(hc, dy) else LowPassSize(hc, dy))];
    }
  }

  /** Fills the band table filter type by filter type, then derives the precinct grid. */
  method Build(h: Headers) returns (r: Result<Geometry>)
    ensures r == if !Valid(h) then Err(BadHeader) else if !Supported(h) then Err(Unsupported) else Ok(Of(h))
  {
    if !Valid(h) {
      return Err(BadHeader);
    }
    if exists i | 0 <= i < |h.components| :: h.components[i].sy != 1 {
      return Err(Unsupported);
    }
    assert Supported(h);
    AllBandsExist(h);
    ColumnPositive(h);
    CountBands(h);
    HeaderFacts(h);
    hide Valid, Supported, ComputeBandLayout, BandOf, ColumnWidth, Pow2, NumBands, Mul, NumFilterTypes, CeilDiv;
    var layout := ComputeBandLayout(h.pih, h.components, h.sd).value;
    var bands: seq<Band> := [];
    MulNone(Decomposed(h));
    for beta := 0 to layout.nBeta
      invariant |bands| == Mul(Decomposed(h), beta) <= NumBands(h)
      invariant forall b | 0 <= b < |bands| :: bands[b] == BandOf(h, b)
    {
      bands := AddFilterType(h, layout, beta, bands);
    }
    for i := Decomposed(h) to h.pih.nc
      invariant |bands| == Mul(Decomposed(h), NBeta(h)) + (i - Decomposed(h)) <= NumBands(h)
      invariant forall b | 0 <= b < |bands| :: bands[b] == BandOf(h, b)
    {
      PlainIndex(h, i);
      bands := bands + [Band(|bands|, i, 0, 0, 0, false, false, false, true, ComponentWidth(h, i), ComponentHeight(h, i))];
    }
    assert bands == Of(h).bands;
    return Ok(Geometry(h, layout, bands, Beta1(h.pih.nlx, h.pih.nly), ColumnWidth(h), CeilDiv(h.pih.wf, ColumnWidth(h)),
                       CeilDiv(h.pih.hf, Pow2(h.pih.nly)), Pow2(h.pih.nly)));
  }

  lemma NextBeta(h: Headers, d: nat, beta: nat)
    requires Supported(h) && d == h.pih.nc - h.sd && beta < NBeta(h)
    ensures Mul(d, beta) + d == Mul(d, beta + 1) <= NumBands(h)
  {
    CountBands(h);
    hide *;
    MulNext(d, beta, NBeta(h));
  }

  lemma MulNext(d: nat, k: nat, n: nat)
    requires k < n
    ensures Mul(d, k) + d == Mul(d, k + 1) <= Mul(d, n)
  {
    MulMonotone(k + 1, n, d);
    MulAdd(d, k, 1);
  }

  lemma PlainIndex(h: Headers, i: nat)
    requires Supported(h) && Decomposed(h) <= i < h.pih.nc
    ensures Mul(Decomposed(h), NBeta(h)) + (i - Decomposed(h)) < NumBands(h)
    ensures BandOf(h, Mul(Decomposed(h), NBeta(h)) + (i - Decomposed(h))) == PlainBand(h, i)
  {
  }

  lemma CountBands(h: Headers)
    requires Supported(h)
    ensures NumBands(h) == Mul(Decomposed(h), NBeta(h)) + h.sd
  {
  }
}
