// Codestream headers (Annex A): data, derived band layout and the constraints every stream must meet.
module HeaderTypes {
  import opened Wrappers
  import opened Arith
  import opened BitIO

  type u8 = x: int | 0 <= x < 0x100
  type u16 = x: int | 0 <= x < 0x1_0000
  type u32 = x: int | 0 <= x < 0x1_0000_0000

  /** PIH (Table A.7). */
  datatype PictureHeader = PictureHeader(
    lcod: u32, ppih: u16, plev: u16, wf: u16, hf: u16, cw: u16, hsl: u16,
    nc: u8, ng: u8, ss: u8, bw: u8, fq: u8, br: u8, fslc: u8, ppoc: u8, cpih: u8, nlx: u8, nly: u8,
    lh: u8, rl: u8, qpih: u8, fs: u8, rm: u8)

  datatype Component = Component(bitDepth: u8, sx: u8, sy: u8)

  datatype BandWeights = BandWeights(gain: u8, priority: u8)

  /** NLT: type 1 quadratic (dco), type 2 extended (t1, t2, e). */
  datatype Nlt = Nlt(kind: u8, dco: int, t1: u32, t2: u32, e: u8)

  datatype Cts = Cts(cf: u8, e1: u8, e2: u8)

  datatype Crg = Crg(x: seq<u16>, y: seq<u16>)

  datatype Tpc = Tpc(si: u8, qbi: int, qbr: int, yh: seq<u8>, sh: seq<u8>)

  datatype Com = Com(kind: u16, data: seq<byte>)

  /** Everything ahead of the first slice; cap holds the capability bits, bit i for capability i. */
  datatype Headers = Headers(
    cap: u32, pih: PictureHeader, components: seq<Component>, weights: seq<BandWeights>,
    refresh: Option<seq<BandWeights>>, nlt: Option<Nlt>, sd: u8, cts: Option<Cts>, crg: Option<Crg>,
    tpc: Option<Tpc>, comments: seq<Com>)

  const STAR_TETRIX: nat := 1
  const QUADRATIC_NLT: nat := 2
  const EXTENDED_NLT: nat := 3
  const VERTICAL_SUBSAMPLING: nat := 4
  const CWD: nat := 5
  const LOSSLESS: nat := 6
  const RAW_PER_PACKET: nat := 8
  const TDC: nat := 9

  predicate Has(cap: u32, bit: nat) {
    Shr(cap, bit) % 2 == 1
  }

  // ---- band layout (B.2 to B.4) --------------------------------------------------------------------

  datatype BandLayout = BandLayout(nBeta: nat, numBands: nat, exists_: seq<bool>)

  function NumFilterTypes(nlx: nat, nly: nat): nat {
    2 * Min(nlx, nly) + Max(nlx, nly) + 1
  }

  /** Filter types that are LL or horizontal only. */
  function Beta1(nlx: nat, nly: nat): int {
    nlx - nly + 1
  }

  /** Vertical depth and high-pass flag of a filter type (B.3). */
  function VerticalType(nlx: nat, nly: nat, beta: nat): (int, bool) {
    if beta >= Beta1(nlx, nly) then
      var k := beta - Beta1(nlx, nly);
      (nly - k / 3, k % 3 != 0)
    else (nly, false)
  }

  /** B.4: a band exists when its first line is a line of the component. */
  function FirstLine(nlx: nat, nly: nat, beta: nat): nat {
    var (dy, high) := VerticalType(nlx, nly, beta);
    if high then Pow2(Max(nly - dy, 0)) else 0
  }

  /** Whether band b of d decomposed components exists. */
  function BandExists(pih: PictureHeader, components: seq<Component>, d: nat, nBeta: nat, b: nat): bool
    requires 0 < d <= |components| && forall i | 0 <= i < |components| :: components[i].sy > 0
  {
    DivMod(b, d);
    DivNonNegative(b, d);
    b / d < nBeta ==> FirstLine(pih.nlx, pih.nly, b / d) % components[b % d].sy == 0
  }

  function ComputeBandLayout(pih: PictureHeader, components: seq<Component>, sd: nat): (r: Result<BandLayout>)
    ensures r.Ok? ==> |r.value.exists_| == r.value.numBands
  {
    if |components| != pih.nc || sd >= pih.nc then Err(BadHeader)
    else if exists i | 0 <= i < |components| :: components[i].sy == 0 then Err(BadHeader)
    else
      var d, nBeta := pih.nc - sd, NumFilterTypes(pih.nlx, pih.nly);
      var nb: nat := Mul(d, nBeta) + sd;
      Ok(BandLayout(nBeta, nb, seq(nb, b requires 0 <= b < nb => BandExists(pih, components, d, nBeta, b))))
  }

  // ---- constraints -----------------------------------------------------------------------------------

  function MaxSx(components: seq<Component>): nat {
    if components == [] then 1 else Max(components[0].sx, MaxSx(components[1..]))
  }

  function MaxSy(components: seq<Component>): nat {
    if components == [] then 1 else Max(components[0].sy, MaxSy(components[1..]))
  }

  /** Ranges of the picture header fields (Table A.7). */
  predicate PihOk(p: PictureHeader) {
    && 1 <= p.nc <= 8
    && p.ng == 4 && p.ss == 8
    && 1 <= p.nlx <= 8
    && p.fslc == 0 && p.ppoc == 0
    && (p.cpih == 0 || p.cpih == 1 || p.cpih == 3)
    && p.qpih <= 1 && p.fs <= 1 && p.rm <= 1
    && p.hsl >= 1
  }

  /** CDT (Table A.15): at most components 1 and 2 are subsampled. */
  predicate ComponentsOk(components: seq<Component>) {
    forall i | 0 <= i < |components| ::
      var c := components[i];
      && 8 <= c.bitDepth <= 16
      && (c.sx == 1 || c.sx == 2)
      && (c.sx == 1 || i == 1 || i == 2)
      && 1 <= c.sy <= c.sx
  }

  predicate SizesOk(p: PictureHeader, components: seq<Component>) {
    var maxSx, maxSy := MaxSx(components), MaxSy(components);
    && (if maxSy == 2 then 1 else 0) <= p.nly <= Min(p.nlx, 6)
    && p.wf >= maxSx * Pow2(p.nlx)
    && p.hf >= maxSy * Pow2(p.nly)
    && (p.cw > 0 ==>
          var unit := 8 * p.cw * maxSx * Pow2(p.nlx);
          unit > 0 && p.wf % unit >= maxSx * Pow2(p.nlx))
  }

  /** Table A.8. */
  predicate PrecisionOk(h: Headers)
    requires |h.components| > 0
  {
    var p, b0 := h.pih, h.components[0].bitDepth;
    if p.fq == 0 then
      && p.bw == b0
      && (forall i | 0 <= i < |h.components| :: h.components[i].bitDepth == b0)
      && ((b0 <= 12 && p.br == 4) || (b0 > 12 && p.br == 5))
      && h.nlt.None?
      && Has(h.cap, LOSSLESS)
    else if p.bw == 18 then
      p.fq == 6 && p.br == 4 && h.nlt.Some? && (Has(h.cap, QUADRATIC_NLT) || Has(h.cap, EXTENDED_NLT))
    else
      p.bw == 20 && p.fq == 8 && p.br == 4 && !Has(h.cap, QUADRATIC_NLT) && !Has(h.cap, EXTENDED_NLT)
  }

  predicate NltOk(h: Headers) {
    h.nlt.Some? ==>
      && (h.nlt.value.kind == 1 || h.nlt.value.kind == 2)
      && Has(h.cap, if h.nlt.value.kind == 1 then QUADRATIC_NLT else EXTENDED_NLT)
  }

  predicate Unsampled(components: seq<Component>, from: int, to: int) {
    forall i | from <= i < to && 0 <= i < |components| :: components[i].sx == 1 && components[i].sy == 1
  }

  /** Table A.9 and clause F.2. */
  predicate TransformOk(h: Headers) {
    && (h.pih.cpih == 1 ==> h.pih.nc >= 3 && Unsampled(h.components, 0, 3))
    && (h.pih.cpih == 3 ==>
          h.pih.nc >= 4 && Unsampled(h.components, 0, 4) && h.cts.Some? && h.crg.Some? && Has(h.cap, STAR_TETRIX))
    && (h.pih.cpih != 3 ==> h.cts.None?)
    && (h.cts.Some? ==> (h.cts.value.cf == 0 || h.cts.value.cf == 3) && h.cts.value.e1 <= 3 && h.cts.value.e2 <= 3)
    && (h.crg.Some? ==> |h.crg.value.x| == |h.crg.value.y| == h.pih.nc)
  }

  predicate CapabilitiesOk(h: Headers) {
    && (h.sd > 0 ==>
          h.pih.nc > 3 && h.sd < h.pih.nc && Unsampled(h.components, h.pih.nc - h.sd, h.pih.nc) && Has(h.cap, CWD))
    && (Has(h.cap, VERTICAL_SUBSAMPLING) <==> MaxSy(h.components) > 1)
    && (Has(h.cap, RAW_PER_PACKET) <==> h.pih.rl == 1)
  }

  predicate BandTablesOk(h: Headers, layout: BandLayout)
    requires |layout.exists_| == layout.numBands
  {
    && |h.weights| == layout.numBands
    && (forall b | 0 <= b < layout.numBands && layout.exists_[b] :: h.weights[b].gain <= 15)
    && (h.refresh.Some? ==> |h.refresh.value| == layout.numBands)
    && (h.tpc.Some? ==>
          && |h.tpc.value.yh| == |h.tpc.value.sh| == layout.numBands
          && -8 <= h.tpc.value.qbi <= 7 && -8 <= h.tpc.value.qbr <= 7
          && Has(h.cap, TDC))
  }

  /** All constraints checked before writing, after parsing and when the geometry is built. */
  predicate Valid(h: Headers) {
    && PihOk(h.pih)
    && |h.components| == h.pih.nc
    && ComponentsOk(h.components)
    && SizesOk(h.pih, h.components)
    && PrecisionOk(h)
    && NltOk(h)
    && TransformOk(h)
    && CapabilitiesOk(h)
    && var layout := ComputeBandLayout(h.pih, h.components, h.sd);
       layout.Ok? && BandTablesOk(h, layout.value)
  }
}
