// How far the forward transforms can enlarge values: a low-pass step by 3/2, a high-pass step by 2, the colour
// transform by 2 and Star-Tetrix by 18. Pictures in range never leave 32 bits.
module TransformRange {
  import opened Wrappers
  import opened Arith
  import opened HeaderTypes
  import opened Geometry
  import opened GeometryTiling
  import opened Planes
  import opened Lifting
  import opened Wavelet
  import opened WaveletLevels
  import opened MultiComponent
  import opened SampleScaling
  import opened Codec
  import opened CodecFailures
  import HeaderLimits
  import Scaling
  import StarTetrix

  predicate RowBelow(row: seq<int>, m: nat) {
    forall x | 0 <= x < |row| :: Abs(row[x]) <= m
  }

  predicate Below(p: Plane, m: nat) {
    forall y | 0 <= y < |p.rows| :: RowBelow(p.rows[y], m)
  }

  const INT32_MAX: nat := 0x7FFF_FFFF

  lemma BelowFits(p: Plane, m: nat)
    requires p.Ok() && Below(p, m) && m <= INT32_MAX
    ensures Fits(p)
  {
    forall y | 0 <= y < p.height
      ensures RowFits(p.rows[y])
    {
      assert RowBelow(p.rows[y], m);
    }
  }

  // ---- one filter step -------------------------------------------------------------------------------

  /** Bound on the low-pass band of values up to m. */
  function Grow(m: nat): nat {
    (3 * m + 1) / 2
  }

  /** An updated even sample e between o1 and o2, whose other neighbours are a and b. */
  lemma LowBound(e: int, o1: int, o2: int, a: int, b: int, m: nat)
    requires Abs(e) <= m && Abs(o1) <= m && Abs(o2) <= m && Abs(a) <= m && Abs(b) <= m
    ensures Abs(e + (o1 - (a + e) / 2 + (o2 - (e + b) / 2) + 2) / 4) <= Grow(m)
    ensures Abs(o1 - (a + e) / 2) <= 2 * m
  {
  }

  lemma LowSample(x: seq<int>, i: nat, m: nat)
    requires |x| >= 2 && RowBelow(x, m) && i < |x| && i % 2 == 0
    ensures Abs(ForwardLine(x)[i]) <= Grow(m)
  {
    hide Mirror, Predict, Grow, LiftOdd, ForwardLine, Abs;
    var l, r := Mirror(i - 1, |x|), Mirror(i + 1, |x|);
    Beside(x, i - 1, i);
    Beside(x, i + 1, i);
    var a := x[Mirror(l - 1, |x|) + Mirror(l + 1, |x|) - i];
    var b := x[Mirror(r - 1, |x|) + Mirror(r + 1, |x|) - i];
    LowBound(x[i], x[l], x[r], a, b, m);
    OddSample(x, l);
    OddSample(x, r);
    OddSample(x, i);
    EvenSample(x, i);
  }

  lemma HighSample(x: seq<int>, i: nat, m: nat)
    requires |x| >= 2 && RowBelow(x, m) && i < |x| && i % 2 == 1
    ensures Abs(ForwardLine(x)[i]) <= 2 * m
  {
    hide Mirror;
  }

  lemma LineGrows(x: seq<int>, m: nat)
    requires |x| >= 2 && RowBelow(x, m)
    ensures RowBelow(Evens(ForwardLine(x)), Grow(m)) && RowBelow(Odds(ForwardLine(x)), 2 * m)
  {
    hide ForwardLine, Grow;
    var y := ForwardLine(x);
    forall i | 0 <= i < |Evens(y)|
      ensures Abs(Evens(y)[i]) <= Grow(m)
    {
      LowSample(x, 2 * i, m);
    }
    forall i | 0 <= i < |Odds(y)|
      ensures Abs(Odds(y)[i]) <= 2 * m
    {
      HighSample(x, 2 * i + 1, m);
    }
  }

  lemma GrowsLess(m: nat)
    ensures m <= Grow(m) <= 2 * m && 2 * Grow(m) <= 4 * m
  {
  }

  lemma HorizontalGrows(p: Plane, m: nat)
    requires p.Ok() && Below(p, m) && 2 * m <= INT32_MAX
    ensures match HorizontalForward(p)
            case Ok((low, high)) => Below(low, Grow(m)) && Below(high, 2 * m)
            case Err(e) => e == BadBand
  {
    hide ForwardLine, Grow, RowBelow, Evens, Odds, Fits;
    if p.width >= 2 {
      GrowsLess(m);
      forall y | 0 <= y < p.height
        ensures RowBelow(LowRow(p, y), Grow(m)) && RowBelow(HighRow(p, y), 2 * m)
      {
        LineGrows(p.rows[y], m);
      }
      BelowFits(LowHalf(p), Grow(m));
      BelowFits(HighHalf(p), 2 * m);
    }
  }

  lemma TransposedBelow(p: Plane, m: nat)
    requires p.Ok() && Below(p, m)
    ensures Below(Transpose(p), m)
  {
    forall x | 0 <= x < p.width
      ensures RowBelow(Planes.Column(p, x), m)
    {
      forall y | 0 <= y < p.height
        ensures Abs(Planes.Column(p, x)[y]) <= m
      {
        assert RowBelow(p.rows[y], m);
      }
    }
  }

  lemma VerticalGrows(p: Plane, m: nat)
    requires p.Ok() && Below(p, m) && 2 * m <= INT32_MAX
    ensures match VerticalForward(p)
            case Ok((low, high)) => Below(low, Grow(m)) && Below(high, 2 * m)
            case Err(e) => e == BadBand
  {
    hide HorizontalForward, Transpose, Below, Grow;
    TransposedBelow(p, m);
    HorizontalGrows(Transpose(p), m);
    if HorizontalForward(Transpose(p)).Ok? {
      var (low, high) := HorizontalForward(Transpose(p)).value;
      TransposedBelow(low, Grow(m));
      TransposedBelow(high, 2 * m);
    }
  }

  lemma SplitGrows(ll: Plane, m: nat)
    requires ll.Ok() && Below(ll, m) && 4 * m <= INT32_MAX
    ensures match SplitLevel(ll)
            case Ok(q) => Below(q.ll, Grow(Grow(m)))
            case Err(e) => e == BadBand
  {
    hide HorizontalForward, VerticalForward, Below, Grow;
    GrowsLess(m);
    VerticalGrows(ll, m);
    if VerticalForward(ll).Ok? {
      var (upper, lower) := VerticalForward(ll).value;
      HorizontalGrows(upper, Grow(m));
      HorizontalGrows(lower, 2 * m);
    }
  }

  // ---- all levels ------------------------------------------------------------------------------------

  /** Bound behind n low-pass steps. */
  function Grown(m: nat, n: nat): nat
    decreases n
  {
    if n == 0 then m else Grown(Grow(m), n - 1)
  }

  lemma {:induction false} GrownAtLeast(m: nat, n: nat)
    ensures m <= Grown(m, n)
    decreases n
  {
    if n > 0 {
      GrownAtLeast(Grow(m), n - 1);
    }
  }

  lemma {:induction false} GrownMonotone(m: nat, m': nat, n: nat, n': nat)
    requires m <= m' && n <= n'
    ensures Grown(m, n) <= Grown(m', n')
    decreases n'
  {
    if n > 0 {
      GrownMonotone(Grow(m), Grow(m'), n - 1, n' - 1);
    } else {
      GrownAtLeast(m', n');
    }
  }

  /** Low-pass steps from depth e on. */
  function StepsFrom(h: Headers, e: nat): nat
    requires e <= h.pih.nlx
  {
    h.pih.nlx - e + Max(0, h.pih.nly - e)
  }

  lemma StoreFails(h: Headers, t: Plane, b: nat, img: BandPlanes)
    requires Supported(h) && b < NumBands(h) && t.Ok() && AllOk(img)
    ensures StoreBand(h, t, b, img).Err? ==> StoreBand(h, t, b, img).error == BadBand
  {
    hide Supported, NumBands, Rounded;
  }

  lemma StoreLevelFails(h: Headers, k: nat, e: nat, q: Quad, img: BandPlanes)
    requires Supported(h) && k < Decomposed(h) && e < h.pih.nly <= h.pih.nlx && q.Ok() && AllOk(img)
    ensures StoreLevel(h, k, e, q, img).Err? ==> StoreLevel(h, k, e, q, img).error == BadBand
  {
    hide Supported, NumBands, StoreBand, LevelBand;
    StoreFails(h, q.hl, LevelBand(h, k, e, 0), img);
    if StoreBand(h, q.hl, LevelBand(h, k, e, 0), img).Ok? {
      var img1 := StoreBand(h, q.hl, LevelBand(h, k, e, 0), img).value;
      StoreFails(h, q.lh, LevelBand(h, k, e, 1), img1);
      if StoreBand(h, q.lh, LevelBand(h, k, e, 1), img1).Ok? {
        StoreFails(h, q.hh, LevelBand(h, k, e, 2), StoreBand(h, q.lh, LevelBand(h, k, e, 1), img1).value);
      }
    }
  }

  lemma {:induction false} LevelsGrow(h: Headers, k: nat, ll: Plane, e: nat, img: BandPlanes, m: nat)
    requires Supported(h) && k < Decomposed(h) && e <= h.pih.nlx && ll.Ok() && AllOk(img) && Below(ll, m)
    requires 4 * Grown(m, StepsFrom(h, e)) <= INT32_MAX
    ensures ForwardFrom(h, k, ll, e, img).Err? ==> ForwardFrom(h, k, ll, e, img).error == BadBand
    decreases h.pih.nlx - e
  {
    hide Supported, SplitLevel, StoreLevel, HorizontalForward, StoreBand, NumBands, LevelBand, LowestBand, Below, Grow;
    HeaderFacts(h);
    GrownAtLeast(m, StepsFrom(h, e));
    if e == h.pih.nlx {
      StoreFails(h, ll, LowestBand(h, k), img);
    } else if e < h.pih.nly {
      SplitGrows(ll, m);
      if SplitLevel(ll).Ok? {
        var q := SplitLevel(ll).value;
        StoreLevelFails(h, k, e, q, img);
        assert Grown(m, StepsFrom(h, e)) == Grown(Grow(Grow(m)), StepsFrom(h, e + 1));
        if StoreLevel(h, k, e, q, img).Ok? {
          LevelsGrow(h, k, q.ll, e + 1, StoreLevel(h, k, e, q, img).value, Grow(Grow(m)));
        }
      }
    } else {
      HorizontalGrows(ll, m);
      if HorizontalForward(ll).Ok? {
        var (low, high) := HorizontalForward(ll).value;
        StoreFails(h, high, LevelBand(h, k, e, 0), img);
        if StoreBand(h, high, LevelBand(h, k, e, 0), img).Ok? {
          LevelsGrow(h, k, low, e + 1, StoreBand(h, high, LevelBand(h, k, e, 0), img).value, Grow(m));
        }
      }
    }
  }

  lemma DwtInRange(h: Headers, k: nat, p: Plane, img: BandPlanes, m: nat)
    requires Supported(h) && k < h.pih.nc && p.Ok() && Allocated(h, img) && Below(p, m)
    requires 4 * Grown(m, h.pih.nlx + h.pih.nly) <= INT32_MAX
    requires k < |h.components| && h.components[k].sx > 0 && h.components[k].sy > 0
    requires p.width == ComponentWidth(h, k) && p.height == ComponentHeight(h, k)
    ensures ForwardDwt(h, k, p, img).Ok?
  {
    hide Supported, ForwardFrom, StoreBand, NumBands, PlainBandIndex, ComponentWidth, ComponentHeight, Below;
    HeaderFacts(h);
    ForwardDwtMatches(h, k, p, img);
    if k < Decomposed(h) {
      LevelsGrow(h, k, p, 0, img, m);
    } else {
      StoreFails(h, p, PlainBandIndex(h, k), img);
    }
  }

  predicate AllBelow(planes: Picture, m: nat) {
    forall k | 0 <= k < |planes| :: Below(planes[k], m)
  }

  lemma {:induction false} AllInRange(h: Headers, planes: Picture, k: nat, img: BandPlanes, m: nat)
    requires Supported(h) && PlanesOk(planes) && k <= |planes| == h.pih.nc && SizesMatch(h, planes) && Allocated(h, img)
    requires AllBelow(planes, m) && 4 * Grown(m, h.pih.nlx + h.pih.nly) <= INT32_MAX
    ensures AllOk(img) && ForwardAll(h, planes, k, img).Ok?
    decreases |planes| - k
  {
    hide Supported, ForwardDwt, Allocated, ComponentWidth, ComponentHeight, Below, Grown;
    HeaderFacts(h);
    AllocatedOk(h, img);
    if k < |planes| {
      DwtInRange(h, k, planes[k], img, m);
      ForwardDwtMatches(h, k, planes[k], img);
      AllInRange(h, planes, k + 1, ForwardDwt(h, k, planes[k], img).value, m);
    }
  }

  // ---- scaling and colour ----------------------------------------------------------------------------

  lemma LinearBelow(v: int, bw: nat, b: nat)
    requires 1 <= b <= bw && 0 <= v < Pow2(b)
    ensures Abs(Scaling.LinearIn(v, bw, b)) <= Pow2(bw - 1)
  {
    Pow2Add(bw - b, b);
    MulMonotone(v, Pow2(b), Pow2(bw - b));
    MulMonotone(0, v, Pow2(bw - b));
    MulCommute(Pow2(bw - b), Pow2(b));
  }

  lemma ScaledBelow(h: Headers, k: nat, p: Plane)
    requires Valid(h) && k < h.pih.nc && p.Ok() && h.nlt.None? && SamplesWithin(p, BitDepth(h, k)) && h.pih.bw <= 20
    ensures h.pih.bw >= 1 && ScaleFromInput(h, k, p).Ok? && Below(ScaleFromInput(h, k, p).value, Pow2(h.pih.bw - 1))
  {
    hide Valid;
    var bw, b := h.pih.bw, BitDepth(h, k);
    hide Pow2, Fits, BitDepth, Scaling.LinearIn;
    var q := InPlane(h, k, p);
    forall y | 0 <= y < |q.rows|
      ensures RowBelow(q.rows[y], Pow2(bw - 1))
    {
      assert RowWithin(p.rows[y], b);
      forall x | 0 <= x < |q.rows[y]|
        ensures Abs(q.rows[y][x]) <= Pow2(bw - 1)
      {
        LinearBelow(p.rows[y][x], bw, b);
      }
    }
    Pow2Monotone(bw - 1, 19);
    PowerOf19();
    BelowFits(q, Pow2(bw - 1));
  }

  lemma PowerOf19()
    ensures Pow2(19) == 0x8_0000
  {
    hide Pow2;
    SmallPowers();
    WordPowers();
    Pow2Add(16, 2);
    Pow2Add(18, 1);
  }

  lemma {:induction false} AllScaled(h: Headers, picture: Picture, k: nat)
    requires Valid(h) && PlanesOk(picture) && k <= |picture| == h.pih.nc && h.nlt.None? && WithinDepth(h, picture)
    requires 1 <= h.pih.bw <= 20
    ensures ScaleIn(h, picture, k).Ok? && AllBelow(ScaleIn(h, picture, k).value, Pow2(h.pih.bw - 1))
    decreases |picture| - k
  {
    hide Valid, ScaleFromInput, Below, Pow2, SamplesWithin;
    if k < |picture| {
      ScaledBelow(h, k, picture[k]);
      AllScaled(h, picture, k + 1);
    }
  }

  lemma ColourBelow(v: Rgb, m: nat)
    requires Abs(v.r) <= m && Abs(v.g) <= m && Abs(v.b) <= m
    ensures Abs(ToYcc(v).r) <= 2 * m && Abs(ToYcc(v).g) <= 2 * m && Abs(ToYcc(v).b) <= 2 * m
  {
  }

  lemma RctBelow(planes: Picture, wf: nat, hf: nat, m: nat)
    requires FirstThree(planes, wf, hf) && AllBelow(planes, m) && 2 * m <= INT32_MAX
    ensures Rct(planes, wf, hf, true).Ok? && AllBelow(Rct(planes, wf, hf, true).value, 2 * m)
  {
    hide ToYcc, Fits, Below, RctPlane;
    forall c: nat | c < 3
      ensures Below(RctPlane(planes, wf, hf, c, true), 2 * m)
      ensures Fits(RctPlane(planes, wf, hf, c, true))
    {
      RctPlaneBelow(planes, wf, hf, c, m);
      BelowFits(RctPlane(planes, wf, hf, c, true), 2 * m);
    }
    forall k: nat | 3 <= k < |planes|
      ensures Below(planes[k], 2 * m)
    {
      BelowMore(planes[k], m, 2 * m);
    }
  }

  lemma BelowMore(p: Plane, m: nat, m': nat)
    requires Below(p, m) && m <= m'
    ensures Below(p, m')
  {
    forall y | 0 <= y < |p.rows|
      ensures RowBelow(p.rows[y], m')
    {
      assert RowBelow(p.rows[y], m);
    }
  }

  lemma SampleBelow(p: Plane, x: nat, y: nat, m: nat)
    requires p.Ok() && Below(p, m) && x < p.width && y < p.height
    ensures Abs(p.At(x, y)) <= m
  {
    assert RowBelow(p.rows[y], m);
  }

  lemma RctPlaneBelow(planes: Picture, wf: nat, hf: nat, c: nat, m: nat)
    requires FirstThree(planes, wf, hf) && AllBelow(planes, m) && c < 3
    ensures Below(RctPlane(planes, wf, hf, c, true), 2 * m)
  {
    hide ToYcc, Below, RowBelow;
    forall y | 0 <= y < hf
      ensures RowBelow(RctRow(planes, wf, hf, c, y, true), 2 * m)
    {
      RctRowBelow(planes, wf, hf, c, y, m);
    }
    assert Below(RctPlane(planes, wf, hf, c, true), 2 * m) by { RowsBelow(RctPlane(planes, wf, hf, c, true), 2 * m); }
  }

  lemma RowsBelow(p: Plane, m: nat)
    requires forall y | 0 <= y < |p.rows| :: RowBelow(p.rows[y], m)
    ensures Below(p, m)
  {
  }

  lemma RctRowBelow(planes: Picture, wf: nat, hf: nat, c: nat, y: nat, m: nat)
    requires FirstThree(planes, wf, hf) && AllBelow(planes, m) && c < 3 && y < hf
    ensures RowBelow(RctRow(planes, wf, hf, c, y, true), 2 * m)
  {
    hide ToYcc, Below;
    forall x | 0 <= x < wf
      ensures Abs(RctRow(planes, wf, hf, c, y, true)[x]) <= 2 * m
    {
      SampleBelow(planes[0], x, y, m);
      SampleBelow(planes[1], x, y, m);
      SampleBelow(planes[2], x, y, m);
      ColourBelow(Rgb(planes[0].At(x, y), planes[1].At(x, y), planes[2].At(x, y)), m);
    }
  }

  // ---- Star-Tetrix -----------------------------------------------------------------------------------

  function Weight(taps: seq<StarTetrix.Tap>): nat {
    if taps == [] then 0 else Pow2(taps[0].shift) + Weight(taps[1..])
  }

  lemma TermBelow(v: int, m: nat, w: nat, rest: int, sum: nat)
    requires Abs(v) <= m && w >= 1 && Abs(rest) <= Mul(sum, m)
    ensures Abs(v * w + rest) <= Mul(w + sum, m)
  {
    MulMonotone(0 - m as int, v, w);
    MulMonotone(v, m, w);
    assert (w + sum) * m == w * m + sum * m;
  }

  /** The planes a step reads are below m. */
  ghost predicate ReadsBelow(st: StarTetrix.Tetrix, c: nat, taps: seq<StarTetrix.Tap>, planes: Picture, m: nat)
    requires |planes| >= 4
  {
    forall n: nat | n < 4 && StarTetrix.Reads(st, c, taps, n) :: Below(planes[n], m)
  }

  lemma {:induction false} SumBelow(st: StarTetrix.Tetrix, c: nat, x: nat, y: nat, taps: seq<StarTetrix.Tap>, planes: Picture,
                                    m: nat)
    requires st.Ok() && c < 4 && x < st.wf && y < st.hf && StarTetrix.TapsOk(taps) && st.Holds(planes)
    requires ReadsBelow(st, c, taps, planes, m)
    ensures Abs(StarTetrix.Sum(st, c, x, y, taps, planes)) <= Mul(Weight(taps), m)
  {
    hide StarTetrix.Access, StarTetrix.Neighbour, StarTetrix.Near, Pow2, Below, Mul;
    if taps != [] {
      var t := taps[0];
      StarTetrix.AccessInside(st, c, x, y, t.rx, t.ry);
      var r := StarTetrix.Access(st, c, x, y, t.rx, t.ry);
      assert StarTetrix.Reads(st, c, taps, StarTetrix.Neighbour(st, c, t.rx, t.ry));
      SampleBelow(planes[r.c], r.x, r.y, m);
      FewerReads(st, c, taps, planes, m);
      SumBelow(st, c, x, y, taps[1..], planes, m);
      TermBelow(planes[r.c].At(r.x, r.y), m, Pow2(t.shift), StarTetrix.Sum(st, c, x, y, taps[1..], planes), Weight(taps[1..]));
    } else {
      MulZero(0, m);
    }
  }

  lemma FewerReads(st: StarTetrix.Tetrix, c: nat, taps: seq<StarTetrix.Tap>, planes: Picture, m: nat)
    requires |planes| >= 4 && taps != [] && ReadsBelow(st, c, taps, planes, m)
    ensures ReadsBelow(st, c, taps[1..], planes, m)
  {
    hide StarTetrix.Neighbour, Below;
    forall n: nat | n < 4 && StarTetrix.Reads(st, c, taps[1..], n)
      ensures Below(planes[n], m)
    {
      var i :| 0 <= i < |taps[1..]| && StarTetrix.Neighbour(st, c, taps[1..][i].rx, taps[1..][i].ry) == n;
      assert taps[1..][i] == taps[i + 1];
      assert StarTetrix.Reads(st, c, taps, n);
    }
  }

  lemma QuotientBelow(sum: int, divisor: nat, change: nat)
    requires divisor >= 1 && Abs(sum) <= Mul(change, divisor)
    ensures Abs(sum / divisor) <= change
  {
    DivBounds(sum, divisor);
    NextMultiples(change, divisor);
    QuotientRange(sum, sum / divisor, divisor, change, Mul(change, divisor));
  }

  lemma NextMultiples(c: int, d: int)
    ensures (c + 1) * d == c * d + d && (-c - 1) * d == -(c * d) - d
  {
  }

  lemma QuotientRange(sum: int, q: int, d: int, change: int, most: int)
    requires d >= 1 && q * d <= sum < q * d + d && -most <= sum <= most
    requires (change + 1) * d == most + d && (-change - 1) * d == -most - d
    ensures -change <= q <= change
  {
    if q > change {
      MulMonotone(change + 1, q, d);
    } else if q < -change {
      MulMonotone(q, -change - 1, d);
    }
  }

  /** One lifting step changes its component by no more than the weighted sum of what it reads. */
  ghost predicate StepBound(st: StarTetrix.Tetrix, s: StarTetrix.Step, planes: Picture, read: nat, change: nat)
    requires |planes| >= 4
  {
    ReadsBelow(st, s.c, s.taps, planes, read) && Mul(Weight(s.taps), read) <= Mul(change, Pow2(s.divisor))
  }

  lemma LiftBelow(st: StarTetrix.Tetrix, s: StarTetrix.Step, planes: Picture, target: nat, read: nat, change: nat)
    requires st.Ok() && s.Ok() && st.Holds(planes) && Below(planes[s.c], target) && StepBound(st, s, planes, read, change)
    requires target + change <= INT32_MAX
    ensures StarTetrix.Lift(st, s, planes).Ok?
    ensures var next := StarTetrix.Lift(st, s, planes).value;
            Below(next[s.c], target + change) && forall n | 0 <= n < |planes| && n != s.c :: next[n] == planes[n]
  {
    hide Below, Fits, StepBound, StarTetrix.TapsOk, StarTetrix.LiftedRow;
    var p := StarTetrix.LiftedPlane(st, s, planes);
    forall y | 0 <= y < st.hf
      ensures RowBelow(StarTetrix.LiftedRow(st, s, y, planes), target + change)
    {
      LiftedRowBelow(st, s, y, planes, target, read, change);
    }
    RowsBelow(p, target + change);
    BelowFits(p, target + change);
  }

  lemma LiftedRowBelow(st: StarTetrix.Tetrix, s: StarTetrix.Step, y: nat, planes: Picture, target: nat, read: nat, change: nat)
    requires st.Ok() && s.Ok() && st.Holds(planes) && Below(planes[s.c], target) && StepBound(st, s, planes, read, change)
    requires y < st.hf
    ensures RowBelow(StarTetrix.LiftedRow(st, s, y, planes), target + change)
  {
    hide StarTetrix.Sum, Pow2, Below, Mul, Weight, ReadsBelow, StarTetrix.TapsOk;
    forall x | 0 <= x < st.wf
      ensures Abs(StarTetrix.LiftedRow(st, s, y, planes)[x]) <= target + change
    {
      SampleBelow(planes[s.c], x, y, target);
      SumBelow(st, s.c, x, y, s.taps, planes, read);
      QuotientBelow(StarTetrix.Sum(st, s.c, x, y, s.taps, planes), Pow2(s.divisor), change);
    }
  }

  lemma TapWeights(st: StarTetrix.Tetrix)
    requires st.e1 <= 3 && st.e2 <= 3
    ensures Weight(CROSS) == Weight(DIAGONAL) == 4 && Pow2(2) == 4 && Pow2(3) == 8
    ensures Weight(Y2Step(st, true).taps) <= 32 && Weight(Y1Step(st, true).taps) <= 32
  {
    SmallPowers();
    Pow2Monotone(st.e1, 3);
    Pow2Monotone(st.e2, 3);
    assert Pow2(3) == 2 * Pow2(2);
    FourWeights(CROSS);
    FourWeights(DIAGONAL);
    FourWeights(Y2Step(st, true).taps);
    FourWeights(Y1Step(st, true).taps);
  }

  lemma FourWeights(taps: seq<StarTetrix.Tap>)
    requires |taps| == 4
    ensures Weight(taps) == Pow2(taps[0].shift) + Pow2(taps[1].shift) + Pow2(taps[2].shift) + Pow2(taps[3].shift)
  {
    hide Pow2;
    var a, b, c := taps[1..], taps[1..][1..], taps[1..][1..][1..];
    assert a[0] == taps[1] && b[0] == taps[2] && c[0] == taps[3] && c[1..] == [];
    assert Weight(c) == Pow2(taps[3].shift) + Weight(c[1..]);
    assert Weight(b) == Pow2(taps[2].shift) + Weight(c);
    assert Weight(a) == Pow2(taps[1].shift) + Weight(b);
  }

  /** Luma steps read chroma, chroma steps luma, and the diagonal steps the other luma component. */
  lemma StepReads(st: StarTetrix.Tetrix, n: nat)
    requires st.Ok() && n < 4
    ensures StarTetrix.Reads(st, 1, CROSS, n) || StarTetrix.Reads(st, 2, CROSS, n) ==> n == 0 || n == 3
    ensures StarTetrix.Reads(st, 0, Y2Step(st, true).taps, n) ==> n == 1 || n == 2
    ensures StarTetrix.Reads(st, 3, Y1Step(st, true).taps, n) ==> n == 1 || n == 2
    ensures StarTetrix.Reads(st, 3, DIAGONAL, n) ==> n == 0
    ensures StarTetrix.Reads(st, 0, DIAGONAL, n) ==> n == 3
  {
    CrossNeighbours(st, 0);
    CrossNeighbours(st, 1);
    CrossNeighbours(st, 2);
    CrossNeighbours(st, 3);
    DiagonalNeighbours(st, 0);
    DiagonalNeighbours(st, 3);
    hide StarTetrix.Neighbour;
  }

  lemma DiagonalNeighbours(st: StarTetrix.Tetrix, c: nat)
    requires st.Ok() && c < 4
    ensures StarTetrix.Neighbour(st, c, -1, -1) == StarTetrix.Neighbour(st, c, 1, -1) == 3 - c
    ensures StarTetrix.Neighbour(st, c, -1, 1) == StarTetrix.Neighbour(st, c, 1, 1) == 3 - c
  {
  }

  /** Bounds of the four planes. */
  ghost predicate Four(planes: Picture, b0: nat, b1: nat, b2: nat, b3: nat) {
    |planes| >= 4 && Below(planes[0], b0) && Below(planes[1], b1) && Below(planes[2], b2) && Below(planes[3], b3)
  }

  lemma ChromaSteps(st: StarTetrix.Tetrix, planes: Picture, m: nat)
    requires st.Ok() && st.Holds(planes) && Four(planes, m, m, m, m) && 2 * m <= INT32_MAX && st.e1 <= 3 && st.e2 <= 3
    ensures CbStep(false).Ok() && CrStep(false).Ok()
    ensures var a := StarTetrix.Lift(st, CbStep(false), planes);
            && a.Ok? && var b := StarTetrix.Lift(st, CrStep(false), a.value);
               b.Ok? && Four(b.value, m, 2 * m, 2 * m, m) && b.value[4..] == planes[4..]
  {
    hide Below, StarTetrix.Lift, StarTetrix.Reads, Weight, Pow2, Mul;
    TapWeights(st);
    MulSmall(m);
    forall n: nat | n < 4 { StepReads(st, n); }
    LiftBelow(st, CbStep(false), planes, m, m, m);
    var a := StarTetrix.Lift(st, CbStep(false), planes).value;
    LiftBelow(st, CrStep(false), a, m, m, m);
  }

  lemma MulSmall(m: nat)
    ensures Mul(4, m) == Mul(m, 4) == 4 * m
  {
  }

  lemma LumaSteps(st: StarTetrix.Tetrix, planes: Picture, m: nat)
    requires st.Ok() && st.Holds(planes) && Four(planes, m, 2 * m, 2 * m, m) && 9 * m <= INT32_MAX && st.e1 <= 3 && st.e2 <= 3
    ensures Y2Step(st, true).Ok() && Y1Step(st, true).Ok()
    ensures var a := StarTetrix.Lift(st, Y2Step(st, true), planes);
            && a.Ok? && var b := StarTetrix.Lift(st, Y1Step(st, true), a.value);
               b.Ok? && Four(b.value, 9 * m, 2 * m, 2 * m, 9 * m) && b.value[4..] == planes[4..]
  {
    hide Below, StarTetrix.Lift, StarTetrix.Reads, Weight, Pow2, Mul;
    TapWeights(st);
    MulWide(Weight(Y2Step(st, true).taps), m);
    MulWide(Weight(Y1Step(st, true).taps), m);
    forall n: nat | n < 4 { StepReads(st, n); }
    LiftBelow(st, Y2Step(st, true), planes, m, 2 * m, 8 * m);
    var a := StarTetrix.Lift(st, Y2Step(st, true), planes).value;
    LiftBelow(st, Y1Step(st, true), a, m, 2 * m, 8 * m);
  }

  lemma MulWide(w: nat, m: nat)
    requires w <= 32
    ensures Mul(w, 2 * m) <= Mul(8 * m, 8)
  {
    MulMonotone(w, 32, 2 * m);
  }

  lemma DiagonalSteps(st: StarTetrix.Tetrix, planes: Picture, m: nat)
    requires st.Ok() && st.Holds(planes) && Four(planes, 9 * m, 2 * m, 2 * m, 9 * m) && 18 * m <= INT32_MAX
    requires st.e1 <= 3 && st.e2 <= 3
    ensures DeltaStep(false).Ok() && AvgStep(true).Ok()
    ensures var a := StarTetrix.Lift(st, DeltaStep(false), planes);
            && a.Ok? && var b := StarTetrix.Lift(st, AvgStep(true), a.value);
               b.Ok? && Four(b.value, 18 * m, 2 * m, 2 * m, 18 * m) && b.value[4..] == planes[4..]
  {
    hide Below, StarTetrix.Lift, StarTetrix.Reads, Weight, Pow2, Mul;
    TapWeights(st);
    MulSmall(9 * m);
    MulHalf(m);
    forall n: nat | n < 4 { StepReads(st, n); }
    LiftBelow(st, DeltaStep(false), planes, 9 * m, 9 * m, 9 * m);
    var a := StarTetrix.Lift(st, DeltaStep(false), planes).value;
    LiftBelow(st, AvgStep(true), a, 9 * m, 18 * m, 9 * m);
  }

  lemma MulHalf(m: nat)
    ensures Mul(4, 18 * m) == Mul(9 * m, 8)
  {
  }

  lemma RunStep(st: StarTetrix.Tetrix, steps: seq<StarTetrix.Step>, planes: Picture)
    requires st.Ok() && StepsAllOk(steps) && st.Holds(planes) && steps != [] && StarTetrix.Lift(st, steps[0], planes).Ok?
    ensures StarTetrix.Run(st, steps, planes) == StarTetrix.Run(st, steps[1..], StarTetrix.Lift(st, steps[0], planes).value)
  {
  }

  lemma RunTwo(st: StarTetrix.Tetrix, s: StarTetrix.Step, t: StarTetrix.Step, rest: seq<StarTetrix.Step>, planes: Picture)
    requires st.Ok() && s.Ok() && t.Ok() && StepsAllOk(rest) && st.Holds(planes) && StarTetrix.Lift(st, s, planes).Ok?
    requires StarTetrix.Lift(st, t, StarTetrix.Lift(st, s, planes).value).Ok?
    ensures StepsAllOk([s, t] + rest)
    ensures StarTetrix.Run(st, [s, t] + rest, planes) ==
            StarTetrix.Run(st, rest, StarTetrix.Lift(st, t, StarTetrix.Lift(st, s, planes).value).value)
  {
    hide StarTetrix.Lift, StarTetrix.Step.Ok, StarTetrix.Run;
    var steps := [s, t] + rest;
    assert steps[1..] == [t] + rest && steps[1..][1..] == rest;
    RunStep(st, steps, planes);
    RunStep(st, steps[1..], StarTetrix.Lift(st, s, planes).value);
  }

  /** Star-Tetrix enlarges values by at most 18. */
  lemma TetrixBelow(st: StarTetrix.Tetrix, planes: Picture, m: nat)
    requires st.Ok() && st.Holds(planes) && AllBelow(planes, m) && 18 * m <= INT32_MAX && st.e1 <= 3 && st.e2 <= 3
    ensures StarTetrixForward(st, planes).Ok? && AllBelow(StarTetrixForward(st, planes).value, 18 * m)
  {
    hide Below, StarTetrix.Lift, StarTetrix.Run;
    StepsOk(st);
    var s := ForwardSteps(st);
    var swapped := Swap(planes);
    ChromaSteps(st, swapped, m);
    var a := StarTetrix.Lift(st, CrStep(false), StarTetrix.Lift(st, CbStep(false), swapped).value).value;
    LumaSteps(st, a, m);
    var b := StarTetrix.Lift(st, Y1Step(st, true), StarTetrix.Lift(st, Y2Step(st, true), a).value).value;
    DiagonalSteps(st, b, m);
    var c := StarTetrix.Lift(st, AvgStep(true), StarTetrix.Lift(st, DeltaStep(false), b).value).value;
    AllSix(st, swapped, a, b, c);
    forall k | 0 <= k < |c|
      ensures Below(c[k], 18 * m)
    {
      if k >= 4 {
        assert c[k] == c[4..][k - 4] == swapped[4..][k - 4] == planes[k];
        BelowMore(c[k], m, 18 * m);
      } else if k == 1 || k == 2 {
        BelowMore(c[k], 2 * m, 18 * m);
      }
    }
  }

  lemma AllSix(st: StarTetrix.Tetrix, planes: Picture, a: Picture, b: Picture, c: Picture)
    requires st.Ok() && st.Holds(planes) && st.Holds(a) && st.Holds(b)
    requires forall i | 0 <= i < 6 :: ForwardSteps(st)[i].Ok()
    requires var x := StarTetrix.Lift(st, CbStep(false), planes); x.Ok? && StarTetrix.Lift(st, CrStep(false), x.value) == Ok(a)
    requires var x := StarTetrix.Lift(st, Y2Step(st, true), a); x.Ok? && StarTetrix.Lift(st, Y1Step(st, true), x.value) == Ok(b)
    requires var x := StarTetrix.Lift(st, DeltaStep(false), b); x.Ok? && StarTetrix.Lift(st, AvgStep(true), x.value) == Ok(c)
    ensures StepsAllOk(ForwardSteps(st)) && StarTetrix.Run(st, ForwardSteps(st), planes) == Ok(c)
  {
    hide StarTetrix.Lift, StarTetrix.Step.Ok, CbStep, CrStep, Y2Step, Y1Step, DeltaStep, AvgStep;
    var s := ForwardSteps(st);
    var luma, last := [s[2], s[3], s[4], s[5]], [s[4], s[5]];
    assert s == [s[0], s[1]] + luma && luma == [s[2], s[3]] + last && last == [s[4], s[5]] + [];
    RunTwo(st, s[4], s[5], [], b);
    RunTwo(st, s[2], s[3], last, a);
    RunTwo(st, s[0], s[1], luma, planes);
  }

  // ---- the whole analysis ----------------------------------------------------------------------------

  /** Bound on the samples the wavelet transform starts from. */
  function Widest(h: Headers): nat
    requires h.pih.bw >= 1
  {
    Mul(if h.pih.cpih == 3 then 18 else if h.pih.cpih == 1 then 2 else 1, Pow2(h.pih.bw - 1))
  }

  /** The headers leave all intermediate values within 32 bits. */
  predicate StaysIn32Bits(h: Headers) {
    1 <= h.pih.bw <= 20 && 4 * Grown(Widest(h), h.pih.nlx + h.pih.nly) <= INT32_MAX
  }

  function Pow3(n: nat): nat {
    if n == 0 then 1 else 3 * Pow3(n - 1)
  }

  lemma HalveBound(m: nat, g: nat, p3: nat, p2: nat, top: nat)
    requires 2 * g <= 3 * m + 1 && Mul(m + 1, 3 * p3) <= Mul(top + 1, 2 * p2)
    ensures Mul(g + 1, p3) <= Mul(top + 1, p2)
  {
    MulMonotone(2 * (g + 1), 3 * (m + 1), p3);
    assert (3 * (m + 1)) * p3 == (m + 1) * (3 * p3);
    assert (top + 1) * (2 * p2) == 2 * ((top + 1) * p2);
    assert (2 * (g + 1)) * p3 == 2 * ((g + 1) * p3);
  }

  /** Each step enlarges m + 1 by 3/2 at most. */
  lemma {:induction false} GrownWithin(m: nat, n: nat, top: nat)
    requires Mul(m + 1, Pow3(n)) <= Mul(top + 1, Pow2(n))
    ensures Grown(m, n) <= top
    decreases n
  {
    hide Mul;
    if n > 0 {
      HalveBound(m, Grow(m), Pow3(n - 1), Pow2(n - 1), top);
      GrownWithin(Grow(m), n - 1, top);
    } else {
      TimesOne(m + 1);
      TimesOne(top + 1);
    }
  }

  lemma TimesOne(m: nat)
    ensures Mul(m, 1) == m
  {
  }

  lemma Powers()
    ensures Pow3(9) == 19683 && Pow3(14) == 4782969 && Pow2(9) == 512 && Pow2(14) == 16384
  {
    assert Pow3(4) == 81;
    assert Pow3(9) == 243 * Pow3(4);
    assert Pow3(14) == 243 * Pow3(9);
    SmallPowers();
    assert Pow2(9) == 32 * Pow2(4);
    assert Pow2(14) == 32 * Pow2(9);
  }

  lemma GrownEnough()
    ensures 4 * Grown(0x10_0000, 14) <= INT32_MAX && 4 * Grown(0x90_0000, 9) <= INT32_MAX
  {
    hide Pow2, Pow3, Grown;
    Powers();
    GrownWithin(0x10_0000, 14, 0x1FFF_FFFF);
    GrownWithin(0x90_0000, 9, 0x1FFF_FFFF);
  }

  lemma WidestAtMost(h: Headers)
    requires 1 <= h.pih.bw <= 20
    ensures h.pih.cpih != 3 || h.pih.bw <= 16 ==> Widest(h) <= 0x10_0000
    ensures Widest(h) <= 0x90_0000
  {
    hide Pow2;
    PowerOf19();
    PowerOf15();
    Pow2Monotone(h.pih.bw - 1, 19);
    if h.pih.bw <= 16 {
      Pow2Monotone(h.pih.bw - 1, 15);
    }
    Factors(Pow2(h.pih.bw - 1));
  }

  lemma Factors(p: nat)
    ensures Mul(1, p) == p && Mul(2, p) == 2 * p && Mul(18, p) == 18 * p
  {
  }

  /** Without Star-Tetrix always; with it up to 16 bits of working precision, or up to nine levels in all. */
  lemma UsualHeadersStay(h: Headers)
    requires Supported(h) && h.nlt.None? && (h.pih.cpih != 3 || h.pih.bw <= 16 || h.pih.nlx + h.pih.nly <= 9)
    ensures StaysIn32Bits(h)
  {
    hide Supported, Grown, Widest;
    LevelsAtMost(h);
    WidestAtMost(h);
    GrownEnough();
    if h.pih.cpih == 3 && h.pih.bw > 16 {
      GrownMonotone(Widest(h), 0x90_0000, h.pih.nlx + h.pih.nly, 9);
    } else {
      GrownMonotone(Widest(h), 0x10_0000, h.pih.nlx + h.pih.nly, 14);
    }
  }

  lemma PowerOf15()
    ensures Pow2(15) == 0x8000
  {
    hide Pow2;
    WordPowers();
    assert Pow2(16) == 2 * Pow2(15) by {
      SmallPowers();
      Pow2Add(15, 1);
    }
  }

  lemma LevelsAtMost(h: Headers)
    requires Supported(h) && h.nlt.None?
    ensures h.pih.nlx <= 8 && h.pih.nly <= 6 && 8 <= h.pih.bw <= 20
  {
    hide ComputeBandLayout, BandTablesOk, Pow2, Has;
  }

  lemma MctInRange(h: Headers, planes: Picture, m: nat)
    requires Supported(h) && PictureOk(h, planes) && SizesMatch(h, planes) && PatternKnown(h) && AllBelow(planes, m)
    requires var factor := if h.pih.cpih == 3 then 18 else if h.pih.cpih == 1 then 2 else 1; Mul(factor, m) <= INT32_MAX
    ensures var factor := if h.pih.cpih == 3 then 18 else if h.pih.cpih == 1 then 2 else 1;
            Mct(h, planes, true).Ok? && AllBelow(Mct(h, planes, true).value, Mul(factor, m))
  {
    hide Supported, SizesMatch, PlanesMatch, PatternType, Fits, StarTetrixForward, Rct, AllBelow;
    PlanesTakePart(h, planes);
    if h.pih.cpih == 3 {
      ExponentsSmall(h);
      PlanesHeld(h, planes);
      TetrixBelow(TetrixOf(h).value, planes, m);
    } else if h.pih.cpih == 1 {
      ThreeMatch(h, planes);
      RctBelow(planes, h.pih.wf, h.pih.hf, m);
    } else {
      OneTimes(m);
    }
  }

  lemma ThreeMatch(h: Headers, planes: Picture)
    requires PictureOk(h, planes) && PlanesMatch(h, planes, 3)
    ensures FirstThree(planes, h.pih.wf, h.pih.hf)
  {
  }

  lemma ExponentsSmall(h: Headers)
    requires Supported(h) && h.cts.Some?
    ensures h.cts.value.e1 <= 3 && h.cts.value.e2 <= 3
  {
    hide ComputeBandLayout, BandTablesOk, Pow2, Has;
  }

  /** Whenever the headers leave room, as all without Star-Tetrix do, the transforms of a picture in range never fail. */
  lemma AnalyseSucceeds(h: Headers, picture: Picture)
    requires Supported(h) && Valid(h) && PlanesOk(picture) && SizesMatch(h, picture) && |picture| == h.pih.nc
    requires h.nlt.None? && PatternKnown(h) && WithinDepth(h, picture) && StaysIn32Bits(h)
    ensures Analyse(h, picture).Ok? && Allocated(h, Analyse(h, picture).value)
  {
    hide Supported, Valid, SizesMatch, ScaleIn, ForwardAll, Mct, AllBelow, Blank, PatternKnown, WithinDepth, Pow2, Grown, Mul;
    GridNotEmpty(h);
    AllScaled(h, picture, 0);
    ScaleInFails(h, picture, 0);
    var planes := ScaleIn(h, picture, 0).value;
    assert picture[0..] == picture;
    SizesKept(h, picture, planes);
    GrownAtLeast(Widest(h), h.pih.nlx + h.pih.nly);
    MctInRange(h, planes, Pow2(h.pih.bw - 1));
    MctShape(h, planes, true);
    var mixed := Mct(h, planes, true).value;
    SizesKept(h, planes, mixed);
    AllInRange(h, mixed, 0, Blank(h), Widest(h));
    ForwardAllFails(h, mixed, 0, Blank(h));
  }

  /** Of a picture in range only sizes remain to fail on: of coefficients, of length fields and of the budget. */
  lemma EncodeFailsInRange(c: EncoderConfig, h: Headers, picture: Picture)
    requires Supported(h) && Valid(h) && PlanesOk(picture) && SizesMatch(h, picture) && |picture| == h.pih.nc
    requires h.nlt.None? && PatternKnown(h) && WithinDepth(h, picture) && StaysIn32Bits(h) && HeaderLimits.Writable(h)
    ensures var r := EncodeWith(c, h, picture);
            r.Err? ==> r.error in {TooManyBitplanes, LengthOutOfRange} || (!c.lossless && r.error == BudgetTooSmall)
  {
    hide Supported, Valid, SizesMatch, Analyse, EncodeWith, PatternKnown, WithinDepth, StaysIn32Bits, HeaderLimits.Writable;
    AnalyseSucceeds(h, picture);
    EncodeFailsOnlyOn(c, h, picture);
  }
}
