// Scaling of whole planes as the headers ask for it: dispatch on the NLT marker and narrowing.
module SampleScaling {
  import opened Wrappers
  import opened Arith
  import opened HeaderTypes
  import opened Planes
  import opened SquareRoot
  import opened Scaling

  function BitDepth(h: Headers, k: nat): (b: nat)
    requires Valid(h) && k < h.pih.nc
    ensures 8 <= b <= 16 && b <= h.pih.bw && (h.nlt.Some? ==> b + 2 <= h.pih.bw)
  {
    h.components[k].bitDepth
  }

  /** Slopes the extended curve can have. */
  predicate CurveOk(h: Headers) {
    h.nlt.Some? && h.nlt.value.kind == 2 ==> 1 <= h.nlt.value.e < h.pih.bw
  }

  function CurveOf(h: Headers): (c: Curve)
    requires h.nlt.Some? && 1 <= h.nlt.value.e < h.pih.bw
    ensures c.h >= 1
  {
    Curve(h.nlt.value.t1, h.nlt.value.t2, Pow2(h.pih.bw - h.nlt.value.e - 1))
  }

  /** One transform-domain sample (fractional bits included) to an output sample. */
  function OutSample(h: Headers, k: nat, v: int): int
    requires Valid(h) && k < h.pih.nc && CurveOk(h)
  {
    var b := BitDepth(h, k);
    if h.nlt.None? then LinearOut(v, h.pih.bw, b)
    else if h.nlt.value.kind == 1 then QuadraticOut(v, h.pih.bw, b, h.nlt.value.dco)
    else ExtendedOut(v, h.pih.bw, b, CurveOf(h))
  }

  function InSample(h: Headers, k: nat, v: int): int
    requires Valid(h) && k < h.pih.nc && CurveOk(h)
  {
    var b := BitDepth(h, k);
    if h.nlt.None? then LinearIn(v, h.pih.bw, b)
    else if h.nlt.value.kind == 1 then QuadraticIn(v, h.pih.bw, b, h.nlt.value.dco)
    else ExtendedIn(v, h.pih.bw, b, CurveOf(h))
  }

  /** Samples a caller may expect back unchanged. */
  predicate Survives(h: Headers, k: nat, v: int)
    requires Valid(h) && k < h.pih.nc && CurveOk(h)
  {
    var b := BitDepth(h, k);
    if h.nlt.None? then true
    else if h.nlt.value.kind == 1 then
      var dco := h.nlt.value.dco;
      0 <= v - dco < Pow2(b) || (v == 0 && dco < 0) || (v == Pow2(b) - 1 && dco > 0)
    else WithinReach(CurveOf(h), v, h.pih.bw, b)
  }

  lemma SlopeFits(bw: nat, b: nat, e: nat)
    requires 1 <= e < bw && b + 2 <= bw
    ensures Pow2(bw - e - 1) < Pow2(bw) && 4 * Pow2(bw - e - 1) <= Pow2(2 * bw - b)
  {
    Pow2Strict(bw - e - 1, bw);
    Pow2Monotone(bw - e + 1, 2 * bw - b);
    assert Pow2(bw - e + 1) == 2 * (2 * Pow2(bw - e - 1));
  }

  /**
   * For every header the constraints admit, thresholds in either order: a sample comes back unchanged exactly
   * when it survives.
   */
  lemma SampleExact(h: Headers, k: nat, v: int)
    requires Valid(h) && k < h.pih.nc && CurveOk(h) && 0 <= v < Pow2(BitDepth(h, k))
    ensures OutSample(h, k, InSample(h, k, v)) == v <==> Survives(h, k, v)
  {
    hide Valid, LinearOut, LinearIn, QuadraticOut, QuadraticIn, ExtendedOut, ExtendedIn, WithinReach, Pow2, BitDepth;
    KnownKinds(h);
    var b, bw := BitDepth(h, k), h.pih.bw;
    if h.nlt.None? {
      LinearExact(v, bw, b);
    } else if h.nlt.value.kind == 1 {
      QuadraticExact(v, bw, b, h.nlt.value.dco);
    } else {
      SlopeFits(bw, b, h.nlt.value.e);
      ExtendedExact(v, bw, b, CurveOf(h));
    }
  }

  lemma KnownKinds(h: Headers)
    requires Valid(h)
    ensures h.nlt.Some? ==> h.pih.bw == 18 && (h.nlt.value.kind == 1 || h.nlt.value.kind == 2)
  {
  }

  // ---- planes ----------------------------------------------------------------------------------------

  function OutRow(h: Headers, k: nat, row: seq<int>): (r: seq<int>)
    requires Valid(h) && k < h.pih.nc && CurveOk(h)
    ensures |r| == |row|
  {
    seq(|row|, x requires 0 <= x < |row| => OutSample(h, k, row[x]))
  }

  function OutPlane(h: Headers, k: nat, p: Plane): (r: Plane)
    requires Valid(h) && k < h.pih.nc && CurveOk(h) && p.Ok()
    ensures r.Ok() && r.width == p.width && r.height == p.height
  {
    Plane(p.width, p.height, seq(p.height, y requires 0 <= y < p.height => OutRow(h, k, p.rows[y])))
  }

  function InRow(h: Headers, k: nat, row: seq<int>): (r: seq<int>)
    requires Valid(h) && k < h.pih.nc && CurveOk(h)
    ensures |r| == |row|
  {
    seq(|row|, x requires 0 <= x < |row| => InSample(h, k, row[x]))
  }

  function InPlane(h: Headers, k: nat, p: Plane): (r: Plane)
    requires Valid(h) && k < h.pih.nc && CurveOk(h) && p.Ok()
    ensures r.Ok() && r.width == p.width && r.height == p.height
  {
    Plane(p.width, p.height, seq(p.height, y requires 0 <= y < p.height => InRow(h, k, p.rows[y])))
  }

  function ScaleToOutput(h: Headers, k: nat, p: Plane): (r: Result<Plane>)
    requires Valid(h) && k < h.pih.nc && p.Ok()
    ensures r.Ok? ==> r.value.Ok()
  {
    if CurveOk(h) then Ok(OutPlane(h, k, p)) else Err(Unsupported)
  }

  function ScaleFromInput(h: Headers, k: nat, p: Plane): (r: Result<Plane>)
    requires Valid(h) && k < h.pih.nc && p.Ok()
    ensures r.Ok? ==> r.value.Ok() && Fits(r.value) && r.value.width == p.width && r.value.height == p.height
  {
    if !CurveOk(h) then Err(Unsupported)
    else if Fits(InPlane(h, k, p)) then Ok(InPlane(h, k, p))
    else Err(Overflow)
  }

  predicate RowWithin(row: seq<int>, b: nat) {
    forall x | 0 <= x < |row| :: 0 <= row[x] < Pow2(b)
  }

  /** Sample values of the component's bit depth. */
  predicate SamplesWithin(p: Plane, b: nat)
    requires p.Ok()
  {
    forall y | 0 <= y < p.height :: RowWithin(p.rows[y], b)
  }

  /** Without non-linearity scaling loses nothing. */
  lemma LinearPlane(h: Headers, k: nat, p: Plane)
    requires Valid(h) && k < h.pih.nc && p.Ok() && h.nlt.None? && SamplesWithin(p, BitDepth(h, k))
    requires ScaleFromInput(h, k, p).Ok?
    ensures ScaleToOutput(h, k, ScaleFromInput(h, k, p).value) == Ok(p)
  {
    hide Valid, OutSample, InSample, Pow2, Fits, BitDepth;
    var q := InPlane(h, k, p);
    forall y | 0 <= y < p.height
      ensures OutRow(h, k, q.rows[y]) == p.rows[y]
    {
      assert RowWithin(p.rows[y], BitDepth(h, k));
      forall x | 0 <= x < p.width
        ensures OutSample(h, k, q.rows[y][x]) == p.rows[y][x]
      {
        SampleExact(h, k, p.rows[y][x]);
      }
    }
    assert OutPlane(h, k, q) == p;
  }

  /** Output samples are values of the component's bit depth, so the cast to 16 bits is exact. */
  lemma OutputWithin(h: Headers, k: nat, v: int)
    requires Valid(h) && k < h.pih.nc && CurveOk(h)
    ensures 0 <= OutSample(h, k, v) < Pow2(h.components[k].bitDepth) <= 0x1_0000
  {
    hide CurveOut, Pow2, Valid;
    WordPowers();
    Pow2Monotone(BitDepth(h, k), 16);
  }

  // ---- the per-sample loops --------------------------------------------------------------------------

  lemma ClampAbove(v: int, m: int)
    requires m >= 0
    ensures 0 <= Clamp(v, 0, m) <= m
  {
  }

  /** Table G.7: clamp, scale, take the root bit by bit. */
  method QuadraticSample(v: int, bw: nat, b: nat, dco: int) returns (r: int)
    requires b <= bw
    ensures r == QuadraticIn(v, bw, b, dco)
  {
    hide Pow2;
    var u := Clamp(v - dco, 0, Pow2(b) - 1);
    ClampAbove(v - dco, Pow2(b) - 1);
    var scaled := u * Pow2(bw - b);
    ScaledBelow(u, bw, b);
    var root := BitSerialRoot(scaled, bw);
    RootIs(scaled * Pow2(bw), root);
    r := root - Pow2(bw) / 2;
  }

  lemma ScaledBelow(u: nat, bw: nat, b: nat)
    requires b <= bw && u < Pow2(b)
    ensures 0 <= u * Pow2(bw - b) < Pow2(bw)
    ensures (u * Pow2(bw - b)) * Pow2(bw) == Mul(u, Pow2(2 * bw - b))
  {
    Pow2Add(b, bw - b);
    Pow2Add(bw - b, bw);
    hide Pow2;
    MulMonotone(0, u, Pow2(bw - b));
    MulMonotone(u + 1, Pow2(b), Pow2(bw - b));
    Distribute(u, 1, Pow2(bw - b));
    MulAssoc(u, Pow2(bw - b), Pow2(bw));
  }

  /** The largest constants of the curve stay within signed 64-bit integers, and so does everything else. */
  predicate CurveFits64(c: Curve) {
    c.A1() < 0x8000_0000_0000_0000 && c.Q2() < 0x8000_0000_0000_0000
  }

  lemma SquareOrder(a: nat, b: nat)
    ensures a <= b ==> a * a <= b * b
    ensures a < b ==> a * a < b * b
  {
    if a <= b {
      MulMonotone(a, b, a);
      MulMonotone(a, b, b);
    }
    if a < b {
      MulMonotone(a + 1, b, b);
      MulMonotone(a, b, a);
    }
  }

  /** 3037000499 is the largest number with a square below 2^63. */
  lemma RootOf63(x: nat)
    ensures x * x < 0x8000_0000_0000_0000 <==> x <= 3037000499
  {
    SquareOrder(x, 3037000499);
    SquareOrder(3037000500, x);
  }

  lemma ExtendedIn18(h: Headers)
    requires Valid(h) && h.nlt.Some? && h.nlt.value.kind == 2
    ensures h.pih.bw == 18
  {
    hide ComputeBandLayout, BandTablesOk, SizesOk, Has;
  }

  /** Valid headers under which the constants of the extended curve fit: all with T1 up to 3036000000, and exactly these. */
  lemma CurveFitsExactly(h: Headers)
    requires Valid(h) && CurveOk(h) && h.nlt.Some? && h.nlt.value.kind == 2
    ensures var n, bw := h.nlt.value, h.pih.bw;
            CurveFits64(CurveOf(h)) <==>
            n.t1 + Pow2(bw - n.e - 1) <= 3037000499 && n.t1 * n.t1 + n.t2 * Pow2(bw - n.e) < 0x8000_0000_0000_0000
    ensures h.nlt.value.t1 <= 3_036_000_000 ==> CurveFits64(CurveOf(h))
  {
    hide Valid, Pow2;
    ExtendedIn18(h);
    var n, c := h.nlt.value, CurveOf(h);
    CurveConstants(n.t1, n.t2, h.pih.bw, n.e);
    RootOf63(n.t1 + c.h);
    WordPowers();
    Pow2Monotone(h.pih.bw - n.e - 1, 16);
    if n.t1 <= 3_036_000_000 {
      SquareOrder(n.t1, 3_036_000_000);
      MulMonotone(2 * c.h, 0x2_0000, n.t2);
      MulCommute(n.t2, 2 * c.h);
      MulAssoc(2, c.h, n.t2);
    }
  }

  /** Table G.8: one of two square roots or a shift, by region. */
  method ExtendedSample(v: int, bw: nat, b: nat, e: nat, c: Curve) returns (r: int)
    requires b <= bw && 1 <= e < bw && c.h == Pow2(bw - e - 1) && c.h >= 1 && CurveFits64(c)
    requires 0 <= v < Pow2(b) && 2 * bw <= 40
    ensures r == ExtendedIn(v, bw, b, c)
  {
    hide Pow2, Curve.A1, Curve.A3, Curve.Q1, Curve.Q2, IsRoot;
    var x := v * Pow2(2 * bw - b);
    Radicands(v, bw, b, e, c);
    var b2, q1, q2 := Thresholds(c, bw, e);
    r := CurveSample(c, x, b2, q1, q2);
    r := r - Pow2(bw) / 2;
  }

  /** T1 squared and the limits of the linear region. */
  method Thresholds(c: Curve, bw: nat, e: nat) returns (b2: int, q1: int, q2: int)
    requires 1 <= e < bw && c.h == Pow2(bw - e - 1)
    ensures b2 == c.t1 * c.t1 && q1 == c.Q1() && q2 == c.Q2()
  {
    CurveConstants(c.t1, c.t2, bw, e);
    b2 := c.t1 * c.t1;
    q1 := b2 + c.t1 * Pow2(bw - e);
    q2 := b2 + c.t2 * Pow2(bw - e);
  }

  method CurveSample(c: Curve, x: int, b2: int, q1: int, q2: int) returns (r: int)
    requires c.h >= 1 && b2 == c.t1 * c.t1 && q1 == c.Q1() && q2 == c.Q2()
    requires c.A1() - x < Pow2(64) && x - c.A3() < Pow2(64)
    ensures r == CurveIn(c, x)
  {
    hide Pow2, Curve.A1, Curve.A3, Curve.Q1, Curve.Q2, IsRoot;
    RootsDefined(c, x);
    if x < q1 {
      var root := IntegerSqrt(c.A1() - x);
      RootIs(c.A1() - x, root.value);
      r := c.t1 + c.h - root.value;
    } else if x < q2 {
      r := (x - b2) / (2 * c.h);
    } else {
      var root := IntegerSqrt(x - c.A3());
      RootIs(x - c.A3(), root.value);
      r := c.t2 - c.h + root.value;
    }
  }

  lemma Radicands(v: int, bw: nat, b: nat, e: nat, c: Curve)
    requires b <= bw && 2 * bw <= 40 && 0 <= v < Pow2(b) && 1 <= e < bw && CurveFits64(c) && c.h == Pow2(bw - e - 1)
    ensures c.A1() - v * Pow2(2 * bw - b) < Pow2(64) && v * Pow2(2 * bw - b) - c.A3() < Pow2(64)
  {
    ScaledSample(v, bw, b);
    Pow2Strict(bw - e - 1, 20);
    assert Pow2(20) == 0x10_0000 by { SmallPowers(); WordPowers(); Pow2Add(16, 4); }
    hide Pow2;
    SquareMonotone(c.h, 0x10_0000);
    NonNegative(c.t1, c.t1);
    NonNegative(c.h, c.t2);
  }

  lemma NonNegative(a: nat, b: nat)
    ensures a * b >= 0
  {
    MulMonotone(0, a, b);
  }

  lemma ScaledSample(v: int, bw: nat, b: nat)
    requires b <= bw && 2 * bw <= 40 && 0 <= v < Pow2(b)
    ensures 0 <= v * Pow2(2 * bw - b) < 0x100_0000_0000 && Pow2(64) == 0x1_0000_0000_0000_0000
  {
    hide Pow2;
    DoubleWordPowers();
    Pow2Add(b, 2 * bw - b);
    Pow2Monotone(2 * bw, 40);
    NonNegative(v, Pow2(2 * bw - b));
    MulMonotone(v + 1, Pow2(b), Pow2(2 * bw - b));
    Distribute(v, 1, Pow2(2 * bw - b));
  }

  method ScaleInSample(h: Headers, k: nat, v: int) returns (r: int)
    requires Valid(h) && k < h.pih.nc && CurveOk(h)
    requires h.nlt.Some? && h.nlt.value.kind == 2 ==> CurveFits64(CurveOf(h)) && 0 <= v < Pow2(BitDepth(h, k))
    ensures r == InSample(h, k, v)
  {
    hide Valid, Pow2, QuadraticIn, ExtendedIn;
    KnownKinds(h);
    var bw, b := h.pih.bw, BitDepth(h, k);
    if h.nlt.None? {
      r := v * Pow2(bw - b) - Pow2(bw) / 2;
    } else if h.nlt.value.kind == 1 {
      r := QuadraticSample(v, bw, b, h.nlt.value.dco);
    } else {
      r := ExtendedSample(v, bw, b, h.nlt.value.e, CurveOf(h));
    }
  }

  /** Encoder side: every sample scaled and narrowed. */
  method ScalePlaneIn(h: Headers, k: nat, p: Plane) returns (r: Result<Plane>)
    requires Valid(h) && k < h.pih.nc && p.Ok()
    requires CurveOk(h) && h.nlt.Some? && h.nlt.value.kind == 2 ==> CurveFits64(CurveOf(h)) && SamplesWithin(p, BitDepth(h, k))
    ensures r == ScaleFromInput(h, k, p)
  {
    hide Valid, InSample, Pow2, BitDepth, CurveFits64;
    if !CurveOk(h) {
      return Err(Unsupported);
    }
    ghost var whole := InPlane(h, k, p);
    var rows := [];
    for y := 0 to p.height
      invariant |rows| == y && forall i | 0 <= i < y :: rows[i] == whole.rows[i] && RowFits(rows[i])
    {
      assert h.nlt.Some? && h.nlt.value.kind == 2 ==> RowWithin(p.rows[y], BitDepth(h, k));
      var row := [];
      for x := 0 to p.width
        invariant |row| == x && forall i | 0 <= i < x :: row[i] == whole.rows[y][i] && IsInt32(row[i])
      {
        var v := ScaleInSample(h, k, p.rows[y][x]);
        assert v == whole.rows[y][x];
        if !IsInt32(v) {
          assert !RowFits(whole.rows[y]);
          return Err(Overflow);
        }
        row := row + [v];
      }
      rows := rows + [row];
    }
    assert rows == whole.rows;
    return Ok(Plane(p.width, p.height, rows));
  }

  /** Decoder side: every sample scaled, rounded and clamped. */
  method ScalePlaneOut(h: Headers, k: nat, p: Plane) returns (r: Result<Plane>)
    requires Valid(h) && k < h.pih.nc && p.Ok()
    ensures r == ScaleToOutput(h, k, p)
  {
    hide Valid, OutSample;
    if !CurveOk(h) {
      return Err(Unsupported);
    }
    ghost var whole := OutPlane(h, k, p);
    var rows := [];
    for y := 0 to p.height
      invariant |rows| == y && forall i | 0 <= i < y :: rows[i] == whole.rows[i]
    {
      var row := [];
      for x := 0 to p.width
        invariant row == whole.rows[y][..x]
      {
        row := row + [OutSample(h, k, p.rows[y][x])];
      }
      rows := rows + [row];
    }
    assert rows == whole.rows;
    return Ok(Plane(p.width, p.height, rows));
  }
}
