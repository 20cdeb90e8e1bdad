// Input and output scaling of samples (Annex G): linear, quadratic and extended transfer curves.
module Scaling {
  import opened Arith
  import opened SquareRoot

  // ---- rounding back ---------------------------------------------------------------------------------

  /** Rounded division by an even step returns v when its argument is within half a step of v. */
  lemma RoundBack(v: int, y: int, half: nat)
    requires half >= 1
    ensures (y + half) / (2 * half) == v <==> v * (2 * half) - half <= y < v * (2 * half) + half
  {
    var q := (y + half) / (2 * half);
    DivBounds(y + half, 2 * half);
    if v * (2 * half) - half <= y < v * (2 * half) + half {
      DivUnique(y + half, 2 * half, v);
    }
  }

  lemma DivAtLeast(y: int, d: nat, v: int)
    requires d >= 1
    ensures y / d >= v <==> y >= v * d
  {
    DivBounds(y, d);
    if y / d >= v {
      MulMonotone(v, y / d, d);
    } else {
      MulMonotone(y / d + 1, v, d);
      assert (y / d + 1) * d == (y / d) * d + d;
    }
  }

  // ---- linear (Tables G.2 and G.6) -------------------------------------------------------------------

  function LinearOut(v: int, bw: nat, b: nat): int
    requires b <= bw
  {
    var step := Pow2(bw - b);
    Clamp((v + Pow2(bw) / 2 + step / 2) / step, 0, Pow2(b) - 1)
  }

  function LinearIn(v: int, bw: nat, b: nat): int
    requires b <= bw
  {
    v * Pow2(bw - b) - Pow2(bw) / 2
  }

  /** Every sample value survives the linear scaling. */
  lemma LinearExact(v: nat, bw: nat, b: nat)
    requires b <= bw && v < Pow2(b)
    ensures LinearOut(LinearIn(v, bw, b), bw, b) == v
  {
    var step := Pow2(bw - b);
    hide Pow2;
    DivUnique(v * step + step / 2, step, v);
  }

  // ---- quadratic (Tables G.3 and G.7) ----------------------------------------------------------------

  function QuadraticOut(v: int, bw: nat, b: nat, dco: int): int
    requires b <= bw
  {
    var w := Clamp(v + Pow2(bw) / 2, 0, Pow2(bw) - 1);
    var step := Pow2(2 * bw - b);
    Clamp((w * w + step / 2) / step + dco, 0, Pow2(b) - 1)
  }

  /** Root of the clamped sample times 2^(2 Bw - B). */
  function QuadraticIn(v: int, bw: nat, b: nat, dco: int): int
    requires b <= bw
  {
    Root(Mul(Clamp(v - dco, 0, Pow2(b) - 1), Pow2(2 * bw - b))) - Pow2(bw) / 2
  }

  lemma RootClose(u: nat, half: nat, s: nat, bound: nat)
    requires half >= 1 && IsRoot(u * (2 * half), s) && s < bound && 2 * bound <= half + 2
    ensures (s * s + half) / (2 * half) == u
  {
    Expand(s, 1);
    RoundBack(u, s * s, half);
  }

  lemma RootBelow(u: nat, bw: nat, b: nat)
    requires b <= bw && u < Pow2(b)
    ensures Root(Mul(u, Pow2(2 * bw - b))) < Pow2(bw)
  {
    var n := Mul(u, Pow2(2 * bw - b));
    Pow2Add(b, 2 * bw - b);
    Pow2Add(bw, bw);
    MulMonotone(u + 1, Pow2(b), Pow2(2 * bw - b));
    assert (u + 1) * Pow2(2 * bw - b) == u * Pow2(2 * bw - b) + Pow2(2 * bw - b);
    hide Pow2;
    SquareBound(n, Root(n), Pow2(bw));
  }

  /** With two guard bits the squared root rounds back to the sample, up to the clamping around DCO. */
  lemma QuadraticRoundTrip(v: int, bw: nat, b: nat, dco: int)
    requires b + 2 <= bw
    ensures QuadraticOut(QuadraticIn(v, bw, b, dco), bw, b, dco) ==
            Clamp(Clamp(v - dco, 0, Pow2(b) - 1) + dco, 0, Pow2(b) - 1)
  {
    var u := Clamp(v - dco, 0, Pow2(b) - 1);
    var s := Root(Mul(u, Pow2(2 * bw - b)));
    RootBelow(u, bw, b);
    assert Pow2(2 * bw - b) == 2 * Pow2(2 * bw - b - 1);
    Pow2Monotone(bw + 1, 2 * bw - b - 1);
    assert Pow2(bw + 1) == 2 * Pow2(bw);
    hide Pow2;
    RootClose(u, Pow2(2 * bw - b - 1), s, Pow2(bw));
  }

  /** Exact on precisely the samples the offset does not push out of range, or pushes back to the end they came from. */
  lemma QuadraticExact(v: int, bw: nat, b: nat, dco: int)
    requires b + 2 <= bw && 0 <= v < Pow2(b)
    ensures QuadraticOut(QuadraticIn(v, bw, b, dco), bw, b, dco) == v <==>
            0 <= v - dco < Pow2(b) || (v == 0 && dco < 0) || (v == Pow2(b) - 1 && dco > 0)
  {
    hide QuadraticOut, QuadraticIn, Pow2;
    QuadraticRoundTrip(v, bw, b, dco);
  }

  // ---- extended (Tables G.4 and G.8) -----------------------------------------------------------------

  /** Thresholds and half slope of the linear region: h = 2^(Bw-E-1). */
  datatype Curve = Curve(t1: nat, t2: nat, h: nat) {
    function A1(): int {
      (t1 + h) * (t1 + h)
    }

    function B1(): int {
      t1 + h
    }

    function A3(): int {
      t1 * t1 + 2 * (h * t2) - h * h
    }

    function B3(): int {
      t2 - h
    }

    function Q1(): int {
      t1 * t1 + 2 * (h * t1)
    }

    function Q2(): int {
      t1 * t1 + 2 * (h * t2)
    }
  }

  /** The source's constants, written with shifts. */
  lemma CurveConstants(t1: nat, t2: nat, bw: nat, e: nat)
    requires 1 <= e < bw
    ensures var c := Curve(t1, t2, Pow2(bw - e - 1));
            && Pow2(bw - e) == 2 * c.h && Pow2(2 * bw - 2 - 2 * e) == c.h * c.h
            && c.A1() == t1 * t1 + t1 * Pow2(bw - e) + Pow2(2 * bw - 2 - 2 * e)
            && c.A3() == t1 * t1 + t2 * Pow2(bw - e) - Pow2(2 * bw - 2 - 2 * e)
            && c.Q1() == t1 * t1 + t1 * Pow2(bw - e) && c.Q2() == t1 * t1 + t2 * Pow2(bw - e)
  {
    Pow2Add(bw - e - 1, bw - e - 1);
    assert Pow2(bw - e) == 2 * Pow2(bw - e - 1);
    hide Pow2;
    var h := Pow2(bw - e - 1);
    Expand(t1, h);
    MulCommute(h, t1);
    MulCommute(h, t2);
    Doubled(t1, h);
    Doubled(t2, h);
  }

  /** The curve from working precision to sample units, before rounding. */
  function CurveOut(c: Curve, w: int, wmax: nat): int
    requires c.h >= 1
  {
    if w < c.t1 then
      var x := Clamp(c.B1() - w, 0, wmax); c.A1() - x * x
    else if w < c.t2 then w * (2 * c.h) + c.t1 * c.t1
    else
      var x := Clamp(w - c.B3(), 0, wmax); c.A3() + x * x
  }

  function CurveIn(c: Curve, v: int): int
    requires c.h >= 1
  {
    RootsDefined(c, v);
    if v < c.Q1() then c.B1() - Root(c.A1() - v)
    else if v < c.Q2() then (v - c.t1 * c.t1) / (2 * c.h)
    else c.B3() + Root(v - c.A3())
  }

  /** No root is taken of a negative value, and none is below h. */
  lemma RootsDefined(c: Curve, v: int)
    requires c.h >= 1
    ensures v < c.Q1() ==> c.A1() - v > c.h * c.h && Root(c.A1() - v) >= c.h
    ensures v >= c.Q2() ==> v - c.A3() >= c.h * c.h && Root(v - c.A3()) >= c.h
    ensures c.h * c.h >= 0
  {
    Expand(c.t1, c.h);
    MulCommute(c.t1, c.h);
    MulMonotone(0, c.h, c.h);
    if v < c.Q1() {
      SquareBound(c.A1() - v, Root(c.A1() - v), c.h);
    }
    if v >= c.Q2() {
      SquareBound(v - c.A3(), Root(v - c.A3()), c.h);
    }
  }

  function ExtendedOut(w: int, bw: nat, b: nat, c: Curve): int
    requires b <= bw && c.h >= 1
  {
    var step := Pow2(2 * bw - b);
    Clamp((CurveOut(c, w + Pow2(bw) / 2, Pow2(bw) - 1) + step / 2) / step, 0, Pow2(b) - 1)
  }

  function ExtendedIn(v: int, bw: nat, b: nat, c: Curve): int
    requires b <= bw && c.h >= 1
  {
    CurveIn(c, v * Pow2(2 * bw - b)) - Pow2(bw) / 2
  }

  /**
   * What a caller can check before scaling. With thresholds in order the radicands have to stay within what a
   * root clamped to the working precision can reach.
   */
  predicate WithinReach(c: Curve, v: int, bw: nat, b: nat)
    requires b <= bw && c.h >= 1
  {
    var x, last := v * Pow2(2 * bw - b), v == Pow2(b) - 1;
    if c.t1 <= c.t2 then OrderedReach(c, x, last, Pow2(bw) - 1, Pow2(2 * bw - b) / 2)
    else ReversedReach(c, x, last, Pow2(bw) - 1, Pow2(2 * bw - b) / 2)
  }

  predicate OrderedReach(c: Curve, x: int, last: bool, wmax: int, half: int) {
    && (x < c.Q1() ==> c.A1() - x < wmax * wmax + half || last)
    && (x >= c.Q2() ==> x - c.A3() <= wmax * wmax + half)
  }

  /**
   * Thresholds in reverse order, d apart. Samples written by the regular branch with a working value below T1
   * are read by the black branch: off by the squared distances of that value to both thresholds, besides what
   * the root lost. The value T1 itself is written by the black branch and read by the regular one.
   */
  predicate ReversedReach(c: Curve, x: int, last: bool, wmax: int, half: int)
    requires c.h >= 1 && c.t1 > c.t2
  {
    var d, top := c.t1 - c.t2, wmax * wmax;
    if x < c.Q1() && c.A1() - x >= (c.h + 1) * (c.h + 1) then c.A1() - x < top + half || last
    else if x < c.Q1() then
      if c.h + d <= wmax then c.Q1() + d * d < x + half || last
      else (c.A3() + top < x + half || last) && x <= c.A3() + top + half
    else if x < c.Q1() + d * d then
      ReversedOrder(c);
      RootsDefined(c, x);
      var s := Root(x - c.A3());
      var above := s - c.h;
      var below := d - above;
      if c.h + below <= wmax then above * above + below * below + (x - c.A3() - s * s) <= half
      else x <= c.A1() - top + half
    else x - c.A3() <= top + half
  }

  lemma RootGap(n: int, s: nat)
    requires IsRoot(n, s)
    ensures s * s <= n <= s * s + 2 * s
  {
    Expand(s, 1);
  }

  /** Black region: the root comes back unless it was clamped. */
  lemma BlackRegion(c: Curve, v: int, half: nat, wmax: nat)
    requires c.h >= 1 && half >= 1 && 2 * wmax < half && c.h <= wmax
    requires v * (2 * half) < c.Q1()
    requires c.t1 <= c.t2 || c.A1() - v * (2 * half) >= (c.h + 1) * (c.h + 1)
    ensures var y := CurveOut(c, CurveIn(c, v * (2 * half)), wmax);
            && v * (2 * half) <= y
            && (y < v * (2 * half) + half <==> c.A1() - v * (2 * half) < wmax * wmax + half)
  {
    var x := v * (2 * half);
    hide Root, IsRoot;
    RootsDefined(c, x);
    var s := Root(c.A1() - x);
    RootGap(c.A1() - x, s);
    Expand(c.t1, c.h);
    MulCommute(c.t1, c.h);
    MulCommute(c.t1, 2 * c.h);
    Doubled(c.t1, c.h);
    SquareBound(c.A1() - x, s, c.h + 1);
    if s <= wmax {
      SquareMonotone(s, wmax);
      if s == c.h {
        assert CurveIn(c, x) == c.t1;
      }
    } else {
      SquareMonotone(wmax + 1, s);
      Expand(wmax, 1);
    }
  }

  lemma LinearRegion(c: Curve, v: int, half: nat, wmax: nat)
    requires c.h >= 1 && half >= 1 && 2 * c.h <= half
    requires c.Q1() <= v * (2 * half) < c.Q2()
    ensures var y := CurveOut(c, CurveIn(c, v * (2 * half)), wmax);
            v * (2 * half) - half <= y <= v * (2 * half)
  {
    var x := v * (2 * half);
    var d := x - c.t1 * c.t1;
    DivBounds(d, 2 * c.h);
    var w := d / (2 * c.h);
    Doubled(c.t1, c.h);
    Doubled(c.t2, c.h);
    MulCommute(c.h, c.t1);
    MulCommute(c.h, c.t2);
    DivAtLeast(d, 2 * c.h, c.t1);
    DivAtLeast(d, 2 * c.h, c.t2);
  }

  lemma RegularRegion(c: Curve, v: int, half: nat, wmax: nat)
    requires c.h >= 1 && c.t1 <= c.t2 && half >= 1 && 2 * wmax < half && c.h <= wmax
    requires v * (2 * half) >= c.Q2()
    ensures var y := CurveOut(c, CurveIn(c, v * (2 * half)), wmax);
            && y <= v * (2 * half)
            && (v * (2 * half) - half <= y <==> v * (2 * half) - c.A3() <= wmax * wmax + half)
            && (v <= 0 ==> v * (2 * half) - half <= y)
  {
    hide Root, IsRoot, Curve.A1, Curve.A3, Curve.Q1, Curve.Q2;
    var x := v * (2 * half);
    RootsDefined(c, x);
    QuarterOrder(c);
    var s := Root(x - c.A3());
    RootGap(x - c.A3(), s);
    if s <= wmax {
      SquareMonotone(s, wmax);
    } else {
      SquareMonotone(wmax + 1, s);
      Expand(wmax, 1);
      if v <= 0 {
        NotBeyond(c, v, half, wmax);
      }
    }
  }

  lemma NotBeyond(c: Curve, v: int, half: nat, wmax: nat)
    requires c.h >= 1 && c.t1 <= c.t2 && c.h <= wmax && v <= 0 && v * (2 * half) >= c.Q2()
    ensures v * (2 * half) - c.A3() <= wmax * wmax
  {
    hide Curve.A3, Curve.Q2;
    MulMonotone(v, 0, 2 * half);
    NothingAbove(c, v * (2 * half));
    SquareMonotone(c.h, wmax);
  }

  /** A non-positive value in the regular region: both thresholds are zero. */
  lemma NothingAbove(c: Curve, x: int)
    requires c.h >= 1 && c.t1 <= c.t2 && c.Q2() <= x <= 0
    ensures x - c.A3() == c.h * c.h
  {
    MulMonotone(0, c.t1, c.t1);
    MulMonotone(0, c.t2, c.h);
    MulCommute(c.t2, c.h);
    if c.t2 > 0 {
      MulMonotone(1, c.t2, c.h);
    }
  }

  // ---- thresholds in reverse order -------------------------------------------------------------------

  lemma ReversedOrder(c: Curve)
    requires c.t1 > c.t2 && c.h >= 1
    ensures c.Q2() < c.Q1() && 0 < c.Q1()
  {
    MulStrict(c.t2, c.t1, c.h);
    MulMonotone(0, c.t1, c.t1);
    MulMonotone(0, c.t2, c.h);
    MulCommute(c.t2, c.h);
    MulCommute(c.t1, c.h);
  }

  lemma MulStrict(a: int, b: int, k: int)
    requires a < b && k >= 1
    ensures a * k < b * k
  {
    MulMonotone(a + 1, b, k);
    Distribute(a, 1, k);
  }

  /** The regular branch at the working value T1. */
  lemma RegularAtT1(c: Curve, d: int)
    requires d == c.t1 - c.t2
    ensures c.A3() + (c.h + d) * (c.h + d) == c.Q1() + d * d
  {
    Expand(c.h, d);
    Distribute(c.t2, d, c.h);
  }

  /** Between the thresholds the branches differ by the squared distances to both. */
  lemma BranchesApart(c: Curve, above: int, below: int)
    requires above + below == c.t1 - c.t2
    ensures c.A1() - (c.h + below) * (c.h + below)
            == c.A3() + (c.h + above) * (c.h + above) - (above * above + below * below)
  {
    Expand(c.t1, c.h);
    Expand(c.h, below);
    Expand(c.h, above);
    MulCommute(c.t1, c.h);
    Distribute(c.t2, above, c.h);
    Distribute(c.t2 + above, below, c.h);
    assert c.t2 + above + below == c.t1;
  }

  /** The working value T1: written by the black branch, read by the regular one. */
  lemma SeamRegion(c: Curve, x: int, wmax: nat)
    requires c.h >= 1 && c.t1 > c.t2 && c.h <= wmax
    requires x < c.Q1() && c.A1() - x < (c.h + 1) * (c.h + 1)
    ensures var d, y := c.t1 - c.t2, CurveOut(c, CurveIn(c, x), wmax);
            && y == (if c.h + d <= wmax then c.Q1() + d * d else c.A3() + wmax * wmax)
            && (c.h + d <= wmax ==> x < y)
            && x > 0
  {
    hide Root, IsRoot, Curve.A3;
    RootsDefined(c, x);
    var d, s := c.t1 - c.t2, Root(c.A1() - x);
    SquareBound(c.A1() - x, s, c.h + 1);
    RegularAtT1(c, d);
    MulMonotone(0, d, d);
    Expand(c.h, 1);
    Expand(c.t1, c.h);
    MulCommute(c.t1, c.h);
    MulMonotone(1, c.t1, c.h);
    MulMonotone(1, c.t1, c.t1);
  }

  /** Written by the regular branch, read by the black one. */
  lemma OverlapRegion(c: Curve, x: int, half: nat, wmax: nat)
    requires c.h >= 1 && c.t1 > c.t2 && half >= 1 && c.h <= wmax
    requires var d := c.t1 - c.t2; c.Q1() <= x < c.Q1() + d * d
    ensures c.Q2() < x && 0 < x
    ensures var y, s := CurveOut(c, CurveIn(c, x), wmax), Root(x - c.A3());
            var above := s - c.h;
            var below := c.t1 - c.t2 - above;
            && y < x + half
            && y == if c.h + below <= wmax
                    then c.A3() + s * s - (above * above + below * below) else c.A1() - wmax * wmax
  {
    hide Root, IsRoot, Curve.A1, Curve.A3, Curve.Q1, Curve.Q2;
    ReversedOrder(c);
    RootsDefined(c, x);
    var d, s := c.t1 - c.t2, Root(x - c.A3());
    RegularAtT1(c, d);
    RootGap(x - c.A3(), s);
    SquareBound(x - c.A3(), s, c.h + d);
    var above := s - c.h;
    var below := d - above;
    BranchesApart(c, above, below);
    MulMonotone(0, above, above);
    MulMonotone(0, below, below);
    if c.h + below > wmax {
      SquareMonotone(c.h, wmax);
      BlackAtT1(c);
    }
  }

  lemma BlackAtT1(c: Curve)
    ensures c.A1() == c.Q1() + c.h * c.h
  {
    Expand(c.t1, c.h);
    MulCommute(c.t1, c.h);
  }

  /** Beyond the overlap the regular branch writes and reads. */
  lemma BeyondOverlap(c: Curve, x: int, half: nat, wmax: nat)
    requires c.h >= 1 && c.t1 > c.t2 && half >= 1 && 2 * wmax < half && c.h <= wmax
    requires var d := c.t1 - c.t2; x >= c.Q1() + d * d
    ensures var y := CurveOut(c, CurveIn(c, x), wmax);
            y <= x && (x - half <= y <==> x - c.A3() <= wmax * wmax + half)
  {
    hide Root, IsRoot, Curve.A1, Curve.A3, Curve.Q1, Curve.Q2;
    ReversedOrder(c);
    var d := c.t1 - c.t2;
    MulMonotone(0, d, d);
    RootsDefined(c, x);
    var s := Root(x - c.A3());
    RegularAtT1(c, d);
    SquareBound(x - c.A3(), s, c.h + d);
    RootGap(x - c.A3(), s);
    if s <= wmax {
      SquareMonotone(s, wmax);
    } else {
      SquareMonotone(wmax + 1, s);
      Expand(wmax, 1);
    }
  }

  // ---- both orders -----------------------------------------------------------------------------------

  /** What the final rounding and clamping make of a value y behind the curve. */
  lemma Returned(v: int, y: int, half: nat, count: int)
    requires half >= 1 && 0 <= v < count
    ensures Clamp((y + half) / (2 * half), 0, count - 1) == v <==>
            (v * (2 * half) - half <= y || v == 0) && (y < v * (2 * half) + half || v == count - 1)
  {
    DivAtLeast(y + half, 2 * half, v);
    assert (v + 1) * (2 * half) == v * (2 * half) + 2 * half;
    DivAtLeast(y + half, 2 * half, v + 1);
  }

  lemma OrderedExact(v: int, c: Curve, half: nat, wmax: nat, count: int)
    requires c.t1 <= c.t2 && c.h >= 1 && 2 * c.h <= half && half >= 1 && 2 * wmax < half && c.h <= wmax && 0 <= v < count
    ensures var x := v * (2 * half);
            Clamp((CurveOut(c, CurveIn(c, x), wmax) + half) / (2 * half), 0, count - 1) == v <==>
            OrderedReach(c, x, v == count - 1, wmax, half)
  {
    hide CurveOut, CurveIn, Curve.A1, Curve.A3, Curve.Q1, Curve.Q2, Clamp;
    var x := v * (2 * half);
    Returned(v, CurveOut(c, CurveIn(c, x), wmax), half, count);
    QuarterOrder(c);
    if x < c.Q1() {
      BlackRegion(c, v, half, wmax);
    } else if x < c.Q2() {
      LinearRegion(c, v, half, wmax);
    } else {
      RegularRegion(c, v, half, wmax);
    }
  }

  lemma ReversedExact(v: int, c: Curve, half: nat, wmax: nat, count: int)
    requires c.t1 > c.t2 && c.h >= 1 && half >= 1 && 2 * wmax < half && c.h <= wmax && 0 <= v < count
    ensures var x := v * (2 * half);
            Clamp((CurveOut(c, CurveIn(c, x), wmax) + half) / (2 * half), 0, count - 1) == v <==>
            ReversedReach(c, x, v == count - 1, wmax, half)
  {
    hide CurveOut, CurveIn, Root, Curve.A1, Curve.A3, Curve.Q1, Curve.Q2, Clamp;
    var x, d := v * (2 * half), c.t1 - c.t2;
    Returned(v, CurveOut(c, CurveIn(c, x), wmax), half, count);
    if v == 0 {
      assert x == 0;
    }
    if x < c.Q1() && c.A1() - x >= (c.h + 1) * (c.h + 1) {
      BlackRegion(c, v, half, wmax);
    } else if x < c.Q1() {
      SeamRegion(c, x, wmax);
    } else if x < c.Q1() + d * d {
      OverlapRegion(c, x, half, wmax);
    } else {
      ReversedOrder(c);
      MulMonotone(0, d, d);
      BeyondOverlap(c, x, half, wmax);
    }
  }

  /** Exactly when the extended curve gives a sample back, whatever the thresholds and through all their seams. */
  lemma ExtendedExact(v: int, bw: nat, b: nat, c: Curve)
    requires b + 2 <= bw && 0 <= v < Pow2(b) && 1 <= c.h < Pow2(bw) && 4 * c.h <= Pow2(2 * bw - b)
    ensures ExtendedOut(ExtendedIn(v, bw, b, c), bw, b, c) == v <==> WithinReach(c, v, bw, b)
  {
    var half, wmax := Pow2(2 * bw - b - 1), Pow2(bw) - 1;
    assert Pow2(2 * bw - b) == 2 * half;
    Pow2Monotone(bw + 1, 2 * bw - b - 1);
    assert Pow2(bw + 1) == 2 * Pow2(bw);
    hide Pow2, CurveOut, CurveIn, Clamp, OrderedReach, ReversedReach;
    if c.t1 <= c.t2 {
      OrderedExact(v, c, half, wmax, Pow2(b));
    } else {
      ReversedExact(v, c, half, wmax, Pow2(b));
    }
  }

  lemma QuarterOrder(c: Curve)
    requires c.t1 <= c.t2
    ensures c.Q1() <= c.Q2()
  {
    MulMonotone(c.t1, c.t2, c.h);
    MulCommute(c.t1, c.h);
    MulCommute(c.t2, c.h);
  }

  /** One curve with its thresholds in the wrong order, at Bw = 18 and E = 1: a 16-bit sample comes back changed. */
  lemma ReversedThresholdsFail()
    ensures Pow2(16) == 65536 && Pow2(18) == 262144 && Pow2(20) == 1048576
    ensures var c := Curve(131072, 0, 65536);
            ExtendedOut(ExtendedIn(32768, 18, 16, c), 18, 16, c) == 24119
  {
    hide Pow2;
    SmallPowers();
    WordPowers();
    Pow2Add(16, 2);
    Pow2Add(16, 4);
    var c := Curve(131072, 0, 65536);
    assert c.Q1() == 34359738368 && c.Q2() == 17179869184 && c.A3() == 12884901888 && c.A1() == 38654705664;
    RootIs(21474836480, 146542);
    assert CurveIn(c, 34359738368) == 81006;
    assert CurveOut(c, 81006, 262143) == 38654705664 - 115602 * 115602;
  }
}
