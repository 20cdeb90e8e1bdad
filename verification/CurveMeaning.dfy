// What the transfer curves of Annex G compute, independently of each other: outputs are the nearest sample values, roots
// are roots, and the extended curve is two parabolas joined by a straight line without a step.
module CurveMeaning {
  import opened Arith
  import opened Scaling

  // ---- rounding to samples ---------------------------------------------------------------------------

  /** Of all values 0 .. top, q times step comes nearest to u, and of two equally near ones it is the larger. */
  ghost predicate Nearest(q: int, u: int, step: nat, top: nat) {
    && 0 <= q <= top
    && forall w | 0 <= w <= top :: Abs(q * step - u) <= Abs(w * step - u) && (Abs(q * step - u) == Abs(w * step - u) ==> w <= q)
  }

  lemma NearestTo(u: int, step: nat, top: nat)
    requires step == 1 || (step > 0 && step % 2 == 0)
    ensures Nearest(Clamp((u + step / 2) / step, 0, top), u, step, top)
  {
    var k := (u + step / 2) / step;
    var q := Clamp(k, 0, top);
    DivBounds(u + step / 2, step);
    forall w | 0 <= w <= top
      ensures Abs(q * step - u) <= Abs(w * step - u) && (Abs(q * step - u) == Abs(w * step - u) ==> w <= q)
    {
      NoNearer(u, step, k, q, w);
    }
  }

  lemma NoNearer(u: int, step: nat, k: int, q: int, w: int)
    requires step == 1 || (step > 0 && step % 2 == 0)
    requires k * step <= u + step / 2 < k * step + step
    requires (w < q ==> q <= k) && (w > q ==> q >= k)
    ensures Abs(q * step - u) <= Abs(w * step - u) && (Abs(q * step - u) == Abs(w * step - u) ==> w <= q)
  {
    if w < q {
      MulMonotone(q, k, step);
      MulMonotone(w + 1, q, step);
      Distribute(w, 1, step);
    } else if w > q {
      MulMonotone(k, q, step);
      MulMonotone(q + 1, w, step);
      Distribute(q, 1, step);
    }
  }

  lemma EvenPower(n: nat)
    ensures Pow2(n) == 1 || (Pow2(n) > 0 && Pow2(n) % 2 == 0)
  {
  }

  /** Without NLT an output sample is the one nearest to the value, counted from -2^(Bw-1) in steps of 2^(Bw-B). */
  lemma LinearOutNearest(v: int, bw: nat, b: nat)
    requires b <= bw
    ensures Nearest(LinearOut(v, bw, b), v + Pow2(bw) / 2, Pow2(bw - b), Pow2(b) - 1)
  {
    hide Nearest;
    EvenPower(bw - b);
    NearestTo(v + Pow2(bw) / 2, Pow2(bw - b), Pow2(b) - 1);
  }

  /** Without NLT sample 0 is -2^(Bw-1), and each further one is 2^(Bw-B) more. */
  lemma LinearInSteps(v: nat, bw: nat, b: nat)
    requires b <= bw
    ensures LinearIn(0, bw, b) == -(Pow2(bw) / 2)
    ensures LinearIn(v + 1, bw, b) == LinearIn(v, bw, b) + Pow2(bw - b)
  {
    hide Pow2;
    Distribute(v, 1, Pow2(bw - b));
  }

  lemma RoundsWithin(u: int, step: nat)
    requires step == 1 || (step > 0 && step % 2 == 0)
    ensures 2 * Abs((u + step / 2) / step * step - u) <= step
  {
    DivBounds(u + step / 2, step);
  }

  /** Samples less DCO, up to clamping, are nearest to the square of the value counted from -2^(Bw-1). */
  lemma QuadraticOutNearest(v: int, bw: nat, b: nat, dco: int) returns (q: int)
    requires b <= bw
    ensures QuadraticOut(v, bw, b, dco) == Clamp(q + dco, 0, Pow2(b) - 1)
    ensures var w := Clamp(v + Pow2(bw) / 2, 0, Pow2(bw) - 1); 2 * Abs(q * Pow2(2 * bw - b) - w * w) <= Pow2(2 * bw - b)
  {
    hide Pow2;
    var w, step := Clamp(v + Pow2(bw) / 2, 0, Pow2(bw) - 1), Pow2(2 * bw - b);
    EvenPower(2 * bw - b);
    q := (w * w + step / 2) / step;
    RoundsWithin(w * w, step);
  }

  /** The quadratic input value, counted from -2^(Bw-1), is the integer root of the sample less DCO in output steps. */
  lemma QuadraticInRoot(v: int, bw: nat, b: nat, dco: int)
    requires b <= bw
    ensures var s, u := QuadraticIn(v, bw, b, dco) + Pow2(bw) / 2, Clamp(v - dco, 0, Pow2(b) - 1);
            0 <= s && s * s <= u * Pow2(2 * bw - b) < (s + 1) * (s + 1)
  {
    hide Pow2;
  }

  lemma ExtendedOutNearest(v: int, bw: nat, b: nat, c: Curve)
    requires b <= bw && c.h >= 1
    ensures Nearest(ExtendedOut(v, bw, b, c), CurveOut(c, v + Pow2(bw) / 2, Pow2(bw) - 1), Pow2(2 * bw - b), Pow2(b) - 1)
  {
    hide Nearest, CurveOut;
    EvenPower(2 * bw - b);
    NearestTo(CurveOut(c, v + Pow2(bw) / 2, Pow2(bw) - 1), Pow2(2 * bw - b), Pow2(b) - 1);
  }

  // ---- the extended curve ----------------------------------------------------------------------------

  /** Unit steps of a parabola. */
  lemma NextSquare(x: int)
    ensures (x + 1) * (x + 1) == x * x + 2 * x + 1
  {
  }

  /**
   * With thresholds in order the curve starts the straight line at T1 with T1^2 + 2h T1; it rises by 2h per unit between
   * the thresholds, by two more for every unit below T1 or above T2, and has no step at either of them.
   */
  lemma CurveShape(c: Curve, w: int, wmax: nat)
    requires c.h >= 1 && c.t1 <= c.t2 && c.B1() - w <= wmax && w + 1 - c.B3() <= wmax && c.h <= wmax
    ensures CurveOut(c, c.t1, wmax) == c.t1 * c.t1 + 2 * c.h * c.t1
    ensures CurveOut(c, w + 1, wmax) - CurveOut(c, w, wmax) ==
            if w < c.t1 then 2 * (c.h + c.t1 - w) - 1 else if w < c.t2 then 2 * c.h else 2 * (c.h + w - c.t2) + 1
  {
    var x, y := c.B1() - (w + 1), w - c.B3();
    NextSquare(x);
    NextSquare(y);
    JoinAtT1(c);
    JoinAtT2(c);
    LineStep(w, c.h);
  }

  lemma LineStep(w: int, h: int)
    ensures (w + 1) * (2 * h) == w * (2 * h) + 2 * h
  {
  }

  lemma JoinAtT1(c: Curve)
    ensures c.A1() - c.h * c.h == c.t1 * (2 * c.h) + c.t1 * c.t1 == c.t1 * c.t1 + 2 * c.h * c.t1
  {
  }

  lemma JoinAtT2(c: Curve)
    ensures c.A3() + c.h * c.h == c.t2 * (2 * c.h) + c.t1 * c.t1
  {
  }

  /** The input curve takes the integer root of the distance to the vertex of the parabola, or divides along the line. */
  lemma CurveInRoots(c: Curve, v: int)
    requires c.h >= 1
    ensures v < c.Q1() ==> var s := c.B1() - CurveIn(c, v); 0 <= s && s * s <= c.A1() - v < (s + 1) * (s + 1)
    ensures c.Q1() <= v < c.Q2() ==>
              var w := CurveIn(c, v); w * (2 * c.h) + c.t1 * c.t1 <= v < (w + 1) * (2 * c.h) + c.t1 * c.t1
    ensures v >= c.Q1() && v >= c.Q2() ==> var s := CurveIn(c, v) - c.B3(); 0 <= s && s * s <= v - c.A3() < (s + 1) * (s + 1)
  {
    hide Curve.A1, Curve.A3, Curve.Q1, Curve.Q2;
    RootsDefined(c, v);
    DivBounds(v - c.t1 * c.t1, 2 * c.h);
    LineStep(CurveIn(c, v), c.h);
  }
}
