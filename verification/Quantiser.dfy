// Quantisation of wavelet coefficients (Annex D, Tables D.1 to D.5).
// m is the bitplane count M of a code group, t the truncation position T[p,b].
module Quantiser {
  import opened Arith

  // ---- bitplane counts -------------------------------------------------------------------------

  function MaxMagnitude(group: seq<int>): nat {
    if group == [] then 0
    else Max(MaxMagnitude(group[..|group| - 1]), Abs(group[|group| - 1]))
  }

  function BitplaneCountOf(group: seq<int>): nat {
    BitLength(MaxMagnitude(group))
  }

  /** The largest magnitude bounds the group and is reached. */
  lemma {:induction false} MaxMagnitudeBound(group: seq<int>)
    ensures forall i | 0 <= i < |group| :: Abs(group[i]) <= MaxMagnitude(group)
    ensures MaxMagnitude(group) > 0 ==> exists i | 0 <= i < |group| :: Abs(group[i]) == MaxMagnitude(group)
  {
    if group != [] {
      var n := |group| - 1;
      MaxMagnitudeBound(group[..n]);
      assert forall i | 0 <= i < n :: group[..n][i] == group[i];
      if MaxMagnitude(group) > 0 && MaxMagnitude(group) != Abs(group[n]) {
        var i :| 0 <= i < n && Abs(group[..n][i]) == MaxMagnitude(group[..n]);
        assert Abs(group[i]) == MaxMagnitude(group);
      }
    }
  }

  /** A group needs at most m bitplanes exactly when every magnitude is below 2^m. */
  lemma BitplaneCountLeast(group: seq<int>, m: nat)
    ensures BitplaneCountOf(group) <= m <==> forall i | 0 <= i < |group| :: Abs(group[i]) < Pow2(m)
  {
    MaxMagnitudeBound(group);
    BitLengthLeast(MaxMagnitude(group), m);
  }

  method BitplaneCount(group: seq<int>) returns (m: nat)
    ensures m == BitplaneCountOf(group)
  {
    var vmax := 0;
    for i := 0 to |group|
      invariant vmax == MaxMagnitude(group[..i])
    {
      var c := group[i];
      var magnitude := if c < 0 then -c else c;
      vmax := Max(vmax, magnitude);
      assert group[..i + 1][..i] == group[..i];
    }
    assert group[..|group|] == group;
    m := 0;
    while vmax > 0
      invariant 0 <= vmax
      invariant m + BitLength(vmax) == BitplaneCountOf(group)
    {
      m := m + 1;
      vmax := vmax / 2;
    }
  }

  // ---- quantisation ----------------------------------------------------------------------------

  /** d * (base - 1) / (2 * top), rounded to nearest. */
  function Rounded(d: nat, base: nat, top: nat): nat
    requires base >= 1 && top >= 1
  {
    MulMonotone(0, base - 1, d);
    (d * (base - 1) + top) / (2 * top)
  }

  /** Table D.3 (dead zone) and Table D.4 (uniform). */
  function Quantise(magnitude: nat, m: nat, t: nat, uniform: bool): nat {
    if !uniform then Shr(magnitude, t)
    else if m <= t then 0
    else Rounded(magnitude, Pow2(m - t + 1), Pow2(m))
  }

  /** x + floor(x/base) + floor(x/base^2) + ...: the integer Neumann series of Table D.2. */
  function Neumann(x: nat, base: nat): nat
    requires base >= 2
  {
    if x == 0 then 0 else x + Neumann(x / base, base)
  }

  function Magnitude(v: nat, m: nat, t: nat, uniform: bool): nat {
    if m <= t || v == 0 then 0
    else if !uniform then v * Pow2(t) + Pow2(t) / 2
    else Neumann(v * Pow2(t), 2 * Pow2(m - t))
  }

  /** Tables D.1 and D.2. */
  function Dequantise(v: nat, negative: bool, m: nat, t: nat, uniform: bool): int {
    var c: int := Magnitude(v, m, t, uniform);
    if negative then -c else c
  }

  method QuantizeMagnitude(magnitude: nat, m: nat, t: nat, uniform: bool) returns (v: nat)
    ensures v == Quantise(magnitude, m, t, uniform)
  {
    if !uniform {
      return Shr(magnitude, t);
    }
    if m <= t {
      return 0;
    }
    var zeta := m - t + 1;
    var d := magnitude;
    MulMonotone(0, Pow2(zeta) - 1, d);
    assert d * Pow2(zeta) - d == d * (Pow2(zeta) - 1);
    return (d * Pow2(zeta) - d + Pow2(m)) / Pow2(m + 1);
  }

  method DequantizeValue(v: nat, negative: bool, m: nat, t: nat, uniform: bool) returns (c: int)
    ensures c == Dequantise(v, negative, m, t, uniform)
  {
    if m <= t || v == 0 {
      return 0;
    }
    var magnitude;
    if !uniform {
      magnitude := v * Pow2(t) + Pow2(t) / 2;
    } else {
      var zeta := m - t + 1;
      magnitude := NeumannLoop(v * Pow2(t), zeta);
    }
    return if negative then -magnitude else magnitude;
  }

  method NeumannLoop(start: nat, zeta: nat) returns (rho: nat)
    requires zeta >= 1
    ensures rho == Neumann(start, 2 * Pow2(zeta - 1))
  {
    var phi := start;
    rho := 0;
    ghost var base := 2 * Pow2(zeta - 1);
    while phi > 0
      invariant rho + Neumann(phi, base) == Neumann(start, base)
      decreases phi
    {
      DivSmaller(phi, base);
      rho := rho + phi;
      phi := Shr(phi, zeta);
    }
  }

  // ---- the Neumann series in closed form -------------------------------------------------------

  function DigitSum(x: nat, base: nat): nat
    requires base >= 2
  {
    if x == 0 then 0 else x % base + DigitSum(x / base, base)
  }

  lemma NeumannUnfold(x: nat, base: nat)
    requires base >= 2 && x > 0
    ensures 0 <= x / base < x
    ensures Neumann(x, base) == x + Neumann(x / base, base)
    ensures DigitSum(x, base) == x % base + DigitSum(x / base, base)
  {
    DivSmaller(x, base);
  }

  /** Legendre's formula: (base - 1) * Neumann(x) == base * x - DigitSum(x). */
  lemma {:induction false} NeumannClosed(x: nat, base: nat)
    requires base >= 2
    ensures base * Neumann(x, base) - Neumann(x, base) == base * x - DigitSum(x, base)
  {
    if x > 0 {
      hide *;
      NeumannUnfold(x, base);
      DivMod(x, base);
      NeumannClosed(x / base, base);
      NeumannStep(x, base, x / base, Neumann(x / base, base));
    }
  }

  lemma NeumannStep(x: int, base: int, q: int, n: int)
    ensures base * (x + n) - (x + n) == base * x - (x - base * q) - base * q + base * n - n
  {
  }

  lemma {:induction false} DigitSumSmall(x: nat, base: nat)
    requires base >= 2
    ensures DigitSum(x, base) <= x
  {
    if x > 0 {
      hide *;
      NeumannUnfold(x, base);
      DivMod(x, base);
      DigitSumSmall(x / base, base);
      MulMonotone(1, base, x / base);
    }
  }

  /** At most one digit below the base per bitplane. */
  lemma {:induction false} DigitSumPlanes(x: nat, base: nat, m: nat)
    requires base >= 2 && x < Pow2(m)
    ensures DigitSum(x, base) <= (base - 1) * m
  {
    if x > 0 {
      assert m > 0 && Pow2(m) == 2 * Pow2(m - 1);
      hide *;
      NeumannUnfold(x, base);
      DivMod(x, base);
      MulMonotone(2, base, x / base);
      DigitSumPlanes(x / base, base, m - 1);
      MulAdd(base - 1, m - 1, 1);
    } else {
      MulMonotone(0, base - 1, m);
    }
  }

  lemma NeumannAtLeast(x: nat, base: nat)
    requires base >= 2
    ensures Neumann(x, base) >= x
  {
  }

  lemma NeumannSmall(x: nat, base: nat)
    requires base >= 2 && x < base
    ensures Neumann(x, base) == x
  {
    DivUnique(x, base, 0);
  }

  // ---- properties of both quantisers -----------------------------------------------------------

  /** top = 2^m splits into h = 2^(m-t) and step = 2^t; every index v < h scales to less than top. */
  lemma Scaled(v: nat, h: nat, step: nat)
    requires v < h && step >= 1
    ensures v * step + step <= h * step
  {
    MulMonotone(v + 1, h, step);
  }

  /** The identity every uniform bound comes from; s is the digit sum of v * step in base 2h. */
  lemma UniformIdentity(v: nat, h: nat, step: nat, m: nat) returns (s: nat)
    requires v < h && h >= 2 && step >= 1 && Pow2(m) == h * step
    ensures (2 * h - 1) * Neumann(v * step, 2 * h) == v * (2 * Pow2(m)) - s
    ensures s <= v * step < Pow2(m) && s <= (2 * h - 1) * m
  {
    hide *;
    var x := v * step;
    MulMonotone(0, v, step);
    Scaled(v, h, step);
    NeumannClosed(x, 2 * h);
    DigitSumSmall(x, 2 * h);
    DigitSumPlanes(x, 2 * h, m);
    s := DigitSum(x, 2 * h);
    assert (2 * h) * x == v * (2 * Pow2(m)) by {
      MulSwap(2 * h, v, step);
      MulSwap(2, h, step);
    }
    Expand(2 * h, Neumann(x, 2 * h));
  }

  lemma Expand(a: int, b: int)
    ensures (a - 1) * b == a * b - b
  {
  }

  lemma Split(m: nat, t: nat)
    requires t < m
    ensures Pow2(m) == Pow2(m - t) * Pow2(t)
    ensures Pow2(m - t) == 2 * Pow2(m - t - 1) >= 2
    ensures Pow2(m - 1) == Pow2(m - t - 1) * Pow2(t)
    ensures Pow2(m) == 2 * Pow2(m - 1)
    ensures Pow2(m - t + 1) == 2 * Pow2(m - t)
  {
    Pow2Add(m - t, t);
    Pow2Add(m - t - 1, t);
  }

  lemma DivLess(n: int, k: int, q: int)
    requires k > 0 && n < q * k
    ensures n / k < q
  {
    DivBounds(n, k);
    if n / k >= q {
      MulMonotone(q, n / k, k);
    }
  }

  lemma DivAtLeast(n: int, k: int, q: int)
    requires k > 0 && n >= q * k
    ensures n / k >= q
  {
    DivBounds(n, k);
    if n / k + 1 <= q {
      MulMonotone(n / k + 1, q, k);
    }
  }

  lemma RoundedFits(d: nat, h: nat, top: nat)
    requires d < top && h >= 1
    ensures Rounded(d, 2 * h, top) < h
  {
    MulMonotone(d, top - 1, 2 * h - 1);
    assert (top - 1) * (2 * h - 1) == h * (2 * top) - top - 2 * h + 1;
    DivLess(d * (2 * h - 1) + top, 2 * top, h);
  }

  /** Rounding y back gives v as soon as (2h-1) * y is v steps of 2*top minus at most top. */
  lemma RoundedExact(y: nat, v: nat, h: nat, top: nat, s: nat)
    requires h >= 1 && s <= top && top >= 1
    requires (2 * h - 1) * y == v * (2 * top) - s
    ensures Rounded(y, 2 * h, top) == v
  {
    DivUnique(y * (2 * h - 1) + top, 2 * top, v);
  }

  lemma NeumannFits(y: nat, v: nat, h: nat, top: nat, s: nat)
    requires v < h && top >= 1
    requires (2 * h - 1) * y == v * (2 * top) - s
    ensures y < top
  {
    MulMonotone(v, h - 1, 2 * top);
    assert (h - 1) * (2 * top) == (2 * h - 1) * top - top;
    if y >= top {
      MulMonotone(top, y, 2 * h - 1);
    }
  }

  /** Half the range rounds to at least half the indices. */
  lemma RoundedHalf(d: nat, h: nat, half: nat)
    requires h >= 1 && half >= 1 && d >= half
    ensures Rounded(d, 4 * h, 2 * half) >= h
  {
    MulMonotone(half, d, 4 * h - 1);
    assert half * (4 * h - 1) == h * (4 * half) - half;
    DivAtLeast(d * (4 * h - 1) + 2 * half, 4 * half, h);
  }

  /** |y - d| from the two roundings: (2h-1) * (y - d) lies between -top - s and top. */
  lemma UniformError(d: nat, y: nat, v: nat, h: nat, step: nat, m: nat, s: nat)
    requires h >= 2 && step >= 1
    requires v == Rounded(d, 2 * h, h * step)
    requires (2 * h - 1) * y == v * (2 * (h * step)) - s
    requires s <= (2 * h - 1) * m
    ensures Abs(y - d) <= step + m
  {
    var top, k := h * step, 2 * h - 1;
    var n := d * k + top;
    MulMonotone(0, k, d);
    DivBounds(n, 2 * top);
    MulSub(k, y, d);
    MulMonotone(1, h, step);
    assert k * step == 2 * top - step;
    MulAdd(k, step, m);
    AbsBound(k, y - d, step + m);
  }

  /** A magnitude of m bitplanes quantises to m - t bitplanes. */
  lemma QuantiseFits(d: nat, m: nat, t: nat, uniform: bool)
    requires t <= m && d < Pow2(m)
    ensures Quantise(d, m, t, uniform) < Pow2(m - t)
  {
    if !uniform {
      Pow2Add(m - t, t);
      DivLess(d, Pow2(t), Pow2(m - t));
    } else if m > t {
      Split(m, t);
      RoundedFits(d, Pow2(m - t), Pow2(m));
    }
  }

  /** Reconstruction stays within the bitplanes of the group, so a count up to 31 fits in 32 bits. */
  lemma MagnitudeFits(v: nat, m: nat, t: nat, uniform: bool)
    requires t <= m && v < Pow2(m - t)
    ensures Magnitude(v, m, t, uniform) < Pow2(m)
  {
    if m > t && v > 0 {
      Split(m, t);
      Scaled(v, Pow2(m - t), Pow2(t));
      if uniform {
        var s := UniformIdentity(v, Pow2(m - t), Pow2(t), m);
        NeumannFits(Neumann(v * Pow2(t), 2 * Pow2(m - t)), v, Pow2(m - t), Pow2(m), s);
      }
    }
  }

  /** Quantising a reconstructed value gives the index back. */
  lemma Requantise(v: nat, m: nat, t: nat, uniform: bool)
    requires t <= m && v < Pow2(m - t)
    ensures Quantise(Magnitude(v, m, t, uniform), m, t, uniform) == v
  {
    if m == t || v == 0 {
      DivUnique(0, Pow2(t), 0);
      DivUnique(Pow2(m), 2 * Pow2(m), 0);
    } else if !uniform {
      DivUnique(v * Pow2(t) + Pow2(t) / 2, Pow2(t), v);
    } else {
      Split(m, t);
      var s := UniformIdentity(v, Pow2(m - t), Pow2(t), m);
      RoundedExact(Neumann(v * Pow2(t), 2 * Pow2(m - t)), v, Pow2(m - t), Pow2(m), s);
    }
  }

  /** A magnitude that uses the top bitplane of its group still does after reconstruction. */
  lemma TopBitSurvives(d: nat, m: nat, t: nat, uniform: bool)
    requires t < m && Pow2(m - 1) <= d < Pow2(m)
    ensures Quantise(d, m, t, uniform) > 0
    ensures Pow2(m - 1) <= Magnitude(Quantise(d, m, t, uniform), m, t, uniform) < Pow2(m)
  {
    hide Pow2, Neumann, Quantise, Magnitude;
    var v, h := Quantise(d, m, t, uniform), Pow2(m - t - 1);
    QuantiseFits(d, m, t, uniform);
    MagnitudeFits(v, m, t, uniform);
    Split(m, t);
    HalfOfIndices(d, m, t, uniform);
    MulMonotone(h, v, Pow2(t));
    MagnitudeAtLeast(v, m, t, uniform);
  }

  /** A magnitude in the upper half of its range has an index in the upper half of its own. */
  lemma HalfOfIndices(d: nat, m: nat, t: nat, uniform: bool)
    requires t < m && Pow2(m - 1) <= d < Pow2(m)
    ensures Quantise(d, m, t, uniform) >= Pow2(m - t - 1)
  {
    hide Pow2, Rounded;
    Split(m, t);
    if uniform {
      RoundedHalf(d, Pow2(m - t - 1), Pow2(m - 1));
    } else {
      DeadZoneIndex(d, t);
      DivAtLeast(d, Pow2(t), Pow2(m - t - 1));
    }
  }

  lemma MagnitudeAtLeast(v: nat, m: nat, t: nat, uniform: bool)
    requires t < m && v > 0
    ensures Magnitude(v, m, t, uniform) >= v * Pow2(t)
  {
    hide Pow2, Neumann;
    Split(m, t);
    if uniform {
      MulMonotone(0, v, Pow2(t));
      NeumannAtLeast(v * Pow2(t), 2 * Pow2(m - t));
    }
  }

  /** Reconstruction error: below 2^T in the dead-zone quantiser, at most 2^T + M in the uniform one. */
  lemma ErrorBound(d: nat, m: nat, t: nat, uniform: bool)
    requires t <= m && d < Pow2(m)
    ensures var y := Magnitude(Quantise(d, m, t, uniform), m, t, uniform);
            if uniform then Abs(y - d) <= Pow2(t) + m else Abs(y - d) < Pow2(t)
  {
    if m > t {
      if uniform {
        QuantiseFits(d, m, t, true);
        hide Pow2, Neumann, Rounded;
        var v := Quantise(d, m, t, true);
        UniformErrorBound(d, m, t, v, Neumann(v * Pow2(t), 2 * Pow2(m - t)));
        if v == 0 {
          NeumannZero(Pow2(t), 2 * Pow2(m - t));
        }
      } else {
        DeadZoneErrorBound(d, m, t);
      }
    }
  }

  lemma UniformErrorBound(d: nat, m: nat, t: nat, v: nat, y: nat)
    requires t < m && d < Pow2(m) && v < Pow2(m - t)
    requires v == Rounded(d, Pow2(m - t + 1), Pow2(m)) && y == Neumann(v * Pow2(t), 2 * Pow2(m - t))
    ensures Abs(y - d) <= Pow2(t) + m
  {
    hide *;
    Split(m, t);
    var s := UniformIdentity(v, Pow2(m - t), Pow2(t), m);
    UniformError(d, y, v, Pow2(m - t), Pow2(t), m, s);
  }

  lemma NeumannZero(step: nat, base: nat)
    requires base >= 2
    ensures Neumann(0 * step, base) == 0
  {
  }

  lemma DeadZoneErrorBound(d: nat, m: nat, t: nat)
    requires t < m
    ensures Abs(Magnitude(Quantise(d, m, t, false), m, t, false) - d) < Pow2(t)
  {
    hide Pow2, Shr, Neumann;
    var v := Shr(d, t);
    DeadZoneIndex(d, t);
    DeadZoneError(d, v, Pow2(t), Magnitude(v, m, t, false));
  }

  lemma DeadZoneIndex(d: nat, t: nat)
    ensures Shr(d, t) == d / Pow2(t)
  {
  }

  lemma DeadZoneError(d: nat, v: nat, step: nat, y: nat)
    requires step >= 1 && v == d / step
    requires y == if v == 0 then 0 else v * step + step / 2
    ensures Abs(y - d) < step
  {
    DivBounds(d, step);
    assert v == 0 ==> v * step == 0;
  }

  /** A dead-zone index stands for 2^T magnitudes and is read as the middle one; what has no index is below 2^T. */
  lemma DeadZoneHalfStep(d: nat, m: nat, t: nat)
    requires t < m && d < Pow2(m)
    ensures var y := Magnitude(Quantise(d, m, t, false), m, t, false);
            if d < Pow2(t) then y == 0 else y > 0 && 2 * Abs(y - d) <= Pow2(t)
  {
    hide Pow2, Shr, Neumann;
    var v := Shr(d, t);
    DeadZoneIndex(d, t);
    EvenStep(t);
    HalfStep(d, v, Pow2(t), Magnitude(v, m, t, false));
    if d >= Pow2(t) {
      DivAtLeast(d, Pow2(t), 1);
    } else {
      DivUnique(d, Pow2(t), 0);
    }
  }

  lemma EvenStep(t: nat)
    ensures Pow2(t) == 1 || Pow2(t) % 2 == 0
  {
  }

  lemma HalfStep(d: nat, v: nat, step: nat, y: nat)
    requires step >= 1 && v == d / step && (step == 1 || step % 2 == 0)
    requires y == if v == 0 then 0 else v * step + step / 2
    ensures v > 0 ==> y > 0 && 2 * Abs(y - d) <= step
  {
    DivBounds(d, step);
    MulMonotone(0, v, step);
    if v > 0 {
      MulMonotone(1, v, step);
    }
  }

  lemma UniformNearest(d: nat, y: nat, v: nat, h: nat, step: nat, s: nat)
    requires h >= 2 && step >= 1 && v == Rounded(d, 2 * h, h * step)
    requires (2 * h - 1) * y == v * (2 * (h * step)) - s
    ensures -(h * step) - s <= (2 * h - 1) * (y - d) <= h * step
  {
    var top, k := h * step, 2 * h - 1;
    var n := d * k + top;
    MulMonotone(0, k, d);
    MulMonotone(1, h, step);
    DivBounds(n, 2 * top);
    MulSub(k, y, d);
    MulCommute(k, d);
  }

  /**
   * The uniform quantiser divides 2^(M+1) magnitudes into 2^(M-T+1) - 1 steps, and an index is read within half such a
   * step of what it stands for, up to one unit for every term of the series that computes it.
   */
  predicate UniformNear(d: nat, y: nat, m: nat, t: nat)
    requires t < m
  {
    var k := Pow2(m - t + 1) - 1;
    0 - Pow2(m) - k * m <= k * (y - d) <= Pow2(m)
  }

  lemma UniformHalfStep(d: nat, m: nat, t: nat)
    requires t < m && d < Pow2(m)
    ensures UniformNear(d, Magnitude(Quantise(d, m, t, true), m, t, true), m, t)
  {
    hide Pow2, Neumann, Rounded, UniformNear;
    QuantiseFits(d, m, t, true);
    var v := Quantise(d, m, t, true);
    UniformSteps(d, m, t, v, Neumann(v * Pow2(t), 2 * Pow2(m - t)));
    if v == 0 {
      NeumannZero(Pow2(t), 2 * Pow2(m - t));
    }
  }

  lemma UniformSteps(d: nat, m: nat, t: nat, v: nat, y: nat)
    requires t < m && d < Pow2(m) && v < Pow2(m - t)
    requires v == Rounded(d, Pow2(m - t + 1), Pow2(m)) && y == Neumann(v * Pow2(t), 2 * Pow2(m - t))
    ensures UniformNear(d, y, m, t)
  {
    hide Pow2, Neumann, Rounded;
    Split(m, t);
    var s := UniformIdentity(v, Pow2(m - t), Pow2(t), m);
    UniformNearest(d, y, v, Pow2(m - t), Pow2(t), s);
  }

  /** Without truncation nothing is lost. */
  lemma LosslessAtZero(d: nat, m: nat, uniform: bool)
    requires d < Pow2(m)
    ensures Magnitude(Quantise(d, m, 0, uniform), m, 0, uniform) == d
  {
    assert Pow2(0) == 1;
    if m > 0 {
      if uniform {
        UniformLossless(d, m);
        assert d * Pow2(0) == d;
      } else {
        DivUnique(d, 1, d);
      }
    }
  }

  lemma UniformLossless(d: nat, m: nat)
    requires d < Pow2(m)
    ensures Rounded(d, Pow2(m + 1), Pow2(m)) == d
    ensures Neumann(d, 2 * Pow2(m)) == d
  {
    assert Pow2(m + 1) == 2 * Pow2(m);
    var top := Pow2(m);
    hide *;
    MulSub(d, 2 * top, 1);
    RoundedExact(d, d, top, top, d);
    NeumannSmall(d, 2 * top);
  }
}
