// The two integer square roots of the sample scaling stage (Annex G).
module SquareRoot {
  import opened Wrappers
  import opened Arith

  /** r = floor(sqrt(n)). */
  predicate IsRoot(n: int, r: nat) {
    r * r <= n < (r + 1) * (r + 1)
  }

  lemma RootUnique(n: int, r: nat, s: nat)
    requires IsRoot(n, r) && IsRoot(n, s)
    ensures r == s
  {
    if r < s {
      SquareMonotone(r + 1, s);
    } else if s < r {
      SquareMonotone(s + 1, r);
    }
  }

  lemma SquareMonotone(a: nat, b: nat)
    requires a <= b
    ensures a * a <= b * b
  {
    MulMonotone(a, b, a);
    MulMonotone(a, b, b);
  }

  lemma SquareBound(n: int, r: nat, k: nat)
    requires IsRoot(n, r)
    ensures n < k * k ==> r < k
    ensures n >= k * k ==> r >= k
  {
    if r >= k {
      SquareMonotone(k, r);
    } else {
      SquareMonotone(r + 1, k);
    }
  }

  /** The root by linear search: the definition both loops are measured against. */
  function RootFrom(n: nat, r: nat): (s: nat)
    requires r * r <= n
    ensures IsRoot(n, s)
    decreases n - r * r
  {
    if n < (r + 1) * (r + 1) then r else RootFrom(n, r + 1)
  }

  function Root(n: nat): (s: nat)
    ensures IsRoot(n, s)
  {
    RootFrom(n, 0)
  }

  lemma RootIs(n: nat, r: nat)
    requires IsRoot(n, r)
    ensures Root(n) == r
  {
    RootUnique(n, r, Root(n));
  }

  // ---- digit by digit --------------------------------------------------------------------------------

  /**
   * State before the digit 2^j is decided: q is the root so far, a multiple of 2^(j+1); x what is left of n;
   * root and bit carry q * 2^(j+1) and 4^j.
   */
  ghost predicate DigitState(n: nat, x: int, root: int, bit: int, q: nat, p: nat) {
    && p >= 1 && bit == p * p
    && x == n - q * q && root == 2 * (q * p)
    && x >= 0 && n < (q + 2 * p) * (q + 2 * p)
  }

  lemma DigitTaken(n: nat, x: int, root: int, q: nat, p: nat)
    requires x == n - q * q && root == 2 * (q * p) && n < (q + 2 * p) * (q + 2 * p)
    ensures x - (root + p * p) == n - (q + p) * (q + p)
    ensures root / 2 + p * p == (q + p) * p
    ensures (q + p + p) == q + 2 * p
  {
    Expand(q, p);
    Distribute(q, p, p);
  }

  lemma Expand(q: int, p: int)
    ensures (q + p) * (q + p) == q * q + 2 * (q * p) + p * p
  {
    Distribute(q, p, q + p);
    Distribute(q, p, q);
    Distribute(q, p, p);
    MulCommute(q, p);
  }

  /** Moving on to the digit half as large. */
  lemma NextDigit(n: nat, x: int, root: int, q: nat, p: nat)
    requires p >= 2 && p % 2 == 0 && x == n - q * q >= 0 && root == q * p && n < (q + p) * (q + p)
    ensures (p * p) / 4 == (p / 2) * (p / 2)
    ensures DigitState(n, x, root, (p * p) / 4, q, p / 2)
  {
    var h := p / 2;
    assert p == 2 * h;
    Quadruple(h);
    Doubled(q, h);
  }

  lemma Quadruple(h: int)
    ensures (2 * h) * (2 * h) == 4 * (h * h)
  {
  }

  lemma Doubled(q: int, h: int)
    ensures q * (2 * h) == 2 * (q * h)
  {
  }

  /** bit is 4^j, or zero after the last digit. */
  ghost predicate IsBit(bit: int, j: int) {
    if j < 0 then j == -1 && bit == 0 else bit == Pow2(j) * Pow2(j)
  }

  lemma NextBit(bit: int, j: nat)
    requires IsBit(bit, j)
    ensures IsBit(bit / 4, j - 1)
  {
    HalfPower(j);
  }

  /** The digits found so far, before digit j; all of them when j = -1. */
  ghost predicate Digits(n: nat, x: int, root: int, bit: int, q: nat, j: int) {
    && IsBit(bit, j)
    && if j < 0 then root == q && IsRoot(n, q) else DigitState(n, x, root, bit, q, Pow2(j))
  }

  lemma DigitDone(n: nat, x: int, root: int, bit: int, q: nat, j: nat, x': int, root': int, q': nat)
    requires Digits(n, x, root, bit, q, j)
    requires if x >= root + bit then x' == x - (root + bit) && root' == root / 2 + bit && q' == q + Pow2(j)
             else x' == x && root' == root / 2 && q' == q
    ensures Digits(n, x', root', bit / 4, q', j - 1)
  {
    var p := Pow2(j);
    hide Pow2;
    DigitTaken(n, x, root, q, p);
    Expand(q, p);
    NextBit(bit, j);
    HalfPower(j);
    if j > 0 {
      NextDigit(n, x', root', q', p);
    } else {
      Expand(q', 1);
    }
  }

  /** The largest power of four not above n, or zero. */
  method FirstBit(n: nat) returns (bit: int, ghost j: int)
    requires n < Pow2(64)
    ensures -1 <= j <= 31 && Digits(n, n, 0, bit, 0, j)
  {
    hide Pow2;
    BitPowers();
    bit, j := 0x4000_0000_0000_0000, 31;
    DoubleWordPowers();
    while bit > n
      invariant -1 <= j <= 31 && IsBit(bit, j)
      invariant if j < 0 then n == 0 else n < 4 * bit
      decreases j
    {
      NextBit(bit, j);
      HalfPower(j);
      bit := bit / 4;
      j := j - 1;
    }
    if j >= 0 {
      Quadruple(Pow2(j));
    }
  }

  /** floor(sqrt(n)), one binary digit per step; negative arguments are refused. */
  method IntegerSqrt(n: int) returns (r: Result<nat>)
    requires n < Pow2(64)
    ensures if n < 0 then r == Err(Overflow) else r.Ok? && IsRoot(n, r.value)
  {
    hide Pow2, DigitState, IsRoot;
    if n < 0 {
      return Err(Overflow);
    }
    var x, root: int := n, 0;
    var bit, j := FirstBit(n);
    ghost var q: nat := 0;
    ghost var k := j;
    while bit != 0
      invariant -1 <= k <= 31 && Digits(n, x, root, bit, q, k)
      decreases k
    {
      ghost var before := (x, root, q);
      if x >= root + bit {
        x := x - (root + bit);
        root := root / 2 + bit;
        q := q + Pow2(k);
      } else {
        root := root / 2;
      }
      DigitDone(n, before.0, before.1, bit, before.2, k, x, root, q);
      bit := bit / 4;
      k := k - 1;
    }
    BitPositive(bit, k);
    return Ok(root);
  }

  lemma BitPositive(bit: int, j: int)
    requires IsBit(bit, j)
    ensures bit == 0 <==> j == -1
  {
    if j >= 0 {
      MulMonotone(1, Pow2(j), Pow2(j));
    }
  }

  lemma BitPowers()
    ensures Pow2(62) == Pow2(31) * Pow2(31) && Pow2(64) == 4 * Pow2(62)
  {
    Pow2Add(31, 31);
    assert Pow2(64) == 2 * (2 * Pow2(62));
  }

  lemma HalfPower(j: nat)
    ensures j == 0 ==> Pow2(j) == 1 && (Pow2(j) * Pow2(j)) / 4 == 0
    ensures j > 0 ==> Pow2(j) % 2 == 0 && Pow2(j) >= 2 && Pow2(j) / 2 == Pow2(j - 1)
    ensures j > 0 ==> (Pow2(j) * Pow2(j)) / 4 == Pow2(j - 1) * Pow2(j - 1)
  {
    if j > 0 {
      Quadruple(Pow2(j - 1));
    }
  }

  // ---- bit serial ------------------------------------------------------------------------------------

  /**
   * floor(sqrt(v * 2^bw)) for v < 2^bw, by the standard's bit-serial loop: after k steps rho is twice the
   * root of v * 4^k / 2^bw.
   */
  method BitSerialRoot(v0: nat, bw: nat) returns (root: nat)
    requires v0 < Pow2(bw)
    ensures IsRoot(v0 * Pow2(bw), root)
  {
    var v, rho: int := v0, 0;
    ghost var r: nat, s: nat := 0, 1;
    ghost var unit: nat := Pow2(bw);
    assert 0 * 0 == 0 && v0 * 1 == v0 && 1 * unit == unit;
    hide Pow2;
    for sigma := 0 to bw
      invariant s >= 1 && s == Pow2(sigma) && rho == 2 * r
      invariant SerialState(v0, unit, s, r, v)
    {
      rho := rho * 2;
      v := v * 4;
      SerialStep(v0, unit, s, r, v / 4);
      if v / Pow2(bw) > rho {
        v := v - (rho + 1) * Pow2(bw);
        rho := rho + 2;
        r := 2 * r + 1;
      } else {
        r := 2 * r;
      }
      s := 2 * s;
      DoublePower(sigma);
    }
    SerialDone(v0, unit, r, v);
    root := rho / 2;
  }

  lemma DoublePower(k: nat)
    ensures Pow2(k + 1) == 2 * Pow2(k)
  {
  }

  /** v = v0 * s^2 - r^2 * unit, below (2r + 1) * unit. */
  ghost predicate SerialState(v0: nat, unit: nat, s: nat, r: nat, v: int) {
    v == v0 * (s * s) - (r * r) * unit && 0 <= v < (2 * r + 1) * unit
  }

  lemma SerialStep(v0: nat, unit: nat, s: nat, r: nat, v: int)
    requires unit >= 1 && SerialState(v0, unit, s, r, v)
    ensures if (4 * v) / unit > 4 * r then SerialState(v0, unit, 2 * s, 2 * r + 1, 4 * v - (4 * r + 1) * unit)
            else SerialState(v0, unit, 2 * s, 2 * r, 4 * v)
  {
    Quadruple(s);
    Quadruple(r);
    Odd(r);
    Scale4(v0, s * s);
    Scale4(unit, r * r);
    MulCommute(unit, r * r);
    MulCommute(unit, 4 * (r * r));
    DivBounds(4 * v, unit);
    var d := (4 * v) / unit;
    if d > 4 * r {
      MulMonotone(4 * r + 1, d, unit);
      Regroup(r * r, r, unit);
      Top(r, unit);
    } else {
      MulMonotone(d + 1, 4 * r + 1, unit);
      Distribute(d, 1, unit);
    }
  }

  lemma Odd(r: int)
    ensures (2 * r + 1) * (2 * r + 1) == 4 * (r * r) + (4 * r + 1)
  {
    Quadruple(r);
    Distribute(2 * r, 1, 2 * r + 1);
    Distribute(2 * r, 1, 2 * r);
  }

  lemma Scale4(a: int, b: int)
    ensures a * (4 * b) == 4 * (a * b)
  {
  }

  lemma Regroup(a: int, r: int, u: int)
    ensures (4 * a + (4 * r + 1)) * u == (4 * a) * u + (4 * r + 1) * u
  {
    Distribute(4 * a, 4 * r + 1, u);
  }

  lemma Top(r: int, u: int)
    ensures 4 * ((2 * r + 1) * u) == (4 * r + 1) * u + (2 * (2 * r + 1) + 1) * u
  {
    Distribute(4 * r + 1, 2 * (2 * r + 1) + 1, u);
    Scale4(u, 2 * r + 1);
    MulCommute(u, 2 * r + 1);
    MulCommute(u, 4 * (2 * r + 1));
  }

  lemma SerialDone(v0: nat, unit: nat, r: nat, v: int)
    requires unit >= 1 && SerialState(v0, unit, unit, r, v)
    ensures IsRoot(v0 * unit, r)
  {
    MulAssoc(v0, unit, unit);
    Distribute(v0 * unit, -(r * r), unit);
    var d := v0 * unit - r * r;
    Distribute(v0 * unit, -(r * r), unit);
    assert d * unit == v;
    if d < 0 {
      MulMonotone(d, -1, unit);
    }
    if d >= 2 * r + 1 {
      MulMonotone(2 * r + 1, d, unit);
    }
    Expand(r, 1);
  }

}
