// Integer arithmetic behind the shifts and rounded divisions of the codec.
module Arith {

  /** 2^n, the C++ expression `1 << n`. */
  function Pow2(n: nat): (r: nat)
    ensures r >= 1
  {
    if n == 0 then 1 else 2 * Pow2(n - 1)
  }

  function Max(a: int, b: int): int {
    if a < b then b else a
  }

  function Min(a: int, b: int): int {
    if a < b then a else b
  }

  function Mul(a: nat, b: nat): nat {
    MulMonotone(0, a, b);
    a * b
  }

  function Clamp(v: int, lo: int, hi: int): int {
    Min(Max(v, lo), hi)
  }

  function Abs(v: int): nat {
    if v < 0 then -v else v
  }

  function CeilDiv(a: nat, b: nat): nat
    requires b > 0
  {
    (a + b - 1) / b
  }

  /** Number of binary digits of v. */
  function BitLength(v: nat): nat {
    if v == 0 then 0 else 1 + BitLength(v / 2)
  }

  lemma {:induction false} Pow2Add(a: nat, b: nat)
    ensures Pow2(a + b) == Pow2(a) * Pow2(b)
  {
    if a > 0 {
      Pow2Add(a - 1, b);
      calc {
        Pow2(a + b);
        2 * Pow2(a - 1 + b);
        2 * (Pow2(a - 1) * Pow2(b));
        (2 * Pow2(a - 1)) * Pow2(b);
      }
    }
  }

  lemma SmallPowers()
    ensures Pow2(0) == 1 && Pow2(1) == 2 && Pow2(2) == 4 && Pow2(4) == 16
  {
    assert Pow2(2) == 2 * Pow2(1);
    assert Pow2(4) == 2 * (2 * Pow2(2));
  }

  /** Powers of two that bound machine words. */
  lemma WordPowers()
    ensures Pow2(8) == 0x100 && Pow2(16) == 0x1_0000 && Pow2(32) == 0x1_0000_0000
  {
    hide Pow2;
    SmallPowers();
    Pow2Add(4, 4);
    Pow2Add(8, 8);
    Pow2Add(16, 16);
  }

  lemma DoubleWordPowers()
    ensures Pow2(40) == 0x100_0000_0000 && Pow2(62) == 0x4000_0000_0000_0000 && Pow2(64) == 0x1_0000_0000_0000_0000
  {
    hide Pow2;
    SmallPowers();
    WordPowers();
    Pow2Add(32, 8);
    Pow2Add(32, 32);
    Pow2Add(62, 2);
  }

  lemma {:induction false} Pow2Monotone(a: nat, b: nat)
    requires a <= b
    ensures Pow2(a) <= Pow2(b)
    decreases b
  {
    if a < b {
      Pow2Monotone(a, b - 1);
    }
  }

  lemma {:induction false} Pow2Strict(a: nat, b: nat)
    requires a < b
    ensures 2 * Pow2(a) <= Pow2(b)
  {
    Pow2Monotone(a, b - 1);
  }

  lemma MulMonotone(a: int, b: int, c: int)
    requires a <= b && 0 <= c
    ensures a * c <= b * c
  {
    assert (b - a) * c >= 0;
  }

  lemma MulCommute(a: int, b: int)
    ensures a * b == b * a
  {
  }

  lemma MulAssoc(a: int, b: int, c: int)
    ensures (a * b) * c == a * (b * c)
  {
  }

  lemma Distribute(a: int, b: int, c: int)
    ensures (a + b) * c == a * c + b * c && c * (a + b) == c * a + c * b
  {
  }

  lemma OneTimes(x: nat)
    ensures Mul(1, x) == x
  {
  }

  lemma MulZero(c: nat, f: nat)
    requires c == 0
    ensures Mul(c, f) == 0
  {
  }

  lemma MulNone(d: nat)
    ensures Mul(d, 0) == 0
  {
  }

  lemma MulOneMore(n: nat, k: nat)
    requires n > 0
    ensures Mul(n, k) == k + Mul(n - 1, k)
  {
    assert n * k == (n - 1) * k + k;
  }

  lemma CeilDivOne(n: nat)
    ensures CeilDiv(n, 1) == n
  {
  }

  lemma MulSwap(a: int, b: int, c: int)
    ensures a * (b * c) == b * (a * c)
  {
  }

  lemma AbsBound(k: int, z: int, e: int)
    requires k > 0 && -(k * e) <= k * z <= k * e
    ensures -e <= z <= e
  {
    assert (z - e) * k == k * z - k * e;
    assert (-e - z) * k == -(k * e) - k * z;
    if z > e {
      MulMonotone(1, z - e, k);
    } else if z < -e {
      MulMonotone(1, -e - z, k);
    }
  }

  lemma MulSub(k: int, a: int, b: int)
    ensures k * (a - b) == k * a - k * b
  {
  }

  lemma MulAdd(k: int, a: int, b: int)
    ensures k * (a + b) == k * a + k * b
  {
  }

  /** q is a / b exactly when q*b is the last multiple of b not above a. */
  lemma DivUnique(a: int, b: int, q: int)
    requires b > 0
    requires q * b <= a < q * b + b
    ensures a / b == q
  {
    var k := a / b;
    var r := a % b;
    assert a == b * k + r;
    assert (k + 1) * b == k * b + b;
    assert (q + 1) * b == q * b + b;
    if k < q {
      MulMonotone(k + 1, q, b);
    } else if q < k {
      MulMonotone(q + 1, k, b);
    }
  }

  /** v >> n on non-negative values. */
  function Shr(v: nat, n: nat): nat {
    DivNonNegative(v, Pow2(n));
    v / Pow2(n)
  }

  lemma DivNonNegative(a: int, b: int)
    requires a >= 0 && b > 0
    ensures a / b >= 0
  {
    DivBounds(a, b);
    if a / b < 0 {
      MulMonotone(a / b, -1, b);
    }
  }

  lemma DivMod(x: int, b: int)
    requires b > 0
    ensures x == b * (x / b) + x % b && 0 <= x % b < b
  {
  }

  lemma DivSmaller(x: int, b: int)
    requires b >= 2 && x > 0
    ensures 0 <= x / b < x
  {
    DivNonNegative(x, b);
    DivBounds(x, b);
    MulMonotone(2, b, x / b);
  }

  lemma DivBounds(a: int, b: int)
    requires b > 0
    ensures (a / b) * b <= a < (a / b) * b + b
  {
    assert a == b * (a / b) + a % b;
  }

  lemma DivDiv(a: nat, b: nat, c: nat)
    requires b > 0 && c > 0
    ensures b * c > 0 && (a / b) / c == a / (b * c)
  {
    var q := (a / b) / c;
    DivBounds(a / b, c);
    DivBounds(a, b);
    assert b * c > 0;
    MulMonotone(q * c, a / b, b);
    MulMonotone(a / b + 1, q * c + c, b);
    assert (q * c) * b == q * (b * c);
    assert (q * c + c) * b == q * (b * c) + b * c;
    assert (a / b + 1) * b == (a / b) * b + b;
    DivUnique(a, b * c, q);
  }

  lemma ShrNext(v: nat, n: nat)
    ensures Shr(v, n) / 2 == Shr(v, n + 1)
  {
    DivDiv(v, Pow2(n), 2);
    assert Pow2(n) * 2 == Pow2(n + 1);
  }

  /** Adding whole multiples of the divisor moves the quotient by as many. */
  lemma DivShift(a: int, k: int, b: int)
    requires b > 0
    ensures (k * b + a) / b == k + a / b
  {
    DivBounds(a, b);
    assert (k + a / b) * b == k * b + (a / b) * b;
    DivUnique(k * b + a, b, k + a / b);
  }

  /** Rounding up is the least multiple not below: the one fact about CeilDiv everything else needs. */
  lemma CeilDivLeast(a: nat, b: nat, q: int)
    requires b > 0
    ensures CeilDiv(a, b) <= q <==> a <= q * b
  {
    var c := CeilDiv(a, b);
    DivBounds(a + b - 1, b);
    if c <= q {
      MulMonotone(c, q, b);
    } else {
      MulMonotone(q, c - 1, b);
      assert (c - 1) * b == c * b - b;
    }
  }

  /** Iterated halving of sizes: rounding up twice is rounding up once. */
  lemma CeilDivCeilDiv(n: nat, a: nat, b: nat)
    requires a > 0 && b > 0
    ensures a * b > 0 && CeilDiv(CeilDiv(n, a), b) == CeilDiv(n, a * b)
  {
    assert a * b > 0;
    var x, y := CeilDiv(CeilDiv(n, a), b), CeilDiv(n, a * b);
    CeilDivLeast(CeilDiv(n, a), b, x);
    CeilDivLeast(n, a, x * b);
    CeilDivLeast(n, a * b, x);
    assert (x * b) * a == x * (a * b);
    CeilDivLeast(CeilDiv(n, a), b, y);
    CeilDivLeast(n, a, y * b);
    CeilDivLeast(n, a * b, y);
    assert (y * b) * a == y * (a * b);
  }

  lemma CeilDivShift(n: nat, k: nat, d: nat)
    requires d > 0
    ensures CeilDiv(k * d + n, d) == k + CeilDiv(n, d)
  {
    DivShift(n + d - 1, k, d);
    assert k * d + n + d - 1 == k * d + (n + d - 1);
  }

  lemma CeilDivMonotone(a: nat, b: nat, d: nat)
    requires a <= b && d > 0
    ensures CeilDiv(a, d) <= CeilDiv(b, d)
  {
    CeilDivLeast(b, d, CeilDiv(b, d));
    CeilDivLeast(a, d, CeilDiv(b, d));
  }

  /** BitLength(v) is the least m with v < 2^m. */
  lemma {:induction false} BitLengthLeast(v: nat, m: nat)
    ensures BitLength(v) <= m <==> v < Pow2(m)
  {
    if v > 0 && m > 0 {
      BitLengthLeast(v / 2, m - 1);
    }
  }
}
