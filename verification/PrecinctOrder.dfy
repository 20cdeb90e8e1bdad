// Where precincts lie: row by row in the picture, and side by side without gaps in every band.
module PrecinctOrder {
  import opened Arith
  import opened HeaderTypes
  import opened Geometry
  import opened GeometryTiling

  /** The first precinct is at the origin of every band. */
  lemma FirstPlace(h: Headers, b: nat)
    requires Supported(h) && b < NumBands(h)
    ensures 0 < NumPrecincts(h) && PosX(h, 0, b, 0) == 0 && PosY(h, 0, b, LineStart(h, b)) == 0
  {
    hide Supported, NumBands, Span, LineStart, FirstWidth;
    GridFacts(h);
    MulMonotone(1, Npx(h), Npy(h));
    RowInGrid(h, 0);
    AtOrigin(Row(h, 0), Column(h, 0), Npx(h));
    MulZero(Column(h, 0), FirstWidth(h, 0, b));
    MulZero(Row(h, 0), Span(h, b));
  }

  lemma AtOrigin(r: nat, c: nat, n: nat)
    requires n >= 1 && 0 == r * n + c
    ensures r == 0 && c == 0
  {
    MulMonotone(0, r, n);
    if r >= 1 {
      MulMonotone(1, r, n);
    }
  }

  /** Samples of a line stand side by side, lines one below the other. */
  lemma NextSample(h: Headers, p: nat, b: nat, line: nat, xi: nat)
    requires Supported(h) && p < NumPrecincts(h) && b < NumBands(h) && line >= LineStart(h, b)
    ensures PosX(h, p, b, xi + 1) == PosX(h, p, b, xi) + 1
    ensures PosY(h, p, b, line + 1) == PosY(h, p, b, line) + 1
  {
    hide Supported, NumBands, Span, LineStart, FirstWidth, Row, Column;
  }

  /** The next precinct of a row starts, in every band, where this one ends. */
  lemma NextColumn(h: Headers, p: nat, b: nat)
    requires Supported(h) && p < NumPrecincts(h) && b < NumBands(h) && Column(h, p) + 1 < Npx(h)
    ensures p + 1 < NumPrecincts(h) && Row(h, p + 1) == Row(h, p) && Column(h, p + 1) == Column(h, p) + 1
    ensures PosX(h, p + 1, b, 0) == PosX(h, p, b, 0) + BandPrecinctWidth(h, p, b)
    ensures PosY(h, p + 1, b, LineStart(h, b)) == PosY(h, p, b, LineStart(h, b))
  {
    hide Supported, NumBands, Span, LineStart, FirstWidth, Stride, Npx, Npy, BandPrecinctWidth, BandOf, Mul;
    GridFacts(h);
    RowInGrid(h, p);
    Along(p, Row(h, p), Column(h, p), Npx(h), Npy(h));
    StrideWidths(h, p, b);
    FirstWidthIsStride(h, p, b);
    FirstWidthIsStride(h, p + 1, b);
    MulOneMore(Column(h, p) + 1, Stride(h, b));
  }

  lemma Along(p: nat, r: nat, c: nat, n: nat, m: nat)
    requires n >= 1 && p == r * n + c && c + 1 < n && r < m
    ensures p + 1 < Mul(n, m) && (p + 1) / n == r && (p + 1) % n == c + 1
  {
    GridPlace(r, c + 1, n, m);
  }

  lemma GridPlace(r: nat, c: nat, n: nat, m: nat)
    requires c < n && r < m
    ensures 0 <= r * n + c < Mul(n, m) && (r * n + c) / n == r && (r * n + c) % n == c
  {
    MulMonotone(0, r, n);
    DivUnique(r * n + c, n, r);
    DivMod(r * n + c, n);
    MulCommute(n, r);
    MulCommute(n, m);
    MulMonotone(r + 1, m, n);
    MulAdd(n, r, 1);
    MulCommute(n, r + 1);
  }

  /** All rows of precincts but the last are full in every band. */
  lemma FullRow(h: Headers, p: nat, b: nat)
    requires Supported(h) && p < NumPrecincts(h) && b < NumBands(h) && Row(h, p) + 1 < Npy(h)
    ensures LineCount(h, p, b) == Span(h, b)
  {
    hide Supported, BandOf, Pow2, CeilDiv, NumBands, Sx, LowPassSize, HighPassSize, NumPrecincts, Row;
    BandFacts(h, b);
    BandSize(h, b);
    RowsFull(h.pih.hf, h.pih.nly, BandOf(h, b).dy, BandOf(h, b).highY, Row(h, p));
  }

  lemma RowsFull(hf: nat, nly: nat, dy: nat, highY: bool, r: nat)
    requires dy <= nly && (highY ==> dy >= 1) && r + 1 < CeilDiv(hf, Pow2(nly))
    ensures (if highY then HighPassSize(hf, dy) else LowPassSize(hf, dy)) >= r * Pow2(nly - dy) + Pow2(nly - dy)
  {
    Pow2Add(nly - dy, dy);
    assert highY ==> Pow2(dy) == 2 * Pow2(dy - 1);
    hide Pow2, CeilDiv;
    CeilDivLeast(hf, Pow2(nly), r + 1);
    var span := Pow2(nly - dy);
    var k := (r + 1) * span;
    assert k == r * span + span;
    MulAssoc(r + 1, span, Pow2(dy));
    assert hf > k * Pow2(dy);
    if highY {
      TwiceBelow(hf, k, Pow2(dy - 1));
    } else {
      JustAbove(hf, k, Pow2(dy));
    }
  }

  lemma JustAbove(n: nat, k: nat, u: nat)
    requires u >= 1 && n > k * u
    ensures CeilDiv(n, u) >= k
  {
    CeilDivLeast(n, u, k);
  }

  lemma TwiceBelow(n: nat, k: nat, u: nat)
    requires u >= 1 && n > k * (2 * u)
    ensures CeilDiv(n, u) / 2 >= k
  {
    hide CeilDiv;
    assert (2 * k) * u == k * (2 * u);
    JustAbove(n, 2 * k, u);
  }

  /** The precinct below starts, in every band, on the line behind the last one of this. */
  lemma NextRow(h: Headers, p: nat, b: nat)
    requires Supported(h) && p < NumPrecincts(h) && b < NumBands(h) && Row(h, p) + 1 < Npy(h)
    ensures p + Npx(h) < NumPrecincts(h) && Row(h, p + Npx(h)) == Row(h, p) + 1 && Column(h, p + Npx(h)) == Column(h, p)
    ensures PosX(h, p + Npx(h), b, 0) == PosX(h, p, b, 0)
    ensures PosY(h, p + Npx(h), b, LineStart(h, b)) == PosY(h, p, b, LineStart(h, b)) + LineCount(h, p, b)
  {
    hide Supported, NumBands, Span, LineStart, LineCount, FirstWidth, Stride, Npx, Npy, BandPrecinctWidth, BandOf, Mul;
    GridFacts(h);
    RowInGrid(h, p);
    Down(p, Row(h, p), Column(h, p), Npx(h), Npy(h));
    FullRow(h, p, b);
    FirstWidthIsStride(h, p, b);
    FirstWidthIsStride(h, p + Npx(h), b);
    MulOneMore(Row(h, p) + 1, Span(h, b));
  }

  lemma Down(p: nat, r: nat, c: nat, n: nat, m: nat)
    requires n >= 1 && p == r * n + c && c < n && r + 1 < m
    ensures p + n < Mul(n, m) && (p + n) / n == r + 1 && (p + n) % n == c
  {
    MulAdd(n, r, 1);
    MulCommute(n, r);
    MulCommute(n, r + 1);
    assert p + n == (r + 1) * n + c;
    GridPlace(r + 1, c, n, m);
  }

  /** In the lowest band a full column of precincts holds 8 Cw samples of the most subsampled components, 16 Cw of others. */
  lemma LowestColumn(h: Headers, p: nat, b: nat)
    requires Supported(h) && p < NumPrecincts(h) && b < Decomposed(h) && b < NumBands(h) && Column(h, p) + 1 < Npx(h)
    ensures BandPrecinctWidth(h, p, b) == if Sx(h, b) == MaxSx(h.components) then 8 * h.pih.cw else 16 * h.pih.cw
  {
    hide Valid, NumPrecincts, Npx, BandPrecinctWidth, Column, LowPassSize, HighPassSize, ComponentWidth, ComponentHeight,
         MaxSx;
    HeaderFacts(h);
    LowestBand(h, b);
    ColumnWidths(h, p, b);
    assert Pow2(0) == 1;
  }

  lemma LowestBand(h: Headers, b: nat)
    requires Supported(h) && b < Decomposed(h) && b < NumBands(h)
    ensures BandOf(h, b).dx == h.pih.nlx
  {
    hide Supported, LowPassSize, HighPassSize, ComponentWidth, ComponentHeight, VerticalType;
    HeaderFacts(h);
    DivMod(b, Decomposed(h));
    DivUnique(b, Decomposed(h), 0);
    MulMonotone(1, NBeta(h), Decomposed(h));
    MulCommute(NBeta(h), Decomposed(h));
  }
}
