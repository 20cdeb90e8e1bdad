// Precincts tile every band: line and index ranges of all precincts cover each band sample once.
module GeometryTiling {
  import opened Arith
  import opened HeaderTypes
  import opened Geometry

  function NumPrecincts(h: Headers): nat
    requires Supported(h)
  {
    Mul(Npx(h), Npy(h))
  }

  function Npx(h: Headers): nat
    requires Supported(h)
  {
    ColumnPositive(h);
    CeilDiv(h.pih.wf, ColumnWidth(h))
  }

  function Npy(h: Headers): nat {
    CeilDiv(h.pih.hf, Pow2(h.pih.nly))
  }

  function Row(h: Headers, p: nat): nat
    requires Supported(h) && p < NumPrecincts(h)
  {
    GridFacts(h);
    DivNonNegative(p, Npx(h));
    p / Npx(h)
  }

  function Column(h: Headers, p: nat): (c: nat)
    requires Supported(h) && p < NumPrecincts(h)
    ensures c < Npx(h)
  {
    GridFacts(h);
    DivMod(p, Npx(h));
    p % Npx(h)
  }

  lemma GridFacts(h: Headers)
    requires Supported(h)
    ensures Npx(h) >= 1 && Npy(h) >= 1 && ColumnWidth(h) >= 1
    ensures Mul(Npx(h) - 1, ColumnWidth(h)) < h.pih.wf <= Mul(Npx(h), ColumnWidth(h))
  {
    hide Supported, ColumnWidth, Pow2, CeilDiv, MaxSx;
    HeaderFacts(h);
    ColumnPositive(h);
    CeilDivLeast(h.pih.wf, ColumnWidth(h), CeilDiv(h.pih.wf, ColumnWidth(h)));
    CeilDivLeast(h.pih.wf, ColumnWidth(h), CeilDiv(h.pih.wf, ColumnWidth(h)) - 1);
    CeilDivLeast(h.pih.wf, ColumnWidth(h), 0);
    CeilDivLeast(h.pih.hf, Pow2(h.pih.nly), 0);
  }

  lemma GridIndex(p: nat, n: nat, m: nat)
    requires n >= 1 && p < Mul(n, m)
    ensures p / n < m && p == (p / n) * n + p % n
  {
    DivMod(p, n);
    MulCommute(n, p / n);
    DivLessMul(p, n, m);
  }

  lemma RowInGrid(h: Headers, p: nat)
    requires Supported(h) && p < NumPrecincts(h)
    ensures Row(h, p) < Npy(h) && p == Row(h, p) * Npx(h) + Column(h, p)
  {
    GridFacts(h);
    hide Supported, Npx, Npy, ColumnWidth, Mul;
    GridIndex(p, Npx(h), Npy(h));
  }

  /** Sampling-grid width of a precinct: the last column is what remains. */
  function PrecinctWidth(h: Headers, p: nat): nat
    requires Supported(h) && p < NumPrecincts(h)
  {
    GridFacts(h);
    HeaderFacts(h);
    DivMod(h.pih.wf - 1, ColumnWidth(h));
    if Column(h, p) < Npx(h) - 1 then ColumnWidth(h) else (h.pih.wf - 1) % ColumnWidth(h) + 1
  }

  /** Sampling-grid columns per sample at depth d of a component with sampling factor s. */
  function Unit(s: nat, d: nat): (u: nat)
    requires s >= 1
    ensures u >= 1
  {
    MulMonotone(1, s, Pow2(d));
    Mul(s, Pow2(d))
  }

  function Sx(h: Headers, b: nat): (s: nat)
    requires Supported(h) && b < NumBands(h)
    ensures 1 <= s <= 2 && s <= MaxSx(h.components)
  {
    BandFacts(h, b);
    h.components[BandOf(h, b).component].sx
  }

  /** Samples of a band of horizontal depth dx on a stretch of w sampling-grid columns. */
  function Extent(highX: bool, s: nat, dx: nat, w: nat): nat
    requires s >= 1 && (highX ==> dx >= 1)
  {
    if highX then CeilDiv(w, Unit(s, dx - 1)) / 2 else CeilDiv(w, Unit(s, dx))
  }

  function BandExtent(h: Headers, b: nat, w: nat): nat
    requires Supported(h) && b < NumBands(h)
  {
    BandFacts(h, b);
    Extent(BandOf(h, b).highX, Sx(h, b), BandOf(h, b).dx, w)
  }

  lemma BandFacts(h: Headers, b: nat)
    requires Supported(h) && b < NumBands(h)
    ensures var band := BandOf(h, b);
            && band.component < |h.components| && 1 <= h.components[band.component].sx <= 2
            && h.components[band.component].sx <= MaxSx(h.components)
            && band.dx <= h.pih.nlx && band.dy <= h.pih.nly
            && (band.highX ==> band.dx >= 1) && (band.highY ==> band.dy >= 1)
  {
    HeaderFacts(h);
    hide Valid, NumBands, LowPassSize, HighPassSize, CeilDiv, ComponentWidth, ComponentHeight, Mul;
    var d := Decomposed(h);
    DivMod(b, d);
    if b < Mul(d, NBeta(h)) {
      DivLessMul(b, d, NBeta(h));
      DivNonNegative(b, d);
      TypeBounds(h.pih.nlx, h.pih.nly, b / d);
    }
  }

  /** Wpb[p,b]. */
  function BandPrecinctWidth(h: Headers, p: nat, b: nat): nat
    requires Supported(h) && p < NumPrecincts(h) && b < NumBands(h)
  {
    BandExtent(h, b, PrecinctWidth(h, p))
  }

  /** Lines of band b per precinct row. */
  function Span(h: Headers, b: nat): nat
    requires Supported(h) && b < NumBands(h)
  {
    Pow2(Max(h.pih.nly - BandOf(h, b).dy, 0))
  }

  function LineStart(h: Headers, b: nat): nat
    requires Supported(h) && b < NumBands(h)
  {
    if BandOf(h, b).highY then Span(h, b) else 0
  }

  /** Number of lines of band b in precinct p. */
  function LineCount(h: Headers, p: nat, b: nat): nat
    requires Supported(h) && p < NumPrecincts(h) && b < NumBands(h)
  {
    var remaining := BandOf(h, b).height as int - Row(h, p) * Span(h, b);
    Max(0, Min(remaining, Span(h, b)))
  }

  function LineEnd(h: Headers, p: nat, b: nat): nat
    requires Supported(h) && p < NumPrecincts(h) && b < NumBands(h)
  {
    LineStart(h, b) + LineCount(h, p, b)
  }

  // ---- horizontal tiling -------------------------------------------------------------------------

  /** The whole picture has the band's width. */
  lemma WholeExtent(h: Headers, b: nat)
    requires Supported(h) && b < NumBands(h)
    ensures BandExtent(h, b, h.pih.wf) == BandOf(h, b).width
  {
    hide Supported, CeilDiv, BandOf, Sx, NumBands, Extent, LowPassSize, HighPassSize;
    BandFacts(h, b);
    BandSize(h, b);
    WholeWidth(BandOf(h, b).highX, Sx(h, b), BandOf(h, b).dx, h.pih.wf);
  }

  lemma WholeWidth(highX: bool, s: nat, dx: nat, n: nat)
    requires s >= 1 && (highX ==> dx >= 1)
    ensures Extent(highX, s, dx, n) == var w := CeilDiv(n, s); if highX then HighPassSize(w, dx) else LowPassSize(w, dx)
  {
    hide CeilDiv, Unit, Pow2;
    if highX {
      SizeSplit(n, s, dx - 1);
    } else {
      SizeSplit(n, s, dx);
    }
  }

  lemma SizeSplit(n: nat, s: nat, d: nat)
    requires s >= 1
    ensures CeilDiv(CeilDiv(n, s), Pow2(d)) == CeilDiv(n, Unit(s, d))
  {
    hide CeilDiv, Pow2;
    CeilDivCeilDiv(n, s, Pow2(d));
  }

  lemma BandSize(h: Headers, b: nat)
    requires Supported(h) && b < NumBands(h)
    ensures var band := BandOf(h, b);
            && (band.highX ==> band.dx >= 1) && (band.highY ==> band.dy >= 1)
            && band.width == (var w := CeilDiv(h.pih.wf, Sx(h, b));
                              if band.highX then HighPassSize(w, band.dx) else LowPassSize(w, band.dx))
            && band.height == (if band.highY then HighPassSize(h.pih.hf, band.dy) else LowPassSize(h.pih.hf, band.dy))
  {
    HeaderFacts(h);
    BandFacts(h, b);
    assert Pow2(0) == 1;
    hide Valid, NumBands, Mul, HorizontalType, VerticalType;
    CeilDivOne(h.pih.hf);
    CeilDivOne(CeilDiv(h.pih.wf, Sx(h, b)));
  }

  /** Samples of band b in a full precinct column. */
  function FullColumn(h: Headers, b: nat): nat
    requires Supported(h) && b < NumBands(h)
  {
    BandFacts(h, b);
    Mul(if Sx(h, b) == MaxSx(h.components) then 8 * h.pih.cw else 16 * h.pih.cw, Pow2(h.pih.nlx - BandOf(h, b).dx))
  }

  lemma ColumnMultiple(h: Headers, b: nat)
    requires Supported(h) && b < NumBands(h) && h.pih.cw > 0
    ensures ColumnWidth(h) == Mul(FullColumn(h, b), Unit(Sx(h, b), BandOf(h, b).dx))
  {
    hide Supported, Valid, Pow2, BandOf, Sx, MaxSx, Mul, Unit, NumBands;
    var s, m, dx := Sx(h, b), MaxSx(h.components), BandOf(h, b).dx;
    assert 1 <= s <= m <= 2 && dx <= h.pih.nlx by {
      BandFacts(h, b);
      HeaderFacts(h);
    }
    Multiples(h.pih.cw, s, m, h.pih.nlx, dx);
  }

  lemma Multiples(cw: nat, s: nat, m: nat, nlx: nat, dx: nat)
    requires 1 <= s <= m <= 2 && dx <= nlx
    ensures Mul(Mul(8 * cw, m), Pow2(nlx)) == Mul(Mul(if s == m then 8 * cw else 16 * cw, Pow2(nlx - dx)), Unit(s, dx))
  {
    hide Pow2;
    Pow2Add(nlx - dx, dx);
    Regroup(8 * cw, if s == m then 1 else 2, Pow2(nlx - dx), s, Pow2(dx));
  }

  lemma Regroup(k: nat, ratio: nat, p: nat, s: nat, q: nat)
    ensures Mul(k * ratio, p) * Mul(s, q) == Mul(k * (ratio * s), p * q)
  {
    MulAssoc(k * ratio, p, s * q);
    MulSwap(p, s, q);
    MulAssoc(k * ratio, s, p * q);
    MulAssoc(k, ratio, s);
  }

  lemma LowShift(k: nat, f: nat, u: nat, w: nat)
    requires u >= 1
    ensures k * (f * u) + w >= 0 && k * f >= 0 && CeilDiv(k * (f * u) + w, u) == k * f + CeilDiv(w, u)
  {
    MulAssoc(k, f, u);
    MulMonotone(0, k, f);
    MulMonotone(0, k * f, u);
    CeilDivShift(w, k * f, u);
  }

  lemma HighShift(k: nat, f: nat, v: nat, w: nat)
    requires v >= 1
    ensures k * (f * (2 * v)) + w >= 0 && k * f >= 0 && CeilDiv(k * (f * (2 * v)) + w, v) / 2 == k * f + CeilDiv(w, v) / 2
  {
    MulSwap(f, 2, v);
    MulSwap(k, 2, f * v);
    MulAssoc(2, k, f * v);
    MulAssoc(2 * k, f, v);
    LowShift(2 * k, f, v, w);
    assert (2 * k) * f == 2 * (k * f);
  }

  lemma UnitDoubles(s: nat, d: nat)
    requires s >= 1 && d >= 1
    ensures Unit(s, d) == 2 * Unit(s, d - 1)
  {
    MulSwap(s, 2, Pow2(d - 1));
  }

  /** k full columns hold k times the samples of one. */
  lemma ExtentShift(h: Headers, b: nat, k: nat, w: nat)
    requires Supported(h) && b < NumBands(h) && h.pih.cw > 0
    ensures BandExtent(h, b, Mul(k, ColumnWidth(h)) + w) == Mul(k, FullColumn(h, b)) + BandExtent(h, b, w)
  {
    BandFacts(h, b);
    ColumnMultiple(h, b);
    hide Valid, Supported, Pow2, BandOf, CeilDiv, FullColumn, ColumnWidth, Mul, Sx, Unit, Extent, NumBands;
    ShiftedExtent(BandOf(h, b).highX, Sx(h, b), BandOf(h, b).dx, k, FullColumn(h, b), w);
  }

  lemma ShiftedExtent(highX: bool, s: nat, dx: nat, k: nat, f: nat, w: nat)
    requires s >= 1 && (highX ==> dx >= 1)
    ensures Extent(highX, s, dx, Mul(k, Mul(f, Unit(s, dx))) + w) == Mul(k, f) + Extent(highX, s, dx, w)
  {
    hide CeilDiv, Unit;
    if highX {
      UnitDoubles(s, dx);
      HighShift(k, f, Unit(s, dx - 1), w);
    } else {
      LowShift(k, f, Unit(s, dx), w);
    }
  }

  lemma ExtentMonotone(highX: bool, s: nat, dx: nat, w: nat, w': nat)
    requires s >= 1 && (highX ==> dx >= 1) && w <= w'
    ensures Extent(highX, s, dx, w) <= Extent(highX, s, dx, w')
  {
    hide CeilDiv, Unit;
    if highX {
      CeilDivMonotone(w, w', Unit(s, dx - 1));
    } else {
      CeilDivMonotone(w, w', Unit(s, dx));
    }
  }

  lemma LastStretch(w: nat, cs: nat, n: nat)
    requires cs >= 1 && n >= 1 && Mul(n - 1, cs) < w <= Mul(n, cs)
    ensures 1 <= w - Mul(n - 1, cs) <= cs && (w - 1) % cs + 1 == w - Mul(n - 1, cs)
  {
    assert n * cs == (n - 1) * cs + cs;
    DivUnique(w - 1, cs, n - 1);
    DivMod(w - 1, cs);
    MulCommute(cs, n - 1);
  }

  lemma LastColumn(h: Headers)
    requires Supported(h)
    ensures Npx(h) >= 1
    ensures var last := h.pih.wf - Mul(Npx(h) - 1, ColumnWidth(h));
            1 <= last <= ColumnWidth(h) && (h.pih.wf - 1) % ColumnWidth(h) + 1 == last
  {
    hide Supported, Npx, ColumnWidth;
    GridFacts(h);
    LastStretch(h.pih.wf, ColumnWidth(h), Npx(h));
  }

  lemma SingleColumn(h: Headers)
    requires Supported(h) && h.pih.cw == 0
    ensures Npx(h) == 1
  {
    GridFacts(h);
    hide Supported, Valid, CeilDiv;
    assert ColumnWidth(h) == h.pih.wf;
    CeilDivLeast(h.pih.wf, h.pih.wf, 1);
  }

  lemma FullWidth(h: Headers, b: nat)
    requires Supported(h) && b < NumBands(h) && h.pih.cw > 0
    ensures BandExtent(h, b, ColumnWidth(h)) == FullColumn(h, b)
  {
    BandFacts(h, b);
    NoExtent(BandOf(h, b).highX, Sx(h, b), BandOf(h, b).dx);
    hide Supported, FullColumn, BandOf, ColumnWidth, Extent, Sx, NumBands;
    ExtentShift(h, b, 1, 0);
    OneTimes(ColumnWidth(h));
    OneTimes(FullColumn(h, b));
  }

  /** Samples of band b on the last precinct column, the last `last` sampling-grid columns. */
  lemma LastWidth(h: Headers, b: nat, n: nat, last: nat)
    requires Supported(h) && b < NumBands(h) && h.pih.cw > 0 && n >= 1
    requires h.pih.wf == Mul(n - 1, ColumnWidth(h)) + last
    ensures BandExtent(h, b, last) == BandOf(h, b).width - Mul(n - 1, FullColumn(h, b))
  {
    hide Supported, FullColumn, BandOf, ColumnWidth, BandExtent, NumBands, Mul;
    WholeExtent(h, b);
    ExtentShift(h, b, n - 1, last);
  }

  /** Widths of band b over the precinct columns: all full, the last what remains of the band. */
  lemma ColumnWidths(h: Headers, p: nat, b: nat)
    requires Supported(h) && p < NumPrecincts(h) && b < NumBands(h)
    ensures Npx(h) >= 1 && (Npx(h) > 1 ==> FullColumn(h, b) >= 1)
    ensures Column(h, p) < Npx(h) - 1 ==> BandPrecinctWidth(h, p, b) == FullColumn(h, b)
    ensures Column(h, p) == Npx(h) - 1 ==>
              BandPrecinctWidth(h, p, b) == BandOf(h, b).width - Mul(Npx(h) - 1, FullColumn(h, b))
    ensures Npx(h) > 1 ==> BandPrecinctWidth(h, p, b) <= FullColumn(h, b)
    ensures Column(h, p) < Npx(h) - 1 ==> Mul(Column(h, p) + 1, FullColumn(h, b)) <= BandOf(h, b).width
  {
    hide Supported, FullColumn, BandOf, ColumnWidth, Npx, NumPrecincts, BandExtent, NumBands, Mul, Column;
    GridFacts(h);
    LastColumn(h);
    if Npx(h) == 1 {
      SingleWidth(h, p, b);
    } else if h.pih.cw == 0 {
      SingleColumn(h);
    } else {
      ManyColumns(h, b);
      if Column(h, p) < Npx(h) - 1 {
        MoreColumns(Column(h, p) + 1, Npx(h) - 1, FullColumn(h, b));
      }
    }
  }

  lemma MoreColumns(a: nat, b: nat, f: nat)
    requires a <= b
    ensures Mul(a, f) <= Mul(b, f)
  {
    MulMonotone(a, b, f);
  }

  lemma SingleWidth(h: Headers, p: nat, b: nat)
    requires Supported(h) && p < NumPrecincts(h) && b < NumBands(h) && Npx(h) == 1
    ensures BandPrecinctWidth(h, p, b) == BandOf(h, b).width - Mul(Npx(h) - 1, FullColumn(h, b))
  {
    hide Supported, FullColumn, BandOf, ColumnWidth, Npx, NumPrecincts, BandExtent, NumBands, Mul, Column;
    LastColumn(h);
    WholeExtent(h, b);
    MulZero(Npx(h) - 1, ColumnWidth(h));
    MulZero(Npx(h) - 1, FullColumn(h, b));
  }

  lemma ManyColumns(h: Headers, b: nat)
    requires Supported(h) && b < NumBands(h) && h.pih.cw > 0
    ensures Npx(h) >= 1
    ensures var last := h.pih.wf - Mul(Npx(h) - 1, ColumnWidth(h));
            && 0 <= last <= ColumnWidth(h) && FullColumn(h, b) >= 1 && BandExtent(h, b, ColumnWidth(h)) == FullColumn(h, b)
            && BandExtent(h, b, last) == BandOf(h, b).width - Mul(Npx(h) - 1, FullColumn(h, b))
            && BandExtent(h, b, last) <= FullColumn(h, b)
  {
    GridFacts(h);
    LastColumn(h);
    BandFacts(h, b);
    FullAtLeastOne(h, b);
    FullWidth(h, b);
    hide Supported, FullColumn, BandOf, ColumnWidth, Npx, Extent, Sx, NumBands, Mul;
    var last := h.pih.wf - Mul(Npx(h) - 1, ColumnWidth(h));
    LastWidth(h, b, Npx(h), last);
    ExtentMonotone(BandOf(h, b).highX, Sx(h, b), BandOf(h, b).dx, last, ColumnWidth(h));
  }

  lemma NothingDivided(u: nat)
    requires u >= 1
    ensures CeilDiv(0, u) == 0
  {
    CeilDivLeast(0, u, 0);
  }

  lemma NoExtent(highX: bool, s: nat, dx: nat)
    requires s >= 1 && (highX ==> dx >= 1)
    ensures Extent(highX, s, dx, 0) == 0
  {
    hide CeilDiv, Unit;
    if highX {
      NothingDivided(Unit(s, dx - 1));
    } else {
      NothingDivided(Unit(s, dx));
    }
  }

  lemma FullAtLeastOne(h: Headers, b: nat)
    requires Supported(h) && b < NumBands(h) && h.pih.cw > 0
    ensures FullColumn(h, b) >= 1
  {
    hide Supported, Valid, BandOf, Sx, Mul, Pow2, MaxSx, NumBands;
    BandFacts(h, b);
    AtLeastOne(if Sx(h, b) == MaxSx(h.components) then 8 * h.pih.cw else 16 * h.pih.cw, Pow2(h.pih.nlx - BandOf(h, b).dx));
  }

  lemma AtLeastOne(k: nat, p: nat)
    requires k >= 1 && p >= 1
    ensures Mul(k, p) >= 1
  {
    MulMonotone(1, k, p);
  }

  // ---- vertical tiling ---------------------------------------------------------------------------

  /** A band is never taller than its lines in all precinct rows. */
  lemma RowsCover(h: Headers, b: nat)
    requires Supported(h) && b < NumBands(h)
    ensures BandOf(h, b).height <= Npy(h) * Span(h, b)
  {
    hide Supported, BandOf, Pow2, CeilDiv, NumBands, Sx, LowPassSize, HighPassSize;
    BandFacts(h, b);
    BandSize(h, b);
    RowsSuffice(h.pih.hf, h.pih.nly, BandOf(h, b).dy, BandOf(h, b).highY);
  }

  lemma RowsSuffice(hf: nat, nly: nat, dy: nat, highY: bool)
    requires dy <= nly && (highY ==> dy >= 1)
    ensures (if highY then HighPassSize(hf, dy) else LowPassSize(hf, dy)) <= CeilDiv(hf, Pow2(nly)) * Pow2(nly - dy)
  {
    Pow2Add(nly - dy, dy);
    assert highY ==> Pow2(dy) == 2 * Pow2(dy - 1);
    hide Pow2, CeilDiv;
    var rows := CeilDiv(hf, Pow2(nly));
    CeilDivLeast(hf, Pow2(nly), rows);
    MulAssoc(rows, Pow2(nly - dy), Pow2(dy));
    CeilDivLeast(hf, Pow2(dy), rows * Pow2(nly - dy));
    if highY {
      HalfOfFiner(hf, Pow2(dy - 1));
    }
  }

  lemma HalfOfFiner(n: nat, u: nat)
    requires u >= 1
    ensures CeilDiv(n, u) / 2 <= CeilDiv(n, 2 * u)
  {
    CeilDivLeast(n, 2 * u, CeilDiv(n, 2 * u));
    MulAssoc(CeilDiv(n, 2 * u), 2, u);
    CeilDivLeast(n, u, 2 * CeilDiv(n, 2 * u));
  }

  // ---- positions -----------------------------------------------------------------------------------

  /** Band coordinates of line `line`, index xi of band b in precinct p. */
  function PosX(h: Headers, p: nat, b: nat, xi: nat): nat
    requires Supported(h) && p < NumPrecincts(h) && b < NumBands(h)
  {
    Mul(Column(h, p), FirstWidth(h, p, b)) + xi
  }

  function PosY(h: Headers, p: nat, b: nat, line: nat): nat
    requires Supported(h) && p < NumPrecincts(h) && b < NumBands(h) && line >= LineStart(h, b)
  {
    Mul(Row(h, p), Span(h, b)) + (line - LineStart(h, b))
  }

  /** Width of band b in the first precinct of p's row. */
  function FirstWidth(h: Headers, p: nat, b: nat): nat
    requires Supported(h) && p < NumPrecincts(h) && b < NumBands(h)
  {
    RowStart(h, p);
    BandPrecinctWidth(h, Mul(Row(h, p), Npx(h)), b)
  }

  lemma RowStart(h: Headers, p: nat)
    requires Supported(h) && p < NumPrecincts(h)
    ensures Mul(Row(h, p), Npx(h)) <= p && Column(h, Mul(Row(h, p), Npx(h))) == 0
  {
    GridFacts(h);
    RowInGrid(h, p);
    hide Supported, Npx, Npy, ColumnWidth;
    DivUnique(Mul(Row(h, p), Npx(h)), Npx(h), Row(h, p));
    DivMod(Mul(Row(h, p), Npx(h)), Npx(h));
    MulCommute(Row(h, p), Npx(h));
  }

  /** Width of a full column: the stride from one precinct column to the next. */
  function Stride(h: Headers, b: nat): nat
    requires Supported(h) && b < NumBands(h)
  {
    if Npx(h) > 1 then FullColumn(h, b) else BandOf(h, b).width
  }

  lemma FirstWidthIsStride(h: Headers, p: nat, b: nat)
    requires Supported(h) && p < NumPrecincts(h) && b < NumBands(h)
    ensures FirstWidth(h, p, b) == Stride(h, b)
  {
    GridFacts(h);
    RowStart(h, p);
    ColumnWidths(h, Mul(Row(h, p), Npx(h)), b);
    hide Supported, Npx, FullColumn, BandOf, Row, Column, BandPrecinctWidth;
    assert Npx(h) == 1 ==> Mul(Npx(h) - 1, FullColumn(h, b)) == 0;
  }

  /** The precinct that owns sample (x, y) of band b. */
  function Owner(h: Headers, b: nat, x: nat, y: nat): nat
    requires Supported(h) && b < NumBands(h) && x < BandOf(h, b).width && y < BandOf(h, b).height
  {
    StridePositive(h, b, x);
    DivNonNegative(y, Span(h, b));
    DivNonNegative(x, Stride(h, b));
    Mul(y / Span(h, b), Npx(h)) + Min(x / Stride(h, b), Npx(h) - 1)
  }

  lemma StridePositive(h: Headers, b: nat, x: nat)
    requires Supported(h) && b < NumBands(h) && x < BandOf(h, b).width
    ensures Stride(h, b) >= 1 && Npx(h) >= 1
  {
    GridFacts(h);
    if Npx(h) > 1 {
      if h.pih.cw == 0 {
        SingleColumn(h);
      } else {
        FullAtLeastOne(h, b);
      }
    }
  }

  /** Line and index of the sample inside its precinct. */
  function LocalLine(h: Headers, b: nat, y: nat): nat
    requires Supported(h) && b < NumBands(h)
  {
    DivMod(y, Span(h, b));
    LineStart(h, b) + y % Span(h, b)
  }

  function LocalIndex(h: Headers, b: nat, x: nat): nat
    requires Supported(h) && b < NumBands(h) && x < BandOf(h, b).width
  {
    StridePositive(h, b, x);
    var c := Min(x / Stride(h, b), Npx(h) - 1);
    DivBounds(x, Stride(h, b));
    DivNonNegative(x, Stride(h, b));
    MulMonotone(c, x / Stride(h, b), Stride(h, b));
    x - c * Stride(h, b)
  }

  /** Widths of band b over the precinct columns, in strides of the band. */
  lemma StrideWidths(h: Headers, p: nat, b: nat)
    requires Supported(h) && p < NumPrecincts(h) && b < NumBands(h)
    ensures var n, f, c, w, width := Npx(h), Stride(h, b), Column(h, p), BandPrecinctWidth(h, p, b), BandOf(h, b).width;
            && n >= 1
            && (if n == 1 then f == width == w else f >= 1 && w <= f && (c < n - 1 ==> w == f && Mul(c + 1, f) <= width))
            && (c == n - 1 && n > 1 ==> w == width - Mul(n - 1, f))
  {
    hide Supported, NumPrecincts, Npx, FullColumn, BandOf, Column, BandPrecinctWidth, NumBands, Mul;
    GridFacts(h);
    ColumnWidths(h, p, b);
    if Npx(h) == 1 {
      MulZero(Npx(h) - 1, FullColumn(h, b));
    }
  }

  /** A precinct's samples land in the band, in positions it owns: the bounds guards never fire. */
  lemma PositionInBand(h: Headers, p: nat, b: nat, line: nat, xi: nat)
    requires Supported(h) && p < NumPrecincts(h) && b < NumBands(h)
    requires LineStart(h, b) <= line < LineEnd(h, p, b) && xi < BandPrecinctWidth(h, p, b)
    ensures PosX(h, p, b, xi) < BandOf(h, b).width && PosY(h, p, b, line) < BandOf(h, b).height
    ensures Owner(h, b, PosX(h, p, b, xi), PosY(h, p, b, line)) == p
    ensures LocalLine(h, b, PosY(h, p, b, line)) == line && LocalIndex(h, b, PosX(h, p, b, xi)) == xi
  {
    hide Supported, NumPrecincts, Npx, BandOf, Row, Column, BandPrecinctWidth, Span, Stride, LineStart, LineEnd, NumBands, Mul,
         PosX, PosY, LocalLine, LocalIndex;
    PositionAcross(h, p, b, xi);
    PositionDown(h, p, b, line);
    RowInGrid(h, p);
    GridPosition(p, Row(h, p), Column(h, p), Npx(h));
  }

  lemma PositionAcross(h: Headers, p: nat, b: nat, xi: nat)
    requires Supported(h) && p < NumPrecincts(h) && b < NumBands(h) && xi < BandPrecinctWidth(h, p, b)
    ensures PosX(h, p, b, xi) < BandOf(h, b).width && LocalIndex(h, b, PosX(h, p, b, xi)) == xi
    ensures Npx(h) >= 1 && Stride(h, b) >= 1 && Min(PosX(h, p, b, xi) / Stride(h, b), Npx(h) - 1) == Column(h, p)
  {
    hide Supported, NumPrecincts, Npx, BandOf, Column, BandPrecinctWidth, Stride, FirstWidth, NumBands, Mul;
    FirstWidthIsStride(h, p, b);
    StrideWidths(h, p, b);
    ColumnArith(Column(h, p), Npx(h), Stride(h, b), BandOf(h, b).width, BandPrecinctWidth(h, p, b), xi);
  }

  lemma PositionDown(h: Headers, p: nat, b: nat, line: nat)
    requires Supported(h) && p < NumPrecincts(h) && b < NumBands(h) && LineStart(h, b) <= line < LineEnd(h, p, b)
    ensures PosY(h, p, b, line) < BandOf(h, b).height && LocalLine(h, b, PosY(h, p, b, line)) == line
    ensures Span(h, b) >= 1 && PosY(h, p, b, line) / Span(h, b) == Row(h, p)
  {
    hide Supported, NumPrecincts, BandOf, Row, Span, LineStart, NumBands, Mul;
    SpanPositive(h, b);
    RowArith(Row(h, p), Span(h, b), BandOf(h, b).height, line - LineStart(h, b));
  }

  lemma SpanPositive(h: Headers, b: nat)
    requires Supported(h) && b < NumBands(h)
    ensures Span(h, b) >= 1
  {
  }

  lemma GridPosition(p: nat, r: nat, c: nat, n: nat)
    requires p == r * n + c
    ensures p == Mul(r, n) + c
  {
  }

  lemma ColumnArith(c: nat, n: nat, f: nat, width: nat, w: nat, xi: nat)
    requires c < n && xi < w
    requires if n == 1 then f == width == w else f >= 1 && w <= f && (c < n - 1 ==> w == f && Mul(c + 1, f) <= width)
    requires c == n - 1 && n > 1 ==> w == width - Mul(n - 1, f)
    ensures Mul(c, f) + xi < width && Min((Mul(c, f) + xi) / f, n - 1) == c && Mul(c, f) + xi - c * f == xi
  {
    DivUnique(Mul(c, f) + xi, f, c);
    assert (c + 1) * f == c * f + f;
  }

  lemma RowArith(r: nat, s: nat, height: nat, li: nat)
    requires s >= 1 && li < s && li < height as int - r * s
    ensures Mul(r, s) + li < height && (Mul(r, s) + li) / s == r && (Mul(r, s) + li) % s == li
  {
    DivUnique(Mul(r, s) + li, s, r);
    DivMod(Mul(r, s) + li, s);
    MulCommute(r, s);
  }

  /** Row and column of the owner. */
  lemma OwnerPlace(h: Headers, b: nat, x: nat, y: nat)
    requires Supported(h) && b < NumBands(h) && x < BandOf(h, b).width && y < BandOf(h, b).height
    ensures Span(h, b) >= 1 && Stride(h, b) >= 1 && Npx(h) >= 1
    ensures var p := Owner(h, b, x, y);
            p < NumPrecincts(h) && Row(h, p) == y / Span(h, b) && Column(h, p) == Min(x / Stride(h, b), Npx(h) - 1)
  {
    hide Supported, Npx, Npy, BandOf, Span, Stride, NumBands, Mul;
    GridFacts(h);
    StridePositive(h, b, x);
    SpanPositive(h, b);
    RowsCover(h, b);
    DivNonNegative(y, Span(h, b));
    DivNonNegative(x, Stride(h, b));
    OwnerArith(y / Span(h, b), Min(x / Stride(h, b), Npx(h) - 1), Npx(h), Npy(h), y, Span(h, b), BandOf(h, b).height);
  }

  /** Every sample of every band lies in exactly the precinct that owns it, at its local place. */
  lemma SampleInPrecinct(h: Headers, b: nat, x: nat, y: nat)
    requires Supported(h) && b < NumBands(h) && x < BandOf(h, b).width && y < BandOf(h, b).height
    ensures var p := Owner(h, b, x, y);
            && p < NumPrecincts(h)
            && LineStart(h, b) <= LocalLine(h, b, y) < LineEnd(h, p, b)
            && LocalIndex(h, b, x) < BandPrecinctWidth(h, p, b)
            && PosX(h, p, b, LocalIndex(h, b, x)) == x && PosY(h, p, b, LocalLine(h, b, y)) == y
  {
    hide Supported, NumPrecincts, Npx, BandOf, BandPrecinctWidth, Span, Stride, FirstWidth, LineStart, NumBands, Mul, Owner,
         Row, Column;
    OwnerPlace(h, b, x, y);
    var p := Owner(h, b, x, y);
    FirstWidthIsStride(h, p, b);
    StrideWidths(h, p, b);
    SampleArith(x, Column(h, p), Npx(h), Stride(h, b), BandOf(h, b).width, BandPrecinctWidth(h, p, b));
    LineArith(y, Span(h, b), Row(h, p), BandOf(h, b).height);
  }

  lemma LineArith(y: nat, s: nat, r: nat, height: nat)
    requires s >= 1 && r == y / s && y < height
    ensures 0 <= y % s < s && y % s < height as int - r * s && Mul(r, s) + y % s == y
  {
    DivMod(y, s);
    MulCommute(s, r);
  }

  lemma OwnerArith(r: nat, c: nat, n: nat, m: nat, y: nat, s: nat, height: nat)
    requires n >= 1 && s >= 1 && c < n && y < height <= m * s && r == y / s
    ensures Mul(r, n) + c < Mul(n, m) && (Mul(r, n) + c) / n == r && (Mul(r, n) + c) % n == c
  {
    DivUnique(Mul(r, n) + c, n, r);
    DivMod(Mul(r, n) + c, n);
    MulCommute(r, n);
    DivBounds(y, s);
    if r >= m {
      MulMonotone(m, r, s);
    }
    MulMonotone(r + 1, m, n);
    MulCommute(m, n);
    assert (r + 1) * n == r * n + n;
  }

  lemma SampleArith(x: nat, c: nat, n: nat, f: nat, width: nat, w: nat)
    requires n >= 1 && f >= 1 && c == Min(x / f, n - 1) && x < width
    requires if n == 1 then f == width == w else c < n - 1 ==> w == f
    requires c == n - 1 && n > 1 ==> w == width - Mul(n - 1, f)
    ensures x - c * f >= 0 && x - c * f < w && Mul(c, f) + (x - c * f) == x
  {
    DivBounds(x, f);
    DivNonNegative(x, f);
    MulMonotone(c, x / f, f);
    if n == 1 {
      ZeroTimes(c, f);
    }
  }

  lemma ZeroTimes(c: int, f: int)
    requires c == 0
    ensures c * f == 0
  {
  }
}
