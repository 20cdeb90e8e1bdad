// The level loops of the wavelet transform: they look every band up in the band table and move one
// low-pass plane through the levels.
module WaveletTransform {
  import opened Wrappers
  import opened Arith
  import opened HeaderTypes
  import opened Geometry
  import opened Planes
  import opened Wavelet
  import opened WaveletLevels

  /** Picture-wide band buffers. */
  class CoefficientImage {
    var bands: BandPlanes

    constructor (h: Headers)
      requires Supported(h)
      ensures Allocated(h, bands)
      ensures forall b | 0 <= b < |bands| :: bands[b] == Zeros(BandOf(h, b).width, BandOf(h, b).height)
    {
      bands := seq(NumBands(h), b requires 0 <= b < NumBands(h) => Zeros(BandOf(h, b).width, BandOf(h, b).height));
    }
  }

  // ---- looking up a band -----------------------------------------------------------------------------

  predicate Matches(b: Band, k: nat, highX: bool, highY: bool, dx: nat, dy: nat) {
    b.component == k && b.decomposed && b.highX == highX && b.highY == highY && b.dx == dx && b.dy == dy
  }

  /** First band of component k with these filters and depths. */
  method FindBand(g: Geometry, k: nat, highX: bool, highY: bool, dx: nat, dy: nat) returns (r: Result<nat>)
    ensures r.Ok? ==>
              && r.value < |g.bands| && Matches(g.bands[r.value], k, highX, highY, dx, dy) && g.bands[r.value].exists_
              && forall c | 0 <= c < r.value :: !Matches(g.bands[c], k, highX, highY, dx, dy)
    ensures r.Err? ==>
              && r.error == BadBand
              && forall c | 0 <= c < |g.bands| && Matches(g.bands[c], k, highX, highY, dx, dy) :: exists b ::
                   0 <= b <= c && Matches(g.bands[b], k, highX, highY, dx, dy) && !g.bands[b].exists_
  {
    for b := 0 to |g.bands|
      invariant forall c | 0 <= c < b :: !Matches(g.bands[c], k, highX, highY, dx, dy)
    {
      if Matches(g.bands[b], k, highX, highY, dx, dy) {
        if !g.bands[b].exists_ {
          return Err(BadBand);
        }
        return Ok(b);
      }
    }
    return Err(BadBand);
  }

  lemma TypeInjective(nlx: nat, nly: nat, beta: nat, e: nat, j: nat)
    requires nly <= nlx && beta < Beta1(nlx, nly) + 3 * nly && j < if e < nly then 3 else 1
    requires e < nlx && HorizontalType(nlx, nly, beta) == (e + 1, j != 1)
    requires VerticalType(nlx, nly, beta) == (Min(e + 1, nly), j != 0)
    ensures if e < nly then beta == Beta1(nlx, nly) + 3 * (nly - e - 1) + j else beta == nlx - e
  {
  }

  lemma LowestType(nlx: nat, nly: nat, beta: nat)
    requires nly <= nlx && beta < Beta1(nlx, nly) + 3 * nly
    ensures HorizontalType(nlx, nly, beta) == (nlx, false) && VerticalType(nlx, nly, beta) == (nly, false) <==> beta == 0
  {
  }

  /** What the table says of band b of a component with decomposition. */
  lemma TableEntry(h: Headers, b: nat)
    requires Supported(h) && b < NumBands(h)
    ensures var band := BandOf(h, b);
            && band.exists_ && Decomposed(h) > 0
            && (band.decomposed ==>
                  && band.component == b % Decomposed(h) && 0 <= b / Decomposed(h) < NBeta(h)
                  && (band.dx, band.highX) == HorizontalType(h.pih.nlx, h.pih.nly, b / Decomposed(h))
                  && (band.dy, band.highY) == VerticalType(h.pih.nlx, h.pih.nly, b / Decomposed(h)))
  {
    hide Supported, Valid, LowPassSize, HighPassSize, ComponentWidth, ComponentHeight, Mul, HorizontalType, VerticalType, NumBands,
         NBeta;
    HeaderFacts(h);
    DivMod(b, Decomposed(h));
    if b < Mul(Decomposed(h), NBeta(h)) {
      DivLessMul(b, Decomposed(h), NBeta(h));
      DivNonNegative(b, Decomposed(h));
      TypeBounds(h.pih.nlx, h.pih.nly, b / Decomposed(h));
    }
  }

  lemma LevelTypes(h: Headers, e: nat, j: nat)
    requires Supported(h) && e < h.pih.nlx && j < if e < h.pih.nly then 3 else 1
    ensures BetaEnd(h, e + 1) + j >= 0 && Min(e + 1, h.pih.nly) >= 0
    ensures HorizontalType(h.pih.nlx, h.pih.nly, BetaEnd(h, e + 1) + j) == (e + 1, j != 1)
    ensures VerticalType(h.pih.nlx, h.pih.nly, BetaEnd(h, e + 1) + j) == (Min(e + 1, h.pih.nly), j != 0)
  {
    hide Supported, NBeta, HorizontalType, VerticalType;
    HeaderFacts(h);
    TypeOfLevel(h.pih.nlx, h.pih.nly, BetaEnd(h, e + 1) + j, e);
  }

  lemma LevelBandMatches(h: Headers, k: nat, e: nat, j: nat)
    requires Supported(h) && k < Decomposed(h) && e < h.pih.nlx && j < if e < h.pih.nly then 3 else 1
    ensures Min(e + 1, h.pih.nly) >= 0
    ensures Matches(BandOf(h, LevelBand(h, k, e, j)), k, j != 1, j != 0, e + 1, Min(e + 1, h.pih.nly))
  {
    hide Supported, NumBands, HorizontalType, VerticalType, BandOf, Index, NBeta, BetaEnd;
    BetaEnds(h, e);
    LevelTypes(h, e, j);
    TypedIndex(h, k, BetaEnd(h, e + 1) + j);
  }

  /** The band asked for at a level exists and is the only one of its kind. */
  lemma LevelBandUnique(h: Headers, k: nat, e: nat, j: nat, c: nat)
    requires Supported(h) && k < Decomposed(h) && e < h.pih.nlx && c < NumBands(h) && j < if e < h.pih.nly then 3 else 1
    ensures Min(e + 1, h.pih.nly) >= 0
    ensures Matches(BandOf(h, c), k, j != 1, j != 0, e + 1, Min(e + 1, h.pih.nly)) <==> c == LevelBand(h, k, e, j)
    ensures BandOf(h, c).exists_
  {
    hide Supported, NumBands, HorizontalType, VerticalType, BandOf, Index, NBeta;
    HeaderFacts(h);
    BetaEnds(h, e);
    TableEntry(h, c);
    LevelBandMatches(h, k, e, j);
    if Matches(BandOf(h, c), k, j != 1, j != 0, e + 1, Min(e + 1, h.pih.nly)) {
      TypeInjective(h.pih.nlx, h.pih.nly, c / Decomposed(h), e, j);
      IndexOf(h, k, c);
    }
  }

  lemma IndexOf(h: Headers, k: nat, c: nat)
    requires Supported(h) && k < Decomposed(h) && c % Decomposed(h) == k && 0 <= c / Decomposed(h) < NBeta(h)
    ensures c == Index(h, k, c / Decomposed(h))
  {
    hide Supported, NumBands, NBeta;
    DivMod(c, Decomposed(h));
    MulSame(Decomposed(h), c / Decomposed(h));
  }

  lemma MulSame(a: nat, b: nat)
    ensures Mul(a, b) == a * b
  {
  }

  lemma TypedIndex(h: Headers, k: nat, beta: nat)
    requires Supported(h) && k < Decomposed(h) && beta < NBeta(h)
    ensures var band := BandOf(h, Index(h, k, beta));
            && band.component == k && band.decomposed
            && (band.dx, band.highX) == HorizontalType(h.pih.nlx, h.pih.nly, beta)
            && (band.dy, band.highY) == VerticalType(h.pih.nlx, h.pih.nly, beta)
  {
    hide Supported, NumBands, NBeta, Mul, HorizontalType, VerticalType, LowPassSize, HighPassSize, BandOf, ComponentWidth,
         ComponentHeight;
    HeaderFacts(h);
    BandIndex(h, beta, k);
    TypeBounds(h.pih.nlx, h.pih.nly, beta);
  }

  lemma LowestBandUnique(h: Headers, k: nat, c: nat)
    requires Supported(h) && k < Decomposed(h) && c < NumBands(h)
    ensures Matches(BandOf(h, c), k, false, false, h.pih.nlx, h.pih.nly) <==> c == LowestBand(h, k)
    ensures BandOf(h, c).exists_
  {
    hide Supported, Valid, NumBands, HorizontalType, VerticalType, BandOf, Mul, Index, NBeta;
    HeaderFacts(h);
    TableEntry(h, c);
    TypedIndex(h, k, 0);
    LowestType(h.pih.nlx, h.pih.nly, 0);
    if BandOf(h, c).decomposed && BandOf(h, c).component == k {
      LowestType(h.pih.nlx, h.pih.nly, c / Decomposed(h));
      IndexOf(h, k, c);
    }
  }

  lemma TableOf(h: Headers)
    requires Supported(h)
    ensures |Of(h).bands| == NumBands(h) && forall b | 0 <= b < NumBands(h) :: Of(h).bands[b] == BandOf(h, b)
  {
    hide Supported, BandOf, NumBands;
  }

  method FindLevelBand(h: Headers, k: nat, e: nat, j: nat) returns (r: Result<nat>)
    requires Supported(h) && k < Decomposed(h) && e < h.pih.nlx && j < if e < h.pih.nly then 3 else 1
    ensures r == Ok(LevelBand(h, k, e, j))
  {
    hide Supported, NumBands, BandOf, LevelBand, Matches, Of;
    TableOf(h);
    var d := if e + 1 < h.pih.nly then e + 1 else h.pih.nly;
    LevelBandUnique(h, k, e, j, LevelBand(h, k, e, j));
    r := FindBand(Of(h), k, j != 1, j != 0, e + 1, d);
    if r.Ok? {
      LevelBandUnique(h, k, e, j, r.value);
    } else {
      var b :| 0 <= b <= LevelBand(h, k, e, j) && Matches(Of(h).bands[b], k, j != 1, j != 0, e + 1, d) && !Of(h).bands[b].exists_;
      LevelBandUnique(h, k, e, j, b);
      assert false;
    }
  }

  method FindLowestBand(h: Headers, k: nat) returns (r: Result<nat>)
    requires Supported(h) && k < Decomposed(h)
    ensures r == Ok(LowestBand(h, k))
  {
    hide Supported, NumBands, BandOf, LowestBand, Matches, Of;
    TableOf(h);
    LowestBandUnique(h, k, LowestBand(h, k));
    r := FindBand(Of(h), k, false, false, h.pih.nlx, h.pih.nly);
    if r.Ok? {
      LowestBandUnique(h, k, r.value);
    } else {
      var b :| 0 <= b <= LowestBand(h, k) && Matches(Of(h).bands[b], k, false, false, h.pih.nlx, h.pih.nly)
          && !Of(h).bands[b].exists_;
      LowestBandUnique(h, k, b);
      assert false;
    }
  }

  // ---- storing and loading ---------------------------------------------------------------------------

  method RoundPlane(t: Plane, fq: nat) returns (r: Plane)
    requires t.Ok()
    ensures r == Rounded(t, fq)
  {
    hide Round;
    var rows := [];
    for y := 0 to t.height
      invariant |rows| == y && forall i | 0 <= i < y :: rows[i] == RoundedRow(t.rows[i], fq)
    {
      var row := [];
      for x := 0 to t.width
        invariant |row| == x && forall i | 0 <= i < x :: row[i] == Round(t.rows[y][i], fq)
      {
        row := row + [Round(t.rows[y][x], fq)];
      }
      rows := rows + [row];
    }
    return Plane(t.width, t.height, rows);
  }

  method StoreInto(h: Headers, t: Plane, b: nat, image: CoefficientImage) returns (r: Result<()>)
    requires Supported(h) && b < NumBands(h) && t.Ok() && AllOk(image.bands)
    modifies image
    ensures AllOk(image.bands)
    ensures match StoreBand(h, t, b, old(image.bands))
            case Ok(img) => r.Ok? && image.bands == img
            case Err(e) => r == Err(e) && image.bands == old(image.bands)
  {
    hide Supported, NumBands, BandOf, Rounded;
    var band := Of(h).bands[b];
    if b >= |image.bands| || t.width != band.width || t.height != band.height {
      return Err(BadBand);
    }
    var dst := image.bands[b];
    if dst.width != 0 && dst.height != 0 && (dst.width != band.width || dst.height != band.height) {
      return Err(BadBand);
    }
    var rounded := RoundPlane(t, h.pih.fq);
    image.bands := image.bands[b := rounded];
    return Ok(());
  }

  method LoadScaled(h: Headers, image: CoefficientImage, b: nat) returns (r: Result<Plane>)
    requires Supported(h) && b < NumBands(h) && AllOk(image.bands)
    ensures r == ScaledBand(h, image.bands, b)
  {
    hide Supported, NumBands, BandOf, Pow2;
    if b >= |image.bands| || image.bands[b].width != Of(h).bands[b].width || image.bands[b].height != Of(h).bands[b].height {
      return Err(BadBand);
    }
    var src := image.bands[b];
    var scale := Pow2(h.pih.fq);
    ghost var whole := ScaledUp(src, h.pih.fq);
    var rows := [];
    for y := 0 to src.height
      invariant |rows| == y && forall i | 0 <= i < y :: rows[i] == whole.rows[i] && RowFits(rows[i])
    {
      var row := [];
      for x := 0 to src.width
        invariant |row| == x && forall i | 0 <= i < x :: row[i] == whole.rows[y][i] && IsInt32(row[i])
      {
        var v := src.rows[y][x] * scale;
        assert v == whole.rows[y][x];
        if !IsInt32(v) {
          assert !RowFits(whole.rows[y]);
          return Err(Overflow);
        }
        row := row + [v];
      }
      rows := rows + [row];
    }
    assert rows == whole.rows;
    return Ok(Plane(src.width, src.height, rows));
  }

  // ---- forward ---------------------------------------------------------------------------------------

  method SplitOnce(ll: Plane) returns (r: Result<Quad>)
    requires ll.Ok()
    ensures r == SplitLevel(ll)
  {
    hide HorizontalForward, VerticalForward;
    var v :- SplitColumns(ll);
    var top :- SplitRows(v.0);
    var bottom :- SplitRows(v.1);
    return Ok(Quad(top.0, top.1, bottom.0, bottom.1));
  }

  method StoreQuad(h: Headers, k: nat, e: nat, q: Quad, image: CoefficientImage) returns (r: Result<()>)
    requires Supported(h) && k < Decomposed(h) && e < h.pih.nly <= h.pih.nlx && q.Ok() && AllOk(image.bands)
    modifies image
    ensures AllOk(image.bands)
    ensures match StoreLevel(h, k, e, q, old(image.bands))
            case Ok(img) => r.Ok? && image.bands == img
            case Err(e) => r == Err(e)
  {
    hide Supported, NumBands, StoreBand, LevelBand;
    var b0 := FindLevelBand(h, k, e, 0);
    var _ :- StoreInto(h, q.hl, b0.value, image);
    var b1 := FindLevelBand(h, k, e, 1);
    var _ :- StoreInto(h, q.lh, b1.value, image);
    var b2 := FindLevelBand(h, k, e, 2);
    var _ :- StoreInto(h, q.hh, b2.value, image);
    return Ok(());
  }

  /** Writes the bands of component k; on an error the buffers hold the levels done so far. */
  method ForwardTransform(h: Headers, k: nat, p: Plane, image: CoefficientImage) returns (r: Result<()>)
    requires Supported(h) && k < h.pih.nc && p.Ok() && AllOk(image.bands)
    modifies image
    ensures AllOk(image.bands)
    ensures match ForwardDwt(h, k, p, old(image.bands))
            case Ok(img) => r.Ok? && image.bands == img
            case Err(e) => r == Err(e)
  {
    hide Supported, NumBands, StoreBand, LevelBand, LowestBand, SplitLevel, StoreLevel, HorizontalForward, PlainBandIndex,
         ComponentWidth, ComponentHeight;
    HeaderFacts(h);
    if p.width != ComponentWidth(h, k) || p.height != ComponentHeight(h, k) {
      return Err(BadBand);
    }
    if k >= h.pih.nc - h.sd {
      r := StoreInto(h, p, PlainBandIndex(h, k), image);
      return;
    }
    ghost var goal := ForwardFrom(h, k, p, 0, image.bands);
    var ll := p;
    var d: nat := 0;
    while d < h.pih.nly
      invariant d <= h.pih.nly && ll.Ok() && AllOk(image.bands)
      invariant goal == ForwardFrom(h, k, ll, d, image.bands)
    {
      var q :- SplitOnce(ll);
      var _ :- StoreQuad(h, k, d, q, image);
      ll := q.ll;
      d := d + 1;
    }
    while d < h.pih.nlx
      invariant h.pih.nly <= d <= h.pih.nlx && ll.Ok() && AllOk(image.bands)
      invariant goal == ForwardFrom(h, k, ll, d, image.bands)
    {
      var halves :- SplitRows(ll);
      var b := FindLevelBand(h, k, d, 0);
      var _ :- StoreInto(h, halves.1, b.value, image);
      ll := halves.0;
      d := d + 1;
    }
    var b := FindLowestBand(h, k);
    r := StoreInto(h, ll, b.value, image);
  }

  // ---- inverse ---------------------------------------------------------------------------------------

  /** An error at some depth is the error of the whole reconstruction. */
  lemma {:induction false} ErrorSurfaces(h: Headers, k: nat, img: BandPlanes, e: nat)
    requires Supported(h) && k < Decomposed(h) && e <= h.pih.nlx && AllOk(img) && InverseTo(h, k, img, e).Err?
    ensures InverseTo(h, k, img, 0) == InverseTo(h, k, img, e)
    decreases e
  {
    hide Supported, ScaledBand, LoadLevel, JoinLevel, HorizontalInverse, LevelBand, LowestBand;
    HeaderFacts(h);
    if e > 0 {
      ErrorSurfaces(h, k, img, e - 1);
    }
  }

  method JoinOnce(h: Headers, k: nat, e: nat, ll: Plane, image: CoefficientImage) returns (r: Result<Plane>)
    requires Supported(h) && k < Decomposed(h) && e < h.pih.nly <= h.pih.nlx && ll.Ok() && AllOk(image.bands)
    ensures match LoadLevel(h, k, e, image.bands, ll)
            case Ok(q) => r.Ok? == JoinLevel(q).Ok? && (r.Ok? ==> r == JoinLevel(q))
            case Err(_) => r.Err?
  {
    hide Supported, NumBands, ScaledBand, LevelBand, HorizontalInverse, VerticalInverse;
    var b0 := FindLevelBand(h, k, e, 0);
    var hl :- LoadScaled(h, image, b0.value);
    var upper :- JoinRows(ll, hl);
    var b1 := FindLevelBand(h, k, e, 1);
    var lh :- LoadScaled(h, image, b1.value);
    var b2 := FindLevelBand(h, k, e, 2);
    var hh :- LoadScaled(h, image, b2.value);
    var lower :- JoinRows(lh, hh);
    r := JoinColumns(upper, lower);
  }

  method InverseTransform(h: Headers, k: nat, image: CoefficientImage) returns (r: Result<Plane>)
    requires Supported(h) && k < h.pih.nc && AllOk(image.bands)
    ensures r.Ok? == InverseDwt(h, k, image.bands).Ok?
    ensures r.Ok? ==> r == InverseDwt(h, k, image.bands)
  {
    hide Supported, NumBands, ScaledBand, LevelBand, LowestBand, LoadLevel, JoinLevel, HorizontalInverse, PlainBandIndex,
         ComponentWidth, ComponentHeight;
    HeaderFacts(h);
    if k >= h.pih.nc - h.sd {
      r := LoadScaled(h, image, PlainBandIndex(h, k));
      return;
    }
    ghost var img := image.bands;
    var lowest := FindLowestBand(h, k);
    var low := LoadScaled(h, image, lowest.value);
    if low.Err? {
      ErrorSurfaces(h, k, img, h.pih.nlx);
      return low;
    }
    var ll := low.value;
    var d: nat := h.pih.nlx;
    while d > h.pih.nly
      invariant h.pih.nly <= d <= h.pih.nlx && InverseTo(h, k, img, d) == Ok(ll)
    {
      var b := FindLevelBand(h, k, d - 1, 0);
      var high := LoadScaled(h, image, b.value);
      if high.Err? {
        ErrorSurfaces(h, k, img, d - 1);
        return high;
      }
      var joined := JoinRows(ll, high.value);
      if joined.Err? {
        ErrorSurfaces(h, k, img, d - 1);
        return joined;
      }
      ll := joined.value;
      d := d - 1;
    }
    while d > 0
      invariant d <= h.pih.nly && InverseTo(h, k, img, d) == Ok(ll)
    {
      var joined := JoinOnce(h, k, d - 1, ll, image);
      if joined.Err? {
        ErrorSurfaces(h, k, img, d - 1);
        return joined;
      }
      ll := joined.value;
      d := d - 1;
    }
    if ll.width != ComponentWidth(h, k) || ll.height != ComponentHeight(h, k) {
      return Err(BadBand);
    }
    return Ok(ll);
  }
}
