// What the forward wavelet transform stores in which band: the filtered planes, rounded to nearest, low-pass and
// high-pass directions as the band table names them.
module BandMeaning {
  import opened Wrappers
  import opened Arith
  import opened HeaderTypes
  import opened Geometry
  import opened Planes
  import opened Lifting
  import opened Wavelet
  import opened WaveletLevels

  // ---- rounding --------------------------------------------------------------------------------------

  lemma NearestQuotient(v: nat, s: nat)
    requires s >= 1 && (s == 1 || s % 2 == 0)
    ensures Abs(2 * ((v + s / 2) / s * s - v)) <= s
  {
    DivBounds(v + s / 2, s);
  }

  lemma Halves(fq: nat)
    ensures Pow2(fq) == 1 || Pow2(fq) % 2 == 0
  {
  }

  /** Fractional bits are rounded to the nearest value. */
  lemma RoundNearest(v: int, fq: nat)
    ensures 2 * Abs(Round(v, fq) * Pow2(fq) - v) <= Pow2(fq)
  {
    var s := Pow2(fq);
    Halves(fq);
    NearestQuotient(Abs(v), s);
    if v < 0 {
      var q := (-v + s / 2) / s;
      MulNegative(q, s);
    }
  }

  /** Of two nearest values the one further from zero is taken. */
  lemma RoundTies(k: nat, fq: nat)
    requires fq >= 1
    ensures Round(k * Pow2(fq) + Pow2(fq - 1), fq) == k + 1
    ensures Round(-(k * Pow2(fq) + Pow2(fq - 1)), fq) == -(k + 1)
  {
    var s, r := Pow2(fq), Pow2(fq - 1);
    assert s == 2 * r;
    hide Pow2;
    MulMonotone(0, k, s);
    Distribute(k, 1, s);
    DivUnique(k * s + r + s / 2, s, k + 1);
  }

  /** stored times 2^fq is within half a unit of exact, everywhere. */
  ghost predicate Rounds(stored: Plane, exact: Plane, fq: nat)
    requires stored.Ok() && exact.Ok()
  {
    && stored.width == exact.width && stored.height == exact.height
    && forall x: nat, y: nat | x < exact.width && y < exact.height ::
         2 * Abs(stored.At(x, y) * Pow2(fq) - exact.At(x, y)) <= Pow2(fq)
  }

  lemma RoundedRounds(p: Plane, fq: nat)
    requires p.Ok()
    ensures Rounds(Rounded(p, fq), p, fq)
  {
    hide Round, Pow2;
    forall x: nat, y: nat | x < p.width && y < p.height
      ensures 2 * Abs(Rounded(p, fq).At(x, y) * Pow2(fq) - p.At(x, y)) <= Pow2(fq)
    {
      RoundNearest(p.At(x, y), fq);
    }
  }

  // ---- the unrounded bands ---------------------------------------------------------------------------

  /** The low-pass plane behind e levels: both directions filtered in the first nly, then rows only. */
  function LowAt(nly: nat, p: Plane, e: nat): (r: Result<Plane>)
    requires p.Ok()
    ensures r.Ok? ==> r.value.Ok()
  {
    if e == 0 then Ok(p) else
    var ll :- LowAt(nly, p, e - 1);
    if e - 1 < nly then
      var q :- SplitLevel(ll); Ok(q.ll)
    else
      var (low, _) :- HorizontalForward(ll); Ok(low)
  }

  /** Band j split off at depth e: HL, LH and HH, or the one HL of a level of rows. */
  function BandAt(nly: nat, p: Plane, e: nat, j: nat): (r: Result<Plane>)
    requires p.Ok() && j < if e < nly then 3 else 1
    ensures r.Ok? ==> r.value.Ok()
  {
    var ll :- LowAt(nly, p, e);
    if e < nly then
      var q :- SplitLevel(ll); Ok(if j == 0 then q.hl else if j == 1 then q.lh else q.hh)
    else
      var (_, high) :- HorizontalForward(ll); Ok(high)
  }

  /** Number of the band: by filter type, coarsest first, then by component (Table B.1). */
  function BandNumber(h: Headers, k: nat, e: nat, j: nat): int
    requires Supported(h)
  {
    var type_ := if e < h.pih.nly then h.pih.nlx - h.pih.nly + 1 + 3 * (h.pih.nly - 1 - e) + j else h.pih.nlx - e;
    Decomposed(h) * type_ + k
  }

  lemma NumberOfLevelBand(h: Headers, k: nat, e: nat, j: nat)
    requires Supported(h) && k < Decomposed(h) && e < h.pih.nlx && j < if e < h.pih.nly then 3 else 1
    ensures LevelBand(h, k, e, j) == BandNumber(h, k, e, j)
  {
    hide Supported, NumBands, NBeta;
    BetaEnds(h, e);
    BetaEnds(h, 0);
  }

  lemma NumberOfLowest(h: Headers, k: nat)
    requires Supported(h) && k < Decomposed(h)
    ensures LowestBand(h, k) == k
  {
    hide Supported, NumBands, NBeta;
    HeaderFacts(h);
    MulNone(Decomposed(h));
  }

  /** Band j of depth e, and the lowest band, hold their planes rounded. */
  ghost predicate HoldsLevel(h: Headers, k: nat, p: Plane, e: nat, j: nat, img: BandPlanes)
    requires Supported(h) && k < Decomposed(h) && e < h.pih.nlx && p.Ok() && j < if e < h.pih.nly then 3 else 1
  {
    var b := LevelBand(h, k, e, j);
    b < |img| && BandAt(h.pih.nly, p, e, j).Ok? && img[b] == Rounded(BandAt(h.pih.nly, p, e, j).value, h.pih.fq)
  }

  ghost predicate HoldsLowest(h: Headers, k: nat, p: Plane, img: BandPlanes)
    requires Supported(h) && k < Decomposed(h) && p.Ok()
  {
    var b, ll := LowestBand(h, k), LowAt(h.pih.nly, p, h.pih.nlx);
    b < |img| && ll.Ok? && img[b] == Rounded(ll.value, h.pih.fq)
  }

  lemma LevelKept(h: Headers, k: nat, p: Plane, e: nat, j: nat, img: BandPlanes, img': BandPlanes)
    requires Supported(h) && k < Decomposed(h) && e < h.pih.nlx && p.Ok() && j < if e < h.pih.nly then 3 else 1
    requires HoldsLevel(h, k, p, e, j, img) && SameElsewhere(h, k, BetaEnd(h, e + 1), img, img')
    ensures HoldsLevel(h, k, p, e, j, img')
  {
    hide Supported, LevelBand, BetaEnd, Owned, BandAt, Rounded;
    LevelOwned(h, k, e, j);
  }

  lemma NextLow(nly: nat, p: Plane, e: nat)
    requires p.Ok()
    ensures LowAt(nly, p, e + 1) ==
            match LowAt(nly, p, e)
            case Ok(ll) =>
              (if e < nly then match SplitLevel(ll) case Ok(q) => Ok(q.ll) case Err(x) => Err(x)
               else match HorizontalForward(ll) case Ok((low, _)) => Ok(low) case Err(x) => Err(x))
            case Err(x) => Err(x)
  {
    hide SplitLevel, HorizontalForward;
  }

  lemma {:induction false} StoredFrom(h: Headers, k: nat, p: Plane, ll: Plane, e: nat, img: BandPlanes)
    requires Supported(h) && k < Decomposed(h) && e <= h.pih.nlx && p.Ok() && ll.Ok() && AllOk(img)
    requires LowAt(h.pih.nly, p, e) == Ok(ll) && ForwardFrom(h, k, ll, e, img).Ok?
    ensures var done := ForwardFrom(h, k, ll, e, img).value;
            && HoldsLowest(h, k, p, done)
            && forall e': nat, j: nat | e <= e' < h.pih.nlx && j < (if e' < h.pih.nly then 3 else 1) ::
                 HoldsLevel(h, k, p, e', j, done)
    decreases h.pih.nlx - e
  {
    hide Supported, SplitLevel, HorizontalForward, StoreLevel, StoreBand, Rounded, LevelBand, NumBands, LowestBand, LowAt,
         HoldsLowest, HoldsLevel, SameElsewhere, BetaEnd;
    HeaderFacts(h);
    var done := ForwardFrom(h, k, ll, e, img).value;
    if e == h.pih.nlx {
      LowestStored(h, k, p, ll, img);
    } else {
      NextLow(h.pih.nly, p, e);
      if e < h.pih.nly {
        var q := SplitLevel(ll).value;
        var img' := StoreLevel(h, k, e, q, img).value;
        StoredFrom(h, k, p, q.ll, e + 1, img');
        ForwardFrame(h, k, q.ll, e + 1, img');
        LevelStored2(h, k, p, ll, e, img);
        LevelKept(h, k, p, e, 0, img', done);
        LevelKept(h, k, p, e, 1, img', done);
        LevelKept(h, k, p, e, 2, img', done);
      } else {
        var (low, high) := HorizontalForward(ll).value;
        var img' := StoreBand(h, high, LevelBand(h, k, e, 0), img).value;
        StoredFrom(h, k, p, low, e + 1, img');
        ForwardFrame(h, k, low, e + 1, img');
        LevelStored1(h, k, p, ll, e, img);
        LevelKept(h, k, p, e, 0, img', done);
      }
    }
  }

  lemma LowestStored(h: Headers, k: nat, p: Plane, ll: Plane, img: BandPlanes)
    requires Supported(h) && k < Decomposed(h) && p.Ok() && ll.Ok() && AllOk(img) && LowAt(h.pih.nly, p, h.pih.nlx) == Ok(ll)
    requires StoreBand(h, ll, LowestBand(h, k), img).Ok?
    ensures HoldsLowest(h, k, p, StoreBand(h, ll, LowestBand(h, k), img).value)
  {
    hide Supported, StoreBand, Rounded, NumBands, LowestBand, LowAt, Sized;
    StoredBand(h, ll, LowestBand(h, k), img);
  }

  lemma LevelStored2(h: Headers, k: nat, p: Plane, ll: Plane, e: nat, img: BandPlanes)
    requires Supported(h) && k < Decomposed(h) && e < h.pih.nly <= h.pih.nlx && p.Ok() && ll.Ok() && AllOk(img)
    requires LowAt(h.pih.nly, p, e) == Ok(ll) && SplitLevel(ll).Ok? && StoreLevel(h, k, e, SplitLevel(ll).value, img).Ok?
    ensures var img' := StoreLevel(h, k, e, SplitLevel(ll).value, img).value;
            HoldsLevel(h, k, p, e, 0, img') && HoldsLevel(h, k, p, e, 1, img') && HoldsLevel(h, k, p, e, 2, img')
  {
    hide Supported, SplitLevel, StoreLevel, Rounded, LevelBand, NumBands, LowAt, Sized;
    StoredLevel(h, k, e, SplitLevel(ll).value, img);
  }

  lemma LevelStored1(h: Headers, k: nat, p: Plane, ll: Plane, e: nat, img: BandPlanes)
    requires Supported(h) && k < Decomposed(h) && h.pih.nly <= e < h.pih.nlx && p.Ok() && ll.Ok() && AllOk(img)
    requires LowAt(h.pih.nly, p, e) == Ok(ll) && HorizontalForward(ll).Ok?
    requires StoreBand(h, HorizontalForward(ll).value.1, LevelBand(h, k, e, 0), img).Ok?
    ensures HoldsLevel(h, k, p, e, 0, StoreBand(h, HorizontalForward(ll).value.1, LevelBand(h, k, e, 0), img).value)
  {
    hide Supported, HorizontalForward, StoreBand, Rounded, LevelBand, NumBands, LowAt, Sized;
    StoredBand(h, HorizontalForward(ll).value.1, LevelBand(h, k, e, 0), img);
  }

  /** Band number b of the buffers is `exact` rounded to 2^fq. */
  ghost predicate Stored(img: BandPlanes, b: int, exact: Result<Plane>, fq: nat)
    requires AllOk(img) && (exact.Ok? ==> exact.value.Ok())
  {
    exact.Ok? && 0 <= b < |img| && Rounds(img[b], exact.value, fq)
  }

  /**
   * Each coefficient a component leaves in the buffers, times 2^Fq, is within 2^(Fq-1) of the unrounded transform, band
   * by band under its number in the band table.
   */
  lemma BandsStored(h: Headers, k: nat, p: Plane, img: BandPlanes, e: nat, j: nat)
    requires Supported(h) && k < Decomposed(h) && k < h.pih.nc && p.Ok() && AllOk(img) && ForwardDwt(h, k, p, img).Ok?
    requires e < h.pih.nlx && j < if e < h.pih.nly then 3 else 1
    ensures var done := ForwardDwt(h, k, p, img).value;
            && Stored(done, k, LowAt(h.pih.nly, p, h.pih.nlx), h.pih.fq)
            && Stored(done, BandNumber(h, k, e, j), BandAt(h.pih.nly, p, e, j), h.pih.fq)
  {
    hide Supported, Rounded, LevelBand, LowestBand, LowAt, BandAt, ForwardFrom, Rounds, BandNumber, NumBands;
    StoredFrom(h, k, p, p, 0, img) by {
      assert LowAt(h.pih.nly, p, 0) == Ok(p) by { AtTop(h.pih.nly, p); }
    }
    NumberOfLevelBand(h, k, e, j);
    NumberOfLowest(h, k);
    var done := ForwardDwt(h, k, p, img).value;
    assert HoldsLevel(h, k, p, e, j, done) && HoldsLowest(h, k, p, done);
    RoundedRounds(BandAt(h.pih.nly, p, e, j).value, h.pih.fq);
    RoundedRounds(LowAt(h.pih.nly, p, h.pih.nlx).value, h.pih.fq);
  }

  lemma AtTop(nly: nat, p: Plane)
    requires p.Ok()
    ensures LowAt(nly, p, 0) == Ok(p)
  {
  }

  /** A component without decomposition is rounded as it is. */
  lemma PlainStored(h: Headers, k: nat, p: Plane, img: BandPlanes)
    requires Supported(h) && Decomposed(h) <= k < h.pih.nc && p.Ok() && AllOk(img) && ForwardDwt(h, k, p, img).Ok?
    ensures var types := h.pih.nlx - h.pih.nly + 1 + 3 * h.pih.nly;
            Stored(ForwardDwt(h, k, p, img).value, Decomposed(h) * types + (k - Decomposed(h)), Ok(p), h.pih.fq)
  {
    hide Supported, Rounded, Rounds, NumBands, Sized;
    HeaderFacts(h);
    StoredBand(h, p, PlainBandIndex(h, k), img);
    RoundedRounds(p, h.pih.fq);
  }

  // ---- directions ------------------------------------------------------------------------------------

  /** Varies along rows only: all rows are the same. */
  predicate SameRows(p: Plane) {
    forall y, y' | 0 <= y < |p.rows| && 0 <= y' < |p.rows| :: p.rows[y] == p.rows[y']
  }

  predicate FlatRow(row: seq<int>) {
    forall x, x' | 0 <= x < |row| && 0 <= x' < |row| :: row[x] == row[x']
  }

  /** Varies along columns only: every row is constant. */
  predicate FlatRows(p: Plane) {
    forall y | 0 <= y < |p.rows| :: FlatRow(p.rows[y])
  }

  predicate ZeroRow(row: seq<int>) {
    forall x | 0 <= x < |row| :: row[x] == 0
  }

  predicate Zero(p: Plane) {
    forall y | 0 <= y < |p.rows| :: ZeroRow(p.rows[y])
  }

  lemma FlatLine(x: seq<int>)
    requires |x| >= 2 && FlatRow(x)
    ensures FlatRow(Evens(ForwardLine(x))) && ZeroRow(Odds(ForwardLine(x))) && Evens(ForwardLine(x))[0] == x[0]
  {
    hide ForwardLine, LiftOdd, Mirror;
    forall i: nat | i < |x|
      ensures ForwardLine(x)[i] == if i % 2 == 0 then x[0] else 0
    {
      OddSample(x, Mirror(i - 1, |x|));
      OddSample(x, Mirror(i + 1, |x|));
      OddSample(x, i);
      if i % 2 == 0 {
        EvenSample(x, i);
      } else {
        OddUnchanged(x, i);
      }
    }
  }

  lemma FlatHalves(p: Plane)
    requires p.Ok() && FlatRows(p) && HorizontalForward(p).Ok?
    ensures FlatRows(HorizontalForward(p).value.0) && Zero(HorizontalForward(p).value.1)
  {
    hide ForwardLine, FlatRow, ZeroRow;
    forall y | 0 <= y < p.height
      ensures FlatRow(LowRow(p, y)) && ZeroRow(HighRow(p, y))
    {
      FlatLine(p.rows[y]);
    }
  }

  lemma SameHalves(p: Plane)
    requires p.Ok() && SameRows(p) && HorizontalForward(p).Ok?
    ensures SameRows(HorizontalForward(p).value.0) && SameRows(HorizontalForward(p).value.1)
  {
    hide ForwardLine, Evens, Odds;
  }

  lemma ZeroIsFlat(p: Plane)
    requires p.Ok() && Zero(p) && HorizontalForward(p).Ok?
    ensures Zero(HorizontalForward(p).value.0) && Zero(HorizontalForward(p).value.1)
  {
    hide ForwardLine;
    forall y | 0 <= y < p.height
      ensures ZeroRow(LowRow(p, y)) && ZeroRow(HighRow(p, y))
    {
      assert ZeroRow(p.rows[y]);
      FlatLine(p.rows[y]);
    }
  }

  lemma SameTransposed(p: Plane)
    requires p.Ok() && SameRows(p)
    ensures FlatRows(Transpose(p))
  {
    forall x | 0 <= x < p.width
      ensures FlatRow(Planes.Column(p, x))
    {
      forall y, y' | 0 <= y < p.height && 0 <= y' < p.height
        ensures Planes.Column(p, x)[y] == Planes.Column(p, x)[y']
      {
        assert p.rows[y] == p.rows[y'];
      }
    }
  }

  lemma FlatTransposed(p: Plane)
    requires p.Ok() && FlatRows(p)
    ensures SameRows(Transpose(p))
  {
    forall x, x' | 0 <= x < p.width && 0 <= x' < p.width
      ensures Planes.Column(p, x) == Planes.Column(p, x')
    {
      forall y | 0 <= y < p.height
        ensures p.At(x, y) == p.At(x', y)
      {
        assert FlatRow(p.rows[y]);
      }
    }
  }

  lemma ZeroTransposed(p: Plane)
    requires p.Ok() && Zero(p)
    ensures Zero(Transpose(p))
  {
    forall x | 0 <= x < p.width
      ensures ZeroRow(Planes.Column(p, x))
    {
      forall y | 0 <= y < p.height
        ensures Planes.Column(p, x)[y] == 0
      {
        assert ZeroRow(p.rows[y]);
      }
    }
  }

  /** Nothing varies downwards: LH and HH are zero. */
  lemma SplitSame(p: Plane)
    requires p.Ok() && SameRows(p) && SplitLevel(p).Ok?
    ensures var q := SplitLevel(p).value; SameRows(q.ll) && Zero(q.lh) && Zero(q.hh)
  {
    hide HorizontalForward, Transpose, SameRows, FlatRows, Zero;
    SameTransposed(p);
    FlatHalves(Transpose(p));
    var (low, high) := HorizontalForward(Transpose(p)).value;
    FlatTransposed(low);
    ZeroTransposed(high);
    SameHalves(Transpose(low));
    ZeroIsFlat(Transpose(high));
  }

  /** Nothing varies along rows: HL and HH are zero. */
  lemma SplitFlat(p: Plane)
    requires p.Ok() && FlatRows(p) && SplitLevel(p).Ok?
    ensures var q := SplitLevel(p).value; FlatRows(q.ll) && Zero(q.hl) && Zero(q.hh)
  {
    hide HorizontalForward, Transpose, SameRows, FlatRows, Zero;
    FlatTransposed(p);
    SameHalves(Transpose(p));
    var (low, high) := HorizontalForward(Transpose(p)).value;
    SameTransposed(low);
    SameTransposed(high);
    FlatHalves(Transpose(low));
    FlatHalves(Transpose(high));
  }

  lemma {:induction false} LowKeepsDirection(nly: nat, p: Plane, e: nat)
    requires p.Ok() && LowAt(nly, p, e).Ok?
    ensures SameRows(p) ==> SameRows(LowAt(nly, p, e).value)
    ensures FlatRows(p) ==> FlatRows(LowAt(nly, p, e).value)
  {
    hide HorizontalForward, SplitLevel, SameRows, FlatRows, Zero;
    if e > 0 {
      LowKeepsDirection(nly, p, e - 1);
      var ll := LowAt(nly, p, e - 1).value;
      if SameRows(ll) {
        if e - 1 < nly { SplitSame(ll); } else { SameHalves(ll); }
      }
      if FlatRows(ll) {
        if e - 1 < nly { SplitFlat(ll); } else { FlatHalves(ll); }
      }
    }
  }

  /**
   * Bands respond to their own direction only. In a picture whose rows are all the same the bands that are high-pass
   * vertically (LH and HH) are zero, in one with constant rows those that are high-pass horizontally (HL and HH).
   */
  lemma Directions(nly: nat, p: Plane, e: nat, j: nat)
    requires p.Ok() && j < (if e < nly then 3 else 1) && BandAt(nly, p, e, j).Ok?
    ensures SameRows(p) && j != 0 ==> Zero(BandAt(nly, p, e, j).value)
    ensures FlatRows(p) && j != 1 ==> Zero(BandAt(nly, p, e, j).value)
  {
    hide HorizontalForward, SplitLevel, SameRows, FlatRows, Zero, LowAt;
    LowKeepsDirection(nly, p, e);
    var ll := LowAt(nly, p, e).value;
    if SameRows(ll) && e < nly {
      SplitSame(ll);
    }
    if FlatRows(ll) {
      if e < nly { SplitFlat(ll); } else { FlatHalves(ll); }
    }
  }

  /** The same of the stored bands, under their numbers in the band table. */
  lemma StoredDirections(h: Headers, k: nat, p: Plane, img: BandPlanes, e: nat, j: nat)
    requires Supported(h) && k < Decomposed(h) && k < h.pih.nc && p.Ok() && AllOk(img) && ForwardDwt(h, k, p, img).Ok?
    requires e < h.pih.nlx && j < if e < h.pih.nly then 3 else 1
    ensures var done, b := ForwardDwt(h, k, p, img).value, BandNumber(h, k, e, j);
            0 <= b < |done| && ((SameRows(p) && j != 0) || (FlatRows(p) && j != 1) ==> Zero(done[b]))
  {
    hide Supported, ForwardFrom, ForwardDwt, BandNumber, BandAt, LowAt, SameRows, FlatRows, NumBands, Zero;
    BandsStored(h, k, p, img, e, j);
    Directions(h.pih.nly, p, e, j);
    var b := BandNumber(h, k, e, j);
    if Zero(BandAt(h.pih.nly, p, e, j).value) {
      RoundsToZero(ForwardDwt(h, k, p, img).value[b], BandAt(h.pih.nly, p, e, j).value, h.pih.fq);
    }
  }

  lemma RoundsToZero(stored: Plane, exact: Plane, fq: nat)
    requires stored.Ok() && exact.Ok() && Rounds(stored, exact, fq) && Zero(exact)
    ensures Zero(stored)
  {
    hide Pow2;
    forall y | 0 <= y < stored.height
      ensures ZeroRow(stored.rows[y])
    {
      assert ZeroRow(exact.rows[y]);
      forall x | 0 <= x < stored.width
        ensures stored.rows[y][x] == 0
      {
        assert 2 * Abs(stored.At(x, y) * Pow2(fq) - exact.At(x, y)) <= Pow2(fq);
        AtMostHalf(stored.At(x, y), Pow2(fq));
      }
    }
  }

  lemma AtMostHalf(v: int, s: nat)
    requires s >= 1 && 2 * Abs(v * s) <= s
    ensures v == 0
  {
    if v > 0 {
      MulMonotone(1, v, s);
    } else if v < 0 {
      MulMonotone(v, -1, s);
    }
  }

  // ---- one tile --------------------------------------------------------------------------------------

  lemma PairLine(a: int, b: int)
    ensures ForwardLine([a, b]) == [a + (b - a + 1) / 2, b - a]
  {
  }

  lemma PairHalves(s: seq<int>)
    requires |s| == 2
    ensures Evens(s) == [s[0]] && Odds(s) == [s[1]]
  {
  }

  lemma TwoRows(x: seq<int>, y: seq<int>)
    requires |x| == |y| == 2 && HorizontalForward(Plane(2, 2, [x, y])).Ok?
    ensures var fx, fy := ForwardLine(x), ForwardLine(y);
            HorizontalForward(Plane(2, 2, [x, y])).value == (Plane(1, 2, [[fx[0]], [fy[0]]]), Plane(1, 2, [[fx[1]], [fy[1]]]))
  {
    hide ForwardLine, Evens, Odds;
    var p := Plane(2, 2, [x, y]);
    PairHalves(ForwardLine(x));
    PairHalves(ForwardLine(y));
    assert LowRow(p, 0) == [ForwardLine(x)[0]] && LowRow(p, 1) == [ForwardLine(y)[0]];
    assert HighRow(p, 0) == [ForwardLine(x)[1]] && HighRow(p, 1) == [ForwardLine(y)[1]];
    assert LowHalf(p).rows == [LowRow(p, 0), LowRow(p, 1)];
    assert HighHalf(p).rows == [HighRow(p, 0), HighRow(p, 1)];
  }

  lemma OneRow(x: seq<int>)
    requires |x| == 2 && HorizontalForward(Plane(2, 1, [x])).Ok?
    ensures HorizontalForward(Plane(2, 1, [x])).value == (Plane(1, 1, [[ForwardLine(x)[0]]]), Plane(1, 1, [[ForwardLine(x)[1]]]))
  {
    hide ForwardLine, Evens, Odds;
    var p := Plane(2, 1, [x]);
    PairHalves(ForwardLine(x));
    assert LowHalf(p).rows == [LowRow(p, 0)];
    assert HighHalf(p).rows == [HighRow(p, 0)];
  }

  lemma Transposed4(a: int, b: int, c: int, d: int)
    ensures Transpose(Plane(2, 2, [[a, b], [c, d]])) == Plane(2, 2, [[a, c], [b, d]])
  {
    var p := Plane(2, 2, [[a, b], [c, d]]);
    assert Planes.Column(p, 0) == [a, c] && Planes.Column(p, 1) == [b, d];
    assert Transpose(p).rows == [Planes.Column(p, 0), Planes.Column(p, 1)];
  }

  lemma Transposed2(a: int, b: int)
    ensures Transpose(Plane(1, 2, [[a], [b]])) == Plane(2, 1, [[a, b]])
  {
    var p := Plane(1, 2, [[a], [b]]);
    assert Planes.Column(p, 0) == [a, b];
    assert Transpose(p).rows == [Planes.Column(p, 0)];
  }

  /** Two by two samples: columns are filtered before rows. */
  lemma TwoByTwo(a: int, b: int, c: int, d: int)
    requires SplitLevel(Plane(2, 2, [[a, b], [c, d]])).Ok?
    ensures var left, right := a + (c - a + 1) / 2, b + (d - b + 1) / 2;
            var hl, hh := right - left, (d - b) - (c - a);
            SplitLevel(Plane(2, 2, [[a, b], [c, d]])).value ==
            Quad(Plane(1, 1, [[left + (hl + 1) / 2]]), Plane(1, 1, [[hl]]), Plane(1, 1, [[c - a + (hh + 1) / 2]]),
                 Plane(1, 1, [[hh]]))
  {
    hide ForwardLine, HorizontalForward, Transpose;
    Transposed4(a, b, c, d);
    PairLine(a, c);
    PairLine(b, d);
    TwoRows([a, c], [b, d]);
    var left, right := a + (c - a + 1) / 2, b + (d - b + 1) / 2;
    Transposed2(left, right);
    Transposed2(c - a, d - b);
    PairLine(left, right);
    PairLine(c - a, d - b);
    OneRow([left, right]);
    OneRow([c - a, d - b]);
  }
}
