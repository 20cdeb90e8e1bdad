// One level of the wavelet transform on planes (Tables E.3, E.4, E.10 and E.11).
module Wavelet {
  import opened Wrappers
  import opened Planes
  import opened Lifting

  // ---- interleaving --------------------------------------------------------------------------------

  function Evens(s: seq<int>): (r: seq<int>)
    ensures |r| == (|s| + 1) / 2
  {
    seq((|s| + 1) / 2, i requires 0 <= i < (|s| + 1) / 2 => s[2 * i])
  }

  function Odds(s: seq<int>): (r: seq<int>)
    ensures |r| == |s| / 2
  {
    seq(|s| / 2, i requires 0 <= i < |s| / 2 => s[2 * i + 1])
  }

  /** The low-pass band holds the even samples, one more than the high-pass band at most. */
  predicate Paired(low: nat, high: nat) {
    0 <= low - high <= 1 && low + high >= 2
  }

  function Interleave(low: seq<int>, high: seq<int>): (r: seq<int>)
    requires Paired(|low|, |high|)
    ensures |r| == |low| + |high|
  {
    seq(|low| + |high|, i requires 0 <= i < |low| + |high| => if i % 2 == 0 then low[i / 2] else high[i / 2])
  }

  lemma SplitJoined(low: seq<int>, high: seq<int>)
    requires Paired(|low|, |high|)
    ensures Evens(Interleave(low, high)) == low && Odds(Interleave(low, high)) == high
  {
    var s := Interleave(low, high);
    forall i | 0 <= i < |low|
      ensures Evens(s)[i] == low[i]
    {
      assert (2 * i) / 2 == i && (2 * i) % 2 == 0;
    }
    forall i | 0 <= i < |high|
      ensures Odds(s)[i] == high[i]
    {
      assert (2 * i + 1) / 2 == i && (2 * i + 1) % 2 == 1;
    }
  }

  lemma JoinSplit(s: seq<int>)
    requires |s| >= 2
    ensures Interleave(Evens(s), Odds(s)) == s
  {
  }

  lemma SplitFits(s: seq<int>)
    ensures RowFits(s) <==> RowFits(Evens(s)) && RowFits(Odds(s))
  {
    if RowFits(Evens(s)) && RowFits(Odds(s)) {
      forall x | 0 <= x < |s|
        ensures IsInt32(s[x])
      {
        assert s[x] == if x % 2 == 0 then Evens(s)[x / 2] else Odds(s)[x / 2];
      }
    }
  }

  // ---- rows ----------------------------------------------------------------------------------------

  function LowRow(p: Plane, y: nat): seq<int>
    requires p.Ok() && p.width >= 2 && y < p.height
  {
    Evens(ForwardLine(p.rows[y]))
  }

  function HighRow(p: Plane, y: nat): seq<int>
    requires p.Ok() && p.width >= 2 && y < p.height
  {
    Odds(ForwardLine(p.rows[y]))
  }

  function LowHalf(p: Plane): (r: Plane)
    requires p.Ok() && p.width >= 2
    ensures r.Ok()
  {
    Plane((p.width + 1) / 2, p.height, seq(p.height, y requires 0 <= y < p.height => LowRow(p, y)))
  }

  function HighHalf(p: Plane): (r: Plane)
    requires p.Ok() && p.width >= 2
    ensures r.Ok()
  {
    Plane(p.width / 2, p.height, seq(p.height, y requires 0 <= y < p.height => HighRow(p, y)))
  }

  /** Low-pass and high-pass halves of a band, filtered along its rows. */
  function HorizontalForward(p: Plane): (r: Result<(Plane, Plane)>)
    requires p.Ok()
    ensures r.Ok? ==> r.value.0.Ok() && r.value.1.Ok()
  {
    if p.width < 2 then Err(BadBand)
    else if Fits(LowHalf(p)) && Fits(HighHalf(p)) then Ok((LowHalf(p), HighHalf(p)))
    else Err(Overflow)
  }

  predicate RowsPaired(low: Plane, high: Plane) {
    low.height == high.height && Paired(low.width, high.width)
  }

  function JoinedRow(low: Plane, high: Plane, y: nat): seq<int>
    requires low.Ok() && high.Ok() && RowsPaired(low, high) && y < low.height
  {
    InverseLine(Interleave(low.rows[y], high.rows[y]))
  }

  function Joined(low: Plane, high: Plane): (r: Plane)
    requires low.Ok() && high.Ok() && RowsPaired(low, high)
    ensures r.Ok()
  {
    Plane(low.width + high.width, low.height, seq(low.height, y requires 0 <= y < low.height => JoinedRow(low, high, y)))
  }

  function HorizontalInverse(low: Plane, high: Plane): (r: Result<Plane>)
    requires low.Ok() && high.Ok()
    ensures r.Ok? ==> r.value.Ok()
  {
    if !RowsPaired(low, high) then Err(BadBand)
    else if Fits(Joined(low, high)) then Ok(Joined(low, high))
    else Err(Overflow)
  }

  /** Whatever the forward step returns, the inverse step turns back into the band it came from. */
  lemma HorizontalRestores(p: Plane)
    requires p.Ok() && Fits(p) && HorizontalForward(p).Ok?
    ensures var (low, high) := HorizontalForward(p).value; HorizontalInverse(low, high) == Ok(p)
  {
    hide ForwardLine, InverseLine, Evens, Odds, Interleave;
    var (low, high) := HorizontalForward(p).value;
    forall y | 0 <= y < p.height
      ensures JoinedRow(low, high, y) == p.rows[y]
    {
      JoinSplit(ForwardLine(p.rows[y]));
      LineReversible(p.rows[y]);
    }
    assert Joined(low, high) == p;
  }

  /** And the forward step undoes the inverse step. */
  lemma HorizontalSplitsAgain(low: Plane, high: Plane)
    requires low.Ok() && high.Ok() && Fits(low) && Fits(high) && HorizontalInverse(low, high).Ok?
    ensures HorizontalForward(HorizontalInverse(low, high).value) == Ok((low, high))
  {
    hide ForwardLine, InverseLine, Evens, Odds, Interleave;
    var p := Joined(low, high);
    forall y | 0 <= y < p.height
      ensures LowRow(p, y) == low.rows[y] && HighRow(p, y) == high.rows[y]
    {
      SplitJoined(low.rows[y], high.rows[y]);
      LineReversible(Interleave(low.rows[y], high.rows[y]));
    }
    assert LowHalf(p) == low && HighHalf(p) == high;
  }

  // ---- columns -------------------------------------------------------------------------------------

  /** The same along the columns. */
  function VerticalForward(p: Plane): (r: Result<(Plane, Plane)>)
    requires p.Ok()
    ensures r.Ok? ==> r.value.0.Ok() && r.value.1.Ok()
  {
    var (low, high) :- HorizontalForward(Transpose(p));
    Ok((Transpose(low), Transpose(high)))
  }

  function VerticalInverse(low: Plane, high: Plane): (r: Result<Plane>)
    requires low.Ok() && high.Ok()
    ensures r.Ok? ==> r.value.Ok()
  {
    var p :- HorizontalInverse(Transpose(low), Transpose(high));
    Ok(Transpose(p))
  }

  lemma VerticalRestores(p: Plane)
    requires p.Ok() && Fits(p) && VerticalForward(p).Ok?
    ensures var (low, high) := VerticalForward(p).value; VerticalInverse(low, high) == Ok(p)
  {
    hide HorizontalForward, HorizontalInverse, Transpose, Fits;
    TransposeFits(p);
    HorizontalRestores(Transpose(p));
    var (low, high) := HorizontalForward(Transpose(p)).value;
    TransposeTwice(low);
    TransposeTwice(high);
    TransposeTwice(p);
  }

  lemma VerticalSplitsAgain(low: Plane, high: Plane)
    requires low.Ok() && high.Ok() && Fits(low) && Fits(high) && VerticalInverse(low, high).Ok?
    ensures VerticalForward(VerticalInverse(low, high).value) == Ok((low, high))
  {
    hide HorizontalForward, HorizontalInverse, Transpose, Fits;
    TransposeFits(low);
    TransposeFits(high);
    HorizontalSplitsAgain(Transpose(low), Transpose(high));
    TransposeTwice(low);
    TransposeTwice(high);
    TransposeTwice(HorizontalInverse(Transpose(low), Transpose(high)).value);
  }

  /** Sizes and 32-bit range of what a step returns. */
  lemma HorizontalSizes(p: Plane)
    requires p.Ok() && HorizontalForward(p).Ok?
    ensures var (low, high) := HorizontalForward(p).value;
            && low.width == (p.width + 1) / 2 && high.width == p.width / 2 && low.height == high.height == p.height
            && Fits(low) && Fits(high)
  {
  }

  lemma VerticalSizes(p: Plane)
    requires p.Ok() && VerticalForward(p).Ok?
    ensures var (low, high) := VerticalForward(p).value;
            && low.height == (p.height + 1) / 2 && high.height == p.height / 2 && low.width == high.width == p.width
            && Fits(low) && Fits(high)
  {
    hide HorizontalForward, Fits;
    HorizontalSizes(Transpose(p));
    var (low, high) := HorizontalForward(Transpose(p)).value;
    TransposeFits(low);
    TransposeFits(high);
  }

  lemma InverseSizes(low: Plane, high: Plane)
    requires low.Ok() && high.Ok()
    ensures HorizontalInverse(low, high).Ok? ==>
              var p := HorizontalInverse(low, high).value; p.width == low.width + high.width && p.height == low.height && Fits(p)
    ensures VerticalInverse(low, high).Ok? ==>
              var p := VerticalInverse(low, high).value; p.height == low.height + high.height && p.width == low.width && Fits(p)
  {
    if VerticalInverse(low, high).Ok? {
      TransposeFits(HorizontalInverse(Transpose(low), Transpose(high)).value);
    }
  }

  // ---- the loops -----------------------------------------------------------------------------------

  /** One line through the work buffer: copy in, extend, filter. */
  method FilterLine(line: array<int>, x: seq<int>, forward: bool) returns (y: seq<int>)
    requires |x| >= 2 && IsLine(line, |x|)
    modifies line
    ensures y == if forward then ForwardLine(x) else InverseLine(x)
  {
    hide ForwardLine, InverseLine;
    var z := |x|;
    for i := 0 to z
      invariant line[2..i + 2] == x[..i]
    {
      line[i + 2] := x[i];
    }
    assert line[2..z + 2] == x;
    ExtendSamples(line, z);
    if forward {
      ForwardFilter(line, z);
    } else {
      InverseFilter(line, z);
    }
    y := line[2..z + 2];
  }

  /** Deals a filtered line out to both halves, narrowing every sample. */
  method Deal(y: seq<int>) returns (r: Result<(seq<int>, seq<int>)>)
    ensures r == if RowFits(y) then Ok((Evens(y), Odds(y))) else Err(Overflow)
  {
    var lo, hi := [], [];
    for i := 0 to |y|
      invariant |lo| == (i + 1) / 2 && |hi| == i / 2 && forall k | 0 <= k < i :: IsInt32(y[k])
      invariant forall k | 0 <= k < |lo| :: lo[k] == y[2 * k]
      invariant forall k | 0 <= k < |hi| :: hi[k] == y[2 * k + 1]
    {
      if !IsInt32(y[i]) {
        return Err(Overflow);
      }
      if i % 2 == 0 {
        lo := lo + [y[i]];
      } else {
        hi := hi + [y[i]];
      }
    }
    assert lo == Evens(y) && hi == Odds(y);
    return Ok((lo, hi));
  }

  method SplitRows(p: Plane) returns (r: Result<(Plane, Plane)>)
    requires p.Ok()
    ensures r == HorizontalForward(p)
  {
    hide ForwardLine, Evens, Odds;
    if p.width < 2 {
      return Err(BadBand);
    }
    var line := new int[p.width + 4];
    var lows, highs := [], [];
    for y := 0 to p.height
      invariant |lows| == |highs| == y
      invariant forall k | 0 <= k < y :: lows[k] == LowRow(p, k) && RowFits(lows[k])
      invariant forall k | 0 <= k < y :: highs[k] == HighRow(p, k) && RowFits(highs[k])
    {
      var filtered := FilterLine(line, p.rows[y], true);
      SplitFits(filtered);
      var dealt := Deal(filtered);
      if dealt.Err? {
        assert LowHalf(p).rows[y] == LowRow(p, y) && HighHalf(p).rows[y] == HighRow(p, y);
        return Err(Overflow);
      }
      lows, highs := lows + [dealt.value.0], highs + [dealt.value.1];
    }
    assert lows == LowHalf(p).rows && highs == HighHalf(p).rows;
    return Ok((Plane((p.width + 1) / 2, p.height, lows), Plane(p.width / 2, p.height, highs)));
  }

  method JoinRows(low: Plane, high: Plane) returns (r: Result<Plane>)
    requires low.Ok() && high.Ok()
    ensures r == HorizontalInverse(low, high)
  {
    hide InverseLine;
    if low.height != high.height || low.width < high.width || low.width - high.width > 1 || low.width + high.width < 2 {
      return Err(BadBand);
    }
    var w := low.width + high.width;
    var line := new int[w + 4];
    var rows := [];
    for y := 0 to low.height
      invariant |rows| == y
      invariant forall k | 0 <= k < y :: rows[k] == JoinedRow(low, high, k) && RowFits(rows[k])
    {
      var x := [];
      for i := 0 to w
        invariant x == Interleave(low.rows[y], high.rows[y])[..i]
      {
        x := x + [if i % 2 == 0 then low.rows[y][i / 2] else high.rows[y][i / 2]];
      }
      assert x == Interleave(low.rows[y], high.rows[y]);
      var row := FilterLine(line, x, false);
      if !RowFits(row) {
        assert Joined(low, high).rows[y] == row;
        return Err(Overflow);
      }
      rows := rows + [row];
    }
    assert rows == Joined(low, high).rows;
    return Ok(Plane(w, low.height, rows));
  }

  /** Column x of the plane replaced. */
  method WriteColumn(p: Plane, x: nat, column: seq<int>) returns (r: Plane)
    requires p.Ok() && x < p.width && |column| == p.height
    ensures r.Ok() && r.width == p.width && r.height == p.height
    ensures forall x', y | 0 <= x' < p.width && 0 <= y < p.height ::
              r.At(x', y) == if x' == x then column[y] else p.At(x', y)
  {
    r := p;
    for i := 0 to p.height
      invariant r.Ok() && r.width == p.width && r.height == p.height
      invariant forall x', y | 0 <= x' < p.width && 0 <= y < p.height ::
                  r.At(x', y) == if x' == x && y < i then column[y] else p.At(x', y)
    {
      r := r.Set(x, i, column[i]);
    }
  }

  /** The first n columns of p are these lines. */
  ghost predicate ColumnsAre(p: Plane, n: nat, lines: seq<seq<int>>)
    requires p.Ok() && n <= p.width
  {
    && |lines| >= n
    && forall x | 0 <= x < n :: |lines[x]| == p.height && forall y | 0 <= y < p.height :: p.At(x, y) == lines[x][y]
  }

  lemma ColumnsWritten(p: Plane, q: Plane, x: nat, column: seq<int>, lines: seq<seq<int>>)
    requires p.Ok() && q.Ok() && x < p.width == q.width && p.height == q.height == |column|
    requires forall x', y | 0 <= x' < p.width && 0 <= y < p.height :: q.At(x', y) == if x' == x then column[y] else p.At(x', y)
    requires ColumnsAre(p, x, lines) && |lines| > x && lines[x] == column
    ensures ColumnsAre(q, x + 1, lines)
  {
    forall x', y | 0 <= x' < x + 1 && 0 <= y < q.height
      ensures |lines[x']| == q.height && q.At(x', y) == lines[x'][y]
    {
      if x' < x {
        assert p.At(x', y) == lines[x'][y];
      }
    }
    assert q.height > 0 || forall x' | 0 <= x' < x + 1 :: |lines[x']| == q.height;
  }

  lemma AllColumns(p: Plane, t: Plane)
    requires p.Ok() && t.Ok() && p.width == t.height && p.height == t.width && ColumnsAre(p, p.width, t.rows)
    ensures p == Transpose(t)
  {
    forall x, y | 0 <= x < p.width && 0 <= y < p.height
      ensures p.At(x, y) == Transpose(t).At(x, y)
    {
      assert t.At(y, x) == t.rows[x][y];
    }
    SamePlane(p, Transpose(t));
  }

  method SplitColumns(p: Plane) returns (r: Result<(Plane, Plane)>)
    requires p.Ok()
    ensures r == VerticalForward(p)
  {
    hide ForwardLine, Evens, Odds, Column, ColumnsAre;
    if p.height < 2 {
      return Err(BadBand);
    }
    ghost var t := Transpose(p);
    ghost var lows, highs := LowHalf(t), HighHalf(t);
    var low, high := Zeros(p.width, (p.height + 1) / 2), Zeros(p.width, p.height / 2);
    var line := new int[p.height + 4];
    assert ColumnsAre(low, 0, lows.rows) && ColumnsAre(high, 0, highs.rows) by {
      NoColumns(low, lows.rows);
      NoColumns(high, highs.rows);
    }
    for x := 0 to p.width
      invariant low.Ok() && low.width == p.width && low.height == lows.width
      invariant high.Ok() && high.width == p.width && high.height == highs.width
      invariant ColumnsAre(low, x, lows.rows) && ColumnsAre(high, x, highs.rows)
      invariant forall k | 0 <= k < x :: RowFits(lows.rows[k]) && RowFits(highs.rows[k])
    {
      var column := Column(p, x);
      var filtered := FilterLine(line, column, true);
      SplitFits(filtered);
      assert t.rows[x] == column && lows.rows[x] == LowRow(t, x) && highs.rows[x] == HighRow(t, x);
      var dealt := Deal(filtered);
      if dealt.Err? {
        return Err(Overflow);
      }
      var low', high' := low, high;
      low := WriteColumn(low, x, dealt.value.0);
      high := WriteColumn(high, x, dealt.value.1);
      ColumnsWritten(low', low, x, dealt.value.0, lows.rows);
      ColumnsWritten(high', high, x, dealt.value.1, highs.rows);
    }
    AllColumns(low, lows);
    AllColumns(high, highs);
    return Ok((low, high));
  }

  lemma NoColumns(p: Plane, lines: seq<seq<int>>)
    requires p.Ok()
    ensures ColumnsAre(p, 0, lines)
  {
  }

  method JoinColumns(low: Plane, high: Plane) returns (r: Result<Plane>)
    requires low.Ok() && high.Ok()
    ensures r == VerticalInverse(low, high)
  {
    hide InverseLine, Interleave, Column, ColumnsAre;
    if low.width != high.width || low.height < high.height || low.height - high.height > 1 || low.height + high.height < 2 {
      return Err(BadBand);
    }
    ghost var tl, th := Transpose(low), Transpose(high);
    ghost var whole := Joined(tl, th);
    var h := low.height + high.height;
    var out := Zeros(low.width, h);
    var line := new int[h + 4];
    NoColumns(out, whole.rows);
    for x := 0 to low.width
      invariant out.Ok() && out.width == low.width && out.height == h
      invariant ColumnsAre(out, x, whole.rows)
      invariant forall k | 0 <= k < x :: RowFits(whole.rows[k])
    {
      var column := Interleave(Column(low, x), Column(high, x));
      var filtered := FilterLine(line, column, false);
      assert tl.rows[x] == Column(low, x) && th.rows[x] == Column(high, x) && whole.rows[x] == JoinedRow(tl, th, x);
      if !RowFits(filtered) {
        return Err(Overflow);
      }
      var out' := out;
      out := WriteColumn(out, x, filtered);
      ColumnsWritten(out', out, x, filtered, whole.rows);
    }
    AllColumns(out, whole);
    return Ok(out);
  }
}
