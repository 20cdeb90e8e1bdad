// Two-dimensional sample planes shared by the codec stages.
module Planes {

  /** Row-major samples. */
  datatype Plane = Plane(width: nat, height: nat, rows: seq<seq<int>>) {
    predicate Ok() {
      && |rows| == height
      && forall y | 0 <= y < height :: |rows[y]| == width
    }

    function At(x: nat, y: nat): int
      requires Ok() && x < width && y < height
    {
      rows[y][x]
    }

    function Set(x: nat, y: nat, v: int): (p: Plane)
      requires Ok() && x < width && y < height
      ensures p.Ok() && p.width == width && p.height == height
      ensures forall x', y' | 0 <= x' < width && 0 <= y' < height ::
                p.At(x', y') == if x' == x && y' == y then v else At(x', y')
    {
      Plane(width, height, rows[y := rows[y][x := v]])
    }
  }

  /** All samples in the 32 bits of the planes. */
  predicate Fits(p: Plane)
    requires p.Ok()
  {
    forall y | 0 <= y < p.height :: RowFits(p.rows[y])
  }

  predicate RowFits(row: seq<int>) {
    forall x | 0 <= x < |row| :: IsInt32(row[x])
  }

  predicate IsInt32(v: int) {
    -0x8000_0000 <= v < 0x8000_0000
  }

  function Zeros(width: nat, height: nat): (p: Plane)
    ensures p.Ok() && p.width == width && p.height == height
    ensures forall x, y | 0 <= x < width && 0 <= y < height :: p.At(x, y) == 0
  {
    Plane(width, height, seq(height, y => seq(width, x => 0)))
  }

  lemma SamePlane(a: Plane, b: Plane)
    requires a.Ok() && b.Ok() && a.width == b.width && a.height == b.height
    requires forall x, y | 0 <= x < a.width && 0 <= y < a.height :: a.At(x, y) == b.At(x, y)
    ensures a == b
  {
    forall y | 0 <= y < a.height
      ensures a.rows[y] == b.rows[y]
    {
      forall x | 0 <= x < a.width
        ensures a.rows[y][x] == b.rows[y][x]
      {
        assert a.At(x, y) == b.At(x, y);
      }
    }
  }

  // ---- columns as rows -----------------------------------------------------------------------------

  function Column(p: Plane, x: nat): (c: seq<int>)
    requires p.Ok() && x < p.width
    ensures |c| == p.height
  {
    seq(p.height, y requires 0 <= y < p.height => p.At(x, y))
  }

  function Transpose(p: Plane): (t: Plane)
    requires p.Ok()
    ensures t.Ok() && t.width == p.height && t.height == p.width
    ensures forall x, y | 0 <= x < p.width && 0 <= y < p.height :: t.At(y, x) == p.At(x, y)
  {
    Plane(p.height, p.width, seq(p.width, x requires 0 <= x < p.width => Column(p, x)))
  }

  lemma TransposeTwice(p: Plane)
    requires p.Ok()
    ensures Transpose(Transpose(p)) == p
  {
    SamePlane(Transpose(Transpose(p)), p);
  }

  lemma TransposeFits(p: Plane)
    requires p.Ok()
    ensures Fits(Transpose(p)) == Fits(p)
  {
    if Fits(p) {
      FitsTransposed(p);
    }
    if Fits(Transpose(p)) {
      FitsTransposed(Transpose(p));
      TransposeTwice(p);
    }
  }

  lemma FitsTransposed(p: Plane)
    requires p.Ok() && Fits(p)
    ensures Fits(Transpose(p))
  {
    forall x, y | 0 <= x < p.width && 0 <= y < p.height
      ensures IsInt32(Transpose(p).rows[x][y])
    {
      assert RowFits(p.rows[y]) && IsInt32(p.rows[y][x]);
      assert Transpose(p).At(y, x) == p.At(x, y);
    }
  }
}
