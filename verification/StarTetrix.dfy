// Star-Tetrix lifting over a Bayer mosaic (F.5): neighbour access with edge reflection, lifting steps
// and the order in which they undo each other.
module StarTetrix {
  import opened Wrappers
  import opened Arith
  import opened Planes

  /** Four component planes, one per sub-pixel: 0 = Ya, 1 = Cb, 2 = Cr, 3 = Delta when coded. */
  type Mosaic = seq<Plane>

  /** Size, transform type, chroma exponents and CFA pattern type. */
  datatype Tetrix = Tetrix(wf: nat, hf: nat, cf: nat, e1: nat, e2: nat, ct: nat) {
    predicate Ok() {
      wf >= 1 && hf >= 1 && ct <= 1
    }

    /** Displacement of a component in the super pixel (Table F.10). */
    function Dx(c: nat): (d: nat)
      ensures d <= 1
    {
      if (c % 2 == 0) == (ct == 0) then 0 else 1
    }

    function Dy(c: nat): (d: nat)
      ensures d <= 1
    {
      if c < 2 then 1 else 0
    }

    /** Component at a sub-pixel (Table F.11). */
    function At(dx: nat, dy: nat): (c: nat)
      ensures c < 4
    {
      (if dy == 1 then 0 else 2) + if dx == Dx(0) then 0 else 1
    }

    predicate Holds(planes: Mosaic) {
      |planes| >= 4 && forall c | 0 <= c < 4 :: planes[c].Ok() && planes[c].width == wf && planes[c].height == hf
    }
  }

  /** The sub-pixel table inverts the displacements. */
  lemma SubPixels(st: Tetrix, c: nat)
    requires st.Ok() && c < 4
    ensures st.At(st.Dx(c), st.Dy(c)) == c
    ensures forall dx: nat, dy: nat | dx <= 1 && dy <= 1 :: st.Dx(st.At(dx, dy)) == dx && st.Dy(st.At(dx, dy)) == dy
  {
  }

  // ---- neighbours ------------------------------------------------------------------------------------

  datatype Ref = Ref(c: nat, x: int, y: int)

  /** Sub-pixel neighbour (rx, ry) of component c at super pixel (x, y), mirrored at the edges (Table F.12). */
  function Access(st: Tetrix, c: nat, x: nat, y: nat, rx: int, ry: int): Ref {
    var dx, dy := st.Dx(c), st.Dy(c);
    var rx' := if 2 * x + rx + dx < 0 || 2 * x + rx + dx >= 2 * st.wf then -rx else rx;
    var ry' := if (st.cf == 3 && ry + dy < 0) || (st.cf == 3 && ry + dy > 1) || 2 * y + ry + dy < 0 || 2 * y + ry + dy >= 2 * st.hf
               then -ry else ry;
    Ref(st.At((rx' + dx) % 2, (ry' + dy) % 2), (2 * x + rx' + dx) / 2, (2 * y + ry' + dy) / 2)
  }

  /** A direct or diagonal neighbour. */
  predicate Near(rx: int, ry: int) {
    -1 <= rx <= 1 && -1 <= ry <= 1 && (rx, ry) != (0, 0)
  }

  /** The component a neighbour lives in: parity decides, and reflection keeps parity. */
  function Neighbour(st: Tetrix, c: nat, rx: int, ry: int): (n: nat)
    ensures n < 4
  {
    st.At((rx + st.Dx(c)) % 2, (ry + st.Dy(c)) % 2)
  }

  /** Access lands inside the planes, in another component, and for Cf = 3 in the same super-pixel row. */
  lemma AccessInside(st: Tetrix, c: nat, x: nat, y: nat, rx: int, ry: int)
    requires st.Ok() && c < 4 && x < st.wf && y < st.hf && Near(rx, ry)
    ensures var r := Access(st, c, x, y, rx, ry);
            && 0 <= r.x < st.wf && 0 <= r.y < st.hf
            && r.c == Neighbour(st, c, rx, ry) != c
            && (st.cf == 3 ==> r.y == y)
  {
  }

  // ---- one lifting step ------------------------------------------------------------------------------

  /** A neighbour and its weight 2^shift. */
  datatype Tap = Tap(rx: int, ry: int, shift: nat)

  predicate TapsOk(taps: seq<Tap>) {
    forall i | 0 <= i < |taps| :: Near(taps[i].rx, taps[i].ry)
  }

  /** Component c plus or minus floor(weighted sum / 2^divisor) of its neighbours. */
  datatype Step = Step(c: nat, taps: seq<Tap>, divisor: nat, add: bool) {
    predicate Ok() {
      c < 4 && TapsOk(taps)
    }

    function Undo(): Step {
      Step(c, taps, divisor, !add)
    }
  }

  function Sum(st: Tetrix, c: nat, x: nat, y: nat, taps: seq<Tap>, planes: Mosaic): int
    requires st.Ok() && c < 4 && x < st.wf && y < st.hf && TapsOk(taps) && st.Holds(planes)
  {
    if taps == [] then 0 else
    var t := taps[0];
    AccessInside(st, c, x, y, t.rx, t.ry);
    var r := Access(st, c, x, y, t.rx, t.ry);
    planes[r.c].At(r.x, r.y) * Pow2(t.shift) + Sum(st, c, x, y, taps[1..], planes)
  }

  function Correction(st: Tetrix, s: Step, x: nat, y: nat, planes: Mosaic): int
    requires st.Ok() && s.Ok() && x < st.wf && y < st.hf && st.Holds(planes)
  {
    Sum(st, s.c, x, y, s.taps, planes) / Pow2(s.divisor)
  }

  function Lifted(st: Tetrix, s: Step, x: nat, y: nat, planes: Mosaic): int
    requires st.Ok() && s.Ok() && x < st.wf && y < st.hf && st.Holds(planes)
  {
    planes[s.c].At(x, y) + if s.add then Correction(st, s, x, y, planes) else -Correction(st, s, x, y, planes)
  }

  function LiftedRow(st: Tetrix, s: Step, y: nat, planes: Mosaic): (r: seq<int>)
    requires st.Ok() && s.Ok() && y < st.hf && st.Holds(planes)
    ensures |r| == st.wf
  {
    seq(st.wf, x requires 0 <= x < st.wf => Lifted(st, s, x, y, planes))
  }

  /** The target plane after the step, every sample from the planes before it: the two-array form. */
  function LiftedPlane(st: Tetrix, s: Step, planes: Mosaic): (p: Plane)
    requires st.Ok() && s.Ok() && st.Holds(planes)
    ensures p.Ok() && p.width == st.wf && p.height == st.hf
  {
    Plane(st.wf, st.hf, seq(st.hf, y requires 0 <= y < st.hf => LiftedRow(st, s, y, planes)))
  }

  function Lift(st: Tetrix, s: Step, planes: Mosaic): (r: Result<Mosaic>)
    requires st.Ok() && s.Ok() && st.Holds(planes)
    ensures r.Ok? ==> st.Holds(r.value) && |r.value| == |planes|
  {
    if Fits(LiftedPlane(st, s, planes)) then Ok(planes[s.c := LiftedPlane(st, s, planes)]) else Err(Overflow)
  }

  function Run(st: Tetrix, steps: seq<Step>, planes: Mosaic): (r: Result<Mosaic>)
    requires st.Ok() && (forall i | 0 <= i < |steps| :: steps[i].Ok()) && st.Holds(planes)
    ensures r.Ok? ==> st.Holds(r.value) && |r.value| == |planes|
  {
    if steps == [] then Ok(planes) else
    var next :- Lift(st, steps[0], planes);
    Run(st, steps[1..], next)
  }

  // ---- what a step reads -----------------------------------------------------------------------------

  /** Component n is read by the step. */
  predicate Reads(st: Tetrix, c: nat, taps: seq<Tap>, n: nat) {
    exists i | 0 <= i < |taps| :: Neighbour(st, c, taps[i].rx, taps[i].ry) == n
  }

  lemma {:induction false} SumReads(st: Tetrix, c: nat, x: nat, y: nat, taps: seq<Tap>, planes: Mosaic, other: Mosaic)
    requires st.Ok() && c < 4 && x < st.wf && y < st.hf && TapsOk(taps) && st.Holds(planes) && st.Holds(other)
    requires forall n: nat | n < 4 && Reads(st, c, taps, n) :: other[n] == planes[n]
    ensures Sum(st, c, x, y, taps, other) == Sum(st, c, x, y, taps, planes)
  {
    hide Access, Neighbour, Near, Pow2;
    if taps != [] {
      AccessInside(st, c, x, y, taps[0].rx, taps[0].ry);
      assert Reads(st, c, taps, Neighbour(st, c, taps[0].rx, taps[0].ry));
      forall n: nat | n < 4 && Reads(st, c, taps[1..], n)
        ensures other[n] == planes[n]
      {
        var i :| 0 <= i < |taps[1..]| && Neighbour(st, c, taps[1..][i].rx, taps[1..][i].ry) == n;
        assert taps[1..][i] == taps[i + 1];
        assert Reads(st, c, taps, n);
      }
      SumReads(st, c, x, y, taps[1..], planes, other);
    }
  }

  /** The step's own component is not among those it reads, so it may be updated in place. */
  lemma TargetUnread(st: Tetrix, s: Step)
    requires st.Ok() && s.Ok()
    ensures !Reads(st, s.c, s.taps, s.c)
  {
    forall i | 0 <= i < |s.taps|
      ensures Neighbour(st, s.c, s.taps[i].rx, s.taps[i].ry) != s.c
    {
      AccessInside(st, s.c, 0, 0, s.taps[i].rx, s.taps[i].ry);
    }
  }

  lemma CorrectionReads(st: Tetrix, s: Step, x: nat, y: nat, planes: Mosaic, other: Mosaic)
    requires st.Ok() && s.Ok() && x < st.wf && y < st.hf && st.Holds(planes) && st.Holds(other)
    requires forall n: nat | n < 4 && Reads(st, s.c, s.taps, n) :: other[n] == planes[n]
    ensures Correction(st, s, x, y, other) == Correction(st, s, x, y, planes)
  {
    SumReads(st, s.c, x, y, s.taps, planes, other);
  }

  // ---- undoing and exchanging steps ------------------------------------------------------------------

  ghost predicate AllFit(planes: Mosaic, n: nat) {
    n <= |planes| && forall c | 0 <= c < n :: planes[c].Ok() && Fits(planes[c])
  }

  lemma LiftKeepsFit(st: Tetrix, s: Step, planes: Mosaic, n: nat)
    requires st.Ok() && s.Ok() && st.Holds(planes) && AllFit(planes, n) && Lift(st, s, planes).Ok?
    ensures AllFit(Lift(st, s, planes).value, n)
  {
  }

  lemma LiftUndone(st: Tetrix, s: Step, planes: Mosaic)
    requires st.Ok() && s.Ok() && st.Holds(planes) && Fits(planes[s.c]) && Lift(st, s, planes).Ok?
    ensures Lift(st, s.Undo(), Lift(st, s, planes).value) == Ok(planes)
  {
    hide Correction, Reads, Fits;
    var next := Lift(st, s, planes).value;
    TargetUnread(st, s);
    forall x, y | 0 <= x < st.wf && 0 <= y < st.hf
      ensures LiftedPlane(st, s.Undo(), next).At(x, y) == planes[s.c].At(x, y)
    {
      CorrectionReads(st, s, x, y, planes, next);
      assert next[s.c].At(x, y) == Lifted(st, s, x, y, planes);
      SameCorrection(st, s, x, y, next);
    }
    SamePlane(LiftedPlane(st, s.Undo(), next), planes[s.c]);
    assert next[s.c := planes[s.c]] == planes;
  }

  lemma SameCorrection(st: Tetrix, s: Step, x: nat, y: nat, planes: Mosaic)
    requires st.Ok() && s.Ok() && x < st.wf && y < st.hf && st.Holds(planes)
    ensures Correction(st, s.Undo(), x, y, planes) == Correction(st, s, x, y, planes)
  {
  }

  /** Neither step reads what the other writes. */
  predicate Independent(st: Tetrix, s: Step, t: Step) {
    s.c != t.c && !Reads(st, s.c, s.taps, t.c) && !Reads(st, t.c, t.taps, s.c)
  }

  lemma LiftUnaffected(st: Tetrix, s: Step, planes: Mosaic, other: Mosaic)
    requires st.Ok() && s.Ok() && st.Holds(planes) && st.Holds(other) && other[s.c] == planes[s.c]
    requires forall n: nat | n < 4 && Reads(st, s.c, s.taps, n) :: other[n] == planes[n]
    ensures LiftedPlane(st, s, other) == LiftedPlane(st, s, planes)
  {
    hide Correction, Reads;
    forall x, y | 0 <= x < st.wf && 0 <= y < st.hf
      ensures LiftedPlane(st, s, other).At(x, y) == LiftedPlane(st, s, planes).At(x, y)
    {
      CorrectionReads(st, s, x, y, planes, other);
    }
    SamePlane(LiftedPlane(st, s, other), LiftedPlane(st, s, planes));
  }

  /** Independent steps may be undone in the order they were done. */
  lemma PairUndone(st: Tetrix, s: Step, t: Step, planes: Mosaic)
    requires st.Ok() && s.Ok() && t.Ok() && st.Holds(planes) && AllFit(planes, 4) && Independent(st, s, t)
    requires Run(st, [s, t], planes).Ok?
    ensures Run(st, [s.Undo(), t.Undo()], Run(st, [s, t], planes).value) == Ok(planes)
  {
    hide LiftedPlane, Reads, Fits;
    RunPair(st, s, t, planes);
    var once := Lift(st, s, planes).value;
    var twice := Lift(st, t, once).value;
    LiftUnaffected(st, t, planes, once);
    var half := planes[t.c := LiftedPlane(st, t, planes)];
    assert Lift(st, t, planes) == Ok(half);
    LiftUnaffected(st, s, planes, half);
    assert Lift(st, s, half) == Ok(half[s.c := LiftedPlane(st, s, planes)]);
    assert half[s.c := LiftedPlane(st, s, planes)] == twice;
    LiftUndone(st, s, half);
    LiftUndone(st, t, planes);
    RunPair(st, s.Undo(), t.Undo(), twice);
  }

  lemma RunPair(st: Tetrix, s: Step, t: Step, planes: Mosaic)
    requires st.Ok() && s.Ok() && t.Ok() && st.Holds(planes)
    ensures Run(st, [s, t], planes) ==
            match Lift(st, s, planes)
            case Ok(once) => Lift(st, t, once)
            case Err(e) => Err(e)
  {
    hide Lift, Step.Ok;
    var steps := [s, t];
    assert steps[1..] == [t] && steps[1..][1..] == [];
    if Lift(st, s, planes).Ok? {
      RunOne(st, t, Lift(st, s, planes).value);
    }
  }

  lemma RunOne(st: Tetrix, s: Step, planes: Mosaic)
    requires st.Ok() && s.Ok() && st.Holds(planes)
    ensures Run(st, [s], planes) == Lift(st, s, planes)
  {
    hide Lift, Step.Ok;
    assert [s][1..] == [];
  }

  // ---- rows ------------------------------------------------------------------------------------------

  /** Both mosaics have the same samples in super-pixel row y. */
  ghost predicate SameRow(st: Tetrix, y: nat, planes: Mosaic, other: Mosaic)
    requires st.Holds(planes) && st.Holds(other) && y < st.hf
  {
    forall c: nat, x: nat | c < 4 && x < st.wf :: other[c].At(x, y) == planes[c].At(x, y)
  }

  lemma {:induction false} SumOfRow(st: Tetrix, c: nat, x: nat, y: nat, taps: seq<Tap>, planes: Mosaic, other: Mosaic)
    requires st.Ok() && st.cf == 3 && c < 4 && x < st.wf && y < st.hf && TapsOk(taps) && st.Holds(planes) && st.Holds(other)
    requires SameRow(st, y, planes, other)
    ensures Sum(st, c, x, y, taps, other) == Sum(st, c, x, y, taps, planes)
  {
    hide Access, Neighbour, Near, Pow2;
    if taps != [] {
      AccessInside(st, c, x, y, taps[0].rx, taps[0].ry);
      SumOfRow(st, c, x, y, taps[1..], planes, other);
    }
  }

  lemma LiftOfRow(st: Tetrix, s: Step, y: nat, planes: Mosaic, other: Mosaic)
    requires st.Ok() && st.cf == 3 && s.Ok() && y < st.hf && st.Holds(planes) && st.Holds(other) && SameRow(st, y, planes, other)
    requires Lift(st, s, planes).Ok? && Lift(st, s, other).Ok?
    ensures SameRow(st, y, Lift(st, s, planes).value, Lift(st, s, other).value)
  {
    hide Sum, Fits;
    var a, b := Lift(st, s, planes).value, Lift(st, s, other).value;
    forall c: nat, x: nat | c < 4 && x < st.wf
      ensures b[c].At(x, y) == a[c].At(x, y)
    {
      if c == s.c {
        SumOfRow(st, c, x, y, s.taps, planes, other);
        assert a[c].At(x, y) == Lifted(st, s, x, y, planes) && b[c].At(x, y) == Lifted(st, s, x, y, other);
      }
    }
  }

  /** With Cf = 3 each super-pixel row is transformed independently of all others. */
  lemma {:induction false} RunOfRow(st: Tetrix, steps: seq<Step>, y: nat, planes: Mosaic, other: Mosaic)
    requires st.Ok() && st.cf == 3 && (forall i | 0 <= i < |steps| :: steps[i].Ok()) && y < st.hf
    requires st.Holds(planes) && st.Holds(other) && SameRow(st, y, planes, other)
    requires Run(st, steps, planes).Ok? && Run(st, steps, other).Ok?
    ensures SameRow(st, y, Run(st, steps, planes).value, Run(st, steps, other).value)
  {
    hide Lift, Step.Ok, SameRow;
    if steps != [] {
      LiftOfRow(st, steps[0], y, planes, other);
      RunOfRow(st, steps[1..], y, Lift(st, steps[0], planes).value, Lift(st, steps[0], other).value);
    }
  }
}
