// What the multi-component transforms make of simple pictures: mosaics that vary along rows only, mosaics of four
// constant colours, and pictures of equal components. Reversibility alone would not tell their weights.
module ColourMeaning {
  import opened Wrappers
  import opened Arith
  import opened HeaderTypes
  import opened Planes
  import opened StarTetrix
  import opened MultiComponent

  // ---- where neighbours are --------------------------------------------------------------------------

  /** Position of a sub-pixel in the mosaic. */
  function PosX(st: Tetrix, c: nat, x: int): int {
    2 * x + st.Dx(c)
  }

  function PosY(st: Tetrix, c: nat, y: int): int {
    2 * y + st.Dy(c)
  }

  /** A neighbour beyond the mosaic, or for Cf = 3 beyond its row of super pixels, is mirrored at the sample itself. */
  function Mirrored(at: int, r: int, low: int, end: int): int {
    if low <= at + r < end then at + r else at - r
  }

  /** Access finds the sub-pixel at the neighbouring position of the mosaic. */
  lemma AccessIsNeighbour(st: Tetrix, c: nat, x: nat, y: nat, rx: int, ry: int)
    requires st.Ok() && c < 4 && x < st.wf && y < st.hf && Near(rx, ry)
    ensures var r := Access(st, c, x, y, rx, ry);
            && r.c < 4
            && PosX(st, r.c, r.x) == Mirrored(PosX(st, c, x), rx, 0, 2 * st.wf)
            && PosY(st, r.c, r.y) == if st.cf == 3 then Mirrored(PosY(st, c, y), ry, 2 * y, 2 * y + 2)
                                     else Mirrored(PosY(st, c, y), ry, 0, 2 * st.hf)
  {
  }

  // ---- mosaics that vary along rows only -------------------------------------------------------------

  predicate RowsAre(p: Plane, row: seq<int>) {
    |row| == p.width && forall y | 0 <= y < |p.rows| :: p.rows[y] == row
  }

  /** The four planes repeat these four rows. */
  ghost predicate Along(st: Tetrix, planes: Mosaic, rows: seq<seq<int>>) {
    st.Holds(planes) && |rows| == 4 && forall c | 0 <= c < 4 :: |rows[c]| == st.wf && RowsAre(planes[c], rows[c])
  }

  /** The super pixel on whose side component c lies, mirrored at the edges. */
  function Other(st: Tetrix, c: nat, x: nat): (o: nat)
    requires x < st.wf
    ensures o < st.wf
  {
    if st.Dx(c) == 0 then (if x == 0 then x else x - 1) else if x + 1 < st.wf then x + 1 else x
  }

  /** Both horizontal neighbours of component c in a row of another component. */
  function Beside(st: Tetrix, c: nat, row: seq<int>, x: nat): int
    requires x < st.wf == |row|
  {
    row[x] + row[Other(st, c, x)]
  }

  lemma AccessAlong(st: Tetrix, c: nat, x: nat, y: nat, rx: int, ry: int)
    requires st.Ok() && c < 4 && x < st.wf && y < st.hf && Near(rx, ry)
    ensures var r := Access(st, c, x, y, rx, ry);
            && r.c == (if rx == 0 then (c + 2) % 4 else if ry == 0 then (if c % 2 == 0 then c + 1 else c - 1) else 3 - c)
            && 0 <= r.x < st.wf && 0 <= r.y < st.hf
            && r.x == if rx == 0 || (rx == 1) == (st.Dx(c) == 0) then x else Other(st, c, x)
  {
  }

  /** The sample a tap reads. */
  function TapValue(st: Tetrix, c: nat, x: nat, t: Tap, rows: seq<seq<int>>): int
    requires c < 4 && x < st.wf && |rows| == 4 && (forall k | 0 <= k < 4 :: |rows[k]| == st.wf)
  {
    var n := if t.rx == 0 then (c + 2) % 4 else if t.ry == 0 then (if c % 2 == 0 then c + 1 else c - 1) else 3 - c;
    rows[n][if t.rx == 0 || (t.rx == 1) == (st.Dx(c) == 0) then x else Other(st, c, x)] * Pow2(t.shift)
  }

  lemma SumAlong(st: Tetrix, c: nat, x: nat, y: nat, taps: seq<Tap>, planes: Mosaic, rows: seq<seq<int>>)
    requires st.Ok() && c < 4 && x < st.wf && y < st.hf && TapsOk(taps) && Along(st, planes, rows) && |taps| == 4
    ensures Sum(st, c, x, y, taps, planes) ==
            TapValue(st, c, x, taps[0], rows) + TapValue(st, c, x, taps[1], rows) + TapValue(st, c, x, taps[2], rows)
            + TapValue(st, c, x, taps[3], rows)
  {
    hide Sum, Access, Near, Pow2;
    SumStep(st, c, x, y, taps, planes, rows);
    SumStep(st, c, x, y, taps[1..], planes, rows);
    SumStep(st, c, x, y, taps[1..][1..], planes, rows);
    SumStep(st, c, x, y, taps[1..][1..][1..], planes, rows);
    var last := taps[1..][1..][1..];
    assert last[0] == taps[3] && last[1..] == [];
    NoTaps(st, c, x, y, planes);
  }

  lemma NoTaps(st: Tetrix, c: nat, x: nat, y: nat, planes: Mosaic)
    requires st.Ok() && c < 4 && x < st.wf && y < st.hf && st.Holds(planes)
    ensures Sum(st, c, x, y, [], planes) == 0
  {
  }

  lemma SumStep(st: Tetrix, c: nat, x: nat, y: nat, taps: seq<Tap>, planes: Mosaic, rows: seq<seq<int>>)
    requires st.Ok() && c < 4 && x < st.wf && y < st.hf && TapsOk(taps) && Along(st, planes, rows) && taps != []
    ensures TapsOk(taps[1..])
    ensures Sum(st, c, x, y, taps, planes) == TapValue(st, c, x, taps[0], rows) + Sum(st, c, x, y, taps[1..], planes)
  {
    hide Access, Near, Pow2;
    var t := taps[0];
    AccessAlong(st, c, x, y, t.rx, t.ry);
    var r := Access(st, c, x, y, t.rx, t.ry);
    assert RowsAre(planes[r.c], rows[r.c]);
  }

  /** A row after a step, given what the step adds at each super pixel. */
  lemma LiftAlong(st: Tetrix, s: Step, planes: Mosaic, rows: seq<seq<int>>, row: seq<int>)
    requires st.Ok() && s.Ok() && Along(st, planes, rows) && |s.taps| == 4 && Lift(st, s, planes).Ok? && |row| == st.wf
    requires forall x | 0 <= x < st.wf ::
               row[x] == rows[s.c][x] + (if s.add then 1 else -1) * (TapSum(st, s.c, x, s.taps, rows) / Pow2(s.divisor))
    ensures Along(st, Lift(st, s, planes).value, rows[s.c := row])
    ensures Lift(st, s, planes).value[4..] == planes[4..]
  {
    hide Sum, Pow2, Fits, TapSum;
    var p := LiftedPlane(st, s, planes);
    forall y: nat | y < st.hf
      ensures p.rows[y] == row
    {
      forall x: nat | x < st.wf
        ensures p.rows[y][x] == row[x]
      {
        SumAlong(st, s.c, x, y, s.taps, planes, rows);
        TapSumIs(st, s.c, x, s.taps, rows);
        assert RowsAre(planes[s.c], rows[s.c]);
      }
    }
  }

  function TapSum(st: Tetrix, c: nat, x: nat, taps: seq<Tap>, rows: seq<seq<int>>): int
    requires c < 4 && x < st.wf && |rows| == 4 && (forall k | 0 <= k < 4 :: |rows[k]| == st.wf) && |taps| == 4
  {
    TapValue(st, c, x, taps[0], rows) + TapValue(st, c, x, taps[1], rows) + TapValue(st, c, x, taps[2], rows)
    + TapValue(st, c, x, taps[3], rows)
  }

  lemma TapSumIs(st: Tetrix, c: nat, x: nat, taps: seq<Tap>, rows: seq<seq<int>>)
    requires c < 4 && x < st.wf && |rows| == 4 && (forall k | 0 <= k < 4 :: |rows[k]| == st.wf) && |taps| == 4
    ensures TapSum(st, c, x, taps, rows) ==
            TapValue(st, c, x, taps[0], rows) + TapValue(st, c, x, taps[1], rows) + TapValue(st, c, x, taps[2], rows)
            + TapValue(st, c, x, taps[3], rows)
  {
  }

  // ---- the six steps along rows ----------------------------------------------------------------------

  /** Blue less the mean of its four greens, G2 beside it and G1 above and below; red with the greens exchanged. */
  function CbRow(st: Tetrix, b: seq<int>, g1: seq<int>, g2: seq<int>): (r: seq<int>)
    requires |b| == |g1| == |g2| == st.wf
    ensures |r| == st.wf
  {
    seq(st.wf, x requires 0 <= x < st.wf => b[x] - (Beside(st, 1, g2, x) + 2 * g1[x]) / 4)
  }

  function CrRow(st: Tetrix, r: seq<int>, g1: seq<int>, g2: seq<int>): (row: seq<int>)
    requires |r| == |g1| == |g2| == st.wf
    ensures |row| == st.wf
  {
    seq(st.wf, x requires 0 <= x < st.wf => r[x] - (Beside(st, 2, g1, x) + 2 * g2[x]) / 4)
  }

  /** Greens and an eighth of their chroma neighbours, blue weighted by 2^e2 and red by 2^e1. */
  function Y2Row(st: Tetrix, g2: seq<int>, cb: seq<int>, cr: seq<int>): (r: seq<int>)
    requires |g2| == |cb| == |cr| == st.wf
    ensures |r| == st.wf
  {
    seq(st.wf, x requires 0 <= x < st.wf => g2[x] + (Beside(st, 0, cb, x) * Pow2(st.e2) + 2 * cr[x] * Pow2(st.e1)) / 8)
  }

  function Y1Row(st: Tetrix, g1: seq<int>, cb: seq<int>, cr: seq<int>): (r: seq<int>)
    requires |g1| == |cb| == |cr| == st.wf
    ensures |r| == st.wf
  {
    seq(st.wf, x requires 0 <= x < st.wf => g1[x] + (2 * cb[x] * Pow2(st.e2) + Beside(st, 3, cr, x) * Pow2(st.e1)) / 8)
  }

  /** Y1 less the mean of its four diagonal Y2. */
  function DeltaRow(st: Tetrix, y1: seq<int>, y2: seq<int>): (r: seq<int>)
    requires |y1| == |y2| == st.wf
    ensures |r| == st.wf
  {
    seq(st.wf, x requires 0 <= x < st.wf => y1[x] - 2 * Beside(st, 3, y2, x) / 4)
  }

  /** Y2 and half the mean of its four diagonal Delta. */
  function YaRow(st: Tetrix, y2: seq<int>, delta: seq<int>): (r: seq<int>)
    requires |y2| == |delta| == st.wf
    ensures |r| == st.wf
  {
    seq(st.wf, x requires 0 <= x < st.wf => y2[x] + 2 * Beside(st, 0, delta, x) / 8)
  }

  lemma StepPowers()
    ensures Pow2(0) == 1 && Pow2(2) == 4 && Pow2(3) == 8
  {
  }

  lemma CbAlong(st: Tetrix, planes: Mosaic, g2: seq<int>, b: seq<int>, r: seq<int>, g1: seq<int>)
    requires |g2| == |b| == |r| == |g1| == st.wf
    requires st.Ok() && Along(st, planes, [g2, b, r, g1]) && CbStep(false).Ok() && Lift(st, CbStep(false), planes).Ok?
    ensures Along(st, Lift(st, CbStep(false), planes).value, [g2, CbRow(st, b, g1, g2), r, g1])
    ensures Lift(st, CbStep(false), planes).value[4..] == planes[4..]
  {
    hide Lift, RowsAre, Pow2;
    StepPowers();
    var rows := [g2, b, r, g1];
    LiftAlong(st, CbStep(false), planes, rows, CbRow(st, b, g1, g2));
    assert rows[1 := CbRow(st, b, g1, g2)] == [g2, CbRow(st, b, g1, g2), r, g1];
  }

  lemma CrAlong(st: Tetrix, planes: Mosaic, g2: seq<int>, cb: seq<int>, r: seq<int>, g1: seq<int>)
    requires |g2| == |cb| == |r| == |g1| == st.wf
    requires st.Ok() && Along(st, planes, [g2, cb, r, g1]) && CrStep(false).Ok() && Lift(st, CrStep(false), planes).Ok?
    ensures Along(st, Lift(st, CrStep(false), planes).value, [g2, cb, CrRow(st, r, g1, g2), g1])
    ensures Lift(st, CrStep(false), planes).value[4..] == planes[4..]
  {
    hide Lift, RowsAre, Pow2;
    StepPowers();
    var rows := [g2, cb, r, g1];
    LiftAlong(st, CrStep(false), planes, rows, CrRow(st, r, g1, g2));
    assert rows[2 := CrRow(st, r, g1, g2)] == [g2, cb, CrRow(st, r, g1, g2), g1];
  }

  lemma Y2Along(st: Tetrix, planes: Mosaic, g2: seq<int>, cb: seq<int>, cr: seq<int>, g1: seq<int>)
    requires |g2| == |cb| == |cr| == |g1| == st.wf
    requires st.Ok() && Along(st, planes, [g2, cb, cr, g1]) && Y2Step(st, true).Ok() && Lift(st, Y2Step(st, true), planes).Ok?
    ensures Along(st, Lift(st, Y2Step(st, true), planes).value, [Y2Row(st, g2, cb, cr), cb, cr, g1])
    ensures Lift(st, Y2Step(st, true), planes).value[4..] == planes[4..]
  {
    hide Lift, RowsAre, Pow2;
    StepPowers();
    var rows := [g2, cb, cr, g1];
    forall x | 0 <= x < st.wf
      ensures TapSum(st, 0, x, Y2Step(st, true).taps, rows) == Beside(st, 0, cb, x) * Pow2(st.e2) + 2 * cr[x] * Pow2(st.e1)
    {
      TwoAndTwo(cb[x], cb[Other(st, 0, x)], cr[x], Pow2(st.e2), Pow2(st.e1));
    }
    LiftAlong(st, Y2Step(st, true), planes, rows, Y2Row(st, g2, cb, cr));
    assert rows[0 := Y2Row(st, g2, cb, cr)] == [Y2Row(st, g2, cb, cr), cb, cr, g1];
  }

  lemma TwoAndTwo(a: int, b: int, c: int, p: int, q: int)
    ensures a * p + b * p + (c * q + c * q) == (a + b) * p + 2 * c * q
  {
  }

  lemma Y1Along(st: Tetrix, planes: Mosaic, y2: seq<int>, cb: seq<int>, cr: seq<int>, g1: seq<int>)
    requires |y2| == |cb| == |cr| == |g1| == st.wf
    requires st.Ok() && Along(st, planes, [y2, cb, cr, g1]) && Y1Step(st, true).Ok() && Lift(st, Y1Step(st, true), planes).Ok?
    ensures Along(st, Lift(st, Y1Step(st, true), planes).value, [y2, cb, cr, Y1Row(st, g1, cb, cr)])
    ensures Lift(st, Y1Step(st, true), planes).value[4..] == planes[4..]
  {
    hide Lift, RowsAre, Pow2;
    StepPowers();
    var rows := [y2, cb, cr, g1];
    forall x | 0 <= x < st.wf
      ensures TapSum(st, 3, x, Y1Step(st, true).taps, rows) == 2 * cb[x] * Pow2(st.e2) + Beside(st, 3, cr, x) * Pow2(st.e1)
    {
      TwoAndTwo(cr[x], cr[Other(st, 3, x)], cb[x], Pow2(st.e1), Pow2(st.e2));
    }
    LiftAlong(st, Y1Step(st, true), planes, rows, Y1Row(st, g1, cb, cr));
    assert rows[3 := Y1Row(st, g1, cb, cr)] == [y2, cb, cr, Y1Row(st, g1, cb, cr)];
  }

  lemma DeltaAlong(st: Tetrix, planes: Mosaic, y2: seq<int>, cb: seq<int>, cr: seq<int>, y1: seq<int>)
    requires |y2| == |cb| == |cr| == |y1| == st.wf
    requires st.Ok() && Along(st, planes, [y2, cb, cr, y1]) && DeltaStep(false).Ok() && Lift(st, DeltaStep(false), planes).Ok?
    ensures Along(st, Lift(st, DeltaStep(false), planes).value, [y2, cb, cr, DeltaRow(st, y1, y2)])
    ensures Lift(st, DeltaStep(false), planes).value[4..] == planes[4..]
  {
    hide Lift, RowsAre, Pow2;
    StepPowers();
    var rows := [y2, cb, cr, y1];
    LiftAlong(st, DeltaStep(false), planes, rows, DeltaRow(st, y1, y2));
    assert rows[3 := DeltaRow(st, y1, y2)] == [y2, cb, cr, DeltaRow(st, y1, y2)];
  }

  lemma YaAlong(st: Tetrix, planes: Mosaic, y2: seq<int>, cb: seq<int>, cr: seq<int>, delta: seq<int>)
    requires |y2| == |cb| == |cr| == |delta| == st.wf
    requires st.Ok() && Along(st, planes, [y2, cb, cr, delta]) && AvgStep(true).Ok() && Lift(st, AvgStep(true), planes).Ok?
    ensures Along(st, Lift(st, AvgStep(true), planes).value, [YaRow(st, y2, delta), cb, cr, delta])
    ensures Lift(st, AvgStep(true), planes).value[4..] == planes[4..]
  {
    hide Lift, RowsAre, Pow2;
    StepPowers();
    var rows := [y2, cb, cr, delta];
    LiftAlong(st, AvgStep(true), planes, rows, YaRow(st, y2, delta));
    assert rows[0 := YaRow(st, y2, delta)] == [YaRow(st, y2, delta), cb, cr, delta];
  }

  lemma FirstStep(st: Tetrix, s: Step, rest: seq<Step>, planes: Mosaic)
    requires st.Ok() && s.Ok() && StepsAllOk(rest) && st.Holds(planes)
    requires StepsAllOk([s] + rest) && Run(st, [s] + rest, planes).Ok?
    ensures Lift(st, s, planes).Ok? && Run(st, [s] + rest, planes) == Run(st, rest, Lift(st, s, planes).value)
  {
    hide Lift, Step.Ok;
    assert ([s] + rest)[1..] == rest;
  }

  lemma SixSteps(st: Tetrix)
    ensures ForwardSteps(st) == [CbStep(false)] + ([CrStep(false)] + ([Y2Step(st, true)] + ([Y1Step(st, true)]
                                + ([DeltaStep(false)] + ([AvgStep(true)] + [])))))
  {
    hide CbStep, CrStep, Y2Step, Y1Step, DeltaStep, AvgStep;
  }

  lemma EachStepOk(st: Tetrix)
    ensures CbStep(false).Ok() && CrStep(false).Ok() && Y2Step(st, true).Ok() && Y1Step(st, true).Ok()
    ensures DeltaStep(false).Ok() && AvgStep(true).Ok()
  {
  }

  lemma OneMoreStep(s: Step, rest: seq<Step>)
    requires s.Ok() && StepsAllOk(rest)
    ensures StepsAllOk([s] + rest)
  {
    hide Step.Ok;
  }

  /** Coded rows of a mosaic with these rows of red, greens and blue. */
  function CodedRows(st: Tetrix, r: seq<int>, g1: seq<int>, g2: seq<int>, b: seq<int>): seq<seq<int>>
    requires |r| == |g1| == |g2| == |b| == st.wf
  {
    var cb, cr := CbRow(st, b, g1, g2), CrRow(st, r, g1, g2);
    var y2, y1 := Y2Row(st, g2, cb, cr), Y1Row(st, g1, cb, cr);
    var delta := DeltaRow(st, y1, y2);
    [YaRow(st, y2, delta), cb, cr, delta]
  }

  lemma ChromaAlong(st: Tetrix, planes: Mosaic, r: seq<int>, g1: seq<int>, g2: seq<int>, b: seq<int>)
    requires st.Ok() && |r| == |g1| == |g2| == |b| == st.wf && Along(st, planes, [g2, b, r, g1])
    requires StepsAllOk(ForwardSteps(st)) && Run(st, ForwardSteps(st), planes).Ok?
    ensures Along(st, Run(st, ForwardSteps(st), planes).value, CodedRows(st, r, g1, g2, b))
    ensures Run(st, ForwardSteps(st), planes).value[4..] == planes[4..]
  {
    hide Lift, Along, Run, Step.Ok, CbRow, CrRow, Y2Row, Y1Row, DeltaRow, YaRow, CbStep, CrStep, Y2Step, Y1Step, DeltaStep, AvgStep;
    SixSteps(st);
    var cb, cr := CbRow(st, b, g1, g2), CrRow(st, r, g1, g2);
    var y2, y1 := Y2Row(st, g2, cb, cr), Y1Row(st, g1, cb, cr);
    var delta := DeltaRow(st, y1, y2);
    HeldAlong(st, planes, [g2, b, r, g1]);
    EachStepOk(st);
    var t5 := [AvgStep(true)] + [];
    var t4 := [DeltaStep(false)] + t5;
    var t3 := [Y1Step(st, true)] + t4;
    var t2 := [Y2Step(st, true)] + t3;
    var t1 := [CrStep(false)] + t2;
    OneMoreStep(AvgStep(true), []);
    OneMoreStep(DeltaStep(false), t5);
    OneMoreStep(Y1Step(st, true), t4);
    OneMoreStep(Y2Step(st, true), t3);
    OneMoreStep(CrStep(false), t2);
    FirstStep(st, CbStep(false), t1, planes);
    CbAlong(st, planes, g2, b, r, g1);
    var p1 := Lift(st, CbStep(false), planes).value;
    FirstStep(st, CrStep(false), t2, p1);
    CrAlong(st, p1, g2, cb, r, g1);
    var p2 := Lift(st, CrStep(false), p1).value;
    FirstStep(st, Y2Step(st, true), t3, p2);
    Y2Along(st, p2, g2, cb, cr, g1);
    var p3 := Lift(st, Y2Step(st, true), p2).value;
    FirstStep(st, Y1Step(st, true), t4, p3);
    Y1Along(st, p3, y2, cb, cr, g1);
    var p4 := Lift(st, Y1Step(st, true), p3).value;
    FirstStep(st, DeltaStep(false), t5, p4);
    DeltaAlong(st, p4, y2, cb, cr, y1);
    var p5 := Lift(st, DeltaStep(false), p4).value;
    FirstStep(st, AvgStep(true), [], p5);
    YaAlong(st, p5, y2, cb, cr, delta);
    RunNothing(st, Lift(st, AvgStep(true), p5).value);
  }

  lemma HeldAlong(st: Tetrix, planes: Mosaic, rows: seq<seq<int>>)
    requires Along(st, planes, rows)
    ensures st.Holds(planes)
  {
  }

  lemma RunNothing(st: Tetrix, planes: Mosaic)
    requires st.Ok() && st.Holds(planes)
    ensures Run(st, [], planes) == Ok(planes)
  {
  }

  /** The sub-pixel planes R, G1, G2 and B of a mosaic whose rows of super pixels are all the same. */
  ghost predicate Bayer(st: Tetrix, planes: Mosaic, r: seq<int>, g1: seq<int>, g2: seq<int>, b: seq<int>) {
    st.Holds(planes) && RowsAre(planes[0], r) && RowsAre(planes[1], g1) && RowsAre(planes[2], g2) && RowsAre(planes[3], b)
  }

  /**
   * Star-Tetrix of a mosaic that varies along rows only, for every size, pattern, Cf, e1 and e2: the coded components
   * Ya, Cb, Cr and Delta repeat the rows the six steps give, with two taps of each step beside and two above and below.
   */
  lemma TetrixAlongRows(st: Tetrix, planes: Mosaic, r: seq<int>, g1: seq<int>, g2: seq<int>, b: seq<int>)
    requires st.Ok() && Bayer(st, planes, r, g1, g2, b) && StarTetrixForward(st, planes).Ok?
    ensures |r| == |g1| == |g2| == |b| == st.wf
    ensures Along(st, StarTetrixForward(st, planes).value, CodedRows(st, r, g1, g2, b))
    ensures StarTetrixForward(st, planes).value[4..] == planes[4..]
  {
    hide Run, CodedRows, RowsAre, ForwardSteps;
    StepsOk(st);
    Exchanged(st, planes, r, g1, g2, b);
    ChromaAlong(st, Swap(planes), r, g1, g2, b);
  }

  lemma Exchanged(st: Tetrix, planes: Mosaic, r: seq<int>, g1: seq<int>, g2: seq<int>, b: seq<int>)
    requires st.Ok() && Bayer(st, planes, r, g1, g2, b)
    ensures |r| == |g1| == |g2| == |b| == st.wf
    ensures Along(st, Swap(planes), [g2, b, r, g1]) && Swap(planes)[4..] == planes[4..]
  {
  }

  // ---- four constant colours -------------------------------------------------------------------------

  function Repeated(v: int, n: nat): (r: seq<int>)
    ensures |r| == n
  {
    seq(n, _ => v)
  }

  /** Luma that blue and red differences add to a green. */
  function LumaOf(st: Tetrix, cb: int, cr: int): int {
    (cb * Pow2(st.e2) + cr * Pow2(st.e1)) / 4
  }

  lemma Quarter(a: int)
    ensures (2 * a) / 8 == a / 4 && (2 * a) / 4 == a / 2 && (4 * a) / 4 == a && (4 * a) / 8 == a / 2
  {
  }

  lemma DoubledSum(cb: int, cr: int, p: int, q: int)
    ensures (cb + cb) * p + 2 * cr * q == 2 * (cb * p + cr * q) && 2 * cb * p + (cr + cr) * q == 2 * (cb * p + cr * q)
  {
  }

  lemma ConstantBeside(st: Tetrix, c: nat, v: int, x: nat)
    requires x < st.wf
    ensures Beside(st, c, Repeated(v, st.wf), x) == 2 * v
  {
    hide Other;
  }

  lemma ConstantChroma(st: Tetrix, v: int, g1: int, g2: int)
    ensures var n := st.wf;
            && CbRow(st, Repeated(v, n), Repeated(g1, n), Repeated(g2, n)) == Repeated(v - (g1 + g2) / 2, n)
            && CrRow(st, Repeated(v, n), Repeated(g1, n), Repeated(g2, n)) == Repeated(v - (g1 + g2) / 2, n)
  {
    hide Beside;
    Quarter(g1 + g2);
    forall x: nat | x < st.wf
      ensures Beside(st, 1, Repeated(g2, st.wf), x) == 2 * g2 && Beside(st, 2, Repeated(g1, st.wf), x) == 2 * g1
    {
      ConstantBeside(st, 1, g2, x);
      ConstantBeside(st, 2, g1, x);
    }
  }

  lemma ConstantLuma(st: Tetrix, g: int, cb: int, cr: int)
    ensures var n := st.wf;
            && Y2Row(st, Repeated(g, n), Repeated(cb, n), Repeated(cr, n)) == Repeated(g + LumaOf(st, cb, cr), n)
            && Y1Row(st, Repeated(g, n), Repeated(cb, n), Repeated(cr, n)) == Repeated(g + LumaOf(st, cb, cr), n)
  {
    hide Beside, Pow2;
    DoubledSum(cb, cr, Pow2(st.e2), Pow2(st.e1));
    Quarter(cb * Pow2(st.e2) + cr * Pow2(st.e1));
    forall x: nat | x < st.wf
      ensures Beside(st, 0, Repeated(cb, st.wf), x) == cb + cb && Beside(st, 3, Repeated(cr, st.wf), x) == cr + cr
    {
      ConstantBeside(st, 0, cb, x);
      ConstantBeside(st, 3, cr, x);
    }
  }

  lemma ConstantDelta(st: Tetrix, y1: int, y2: int, delta: int)
    ensures var n := st.wf;
            && DeltaRow(st, Repeated(y1, n), Repeated(y2, n)) == Repeated(y1 - y2, n)
            && YaRow(st, Repeated(y2, n), Repeated(delta, n)) == Repeated(y2 + delta / 2, n)
  {
    hide Beside;
    Quarter(y2);
    Quarter(delta);
    forall x: nat | x < st.wf
      ensures Beside(st, 3, Repeated(y2, st.wf), x) == 2 * y2 && Beside(st, 0, Repeated(delta, st.wf), x) == 2 * delta
    {
      ConstantBeside(st, 3, y2, x);
      ConstantBeside(st, 0, delta, x);
    }
  }

  lemma ConstantRows(st: Tetrix, r: int, g1: int, g2: int, b: int)
    ensures var n := st.wf;
            var cb, cr := b - (g1 + g2) / 2, r - (g1 + g2) / 2;
            CodedRows(st, Repeated(r, n), Repeated(g1, n), Repeated(g2, n), Repeated(b, n)) ==
            [Repeated(g2 + LumaOf(st, cb, cr) + (g1 - g2) / 2, n), Repeated(cb, n), Repeated(cr, n), Repeated(g1 - g2, n)]
  {
    hide CbRow, CrRow, Y2Row, Y1Row, DeltaRow, YaRow, Repeated, LumaOf;
    var cb, cr := b - (g1 + g2) / 2, r - (g1 + g2) / 2;
    ConstantChroma(st, b, g1, g2);
    ConstantChroma(st, r, g1, g2);
    ConstantLuma(st, g2, cb, cr);
    ConstantLuma(st, g1, cb, cr);
    ConstantDelta(st, g1 + LumaOf(st, cb, cr), g2 + LumaOf(st, cb, cr), g1 - g2);
  }

  /**
   * A mosaic of four constant colours becomes Cb and Cr, the differences of blue and red to the mean green, Delta, the
   * difference of the greens, and Ya, the mean green and what Cb and Cr weigh in luma.
   */
  lemma TetrixOfColours(st: Tetrix, planes: Mosaic, r: int, g1: int, g2: int, b: int)
    requires st.Ok() && st.Holds(planes) && StarTetrixForward(st, planes).Ok?
    requires var n := st.wf; Bayer(st, planes, Repeated(r, n), Repeated(g1, n), Repeated(g2, n), Repeated(b, n))
    ensures var n, cb, cr := st.wf, b - (g1 + g2) / 2, r - (g1 + g2) / 2;
            Along(st, StarTetrixForward(st, planes).value,
                  [Repeated(g2 + LumaOf(st, cb, cr) + (g1 - g2) / 2, n), Repeated(cb, n), Repeated(cr, n), Repeated(g1 - g2, n)])
  {
    hide Along, Bayer, StarTetrixForward, CodedRows, Repeated, LumaOf;
    var n := st.wf;
    TetrixAlongRows(st, planes, Repeated(r, n), Repeated(g1, n), Repeated(g2, n), Repeated(b, n));
    ConstantRows(st, r, g1, g2, b);
  }

  // ---- through the headers ---------------------------------------------------------------------------

  /** Corners of the super pixel are half a grid unit apart. */
  predicate AtCorner(x: int, y: int, right: bool, lower: bool) {
    x == (if right then 32768 else 0) && y == if lower then 32768 else 0
  }

  /** G1 lies in the upper row and G2 on its diagonal, red and blue on the other one. */
  predicate IsBayer(crg: Crg, right: bool)
    requires |crg.x| >= 4 && |crg.y| >= 4
  {
    && AtCorner(crg.x[1], crg.y[1], right, false) && AtCorner(crg.x[2], crg.y[2], !right, true)
    && ((AtCorner(crg.x[0], crg.y[0], !right, false) && AtCorner(crg.x[3], crg.y[3], right, true))
        || (AtCorner(crg.x[3], crg.y[3], !right, false) && AtCorner(crg.x[0], crg.y[0], right, true)))
  }

  /** The pattern type tells in which column the upper green is. */
  lemma PatternOfGreens(crg: Crg)
    requires |crg.x| >= 4 && |crg.y| >= 4
    ensures PatternType(Some(crg)) == if IsBayer(crg, true) then Ok(0) else if IsBayer(crg, false) then Ok(1) else Err(Unsupported)
  {
    var x, y := crg.x[..4], crg.y[..4];
    assert x == [crg.x[0], crg.x[1], crg.x[2], crg.x[3]] && y == [crg.y[0], crg.y[1], crg.y[2], crg.y[3]];
  }

  /**
   * The transform places both greens where the CRG marker says. Red and blue it places so exactly for RGGB and GRBG:
   * the displacements do not distinguish a pattern from the one with red and blue exchanged.
   */
  lemma PlacedAsRegistered(crg: Crg, st: Tetrix)
    requires |crg.x| >= 4 && |crg.y| >= 4 && PatternType(Some(crg)) == Ok(st.ct)
    ensures AtCorner(crg.x[1], crg.y[1], st.Dx(3) == 1, st.Dy(3) == 1) && AtCorner(crg.x[2], crg.y[2], st.Dx(0) == 1, st.Dy(0) == 1)
    ensures AtCorner(crg.x[0], crg.y[0], st.Dx(2) == 1, st.Dy(2) == 1) <==> crg.y[0] == 0
    ensures AtCorner(crg.x[3], crg.y[3], st.Dx(1) == 1, st.Dy(1) == 1) <==> crg.y[0] == 0
  {
    PatternOfGreens(crg);
  }

  /** Cpih = 3: constant red, greens and blue in, Ya, Cb, Cr and Delta out, and all further components unchanged. */
  lemma MctOfColours(h: Headers, planes: Mosaic, r: int, g1: int, g2: int, b: int)
    requires PictureOk(h, planes) && h.pih.cpih == 3 && TetrixOf(h).Ok? && PlanesMatch(h, planes, 4)
    requires Mct(h, planes, true).Ok?
    requires var st, n := TetrixOf(h).value, h.pih.wf;
             st.Ok() && Bayer(st, planes, Repeated(r, n), Repeated(g1, n), Repeated(g2, n), Repeated(b, n))
    ensures var st, n, cb, cr := TetrixOf(h).value, h.pih.wf, b - (g1 + g2) / 2, r - (g1 + g2) / 2;
            Along(st, Mct(h, planes, true).value,
                  [Repeated(g2 + LumaOf(st, cb, cr) + (g1 - g2) / 2, n), Repeated(cb, n), Repeated(cr, n), Repeated(g1 - g2, n)])
    ensures Mct(h, planes, true).value[4..] == planes[4..]
  {
    hide PatternType, StarTetrixForward, Along, Repeated, LumaOf, RowsAre;
    var st, n := TetrixOf(h).value, h.pih.wf;
    TetrixOfColours(st, planes, r, g1, g2, b);
    TetrixAlongRows(st, planes, Repeated(r, n), Repeated(g1, n), Repeated(g2, n), Repeated(b, n));
  }

  /** Cpih = 1: planes R, G and B become a weighted mean, rounded down, and the differences of blue and red to green. */
  lemma MctOfRgb(h: Headers, planes: Mosaic, x: nat, y: nat)
    requires PictureOk(h, planes) && h.pih.cpih == 1 && PlanesMatch(h, planes, 3) && Mct(h, planes, true).Ok?
    requires x < h.pih.wf && y < h.pih.hf
    ensures var out := Mct(h, planes, true).value;
            && |out| == |planes| && out[3..] == planes[3..]
            && (forall c | 0 <= c < 3 :: out[c].Ok() && out[c].width == h.pih.wf && out[c].height == h.pih.hf)
            && var r, g, b := planes[0].At(x, y), planes[1].At(x, y), planes[2].At(x, y);
               && 4 * out[0].At(x, y) <= r + 2 * g + b < 4 * out[0].At(x, y) + 4
               && out[1].At(x, y) == b - g && out[2].At(x, y) == r - g
  {
    hide Fits;
    var out := Mct(h, planes, true).value;
    assert out[0] == RctPlane(planes, h.pih.wf, h.pih.hf, 0, true);
    assert out[1] == RctPlane(planes, h.pih.wf, h.pih.hf, 1, true);
    assert out[2] == RctPlane(planes, h.pih.wf, h.pih.hf, 2, true);
    assert out[3..] == planes[3..];
  }
}
