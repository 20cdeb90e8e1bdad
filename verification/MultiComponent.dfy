// Multi-component transforms (Annex F): reversible colour transform and Star-Tetrix.
module MultiComponent {
  import opened Wrappers
  import opened Arith
  import opened Planes
  import opened HeaderTypes
  import opened StarTetrix

  // ---- the Star-Tetrix steps (Tables F.5 to F.8 and F.14 to F.17) ------------------------------------

  const DIAGONAL: seq<Tap> := [Tap(-1, -1, 0), Tap(1, -1, 0), Tap(-1, 1, 0), Tap(1, 1, 0)]
  const CROSS: seq<Tap> := [Tap(-1, 0, 0), Tap(1, 0, 0), Tap(0, -1, 0), Tap(0, 1, 0)]

  /** Ya <-> Y2 from the four diagonal Delta neighbours. */
  function AvgStep(add: bool): Step {
    Step(0, DIAGONAL, 3, add)
  }

  /** Delta <-> Y1 from the four diagonal Y2 neighbours. */
  function DeltaStep(add: bool): Step {
    Step(3, DIAGONAL, 2, add)
  }

  /** G2 <-> Y2: Cb left and right, Cr above and below. */
  function Y2Step(st: Tetrix, add: bool): Step {
    Step(0, [Tap(-1, 0, st.e2), Tap(1, 0, st.e2), Tap(0, -1, st.e1), Tap(0, 1, st.e1)], 3, add)
  }

  /** G1 <-> Y1: Cb above and below, Cr left and right. */
  function Y1Step(st: Tetrix, add: bool): Step {
    Step(3, [Tap(0, -1, st.e2), Tap(0, 1, st.e2), Tap(-1, 0, st.e1), Tap(1, 0, st.e1)], 3, add)
  }

  function CbStep(add: bool): Step {
    Step(1, CROSS, 2, add)
  }

  function CrStep(add: bool): Step {
    Step(2, CROSS, 2, add)
  }

  function ForwardSteps(st: Tetrix): seq<Step> {
    [CbStep(false), CrStep(false), Y2Step(st, true), Y1Step(st, true), DeltaStep(false), AvgStep(true)]
  }

  function InverseSteps(st: Tetrix): seq<Step> {
    [AvgStep(false), DeltaStep(true), Y2Step(st, false), Y1Step(st, false), CbStep(true), CrStep(true)]
  }

  lemma StepsOk(st: Tetrix)
    ensures |ForwardSteps(st)| == |InverseSteps(st)| == 6
    ensures forall i | 0 <= i < 6 :: ForwardSteps(st)[i].Ok() && InverseSteps(st)[i].Ok()
  {
  }

  /** The paired lifts never read each other: chroma reads luma only, and luma reads chroma only. */
  lemma PairsIndependent(st: Tetrix, add: bool)
    requires st.Ok()
    ensures Independent(st, CbStep(add), CrStep(add)) && Independent(st, Y2Step(st, add), Y1Step(st, add))
  {
    CrossNeighbours(st, 0);
    CrossNeighbours(st, 1);
    CrossNeighbours(st, 2);
    CrossNeighbours(st, 3);
    hide Neighbour;
  }

  lemma CrossNeighbours(st: Tetrix, c: nat)
    requires st.Ok() && c < 4
    ensures Neighbour(st, c, -1, 0) == Neighbour(st, c, 1, 0) == (if c % 2 == 0 then c + 1 else c - 1)
    ensures Neighbour(st, c, 0, -1) == Neighbour(st, c, 0, 1) == (c + 2) % 4
  {
  }

  function Swap(planes: Mosaic): (r: Mosaic)
    requires |planes| >= 4
    ensures |r| == |planes|
  {
    [planes[2], planes[3], planes[0], planes[1]] + planes[4..]
  }

  lemma SwapTwice(planes: Mosaic)
    requires |planes| >= 4
    ensures Swap(Swap(planes)) == planes
  {
  }

  lemma {:induction false} RunConcat(st: Tetrix, a: seq<Step>, b: seq<Step>, planes: Mosaic)
    requires st.Ok() && st.Holds(planes)
    requires (forall i | 0 <= i < |a| :: a[i].Ok()) && (forall i | 0 <= i < |b| :: b[i].Ok())
    requires forall i | 0 <= i < |a + b| :: (a + b)[i].Ok()
    ensures Run(st, a + b, planes) ==
            match Run(st, a, planes)
            case Ok(next) => Run(st, b, next)
            case Err(e) => Err(e)
  {
    hide Lift, Step.Ok;
    if a == [] {
      assert a + b == b;
    } else {
      assert (a + b)[0] == a[0] && (a + b)[1..] == a[1..] + b;
      if Lift(st, a[0], planes).Ok? {
        RunConcat(st, a[1..], b, Lift(st, a[0], planes).value);
      }
    }
  }

  lemma {:induction false} RunKeepsFit(st: Tetrix, steps: seq<Step>, planes: Mosaic, n: nat)
    requires st.Ok() && st.Holds(planes) && (forall i | 0 <= i < |steps| :: steps[i].Ok()) && AllFit(planes, n)
    requires Run(st, steps, planes).Ok?
    ensures AllFit(Run(st, steps, planes).value, n)
  {
    hide Lift, Step.Ok, AllFit;
    if steps != [] {
      LiftKeepsFit(st, steps[0], planes, n);
      RunKeepsFit(st, steps[1..], Lift(st, steps[0], planes).value, n);
    }
  }

  predicate StepsAllOk(steps: seq<Step>) {
    forall i | 0 <= i < |steps| :: steps[i].Ok()
  }

  /** Running `back` after `steps` restores every mosaic `steps` got through. */
  ghost predicate UndoneBy(st: Tetrix, steps: seq<Step>, back: seq<Step>)
    requires st.Ok() && StepsAllOk(steps) && StepsAllOk(back)
  {
    forall planes: Mosaic | st.Holds(planes) && AllFit(planes, 4) && Run(st, steps, planes).Ok? ::
      Run(st, back, Run(st, steps, planes).value) == Ok(planes)
  }

  lemma UndoInOrder(st: Tetrix, a: seq<Step>, b: seq<Step>, b': seq<Step>, a': seq<Step>)
    requires st.Ok() && StepsAllOk(a) && StepsAllOk(b) && StepsAllOk(a') && StepsAllOk(b')
    requires UndoneBy(st, a, a') && UndoneBy(st, b, b')
    ensures StepsAllOk(a + b) && StepsAllOk(b' + a') && UndoneBy(st, a + b, b' + a')
  {
    hide Run, Step.Ok, AllFit;
    forall planes: Mosaic | st.Holds(planes) && AllFit(planes, 4) && Run(st, a + b, planes).Ok?
      ensures Run(st, b' + a', Run(st, a + b, planes).value) == Ok(planes)
    {
      RunConcat(st, a, b, planes);
      RunKeepsFit(st, a, planes, 4);
      RunConcat(st, b', a', Run(st, a + b, planes).value);
    }
  }

  lemma OneUndone(st: Tetrix, s: Step)
    requires st.Ok() && s.Ok()
    ensures UndoneBy(st, [s], [s.Undo()])
  {
    hide Lift, Fits, TapsOk;
    forall planes: Mosaic | st.Holds(planes) && AllFit(planes, 4) && Run(st, [s], planes).Ok?
      ensures Run(st, [s.Undo()], Run(st, [s], planes).value) == Ok(planes)
    {
      RunOne(st, s, planes);
      LiftUndone(st, s, planes);
      RunOne(st, s.Undo(), Run(st, [s], planes).value);
    }
  }

  lemma TwoUndone(st: Tetrix, s: Step, t: Step)
    requires st.Ok() && s.Ok() && t.Ok() && Independent(st, s, t)
    ensures UndoneBy(st, [s, t], [s.Undo(), t.Undo()])
  {
    hide Run, Independent, AllFit, TapsOk;
    forall planes: Mosaic | st.Holds(planes) && AllFit(planes, 4) && Run(st, [s, t], planes).Ok?
      ensures Run(st, [s.Undo(), t.Undo()], Run(st, [s, t], planes).value) == Ok(planes)
    {
      PairUndone(st, s, t, planes);
    }
  }

  /** The inverse steps undo the forward steps, and the other way round. */
  lemma StepsUndone(st: Tetrix)
    requires st.Ok()
    ensures StepsAllOk(ForwardSteps(st)) && StepsAllOk(InverseSteps(st))
    ensures UndoneBy(st, ForwardSteps(st), InverseSteps(st)) && UndoneBy(st, InverseSteps(st), ForwardSteps(st))
  {
    hide Independent, UndoneBy;
    StepsOk(st);
    PairsIndependent(st, false);
    PairsIndependent(st, true);
    var chroma, chroma' := [CbStep(false), CrStep(false)], [CbStep(true), CrStep(true)];
    var luma, luma' := [Y2Step(st, true), Y1Step(st, true)], [Y2Step(st, false), Y1Step(st, false)];
    var delta, delta' := [DeltaStep(false)], [DeltaStep(true)];
    var avg, avg' := [AvgStep(true)], [AvgStep(false)];
    TwoUndone(st, CbStep(false), CrStep(false));
    TwoUndone(st, Y2Step(st, true), Y1Step(st, true));
    OneUndone(st, DeltaStep(false));
    OneUndone(st, AvgStep(true));
    UndoInOrder(st, chroma, luma, luma', chroma');
    UndoInOrder(st, chroma + luma, delta, delta', luma' + chroma');
    UndoInOrder(st, chroma + luma + delta, avg, avg', delta' + (luma' + chroma'));
    assert chroma + luma + delta + avg == ForwardSteps(st);
    assert avg' + (delta' + (luma' + chroma')) == InverseSteps(st);
    TwoUndone(st, CbStep(true), CrStep(true));
    TwoUndone(st, Y2Step(st, false), Y1Step(st, false));
    OneUndone(st, DeltaStep(true));
    OneUndone(st, AvgStep(false));
    UndoInOrder(st, avg', delta', delta, avg);
    UndoInOrder(st, avg' + delta', luma', luma, delta + avg);
    UndoInOrder(st, avg' + delta' + luma', chroma', chroma, luma + (delta + avg));
    assert avg' + delta' + luma' + chroma' == InverseSteps(st);
    assert chroma + (luma + (delta + avg)) == ForwardSteps(st);
  }

  // ---- reversible colour transform -------------------------------------------------------------------

  datatype Rgb = Rgb(r: int, g: int, b: int)

  /** (R, G, B) -> (Y, Cb, Cr). */
  function ToYcc(v: Rgb): Rgb {
    Rgb((v.r + 2 * v.g + v.b) / 4, v.b - v.g, v.r - v.g)
  }

  function FromYcc(v: Rgb): Rgb {
    var g := v.r - (v.g + v.b) / 4;
    Rgb(g + v.b, g, g + v.g)
  }

  /** The colour transform is a bijection on triples of integers. */
  lemma RctReversible(v: Rgb)
    ensures FromYcc(ToYcc(v)) == v && ToYcc(FromYcc(v)) == v
  {
  }

  /** The sample triple at (x, y) of the first three planes, transformed. */
  function RctSample(planes: Mosaic, x: nat, y: nat, forward: bool): Rgb
    requires |planes| >= 3 && forall c | 0 <= c < 3 :: planes[c].Ok() && x < planes[c].width && y < planes[c].height
  {
    var v := Rgb(planes[0].At(x, y), planes[1].At(x, y), planes[2].At(x, y));
    if forward then ToYcc(v) else FromYcc(v)
  }

  function Channel(v: Rgb, c: nat): int {
    if c == 0 then v.r else if c == 1 then v.g else v.b
  }

  predicate FirstThree(planes: Mosaic, wf: nat, hf: nat) {
    |planes| >= 3 && forall c | 0 <= c < 3 :: planes[c].Ok() && planes[c].width == wf && planes[c].height == hf
  }

  function RctRow(planes: Mosaic, wf: nat, hf: nat, c: nat, y: nat, forward: bool): (r: seq<int>)
    requires FirstThree(planes, wf, hf) && c < 3 && y < hf
    ensures |r| == wf
  {
    seq(wf, x requires 0 <= x < wf => Channel(RctSample(planes, x, y, forward), c))
  }

  function RctPlane(planes: Mosaic, wf: nat, hf: nat, c: nat, forward: bool): (p: Plane)
    requires FirstThree(planes, wf, hf) && c < 3
    ensures p.Ok() && p.width == wf && p.height == hf
  {
    Plane(wf, hf, seq(hf, y requires 0 <= y < hf => RctRow(planes, wf, hf, c, y, forward)))
  }

  function Rct(planes: Mosaic, wf: nat, hf: nat, forward: bool): (r: Result<Mosaic>)
    requires FirstThree(planes, wf, hf)
    ensures r.Ok? ==> FirstThree(r.value, wf, hf) && |r.value| == |planes|
  {
    if forall c | 0 <= c < 3 :: Fits(RctPlane(planes, wf, hf, c, forward)) then
      Ok([RctPlane(planes, wf, hf, 0, forward), RctPlane(planes, wf, hf, 1, forward), RctPlane(planes, wf, hf, 2, forward)]
         + planes[3..])
    else Err(Overflow)
  }

  lemma RctUndone(planes: Mosaic, wf: nat, hf: nat, forward: bool)
    requires FirstThree(planes, wf, hf) && AllFit(planes, 3) && Rct(planes, wf, hf, forward).Ok?
    ensures Rct(Rct(planes, wf, hf, forward).value, wf, hf, !forward) == Ok(planes)
  {
    hide Fits, ToYcc, FromYcc;
    var next := Rct(planes, wf, hf, forward).value;
    forall c: nat | c < 3
      ensures RctPlane(next, wf, hf, c, !forward) == planes[c]
    {
      forall x, y | 0 <= x < wf && 0 <= y < hf
        ensures RctPlane(next, wf, hf, c, !forward).At(x, y) == planes[c].At(x, y)
      {
        RctReversible(Rgb(planes[0].At(x, y), planes[1].At(x, y), planes[2].At(x, y)));
        assert next[0].At(x, y) == RctPlane(planes, wf, hf, 0, forward).At(x, y) == RctSample(planes, x, y, forward).r;
        assert next[1].At(x, y) == RctPlane(planes, wf, hf, 1, forward).At(x, y) == RctSample(planes, x, y, forward).g;
        assert next[2].At(x, y) == RctPlane(planes, wf, hf, 2, forward).At(x, y) == RctSample(planes, x, y, forward).b;
      }
      SamePlane(RctPlane(next, wf, hf, c, !forward), planes[c]);
    }
    assert [planes[0], planes[1], planes[2]] + planes[3..] == planes;
    assert next[3..] == planes[3..];
  }

  // ---- dispatch (Table F.1) --------------------------------------------------------------------------

  /** CFA pattern type of the CRG marker segment (Table F.9). */
  function PatternType(crg: Option<Crg>): (r: Result<nat>)
    ensures r.Ok? ==> r.value <= 1
  {
    if crg.None? || |crg.value.x| < 4 || |crg.value.y| < 4 then Err(Unsupported) else
    var x, y := crg.value.x[..4], crg.value.y[..4];
    var h: u16 := 32768;
    if (x == [0, h, 0, h] && y == [0, 0, h, h]) || (x == [h, h, 0, 0] && y == [h, 0, h, 0]) then Ok(0)
    else if (x == [h, 0, h, 0] && y == [0, 0, h, h]) || (x == [0, 0, h, h] && y == [h, 0, h, 0]) then Ok(1)
    else Err(Unsupported)
  }

  /** Every plane taking part has the size of the sampling grid (F.2). */
  predicate PlanesMatch(h: Headers, planes: Mosaic, needed: nat) {
    && |planes| >= needed && |planes| == h.pih.nc
    && forall c | 0 <= c < needed :: planes[c].width == h.pih.wf && planes[c].height == h.pih.hf
  }

  function TetrixOf(h: Headers): (r: Result<Tetrix>)
    ensures r.Ok? && h.pih.wf >= 1 && h.pih.hf >= 1 ==> r.value.Ok()
    ensures r.Ok? ==> r.value.wf == h.pih.wf && r.value.hf == h.pih.hf
  {
    if h.cts.None? then Err(Unsupported) else
    var ct :- PatternType(h.crg);
    Ok(Tetrix(h.pih.wf, h.pih.hf, h.cts.value.cf, h.cts.value.e1, h.cts.value.e2, ct))
  }

  /** All component planes of a picture, well formed; the grid is never empty. */
  predicate PictureOk(h: Headers, planes: Mosaic) {
    h.pih.wf >= 1 && h.pih.hf >= 1 && forall c | 0 <= c < |planes| :: planes[c].Ok()
  }

  function StarTetrixForward(st: Tetrix, planes: Mosaic): (r: Result<Mosaic>)
    requires st.Ok() && st.Holds(planes)
    ensures r.Ok? ==> st.Holds(r.value) && |r.value| == |planes|
  {
    StepsOk(st);
    Run(st, ForwardSteps(st), Swap(planes))
  }

  function StarTetrixInverse(st: Tetrix, planes: Mosaic): (r: Result<Mosaic>)
    requires st.Ok() && st.Holds(planes)
    ensures r.Ok? ==> st.Holds(r.value) && |r.value| == |planes|
  {
    StepsOk(st);
    var unmixed :- Run(st, InverseSteps(st), planes);
    Ok(Swap(unmixed))
  }

  function Mct(h: Headers, planes: Mosaic, forward: bool): Result<Mosaic>
    requires PictureOk(h, planes)
  {
    if h.pih.cpih == 0 then Ok(planes)
    else if h.pih.cpih == 1 then
      if !PlanesMatch(h, planes, 3) then Err(BadShape) else Rct(planes, h.pih.wf, h.pih.hf, forward)
    else if h.pih.cpih == 3 then
      if !PlanesMatch(h, planes, 4) then Err(BadShape) else
      var st :- TetrixOf(h);
      if forward then StarTetrixForward(st, planes) else StarTetrixInverse(st, planes)
    else Err(Unsupported)
  }

  lemma StarTetrixUndone(st: Tetrix, planes: Mosaic)
    requires st.Ok() && st.Holds(planes) && AllFit(planes, 4)
    ensures StarTetrixForward(st, planes).Ok? ==> StarTetrixInverse(st, StarTetrixForward(st, planes).value) == Ok(planes)
    ensures StarTetrixInverse(st, planes).Ok? ==> StarTetrixForward(st, StarTetrixInverse(st, planes).value) == Ok(planes)
  {
    hide Run, ForwardSteps, InverseSteps, Fits;
    StepsUndone(st);
    SwapTwice(planes);
    if StarTetrixForward(st, planes).Ok? {
      assert st.Holds(Swap(planes)) && AllFit(Swap(planes), 4);
    }
    if StarTetrixInverse(st, planes).Ok? {
      SwapTwice(Run(st, InverseSteps(st), planes).value);
    }
  }

  /** Each multi-component transform undoes the other, for every transform type the headers can select. */
  lemma MctUndone(h: Headers, planes: Mosaic, forward: bool)
    requires PictureOk(h, planes) && AllFit(planes, |planes|) && Mct(h, planes, forward).Ok?
    ensures PictureOk(h, Mct(h, planes, forward).value)
    ensures Mct(h, Mct(h, planes, forward).value, !forward) == Ok(planes)
  {
    hide Rct, StarTetrixForward, StarTetrixInverse, Fits, PatternType;
    var next := Mct(h, planes, forward).value;
    if h.pih.cpih == 1 {
      RctRest(planes, h.pih.wf, h.pih.hf, forward);
      RctUndone(planes, h.pih.wf, h.pih.hf, forward);
    } else if h.pih.cpih == 3 {
      var st := TetrixOf(h).value;
      TetrixRest(st, planes);
      StarTetrixUndone(st, planes);
    }
  }

  /** Plane by plane well formed and as large as before. */
  predicate SameSizes(planes: Mosaic, other: Mosaic) {
    && |other| == |planes|
    && forall c | 0 <= c < |planes| :: other[c].Ok() && other[c].width == planes[c].width && other[c].height == planes[c].height
  }

  lemma RctRest(planes: Mosaic, wf: nat, hf: nat, forward: bool)
    requires FirstThree(planes, wf, hf) && Rct(planes, wf, hf, forward).Ok? && forall c | 0 <= c < |planes| :: planes[c].Ok()
    ensures SameSizes(planes, Rct(planes, wf, hf, forward).value)
  {
  }

  lemma {:induction false} RunRest(st: Tetrix, steps: seq<Step>, planes: Mosaic)
    requires st.Ok() && StepsAllOk(steps) && st.Holds(planes) && Run(st, steps, planes).Ok?
    ensures forall c | 4 <= c < |planes| :: Run(st, steps, planes).value[c] == planes[c]
  {
    if steps != [] {
      RunRest(st, steps[1..], Lift(st, steps[0], planes).value);
    }
  }

  lemma TetrixRest(st: Tetrix, planes: Mosaic)
    requires st.Ok() && st.Holds(planes) && forall c | 0 <= c < |planes| :: planes[c].Ok()
    ensures StarTetrixForward(st, planes).Ok? ==> SameSizes(planes, StarTetrixForward(st, planes).value)
    ensures StarTetrixInverse(st, planes).Ok? ==> SameSizes(planes, StarTetrixInverse(st, planes).value)
  {
    hide Run, ForwardSteps, InverseSteps;
    StepsOk(st);
    if StarTetrixForward(st, planes).Ok? {
      RunRest(st, ForwardSteps(st), Swap(planes));
    }
    if StarTetrixInverse(st, planes).Ok? {
      RunRest(st, InverseSteps(st), planes);
    }
  }

  /** With Cf = 3 rows do not mix: equal rows in give equal rows out, in both directions. */
  lemma RowsIndependent(st: Tetrix, y: nat, planes: Mosaic, other: Mosaic)
    requires st.Ok() && st.cf == 3 && y < st.hf && st.Holds(planes) && st.Holds(other) && SameRow(st, y, planes, other)
    ensures StarTetrixForward(st, planes).Ok? && StarTetrixForward(st, other).Ok? ==>
              SameRow(st, y, StarTetrixForward(st, planes).value, StarTetrixForward(st, other).value)
    ensures StarTetrixInverse(st, planes).Ok? && StarTetrixInverse(st, other).Ok? ==>
              SameRow(st, y, StarTetrixInverse(st, planes).value, StarTetrixInverse(st, other).value)
  {
    hide Run, ForwardSteps, InverseSteps;
    StepsOk(st);
    if StarTetrixForward(st, planes).Ok? && StarTetrixForward(st, other).Ok? {
      RunOfRow(st, ForwardSteps(st), y, Swap(planes), Swap(other));
    }
    if StarTetrixInverse(st, planes).Ok? && StarTetrixInverse(st, other).Ok? {
      RunOfRow(st, InverseSteps(st), y, planes, other);
    }
  }

  // ---- in place --------------------------------------------------------------------------------------

  /** The component planes of a picture, transformed in place. */
  class PlaneSet {
    var planes: Mosaic

    constructor (planes: Mosaic)
      ensures this.planes == planes
    {
      this.planes := planes;
    }
  }

  /** Weighted sum of the neighbours as the planes stand now. */
  method SumNeighbours(st: Tetrix, image: PlaneSet, c: nat, x: nat, y: nat, taps: seq<Tap>) returns (sum: int)
    requires st.Ok() && c < 4 && x < st.wf && y < st.hf && TapsOk(taps) && st.Holds(image.planes)
    ensures sum == Sum(st, c, x, y, taps, image.planes)
  {
    hide Access, Near, Pow2;
    sum := 0;
    ghost var whole := Sum(st, c, x, y, taps, image.planes);
    for i := 0 to |taps|
      invariant whole == sum + Sum(st, c, x, y, taps[i..], image.planes)
    {
      var t := taps[i];
      AccessInside(st, c, x, y, t.rx, t.ry);
      var r := Access(st, c, x, y, t.rx, t.ry);
      assert taps[i..][0] == t && taps[i..][1..] == taps[i + 1..];
      sum := sum + image.planes[r.c].At(r.x, r.y) * Pow2(t.shift);
    }
  }

  /** Planes equal except that component c of `now` holds lifted samples in the first rows. */
  ghost predicate LiftedUpTo(st: Tetrix, s: Step, before: Mosaic, now: Mosaic, y: nat, x: nat)
    requires st.Ok() && s.Ok() && st.Holds(before) && st.Holds(now)
  {
    && |now| == |before|
    && (forall c | 0 <= c < |before| && c != s.c :: now[c] == before[c])
    && forall x', y' | 0 <= x' < st.wf && 0 <= y' < st.hf ::
         now[s.c].At(x', y') == if y' < y || (y' == y && x' < x) then Lifted(st, s, x', y', before) else before[s.c].At(x', y')
  }

  lemma LiftNext(st: Tetrix, s: Step, before: Mosaic, now: Mosaic, y: nat, x: nat)
    requires st.Ok() && s.Ok() && st.Holds(before) && st.Holds(now) && y < st.hf && x < st.wf
    requires LiftedUpTo(st, s, before, now, y, x)
    ensures Correction(st, s, x, y, now) == Correction(st, s, x, y, before)
    ensures now[s.c].At(x, y) == before[s.c].At(x, y)
    ensures var p := now[s.c].Set(x, y, Lifted(st, s, x, y, before));
            st.Holds(now[s.c := p]) && LiftedUpTo(st, s, before, now[s.c := p], y, x + 1)
  {
    hide Correction, Reads;
    TargetUnread(st, s);
    CorrectionReads(st, s, x, y, before, now);
  }

  lemma LiftRowDone(st: Tetrix, s: Step, before: Mosaic, now: Mosaic, y: nat)
    requires st.Ok() && s.Ok() && st.Holds(before) && st.Holds(now) && y < st.hf && LiftedUpTo(st, s, before, now, y, st.wf)
    ensures LiftedUpTo(st, s, before, now, y + 1, 0)
  {
    hide Lifted;
  }

  lemma LiftDone(st: Tetrix, s: Step, before: Mosaic, now: Mosaic)
    requires st.Ok() && s.Ok() && st.Holds(before) && st.Holds(now) && LiftedUpTo(st, s, before, now, st.hf, 0)
    ensures now == before[s.c := LiftedPlane(st, s, before)]
  {
    hide Lifted;
    forall x, y | 0 <= x < st.wf && 0 <= y < st.hf
      ensures now[s.c].At(x, y) == LiftedPlane(st, s, before).At(x, y)
    {
    }
    SamePlane(now[s.c], LiftedPlane(st, s, before));
  }

  lemma LiftStart(st: Tetrix, s: Step, planes: Mosaic)
    requires st.Ok() && s.Ok() && st.Holds(planes)
    ensures LiftedUpTo(st, s, planes, planes, 0, 0)
  {
    hide Lifted;
  }

  /** A lifting step over the planes as they change: it equals the two-array form because no neighbour is a target. */
  method LiftStep(st: Tetrix, image: PlaneSet, s: Step) returns (r: Result<()>)
    requires st.Ok() && s.Ok() && st.Holds(image.planes)
    modifies image
    ensures match Lift(st, s, old(image.planes))
            case Ok(planes) => r.Ok? && image.planes == planes
            case Err(e) => r == Err(e)
  {
    hide Sum, LiftedUpTo, Pow2, TapsOk, LiftedPlane;
    ghost var before := image.planes;
    LiftStart(st, s, before);
    for y := 0 to st.hf
      invariant st.Holds(image.planes) && LiftedUpTo(st, s, before, image.planes, y, 0)
      invariant forall k | 0 <= k < y :: RowFits(LiftedRow(st, s, k, before))
    {
      ghost var row := LiftedRow(st, s, y, before);
      for x := 0 to st.wf
        invariant st.Holds(image.planes) && LiftedUpTo(st, s, before, image.planes, y, x)
        invariant forall k | 0 <= k < x :: IsInt32(row[k])
      {
        LiftNext(st, s, before, image.planes, y, x);
        var sum := SumNeighbours(st, image, s.c, x, y, s.taps);
        var change := sum / Pow2(s.divisor);
        var v := image.planes[s.c].At(x, y) + if s.add then change else -change;
        assert v == row[x];
        if !IsInt32(v) {
          RowTooWide(st, s, y, before);
          return Err(Overflow);
        }
        image.planes := image.planes[s.c := image.planes[s.c].Set(x, y, v)];
      }
      LiftRowDone(st, s, before, image.planes, y);
    }
    LiftDone(st, s, before, image.planes);
    AllRowsFit(st, s, before);
    return Ok(());
  }

  lemma RowTooWide(st: Tetrix, s: Step, y: nat, planes: Mosaic)
    requires st.Ok() && s.Ok() && st.Holds(planes) && y < st.hf && !RowFits(LiftedRow(st, s, y, planes))
    ensures !Fits(LiftedPlane(st, s, planes))
  {
    hide Lifted;
    assert LiftedPlane(st, s, planes).rows[y] == LiftedRow(st, s, y, planes);
  }

  lemma AllRowsFit(st: Tetrix, s: Step, planes: Mosaic)
    requires st.Ok() && s.Ok() && st.Holds(planes) && forall y | 0 <= y < st.hf :: RowFits(LiftedRow(st, s, y, planes))
    ensures Fits(LiftedPlane(st, s, planes))
  {
    hide Lifted;
  }

  /** The steps in order, each in place. */
  method RunSteps(st: Tetrix, image: PlaneSet, steps: seq<Step>) returns (r: Result<()>)
    requires st.Ok() && StepsAllOk(steps) && st.Holds(image.planes)
    modifies image
    ensures match Run(st, steps, old(image.planes))
            case Ok(planes) => r.Ok? && image.planes == planes
            case Err(e) => r == Err(e)
  {
    hide Lift, Step.Ok;
    ghost var goal := Run(st, steps, image.planes);
    for i := 0 to |steps|
      invariant st.Holds(image.planes) && goal == Run(st, steps[i..], image.planes)
    {
      assert steps[i..][0] == steps[i] && steps[i..][1..] == steps[i + 1..];
      var _ :- LiftStep(st, image, steps[i]);
    }
    return Ok(());
  }

  /** Exchanges slots 0 and 2, and 1 and 3. */
  method SwapSlots(image: PlaneSet)
    requires |image.planes| >= 4
    modifies image
    ensures image.planes == Swap(old(image.planes))
  {
    var p := image.planes;
    image.planes := p[0 := p[2]][2 := p[0]];
    p := image.planes;
    image.planes := p[1 := p[3]][3 := p[1]];
  }

  /** Planes equal except that the first three hold transformed samples in the first rows. */
  ghost predicate RctUpTo(before: Mosaic, now: Mosaic, wf: nat, hf: nat, forward: bool, y: nat, x: nat)
    requires FirstThree(before, wf, hf) && FirstThree(now, wf, hf)
  {
    && |now| == |before| && now[3..] == before[3..]
    && forall x', y' | 0 <= x' < wf && 0 <= y' < hf ::
         if y' < y || (y' == y && x' < x) then
           var v := RctSample(before, x', y', forward);
           now[0].At(x', y') == v.r && now[1].At(x', y') == v.g && now[2].At(x', y') == v.b
         else
           && now[0].At(x', y') == before[0].At(x', y') && now[1].At(x', y') == before[1].At(x', y')
           && now[2].At(x', y') == before[2].At(x', y')
  }

  function SetTriple(planes: Mosaic, x: nat, y: nat, v: Rgb): (r: Mosaic)
    requires |planes| >= 3 && forall c | 0 <= c < 3 :: planes[c].Ok() && x < planes[c].width && y < planes[c].height
    ensures |r| == |planes|
  {
    planes[0 := planes[0].Set(x, y, v.r)][1 := planes[1].Set(x, y, v.g)][2 := planes[2].Set(x, y, v.b)]
  }

  lemma RctNext(before: Mosaic, now: Mosaic, wf: nat, hf: nat, forward: bool, y: nat, x: nat)
    requires FirstThree(before, wf, hf) && FirstThree(now, wf, hf) && y < hf && x < wf
    requires RctUpTo(before, now, wf, hf, forward, y, x)
    ensures RctSample(now, x, y, forward) == RctSample(before, x, y, forward)
    ensures var next := SetTriple(now, x, y, RctSample(before, x, y, forward));
            FirstThree(next, wf, hf) && RctUpTo(before, next, wf, hf, forward, y, x + 1)
  {
    hide ToYcc, FromYcc, RctSample;
    assert RctSample(now, x, y, forward) == RctSample(before, x, y, forward) by {
      SameSample(before, now, wf, hf, x, y, forward);
    }
    var next := SetTriple(now, x, y, RctSample(before, x, y, forward));
    assert next[3..] == now[3..];
  }

  lemma SameSample(before: Mosaic, now: Mosaic, wf: nat, hf: nat, x: nat, y: nat, forward: bool)
    requires FirstThree(before, wf, hf) && FirstThree(now, wf, hf) && y < hf && x < wf
    requires forall c | 0 <= c < 3 :: now[c].At(x, y) == before[c].At(x, y)
    ensures RctSample(now, x, y, forward) == RctSample(before, x, y, forward)
  {
  }

  lemma RctDone(before: Mosaic, now: Mosaic, wf: nat, hf: nat, forward: bool)
    requires FirstThree(before, wf, hf) && FirstThree(now, wf, hf) && RctUpTo(before, now, wf, hf, forward, hf, 0)
    ensures now == [RctPlane(before, wf, hf, 0, forward), RctPlane(before, wf, hf, 1, forward),
                    RctPlane(before, wf, hf, 2, forward)] + before[3..]
  {
    hide RctSample;
    forall c: nat | c < 3
      ensures now[c] == RctPlane(before, wf, hf, c, forward)
    {
      forall x, y | 0 <= x < wf && 0 <= y < hf
        ensures now[c].At(x, y) == RctPlane(before, wf, hf, c, forward).At(x, y)
      {
      }
      SamePlane(now[c], RctPlane(before, wf, hf, c, forward));
    }
    assert now == [now[0], now[1], now[2]] + now[3..];
  }

  predicate TripleFits(v: Rgb) {
    IsInt32(v.r) && IsInt32(v.g) && IsInt32(v.b)
  }

  lemma RctFits(planes: Mosaic, wf: nat, hf: nat, forward: bool)
    requires FirstThree(planes, wf, hf)
    ensures (forall x, y | 0 <= x < wf && 0 <= y < hf :: TripleFits(RctSample(planes, x, y, forward))) <==>
            forall c | 0 <= c < 3 :: Fits(RctPlane(planes, wf, hf, c, forward))
  {
    hide RctSample;
    forall x, y | 0 <= x < wf && 0 <= y < hf
      ensures TripleFits(RctSample(planes, x, y, forward)) <==>
              forall c | 0 <= c < 3 :: IsInt32(RctPlane(planes, wf, hf, c, forward).rows[y][x])
    {
      var v := RctSample(planes, x, y, forward);
      assert RctPlane(planes, wf, hf, 0, forward).rows[y][x] == v.r;
      assert RctPlane(planes, wf, hf, 1, forward).rows[y][x] == v.g;
      assert RctPlane(planes, wf, hf, 2, forward).rows[y][x] == v.b;
    }
    hide RctPlane;
    if forall c | 0 <= c < 3 :: Fits(RctPlane(planes, wf, hf, c, forward)) {
      forall x, y | 0 <= x < wf && 0 <= y < hf
        ensures TripleFits(RctSample(planes, x, y, forward))
      {
        forall c | 0 <= c < 3
          ensures IsInt32(RctPlane(planes, wf, hf, c, forward).rows[y][x])
        {
          assert RowFits(RctPlane(planes, wf, hf, c, forward).rows[y]);
        }
      }
    }
  }

  /** The colour transform, sample triple by sample triple. */
  method TransformRct(image: PlaneSet, wf: nat, hf: nat, forward: bool) returns (r: Result<()>)
    requires FirstThree(image.planes, wf, hf)
    modifies image
    ensures match Rct(old(image.planes), wf, hf, forward)
            case Ok(planes) => r.Ok? && image.planes == planes
            case Err(e) => r == Err(e)
  {
    hide ToYcc, FromYcc, RctPlane, RctUpTo, SetTriple;
    ghost var before := image.planes;
    RctFits(before, wf, hf, forward);
    RctStart(before, wf, hf, forward);
    for y := 0 to hf
      invariant FirstThree(image.planes, wf, hf) && RctUpTo(before, image.planes, wf, hf, forward, y, 0)
      invariant forall x', y' | 0 <= x' < wf && 0 <= y' < y :: TripleFits(RctSample(before, x', y', forward))
    {
      for x := 0 to wf
        invariant FirstThree(image.planes, wf, hf) && RctUpTo(before, image.planes, wf, hf, forward, y, x)
        invariant forall x' | 0 <= x' < x :: TripleFits(RctSample(before, x', y, forward))
      {
        RctNext(before, image.planes, wf, hf, forward, y, x);
        var v := Rgb(image.planes[0].At(x, y), image.planes[1].At(x, y), image.planes[2].At(x, y));
        var o := if forward then ToYcc(v) else FromYcc(v);
        if !TripleFits(o) {
          return Err(Overflow);
        }
        image.planes := SetTriple(image.planes, x, y, o);
      }
      RctRowDone(before, image.planes, wf, hf, forward, y);
    }
    RctDone(before, image.planes, wf, hf, forward);
    return Ok(());
  }

  lemma RctStart(planes: Mosaic, wf: nat, hf: nat, forward: bool)
    requires FirstThree(planes, wf, hf)
    ensures RctUpTo(planes, planes, wf, hf, forward, 0, 0)
  {
  }

  lemma RctRowDone(before: Mosaic, now: Mosaic, wf: nat, hf: nat, forward: bool, y: nat)
    requires FirstThree(before, wf, hf) && FirstThree(now, wf, hf) && RctUpTo(before, now, wf, hf, forward, y, wf)
    ensures RctUpTo(before, now, wf, hf, forward, y + 1, 0)
  {
    hide RctSample;
  }

  /** Dispatch on Cpih; the planes are transformed in place. */
  method TransformMct(h: Headers, image: PlaneSet, forward: bool) returns (r: Result<()>)
    requires PictureOk(h, image.planes)
    modifies image
    ensures match Mct(h, old(image.planes), forward)
            case Ok(planes) => r.Ok? && image.planes == planes
            case Err(e) => r == Err(e)
  {
    hide Rct, Run, ForwardSteps, InverseSteps, PatternType;
    match h.pih.cpih {
      case 0 =>
        return Ok(());
      case 1 =>
        if !PlanesMatch(h, image.planes, 3) {
          return Err(BadShape);
        }
        r := TransformRct(image, h.pih.wf, h.pih.hf, forward);
      case 3 =>
        if !PlanesMatch(h, image.planes, 4) {
          return Err(BadShape);
        }
        var st :- TetrixOf(h);
        StepsOk(st);
        if forward {
          SwapSlots(image);
          r := RunSteps(st, image, ForwardSteps(st));
        } else {
          var _ :- RunSteps(st, image, InverseSteps(st));
          SwapSlots(image);
          return Ok(());
        }
      case _ =>
        return Err(Unsupported);
    }
  }
}
