// When encoding a picture's body fails. The states of every precinct column fit the next precinct of that column by
// construction, so only sizes are left: of coefficients, of length fields, and of the budget.
module BodyFailures {
  import opened Wrappers
  import opened Arith
  import opened HeaderTypes
  import opened Geometry
  import opened GeometryTiling
  import opened GeometryPackets
  import opened Placement
  import opened Precinct
  import opened WaveletLevels
  import opened BodyCodec
  import opened EncoderFailures
  import PrecinctHeaders
  import RateControl

  // ---- states along a column -------------------------------------------------------------------------

  /** The state fits precinct p. */
  ghost predicate StateFits(h: Headers, p: nat, st: State)
    requires Supported(h) && p < NumPrecincts(h)
  {
    ShapeIsOk(h, p);
    StateMatches(ShapeOf(h, p), st)
  }

  /** The precinct below keeps its column, one row further. */
  lemma RowBelow(h: Headers, p: nat)
    requires Supported(h) && p + Npx(h) < NumPrecincts(h)
    ensures Row(h, p + Npx(h)) == Row(h, p) + 1 && Column(h, p + Npx(h)) == Column(h, p)
  {
    hide Supported, Npx, Npy;
    GridFacts(h);
    DivShift(p, 1, Npx(h));
    DivMod(p, Npx(h));
    DivMod(p + Npx(h), Npx(h));
    assert (p / Npx(h) + 1) * Npx(h) == (p / Npx(h)) * Npx(h) + Npx(h);
  }

  lemma BandBelow(h: Headers, p: nat, b: nat)
    requires Supported(h) && p + Npx(h) < NumPrecincts(h) && b < NumBands(h)
    ensures BandPrecinctWidth(h, p + Npx(h), b) == BandPrecinctWidth(h, p, b)
    ensures LineCount(h, p + Npx(h), b) > 0 ==> LineCount(h, p, b) > 0
  {
    hide Supported, NumPrecincts, BandOf, BandExtent, NumBands, Npx, ColumnWidth, Row, Column, Span;
    RowBelow(h, p);
    assert (Row(h, p) + 1) * Span(h, b) == Row(h, p) * Span(h, b) + Span(h, b);
  }

  /** What a precinct leaves fits the precinct below it. */
  lemma LeftForBelow(h: Headers, p: nat, m: Counts, t: seq<nat>)
    requires Supported(h) && p + Npx(h) < NumPrecincts(h) && |t| == NumBands(h)
    ensures ShapeOf(h, p).Ok() && StateFits(h, p + Npx(h), NextState(ShapeOf(h, p), m, t))
  {
    hide Supported, NumPrecincts, NumBands, LineCount, LineStart, BandPrecinctWidth, Packets, Npx, LineCounts;
    ShapeIsOk(h, p);
    ShapeIsOk(h, p + Npx(h));
    var sh, st := ShapeOf(h, p + Npx(h)), NextState(ShapeOf(h, p), m, t);
    forall b: nat | b < sh.Bands() && sh.lines[b] > 0
      ensures |st.lastLine[b]| == sh.Groups(b)
    {
      BandBelow(h, p, b);
    }
  }

  lemma EncodedState(sh: Shape, md: Mode, weights: seq<Weight>, coding: Coding, c: Coeffs, st: State) returns (m: Counts,
                     t: seq<nat>)
    requires sh.Ok() && |weights| == sh.Bands() && Encode(sh, md, weights, coding, c, st).Ok?
    ensures |t| == sh.Bands() && Encode(sh, md, weights, coding, c, st).value.state == NextState(sh, m, t)
  {
    hide RequestedRaw, QuantisePrecinct, PacketsBytes, CheckCounts, FinalRaw, NextState, Truncations;
    var cx := ContextOf(sh, md, weights, coding.q, coding.r, coding.d, st);
    m, t := CountsOf(QuantisePrecinct(cx, c).value), cx.t;
  }

  lemma StepLeaves(h: Headers, p: nat, plan: Plan, c: Coeffs, st: State)
    requires Supported(h) && p + Npx(h) < NumPrecincts(h) && StepEncode(h, p, plan, c, st).Ok?
    ensures StateFits(h, p + Npx(h), StepEncode(h, p, plan, c, st).value.1)
  {
    hide Supported, NumPrecincts, NumBands, ShapeOf, Encode, PrecinctHeaders.Write, Npx, StateFits, NextState;
    HeaderShapes(h);
    ShapeIsOk(h, p);
    ShapeBands(h, p);
    var m, t := EncodedState(ShapeOf(h, p), ModeOf(h), WeightsFor(h), plan.coding, c, st);
    LeftForBelow(h, p, m, t);
  }

  /** Every column's state fits its next precinct, p being the next of all. */
  ghost predicate ColumnsFit(h: Headers, p: nat, columns: seq<State>)
    requires Supported(h) && ColumnsOk(h, columns)
  {
    forall q: nat | p <= q < p + Npx(h) && q < NumPrecincts(h) :: StateFits(h, q, columns[Column(h, q)])
  }

  lemma OtherColumn(h: Headers, p: nat, q: nat)
    requires Supported(h) && p < q < p + Npx(h) && q < NumPrecincts(h)
    ensures Column(h, q) != Column(h, p)
  {
    hide Supported, Npx, Npy;
    GridFacts(h);
    RowInGrid(h, p);
    RowInGrid(h, q);
    if Column(h, q) == Column(h, p) {
      RowsApart(Row(h, p), Row(h, q), Column(h, p), Npx(h));
    }
  }

  lemma RowsApart(a: nat, b: nat, c: nat, n: nat)
    requires a * n + c < b * n + c
    ensures a * n + c + n <= b * n + c
  {
    if b > a {
      MulMonotone(a + 1, b, n);
      assert (a + 1) * n == a * n + n;
    } else {
      MulMonotone(b, a, n);
    }
  }

  lemma ColumnMovesOn(h: Headers, p: nat, columns: seq<State>, st: State)
    requires Supported(h) && ColumnsOk(h, columns) && p < NumPrecincts(h) && ColumnsFit(h, p, columns)
    requires p + Npx(h) < NumPrecincts(h) ==> StateFits(h, p + Npx(h), st)
    ensures ColumnsFit(h, p + 1, columns[Column(h, p) := st])
  {
    hide Supported, NumPrecincts, Npx, StateFits, Column;
    var columns' := columns[Column(h, p) := st];
    forall q: nat | p + 1 <= q < p + 1 + Npx(h) && q < NumPrecincts(h)
      ensures StateFits(h, q, columns'[Column(h, q)])
    {
      if q < p + Npx(h) {
        OtherColumn(h, p, q);
      } else {
        RowBelow(h, p);
      }
    }
  }

  lemma InvalidFits(h: Headers, p: nat, columns: seq<State>)
    requires Supported(h) && ColumnsOk(h, columns)
    ensures ColumnsFit(h, p, Invalidated(columns))
  {
    hide Supported, NumPrecincts, Npx, Column, ShapeOf;
    forall q: nat | p <= q < p + Npx(h) && q < NumPrecincts(h)
      ensures StateFits(h, q, Invalidated(columns)[Column(h, q)])
    {
      ShapeIsOk(h, q);
    }
  }

  // ---- one precinct ----------------------------------------------------------------------------------

  /** The encoder's own coding is always admissible: no raw requests, vertical prediction only from a valid state. */
  lemma OwnCodingOk(h: Headers, p: nat, q: nat, r: nat, vertical: bool, significance: bool, st: State)
    requires Supported(h) && p < NumPrecincts(h) && q <= 31 && r < 2 * NumBands(h)
    ensures ShapeOf(h, p).Ok()
    ensures |WeightsFor(h)| == ShapeOf(h, p).Bands() == |ModesFor(h, vertical, significance, st)|
    ensures var d := ModesFor(h, vertical, significance, st);
            CodingOk(ContextOf(ShapeOf(h, p), ModeOf(h), WeightsFor(h), q, r, d, st), Coding(q, r, d, []))
  {
    hide Supported, NumPrecincts, NumBands, ShapeOf, Truncations;
    HeaderShapes(h);
    ShapeIsOk(h, p);
    ShapeBands(h, p);
    var d := ModesFor(h, vertical, significance, st);
    var cx := ContextOf(ShapeOf(h, p), ModeOf(h), WeightsFor(h), q, r, d, st);
    NoRequest(cx, Coding(q, r, d, []));
  }

  lemma NoRequest(cx: Context, coding: Coding)
    requires cx.Ok() && coding.raw == [] && (!cx.st.valid ==> forall b | 0 <= b < |cx.d| :: !cx.Vertical(b))
    ensures RequestedRaw(cx, coding).Ok?
  {
    forall i, j | 0 <= i < |cx.sh.packets| && 0 <= j < |cx.sh.packets[i]|
      ensures cx.sh.packets[i][j].band < |cx.d|
    {
      assert cx.sh.EntriesOk(cx.sh.packets[i]);
    }
  }

  const SIZES: set<Error> := {TooManyBitplanes, LengthOutOfRange}

  /** Trials fail on sizes only. */
  lemma TrialFails(h: Headers, p: nat, q: nat, r: nat, vertical: bool, significance: bool, c: Coeffs, st: State)
    requires Supported(h) && p < NumPrecincts(h) && q <= 31 && r < 2 * NumBands(h) && Holds(h, p, c) && StateFits(h, p, st)
    ensures ShapeOf(h, p).Ok() && |WeightsFor(h)| == ShapeOf(h, p).Bands()
    ensures var enc := Encode(ShapeOf(h, p), ModeOf(h), WeightsFor(h),
                              Coding(q, r, ModesFor(h, vertical, significance, st), []), c, st);
            enc.Err? ==> enc.error in SIZES
  {
    hide Supported, NumPrecincts, NumBands, ShapeOf, StateMatches, CodingOk, Encode, ModesFor, WeightsFor, CoeffsFit;
    OwnCodingOk(h, p, q, r, vertical, significance, st);
    EncodeFails(ShapeOf(h, p), ModeOf(h), WeightsFor(h), Coding(q, r, ModesFor(h, vertical, significance, st), []), c, st);
  }

  /** The errors a policy can end in. */
  ghost function Failures(policy: Policy): set<Error> {
    if policy.ConstantRate? then SIZES + {BudgetTooSmall} else SIZES
  }

  lemma PlanFails(h: Headers, policy: Policy, p: nat, c: Coeffs, st: State)
    requires Supported(h) && p < NumPrecincts(h) && Holds(h, p, c) && StateFits(h, p, st) && !policy.Given?
    ensures PlanOf(h, policy, p, c, st).Err? ==> PlanOf(h, policy, p, c, st).error in Failures(policy)
  {
    hide Supported, NumPrecincts, NumBands, ShapeOf, Encode, ModesFor, StateFits, Holds, WeightsFor, RateControl.Choose;
    if policy.ConstantRate? {
      var j := JobOf(h, p, ModesFor(h, policy.vertical, policy.significance, st), c, st, policy.budget);
      HeaderShapes(h);
      ShapeBands(h, p);
      forall q: nat, r: nat | q <= 31 && r <= j.MaxR() && j.Size(q, r).Err?
        ensures j.Size(q, r).error in SIZES
      {
        TrialFails(h, p, q, r, policy.vertical, policy.significance, c, st);
      }
      RateControl.ChoiceFails(j, SIZES);
    }
  }

  lemma StepFails(h: Headers, policy: Policy, p: nat, c: Coeffs, st: State)
    requires Supported(h) && p < NumPrecincts(h) && Holds(h, p, c) && StateFits(h, p, st) && !policy.Given?
    requires PlanOf(h, policy, p, c, st).Ok?
    ensures var step := StepEncode(h, p, PlanOf(h, policy, p, c, st).value, c, st);
            step.Err? ==> step.error in Failures(policy)
  {
    hide Supported, NumPrecincts, NumBands, ShapeOf, Encode, StateFits, Holds, WeightsFor, RateControl.Choose,
         PrecinctHeaders.Values,
         PrecinctHeaders.Widths;
    HeaderShapes(h);
    ShapeIsOk(h, p);
    ShapeBands(h, p);
    var plan := PlanOf(h, policy, p, c, st).value;
    if policy.ConstantRate? {
      var j := JobOf(h, p, ModesFor(h, policy.vertical, policy.significance, st), c, st, policy.budget);
      RateControl.ChoiceIsBoundary(j);
      CarriedAtMost(RateControl.Choose(j).value.1);
      TrialFails(h, p, plan.coding.q, plan.coding.r, policy.vertical, policy.significance, c, st);
    } else {
      TrialFails(h, p, 0, 0, policy.vertical, policy.significance, c, st);
    }
  }

  lemma CarriedAtMost(r: nat)
    ensures r % 256 <= r
  {
    DivMod(r, 256);
  }

  // ---- the body --------------------------------------------------------------------------------------

  lemma {:induction false} RunFails(h: Headers, policy: Policy, img: BandPlanes, p: nat, end: nat, columns: seq<State>)
    requires Supported(h) && Allocated(h, img) && p <= end <= NumPrecincts(h) && ColumnsOk(h, columns) && !policy.Given?
    requires ColumnsFit(h, p, columns)
    ensures var r := RunEncode(h, policy, img, p, end, columns);
            if r.Ok? then ColumnsFit(h, end, r.value.columns) else r.error in Failures(policy)
    decreases end - p
  {
    hide Supported, NumPrecincts, Allocated, Extract, StepEncode, PlanOf, Npx, StateFits, Holds;
    if p < end {
      var c, col := Extract(h, p, img), Column(h, p);
      ExtractHolds(h, p, img);
      NextFits(h, p, columns);
      PlanFails(h, policy, p, c, columns[col]);
      if PlanOf(h, policy, p, c, columns[col]).Ok? {
        var plan := PlanOf(h, policy, p, c, columns[col]).value;
        StepFails(h, policy, p, c, columns[col]);
        if StepEncode(h, p, plan, c, columns[col]).Ok? {
          if p + Npx(h) < NumPrecincts(h) {
            StepLeaves(h, p, plan, c, columns[col]);
          }
          var st := StepEncode(h, p, plan, c, columns[col]).value.1;
          ColumnMovesOn(h, p, columns, st);
          RunFails(h, policy, img, p + 1, end, columns[col := st]);
        }
      }
    }
  }

  lemma NextFits(h: Headers, p: nat, columns: seq<State>)
    requires Supported(h) && ColumnsOk(h, columns) && p < NumPrecincts(h) && ColumnsFit(h, p, columns)
    ensures StateFits(h, p, columns[Column(h, p)])
  {
    hide Supported, NumPrecincts, StateFits, Column;
    GridFacts(h);
  }

  /** Coding the body of a picture at the encoder's own choices fails on sizes only. */
  lemma {:induction false} SlicesFail(h: Headers, policy: Policy, img: BandPlanes, t: nat, columns: seq<State>)
    requires Supported(h) && Allocated(h, img) && ColumnsOk(h, columns) && !policy.Given?
    ensures var r := SlicesEncode(h, policy, img, t, columns); r.Err? ==> r.error in Failures(policy)
    decreases NumSlices(h) - t
  {
    hide Supported, NumPrecincts, Allocated, RunEncode, NumSlices, SliceFirst, SliceEnd, Invalidated, Npx, ColumnsFit,
         PrecinctHeaders.WriteSlice, Failures;
    if t < NumSlices(h) {
      InvalidFits(h, SliceFirst(h, t), columns);
      RunFails(h, policy, img, SliceFirst(h, t), SliceEnd(h, t), Invalidated(columns));
      var run := RunEncode(h, policy, img, SliceFirst(h, t), SliceEnd(h, t), Invalidated(columns));
      if run.Ok? {
        SlicesFail(h, policy, img, t + 1, run.value.columns);
      }
    }
  }
}
