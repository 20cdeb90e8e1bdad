// Pictures of small precincts: losslessly, or with room for the largest of them, their body encodes exactly when every
// coefficient fits its bitplanes.
module SmallPictures {
  import opened Wrappers
  import opened HeaderTypes
  import opened Geometry
  import opened GeometryTiling
  import opened GeometryPackets
  import opened Placement
  import opened Precinct
  import opened PrecinctRoundTrip
  import opened PrecinctTheorems
  import opened WaveletLevels
  import opened BodyCodec
  import opened EncoderFailures
  import opened BodyFailures
  import ConstantRate
  import PrecinctHeaders
  import RateControl
  import SmallPrecincts

  ghost predicate PrecinctSmall(h: Headers, p: nat)
    requires Supported(h) && p < NumPrecincts(h)
  {
    ShapeIsOk(h, p);
    SmallPrecincts.Small(ShapeOf(h, p))
  }

  ghost predicate CoeffsFitIn(h: Headers, p: nat, img: BandPlanes)
    requires Supported(h) && p < NumPrecincts(h) && Allocated(h, img)
  {
    CoeffsFit(Extract(h, p, img), h.pih.br)
  }

  /** No limit, or one that no small precinct exceeds. */
  predicate Ample(policy: Policy) {
    policy.Lossless? || (policy.ConstantRate? && 0x8_0000 <= policy.budget < 0x10_0000)
  }

  /** Every trial of the search fits, so it ends at the finest Q and the largest R. */
  lemma AmpleChoice(h: Headers, policy: Policy, p: nat, c: Coeffs, st: State)
    requires Supported(h) && p < NumPrecincts(h) && PrecinctSmall(h, p) && Holds(h, p, c) && Ample(policy) && policy.ConstantRate?
    requires StateFits(h, p, st) && StateInRange(st, h.pih.br)
    ensures var j := JobOf(h, p, ModesFor(h, policy.vertical, policy.significance, st), c, st, policy.budget);
            if CoeffsFit(c, h.pih.br) then RateControl.Choose(j) == Result.Ok((0, 2 * NumBands(h) - 1))
            else RateControl.Choose(j).Err?
  {
    hide Supported, NumPrecincts, NumBands, ShapeOf, Encode, StateMatches, StateInRange, CoeffsFit, SmallPrecincts.Small, CodingOk,
         CoeffsOk, WeightsFor, ModesFor, RateControl.SearchQ, RateControl.SearchR;
    HeaderShapes(h);
    ShapeIsOk(h, p);
    ShapeBands(h, p);
    var d := ModesFor(h, policy.vertical, policy.significance, st);
    var j := JobOf(h, p, d, c, st, policy.budget);
    forall q: nat, r: nat | q <= 31 && r <= j.MaxR()
      ensures CoeffsFit(c, h.pih.br) <==> j.Fits(q, r)
      ensures CoeffsFit(c, h.pih.br) <==> j.Size(q, r).Ok?
    {
      OwnCodingOk(h, p, q, r, policy.vertical, policy.significance, st);
      SmallPrecincts.SmallEncodes(ShapeOf(h, p), ModeOf(h), WeightsFor(h), Coding(q, r, d, []), c, st);
    }
    if CoeffsFit(c, h.pih.br) {
      RateControl.GenerousBudget(j);
    } else {
      assert j.Size(31, 0).Err?;
    }
  }

  /** One small precinct. */
  lemma SmallStep(h: Headers, policy: Policy, p: nat, c: Coeffs, st: State)
    requires Supported(h) && p < NumPrecincts(h) && PrecinctSmall(h, p) && Holds(h, p, c) && Ample(policy)
    requires StateFits(h, p, st) && StateInRange(st, h.pih.br)
    ensures CoeffsFit(c, h.pih.br) <==>
            PlanOf(h, policy, p, c, st).Ok? && StepEncode(h, p, PlanOf(h, policy, p, c, st).value, c, st).Ok?
  {
    hide Supported, NumPrecincts, NumBands, ShapeOf, StateFits, StateInRange, CoeffsFit, PrecinctSmall, Holds, StepEncode,
         ModesFor, RateControl.Choose;
    if policy.Lossless? {
      LosslessStep(h, policy, p, c, st);
    } else {
      AmpleChoice(h, policy, p, c, st);
      if CoeffsFit(c, h.pih.br) {
        ConstantRate.WinnerRecodes(h, policy, p, c, st);
      }
    }
  }

  lemma LosslessStep(h: Headers, policy: Policy, p: nat, c: Coeffs, st: State)
    requires Supported(h) && p < NumPrecincts(h) && PrecinctSmall(h, p) && Holds(h, p, c) && policy.Lossless?
    requires StateFits(h, p, st) && StateInRange(st, h.pih.br)
    ensures PlanOf(h, policy, p, c, st).Ok?
    ensures StepEncode(h, p, PlanOf(h, policy, p, c, st).value, c, st).Ok? <==> CoeffsFit(c, h.pih.br)
  {
    hide Supported, NumPrecincts, NumBands, ShapeOf, Encode, StateMatches, StateInRange, CoeffsFit, SmallPrecincts.Small, CodingOk,
         PrecinctHeaders.Values, PrecinctHeaders.Widths, CoeffsOk, WeightsFor;
    HeaderShapes(h);
    ShapeIsOk(h, p);
    ShapeBands(h, p);
    OwnCodingOk(h, p, 0, 0, policy.vertical, policy.significance, st);
    var coding := Coding(0, 0, ModesFor(h, policy.vertical, policy.significance, st), []);
    SmallPrecincts.SmallEncodes(ShapeOf(h, p), ModeOf(h), WeightsFor(h), coding, c, st);
    EncodedLength(ShapeOf(h, p), ModeOf(h), WeightsFor(h), coding, c, st);
  }

  lemma EncodedLength(sh: Shape, md: Mode, weights: seq<Weight>, coding: Coding, c: Coeffs, st: State)
    requires sh.Ok() && |weights| == sh.Bands()
    ensures Encode(sh, md, weights, coding, c, st).Ok? ==> 0 < |Encode(sh, md, weights, coding, c, st).value.bytes| < 0x10_0000
  {
    hide RequestedRaw, QuantisePrecinct, PacketsBytes, CheckCounts, FinalRaw, NextState, Truncations;
  }

  lemma StepKeepsRange(h: Headers, p: nat, plan: Plan, c: Coeffs, st: State)
    requires Supported(h) && p < NumPrecincts(h) && StateInRange(st, h.pih.br) && StepEncode(h, p, plan, c, st).Ok?
    ensures StateInRange(StepEncode(h, p, plan, c, st).value.1, h.pih.br)
  {
    hide Supported, NumPrecincts, NumBands, ShapeOf, Encode, StateInRange, PrecinctHeaders.Write;
    HeaderShapes(h);
    ShapeIsOk(h, p);
    ShapeBands(h, p);
    EncodeKeepsState(ShapeOf(h, p), ModeOf(h), WeightsFor(h), plan.coding, c, st);
  }

  lemma {:induction false} RunEncodes(h: Headers, policy: Policy, img: BandPlanes, p: nat, end: nat, columns: seq<State>)
    requires Supported(h) && Allocated(h, img) && p <= end <= NumPrecincts(h) && ColumnsOk(h, columns) && Ample(policy)
    requires ColumnsFit(h, p, columns) && StatesInRange(columns, h.pih.br)
    requires forall q: nat | p <= q < end :: PrecinctSmall(h, q)
    ensures RunEncode(h, policy, img, p, end, columns).Ok? <==> forall q: nat | p <= q < end :: CoeffsFitIn(h, q, img)
    ensures RunEncode(h, policy, img, p, end, columns).Ok? ==>
              var after := RunEncode(h, policy, img, p, end, columns).value.columns;
              ColumnsFit(h, end, after) && StatesInRange(after, h.pih.br)
    decreases end - p
  {
    hide Supported, NumPrecincts, Allocated, Extract, StepEncode, PlanOf, Npx, StateFits, Holds, ColumnsFit, PrecinctSmall,
         CoeffsFit,
         StateInRange;
    if p < end {
      var c, col := Extract(h, p, img), Column(h, p);
      ExtractHolds(h, p, img);
      NextFits(h, p, columns);
      SmallStep(h, policy, p, c, columns[col]);
      if CoeffsFit(c, h.pih.br) {
        assert CoeffsFitIn(h, p, img);
        var plan := PlanOf(h, policy, p, c, columns[col]).value;
        if p + Npx(h) < NumPrecincts(h) {
          StepLeaves(h, p, plan, c, columns[col]);
        }
        StepKeepsRange(h, p, plan, c, columns[col]);
        var st := StepEncode(h, p, plan, c, columns[col]).value.1;
        ColumnMovesOn(h, p, columns, st);
        RunEncodes(h, policy, img, p + 1, end, columns[col := st]);
      } else {
        assert !CoeffsFitIn(h, p, img);
      }
    }
  }

  /** From slice t on. */
  lemma {:induction false} SlicesEncodes(h: Headers, policy: Policy, img: BandPlanes, t: nat, columns: seq<State>)
    requires Supported(h) && Allocated(h, img) && ColumnsOk(h, columns) && Ample(policy) && t < NumSlices(h)
    requires StatesInRange(columns, h.pih.br)
    requires forall q: nat | q < NumPrecincts(h) :: PrecinctSmall(h, q)
    ensures SlicesEncode(h, policy, img, t, columns).Ok? <==>
            forall q: nat | SliceFirst(h, t) <= q < NumPrecincts(h) :: CoeffsFitIn(h, q, img)
    decreases NumSlices(h) - t
  {
    hide Supported, NumPrecincts, Allocated, RunEncode, NumSlices, SliceFirst, SliceEnd, Invalidated, Npx, ColumnsFit,
         PrecinctSmall,
         CoeffsFitIn, StatesInRange, PrecinctHeaders.WriteSlice;
    var first, end := SliceFirst(h, t), SliceEnd(h, t);
    InvalidFits(h, first, columns);
    InvalidatedInRange(columns, h.pih.br);
    RunEncodes(h, policy, img, first, end, Invalidated(columns));
    var run := RunEncode(h, policy, img, first, end, Invalidated(columns));
    if run.Ok? && t + 1 < NumSlices(h) {
      SlicesEncodes(h, policy, img, t + 1, run.value.columns);
    }
  }

  /** The body of a picture of small precincts with ample room encodes exactly when all its coefficients fit. */
  lemma BodyEncodes(h: Headers, policy: Policy, img: BandPlanes, columns: seq<State>)
    requires Supported(h) && Allocated(h, img) && ColumnsOk(h, columns) && Ample(policy) && StatesInRange(columns, h.pih.br)
    requires forall q: nat | q < NumPrecincts(h) :: PrecinctSmall(h, q)
    ensures SlicesEncode(h, policy, img, 0, columns).Ok? <==>
            forall q: nat | q < NumPrecincts(h) :: CoeffsFitIn(h, q, img)
  {
    hide Supported, NumPrecincts, Allocated, NumSlices, SliceFirst, PrecinctSmall, CoeffsFitIn, StatesInRange, SlicesEncode, Npx;
    SomeSlice(h);
    SlicesEncodes(h, policy, img, 0, columns);
  }
}
