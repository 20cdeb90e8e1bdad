// The predictor states of a coded picture as a function of its plans alone, and the sizes of its parts. Trial
// encodings leave no trace: the state every choice starts from is what the choices before it lead to.
module RunHistory {
  import opened Wrappers
  import opened Arith
  import opened HeaderTypes
  import opened Geometry
  import opened GeometryTiling
  import opened GeometryPackets
  import opened WaveletLevels
  import opened BodyCodec
  import Codec
  import Placement
  import Precinct
  import PrecinctHeaders
  import RateControl

  // ---- states ----------------------------------------------------------------------------------------

  /** Precinct p opens a slice. */
  ghost predicate SliceTop(h: Headers, p: nat)
    requires Supported(h)
  {
    exists t: nat | t < NumSlices(h) :: SliceFirst(h, t) == p
  }

  /** The states precinct p is coded with, given those behind its predecessors. */
  ghost function Entered(h: Headers, p: nat, columns: seq<Precinct.State>): (r: seq<Precinct.State>)
    requires Supported(h)
    ensures |r| == |columns|
  {
    if SliceTop(h, p) then Invalidated(columns) else columns
  }

  /** The states behind the first |plans| precincts. */
  ghost function ColumnsAfter(h: Headers, img: BandPlanes, plans: seq<Plan>): (columns: seq<Precinct.State>)
    requires Supported(h) && Allocated(h, img) && |plans| <= NumPrecincts(h)
    ensures ColumnsOk(h, columns)
    decreases |plans|
  {
    if plans == [] then Codec.NoStates(h) else
    var p := |plans| - 1;
    MovedOn(h, img, p, plans[p], Entered(h, p, ColumnsAfter(h, img, plans[..p])))
  }

  /** One precinct further: only its column moves on. */
  ghost function MovedOn(h: Headers, img: BandPlanes, p: nat, plan: Plan, columns: seq<Precinct.State>): (r: seq<Precinct.State>)
    requires Supported(h) && Allocated(h, img) && p < NumPrecincts(h) && ColumnsOk(h, columns)
    ensures ColumnsOk(h, r)
  {
    var step := StepEncode(h, p, plan, Placement.Extract(h, p, img), columns[Column(h, p)]);
    if step.Ok? then columns[Column(h, p) := step.value.1] else columns
  }

  /** The state precinct |plans| is coded with. */
  ghost function EntryState(h: Headers, img: BandPlanes, plans: seq<Plan>): Precinct.State
    requires Supported(h) && Allocated(h, img) && |plans| < NumPrecincts(h)
  {
    Entered(h, |plans|, ColumnsAfter(h, img, plans))[Column(h, |plans|)]
  }

  /** The policy chooses this plan behind those plans, and it can be coded. */
  ghost predicate Planned(h: Headers, policy: Policy, img: BandPlanes, before: seq<Plan>, plan: Plan)
    requires Supported(h) && Allocated(h, img) && |before| < NumPrecincts(h)
  {
    var p, st := |before|, EntryState(h, img, before);
    && PlanOf(h, policy, p, Placement.Extract(h, p, img), st) == Ok(plan)
    && StepEncode(h, p, plan, Placement.Extract(h, p, img), st).Ok?
  }

  ghost predicate AllPlanned(h: Headers, policy: Policy, img: BandPlanes, plans: seq<Plan>)
    requires Supported(h) && Allocated(h, img) && |plans| <= NumPrecincts(h)
  {
    forall p | 0 <= p < |plans| :: Planned(h, policy, img, plans[..p], plans[p])
  }

  lemma PlannedSnoc(h: Headers, policy: Policy, img: BandPlanes, before: seq<Plan>, plan: Plan)
    requires Supported(h) && Allocated(h, img) && |before| < NumPrecincts(h)
    requires AllPlanned(h, policy, img, before) && Planned(h, policy, img, before, plan)
    ensures AllPlanned(h, policy, img, before + [plan])
  {
    hide Supported, NumPrecincts, Allocated, Planned;
    forall p | 0 <= p < |before + [plan]|
      ensures Planned(h, policy, img, (before + [plan])[..p], (before + [plan])[p])
    {
      assert (before + [plan])[..p] == before[..p];
      if p == |before| {
        assert before[..p] == before;
      }
    }
  }

  lemma AfterSnoc(h: Headers, img: BandPlanes, before: seq<Plan>, plan: Plan)
    requires Supported(h) && Allocated(h, img) && |before| < NumPrecincts(h)
    ensures ColumnsAfter(h, img, before + [plan]) ==
            MovedOn(h, img, |before|, plan, Entered(h, |before|, ColumnsAfter(h, img, before)))
  {
    hide Supported, NumPrecincts, Allocated, MovedOn, Entered;
    assert (before + [plan])[..|before|] == before;
  }

  // ---- sizes -----------------------------------------------------------------------------------------

  /** A precinct coded within a budget: its header and exactly the budget. */
  function PrecinctBytes(h: Headers, budget: nat): nat
    requires Supported(h)
  {
    PrecinctHeaders.HeaderBytes(Existing(h), false) + budget
  }

  lemma StepLength(h: Headers, p: nat, plan: Plan, c: Precinct.Coeffs, st: Precinct.State)
    requires Supported(h) && p < NumPrecincts(h) && StepEncode(h, p, plan, c, st).Ok? && plan.lprc.Some?
    ensures |StepEncode(h, p, plan, c, st).value.0| == PrecinctBytes(h, plan.lprc.value)
  {
    hide Supported, NumPrecincts, NumBands, ShapeOf, Precinct.Encode, PrecinctHeaders.Write, PrecinctHeaders.HeaderBytes;
    HeaderShapes(h);
    ShapeIsOk(h, p);
    PrecinctHeaders.RoundTrip(Existing(h), HeaderFor(plan, plan.lprc.value), false, []);
  }

  lemma PlanLength(h: Headers, policy: Policy, p: nat, c: Precinct.Coeffs, st: Precinct.State)
    requires Supported(h) && p < NumPrecincts(h) && policy.ConstantRate? && PlanOf(h, policy, p, c, st).Ok?
    ensures PlanOf(h, policy, p, c, st).value.lprc == Some(policy.budget)
  {
    hide Supported, NumPrecincts, ModesFor, RateControl.Choose, JobOf;
  }

  lemma Together(a: nat, b: nat, k: nat)
    ensures Mul(a, k) + Mul(b, k) == Mul(a + b, k)
  {
    assert a * k + b * k == (a + b) * k;
  }

  // ---- runs ------------------------------------------------------------------------------------------

  /** A run that no slice interrupts carries on the history, plan by plan. */
  lemma {:induction false} RunPlanned(h: Headers, policy: Policy, img: BandPlanes, before: seq<Plan>, end: nat,
                                      columns: seq<Precinct.State>)
    requires Supported(h) && Allocated(h, img) && |before| <= end <= NumPrecincts(h) && ColumnsOk(h, columns)
    requires AllPlanned(h, policy, img, before)
    requires forall q | |before| < q < end :: !SliceTop(h, q)
    requires var now := ColumnsAfter(h, img, before); columns == if |before| < end then Entered(h, |before|, now) else now
    requires RunEncode(h, policy, img, |before|, end, columns).Ok?
    ensures var coded := RunEncode(h, policy, img, |before|, end, columns).value;
            && |coded.plans| == end - |before| && AllPlanned(h, policy, img, before + coded.plans)
            && coded.columns == ColumnsAfter(h, img, before + coded.plans)
            && (policy.ConstantRate? ==> |coded.bytes| == Mul(end - |before|, PrecinctBytes(h, policy.budget)))
    decreases end - |before|
  {
    hide Supported, NumPrecincts, Allocated, Placement.Extract, StepEncode, PlanOf, Npx, PrecinctBytes, AllPlanned, SliceTop, Mul,
         Invalidated, ColumnsAfter;
    var p := |before|;
    if p < end {
      var c, col := Placement.Extract(h, p, img), Column(h, p);
      var plan := PlanOf(h, policy, p, c, columns[col]).value;
      var step := StepEncode(h, p, plan, c, columns[col]).value;
      assert Planned(h, policy, img, before, plan);
      PlannedSnoc(h, policy, img, before, plan);
      AfterSnoc(h, img, before, plan);
      RunPlanned(h, policy, img, before + [plan], end, columns[col := step.1]);
      var rest := RunEncode(h, policy, img, p + 1, end, columns[col := step.1]).value;
      assert before + [plan] + rest.plans == before + ([plan] + rest.plans);
      if policy.ConstantRate? {
        PlanLength(h, policy, p, c, columns[col]);
        StepLength(h, p, plan, c, columns[col]);
        MulOneMore(end - p, PrecinctBytes(h, policy.budget));
      }
    } else {
      assert before + [] == before;
      if policy.ConstantRate? {
        MulZero(end - p, PrecinctBytes(h, policy.budget));
      }
    }
  }

  lemma StartsInOrder(h: Headers, a: nat, b: nat)
    requires Supported(h) && a <= b
    ensures SliceFirst(h, a) <= SliceFirst(h, b)
  {
    hide Supported, Npx;
    MulMonotone(a, b, h.pih.hsl);
    MulMonotone(Mul(a, h.pih.hsl), Mul(b, h.pih.hsl), Npx(h));
  }

  /** Inside a slice no other begins. */
  lemma NoTopInside(h: Headers, t: nat, q: nat)
    requires Supported(h) && t < NumSlices(h) && SliceFirst(h, t) < q < SliceEnd(h, t)
    ensures !SliceTop(h, q)
  {
    hide Supported, NumSlices, SliceFirst, NumPrecincts, SliceEnd;
    forall u: nat | u < NumSlices(h)
      ensures SliceFirst(h, u) != q
    {
      if u <= t {
        StartsInOrder(h, u, t);
      } else {
        StartsInOrder(h, t + 1, u);
      }
    }
  }

  /** The slices of a picture carry on its history, resetting every column at their tops. */
  lemma {:induction false} SlicesPlanned(h: Headers, policy: Policy, img: BandPlanes, t: nat, before: seq<Plan>)
    requires Supported(h) && Allocated(h, img) && t < NumSlices(h) && |before| == SliceFirst(h, t) <= NumPrecincts(h)
    requires AllPlanned(h, policy, img, before) && SlicesEncode(h, policy, img, t, ColumnsAfter(h, img, before)).Ok?
    ensures var (bytes, plans) := SlicesEncode(h, policy, img, t, ColumnsAfter(h, img, before)).value;
            && |before + plans| == NumPrecincts(h) && AllPlanned(h, policy, img, before + plans)
            && (policy.ConstantRate? ==>
                  |bytes| == Mul(NumSlices(h) - t, PrecinctHeaders.SLICE_HEADER_BYTES)
                             + Mul(NumPrecincts(h) - |before|, PrecinctBytes(h, policy.budget)))
    decreases NumSlices(h) - t
  {
    hide Supported, NumPrecincts, Allocated, RunEncode, NumSlices, SliceFirst, SliceEnd, Invalidated,
         PrecinctHeaders.WriteSlice, Npx,
         AllPlanned, PrecinctBytes, Mul, ColumnsAfter;
    var columns := ColumnsAfter(h, img, before);
    var first, end := SliceFirst(h, t), SliceEnd(h, t);
    assert SliceTop(h, first);
    forall q | first < q < end
      ensures !SliceTop(h, q)
    {
      NoTopInside(h, t, q);
    }
    var run := RunEncode(h, policy, img, first, end, Invalidated(columns)).value;
    SliceNotEmpty(h, t);
    RunPlanned(h, policy, img, before, end, Invalidated(columns));
    var more := SlicesEncode(h, policy, img, t + 1, run.columns).value;
    MulOneMore(NumSlices(h) - t, PrecinctHeaders.SLICE_HEADER_BYTES);
    if t + 1 < NumSlices(h) {
      SlicesPlanned(h, policy, img, t + 1, before + run.plans);
      assert before + run.plans + more.1 == before + (run.plans + more.1);
      if policy.ConstantRate? {
        Together(end - first, NumPrecincts(h) - end, PrecinctBytes(h, policy.budget));
      }
    } else {
      assert run.plans + more.1 == run.plans;
      MulZero(NumSlices(h) - t - 1, PrecinctHeaders.SLICE_HEADER_BYTES);
    }
  }

  lemma SliceNotEmpty(h: Headers, t: nat)
    requires Supported(h) && t < NumSlices(h)
    ensures SliceFirst(h, t) < SliceEnd(h, t)
  {
    hide Supported, Npx, Npy, NumSlices;
    SlicesTile(h, t);
    GridFacts(h);
    MulMonotone(1, SliceRows(h, t), Npx(h));
  }

  /** From the first precinct on, with no states learnt yet. */
  lemma PicturePlanned(h: Headers, policy: Policy, img: BandPlanes)
    requires Supported(h) && Allocated(h, img) && SlicesEncode(h, policy, img, 0, Codec.NoStates(h)).Ok?
    ensures var (bytes, plans) := SlicesEncode(h, policy, img, 0, Codec.NoStates(h)).value;
            && |plans| == NumPrecincts(h) && AllPlanned(h, policy, img, plans)
            && (policy.ConstantRate? ==>
                  |bytes| == Mul(NumSlices(h), PrecinctHeaders.SLICE_HEADER_BYTES)
                             + Mul(NumPrecincts(h), PrecinctBytes(h, policy.budget)))
  {
    hide Supported, NumPrecincts, Allocated, NumSlices, SliceFirst, Npx, PrecinctBytes, SlicesEncode, Mul;
    SomeSlice(h);
    SlicesPlanned(h, policy, img, 0, []);
    var plans := SlicesEncode(h, policy, img, 0, Codec.NoStates(h)).value.1;
    assert [] + plans == plans;
  }
}
