// Slices and precincts of a picture: the walk of the encoder over precincts and column states, the walk
// of the decoder, and the proof that the second retraces the first.
module BodyCodec {
  import opened Wrappers
  import opened Arith
  import opened BitIO
  import opened HeaderTypes
  import opened Geometry
  import opened GeometryTiling
  import opened GeometryPackets
  import opened Precinct
  import opened PrecinctRoundTrip
  import opened PrecinctTheorems
  import opened WaveletLevels
  import opened Placement
  import opened RateControl
  import DecoderTotality
  import HeaderCodec
  import HeaderFields
  import PrecinctHeaders

  // ---- what the headers say about coding -------------------------------------------------------------

  /** Short packet headers fit small pictures unless long ones are enforced. */
  predicate UseShortPacketHeader(p: PictureHeader) {
    p.wf * p.nc < 32752 && p.lh == 0
  }

  function ModeOf(h: Headers): Mode {
    Mode(h.pih.br, h.pih.qpih == 1, h.pih.fs == 1, h.pih.rm != 0, h.pih.rl == 1, UseShortPacketHeader(h.pih))
  }

  function WeightsFor(h: Headers): seq<Weight> {
    seq(|h.weights|, b requires 0 <= b < |h.weights| => Weight(h.weights[b].gain, h.weights[b].priority))
  }

  function Existing(h: Headers): seq<bool>
    requires Supported(h)
  {
    HeaderCodec.LayoutOf(h).exists_
  }

  lemma HeaderShapes(h: Headers)
    requires Supported(h)
    ensures |h.weights| == NumBands(h) && Existing(h) == seq(NumBands(h), _ => true) && NumBands(h) >= 1
    ensures h.pih.br <= 5
  {
    AllBandsExist(h);
    BandCount(h);
    hide ComputeBandLayout, NumBands, NBeta;
    HeaderFacts(h);
  }

  lemma BandCount(h: Headers)
    requires Supported(h)
    ensures NumBands(h) >= 1
  {
    hide Supported, NumFilterTypes, Valid;
    HeaderFacts(h);
    MulMonotone(1, Decomposed(h), NBeta(h));
  }

  // ---- choices ---------------------------------------------------------------------------------------

  /** Coding of one precinct and its announced length; none means as long as its packets. */
  datatype Plan = Plan(coding: Coding, lprc: Option<nat>)

  /** How an encoder chooses: losslessly, at a constant rate, or by a list of choices made elsewhere. */
  datatype Policy =
    | Lossless(vertical: bool, significance: bool)
    | ConstantRate(vertical: bool, significance: bool, budget: nat)
    | Given(plans: seq<Plan>)

  /** D of every band: vertical prediction wherever there is a line above. */
  function ModesFor(h: Headers, vertical: bool, significance: bool, st: State): seq<nat>
    requires Supported(h)
  {
    seq(NumBands(h), b => (if vertical && st.valid then 1 else 0) + if significance then 2 else 0)
  }

  function JobOf(h: Headers, p: nat, d: seq<nat>, c: Coeffs, st: State, budget: nat): (j: Job)
    requires Supported(h) && p < NumPrecincts(h)
    ensures j.Ok() && j.sh == ShapeOf(h, p)
  {
    ShapeIsOk(h, p);
    HeaderShapes(h);
    Job(ShapeOf(h, p), ModeOf(h), WeightsFor(h), d, c, st, budget)
  }

  function PlanOf(h: Headers, policy: Policy, p: nat, c: Coeffs, st: State): Result<Plan>
    requires Supported(h) && p < NumPrecincts(h)
  {
    match policy
    case Lossless(v, s) => Ok(Plan(Coding(0, 0, ModesFor(h, v, s, st), []), None))
    case ConstantRate(v, s, budget) =>
      var d := ModesFor(h, v, s, st);
      var (q, r) :- Choose(JobOf(h, p, d, c, st, budget));
      Ok(Plan(Coding(q, r % 256, d, []), Some(budget)))
    case Given(plans) => if p < |plans| then Ok(plans[p]) else Err(BadCoding)
  }

  // ---- one precinct ----------------------------------------------------------------------------------

  /** The choices a precinct header can carry. */
  predicate Carried(plan: Plan, n: nat) {
    && plan.coding.q <= 31 && plan.coding.r < 256 && |plan.coding.d| == n
    && forall b | 0 <= b < n :: plan.coding.d[b] < 4
  }

  function HeaderFor(plan: Plan, lprc: nat): PrecinctHeaders.PrecinctHeader
    requires Carried(plan, |plan.coding.d|)
  {
    PrecinctHeaders.PrecinctHeader(lprc, plan.coding.q, plan.coding.r, 32, 0, plan.coding.d, [])
  }

  function Zeros8(n: nat): (r: seq<byte>)
    ensures |r| == n
  {
    seq(n, _ => 0)
  }

  function StepEncode(h: Headers, p: nat, plan: Plan, c: Coeffs, st: State): Result<(seq<byte>, State)>
    requires Supported(h) && p < NumPrecincts(h)
  {
    HeaderShapes(h);
    ShapeIsOk(h, p);
    if !Carried(plan, NumBands(h)) then Err(BadCoding) else
    var enc :- Encode(ShapeOf(h, p), ModeOf(h), WeightsFor(h), plan.coding, c, st);
    var lprc := if plan.lprc.Some? then plan.lprc.value else |enc.bytes|;
    if |enc.bytes| > lprc then Err(BudgetTooSmall) else
    var header :- PrecinctHeaders.Write(Existing(h), HeaderFor(plan, lprc), false);
    Ok((header + enc.bytes + Zeros8(lprc - |enc.bytes|), enc.state))
  }

  /** T of every band at the plan's Q and R. */
  function TruncationsFor(h: Headers, q: nat, r: nat): (t: seq<nat>)
    requires Supported(h)
    ensures |t| == |h.weights|
  {
    Truncations(WeightsFor(h), q, r, h.pih.br)
  }

  function ContextFor(h: Headers, p: nat, q: nat, r: nat, d: seq<nat>, st: State): (cx: Context)
    requires Supported(h) && p < NumPrecincts(h) && |d| == NumBands(h)
    ensures cx.Ok() && cx.sh == ShapeOf(h, p) && InRange(cx.t, cx.md.br) && cx.t == TruncationsFor(h, q, r)
  {
    hide Supported, NumPrecincts, NumBands, ShapeOf, Truncation;
    HeaderShapes(h);
    ShapeIsOk(h, p);
    ShapeBands(h, p);
    ContextOf(ShapeOf(h, p), ModeOf(h), WeightsFor(h), q, r, d, st)
  }

  /** The packets of one precinct: coefficients and the state left behind. */
  function BodyDecode(h: Headers, p: nat, cx: Context, body: seq<byte>): (r: Result<(Coeffs, State)>)
    requires Supported(h) && p < NumPrecincts(h) && cx.Ok() && cx.sh == ShapeOf(h, p) && InRange(cx.t, cx.md.br)
    ensures r.Ok? ==> Holds(h, p, r.value.0)
  {
    hide Supported, NumPrecincts, ShapeOf, Decode, Holds;
    var dec :- Decode(cx, ZeroCoeffs(cx.sh), body);
    DecodedHolds(h, p, cx, body);
    Ok((dec.out, dec.state))
  }

  lemma DecodedHolds(h: Headers, p: nat, cx: Context, body: seq<byte>)
    requires Supported(h) && p < NumPrecincts(h) && cx.Ok() && cx.sh == ShapeOf(h, p)
    requires Decode(cx, ZeroCoeffs(cx.sh), body).Ok? && InRange(cx.t, cx.md.br)
    ensures Holds(h, p, Decode(cx, ZeroCoeffs(cx.sh), body).value.out)
  {
    hide Supported, NumPrecincts, ShapeOf, Decode, DecoderTotality.CoeffsInRange;
    DecoderTotality.ZerosInRange(cx.sh, cx.md.br);
    DecoderTotality.DecoderIsTotal(cx, ZeroCoeffs(cx.sh), body);
  }

  /** Header, then the packets within the announced length; whatever they leave over is filler. */
  function StepDecode(h: Headers, p: nat, st: State, data: seq<byte>): (r: Result<(Coeffs, State, seq<byte>)>)
    requires Supported(h) && p < NumPrecincts(h)
    ensures r.Ok? ==> Holds(h, p, r.value.0)
  {
    hide Supported, NumPrecincts, NumBands, Holds, ContextFor, PrecinctHeaders.Parse, BodyDecode;
    var ph :- PrecinctHeaders.Parse(Existing(h), false, data);
    var n := PrecinctHeaders.HeaderBytes(Existing(h), false);
    if n + ph.lprc > |data| then Err(BeyondBody)
    else if |ph.d| != NumBands(h) then Err(BadShape)
    else
      var dec :- BodyDecode(h, p, ContextFor(h, p, ph.q, ph.r, ph.d, st), data[n..n + ph.lprc]);
      Ok((dec.0, dec.1, data[n + ph.lprc..]))
  }

  // ---- one precinct there and back -------------------------------------------------------------------

  /** Reconstruction at a plan's Q and R: the only choices the coefficients depend on. */
  function Rebuilt(h: Headers, c: Coeffs, q: nat, r: nat): Coeffs
    requires Supported(h) && forall e | e in c :: e.band < NumBands(h)
  {
    HeaderShapes(h);
    Reconstructed(c, TruncationsFor(h, q, r), h.pih.qpih == 1)
  }

  lemma HeldBands(h: Headers, p: nat, c: Coeffs)
    requires Supported(h) && p < NumPrecincts(h) && Holds(h, p, c)
    ensures forall e | e in c :: e.band < NumBands(h)
  {
    hide Supported, NumPrecincts, NumBands, ShapeOf, Shape.Entries, LineStart, LineCount, BandPrecinctWidth;
    ShapeIsOk(h, p);
    forall e | e in c
      ensures e.band < NumBands(h)
    {
      EntryFacts(h, p, e);
    }
  }

  lemma RebuiltHolds(h: Headers, p: nat, c: Coeffs, q: nat, r: nat)
    requires Supported(h) && p < NumPrecincts(h) && Holds(h, p, c)
    ensures forall e | e in c :: e.band < NumBands(h)
    ensures Holds(h, p, Rebuilt(h, c, q, r))
  {
    hide Supported, NumPrecincts, NumBands, ShapeOf, ReconstructedLine, Truncation;
    HeldBands(h, p, c);
    HeaderShapes(h);
    ShapeIsOk(h, p);
    var out := Rebuilt(h, c, q, r);
    assert out.Keys == c.Keys;
  }

  lemma ModesCarried(h: Headers, plan: Plan)
    requires Supported(h) && Carried(plan, NumBands(h))
    ensures PrecinctHeaders.KeptModes(Existing(h), plan.coding.d) == plan.coding.d
  {
    hide Supported, NumBands;
    HeaderShapes(h);
  }

  lemma HeaderBack(h: Headers, plan: Plan, lprc: nat, more: seq<byte>)
    requires Supported(h) && Carried(plan, NumBands(h)) && plan.coding.r < 2 * NumBands(h)
    requires |Existing(h)| == NumBands(h)
    requires PrecinctHeaders.Write(Existing(h), HeaderFor(plan, lprc), false).Ok?
    ensures var header := PrecinctHeaders.Write(Existing(h), HeaderFor(plan, lprc), false).value;
            && |header| == PrecinctHeaders.HeaderBytes(Existing(h), false)
            && PrecinctHeaders.Parse(Existing(h), false, header + more) == Ok(HeaderFor(plan, lprc))
  {
    hide Supported, NumBands, PrecinctHeaders.Write, PrecinctHeaders.Parse, PrecinctHeaders.HeaderBytes, PrecinctHeaders.KeptModes;
    ModesCarried(h, plan);
    PrecinctHeaders.RoundTrip(Existing(h), HeaderFor(plan, lprc), false, more);
  }

  lemma EncodedLimits(sh: Shape, md: Mode, weights: seq<Weight>, coding: Coding, c: Coeffs, st: State)
    requires sh.Ok() && |weights| == sh.Bands() && Encode(sh, md, weights, coding, c, st).Ok?
    ensures coding.r < 2 * sh.Bands() && |coding.d| == sh.Bands()
  {
    hide RequestedRaw, QuantisePrecinct, EncodeQuantised, Precinct.Covers;
  }

  /**
   * One encoded precinct, with anything behind it, decodes to the reconstruction of its coefficients at
   * its Q and R, leaves the encoder's state, and hands over exactly what was behind it.
   */
  lemma StepRoundTrip(h: Headers, p: nat, plan: Plan, c: Coeffs, st: State, tail: seq<byte>)
    requires Supported(h) && p < NumPrecincts(h) && Holds(h, p, c) && StateInRange(st, h.pih.br)
    requires StepEncode(h, p, plan, c, st).Ok?
    ensures forall e | e in c :: e.band < NumBands(h)
    ensures var (bytes, st') := StepEncode(h, p, plan, c, st).value;
            && StateInRange(st', h.pih.br) && st'.valid
            && StepDecode(h, p, st, bytes + tail) == Ok((Rebuilt(h, c, plan.coding.q, plan.coding.r), st', tail))
  {
    hide Supported, NumPrecincts, NumBands, ShapeOf, Encode, Decode, StateInRange, Complete, Reconstructed, Holds, Truncation,
         PrecinctHeaders.Write, PrecinctHeaders.Parse, PrecinctHeaders.HeaderBytes;
    HeaderShapes(h);
    ShapeIsOk(h, p);
    ShapeIsComplete(h, p);
    ShapeBands(h, p);
    HeldBands(h, p, c);
    var coding := plan.coding;
    var enc := Encode(ShapeOf(h, p), ModeOf(h), WeightsFor(h), coding, c, st).value;
    var lprc := if plan.lprc.Some? then plan.lprc.value else |enc.bytes|;
    var header := PrecinctHeaders.Write(Existing(h), HeaderFor(plan, lprc), false).value;
    var body := enc.bytes + Zeros8(lprc - |enc.bytes|);
    var bytes := StepEncode(h, p, plan, c, st).value.0;
    assert bytes + tail == header + (body + tail);
    EncodedLimits(ShapeOf(h, p), ModeOf(h), WeightsFor(h), coding, c, st);
    HeaderBack(h, plan, lprc, body + tail);
    var n := |header|;
    assert (bytes + tail)[n..n + lprc] == body && (bytes + tail)[n + lprc..] == tail;
    var cx := ContextFor(h, p, coding.q, coding.r, coding.d, st);
    PrecinctRoundTrips(ShapeOf(h, p), ModeOf(h), WeightsFor(h), coding, c, st, ZeroCoeffs(cx.sh), Zeros8(lprc - |enc.bytes|));
    EncodeKeepsState(ShapeOf(h, p), ModeOf(h), WeightsFor(h), coding, c, st);
  }

  // ---- runs of precincts -----------------------------------------------------------------------------

  /** Encoded bytes, predictor states per column, and the choices made. */
  datatype Coded = Coded(bytes: seq<byte>, columns: seq<State>, plans: seq<Plan>)

  /** One predictor state per precinct column. */
  predicate ColumnsOk(h: Headers, columns: seq<State>)
    requires Supported(h)
  {
    |columns| == Npx(h)
  }

  function RunEncode(h: Headers, policy: Policy, img: BandPlanes, p: nat, end: nat, columns: seq<State>): (r: Result<Coded>)
    requires Supported(h) && Allocated(h, img) && end <= NumPrecincts(h) && ColumnsOk(h, columns)
    ensures r.Ok? ==> ColumnsOk(h, r.value.columns)
    decreases end - p
  {
    if p >= end then Ok(Coded([], columns, [])) else
    var c, col := Extract(h, p, img), Column(h, p);
    var plan :- PlanOf(h, policy, p, c, columns[col]);
    var (bytes, st) :- StepEncode(h, p, plan, c, columns[col]);
    var rest :- RunEncode(h, policy, img, p + 1, end, columns[col := st]);
    Ok(Coded(bytes + rest.bytes, rest.columns, [plan] + rest.plans))
  }

  /** Band buffers, predictor states per column, and the bytes not read yet. */
  datatype Read = Read(img: BandPlanes, columns: seq<State>, rest: seq<byte>)

  function RunDecode(h: Headers, p: nat, end: nat, columns: seq<State>, img: BandPlanes, data: seq<byte>): (r: Result<Read>)
    requires Supported(h) && Allocated(h, img) && end <= NumPrecincts(h) && ColumnsOk(h, columns)
    ensures r.Ok? ==> ColumnsOk(h, r.value.columns) && Allocated(h, r.value.img)
    decreases end - p
  {
    if p >= end then Ok(Read(img, columns, data)) else
    var (c, st, rest) :- StepDecode(h, p, columns[Column(h, p)], data);
    RunDecode(h, p + 1, end, columns[Column(h, p) := st], Place(h, p, c, img), rest)
  }

  /** What decoding leaves in the buffers: every precinct rebuilt at its plan's Q and R. */
  function Recovered(h: Headers, src: BandPlanes, p: nat, plans: seq<Plan>, dst: BandPlanes): (r: BandPlanes)
    requires Supported(h) && Allocated(h, src) && Allocated(h, dst) && p + |plans| <= NumPrecincts(h)
    ensures Allocated(h, r)
    decreases |plans|
  {
    if plans == [] then dst else
    ExtractHolds(h, p, src);
    RebuiltHolds(h, p, Extract(h, p, src), plans[0].coding.q, plans[0].coding.r);
    Recovered(h, src, p + 1, plans[1..],
              Place(h, p, Rebuilt(h, Extract(h, p, src), plans[0].coding.q, plans[0].coding.r), dst))
  }

  ghost predicate StatesInRange(columns: seq<State>, br: nat) {
    forall i | 0 <= i < |columns| :: StateInRange(columns[i], br)
  }

  /** Over any run of precincts the decoder retraces the encoder, column by column. */
  lemma {:induction false} RunRoundTrip(h: Headers, policy: Policy, img: BandPlanes, p: nat, end: nat, columns: seq<State>,
                                        dst: BandPlanes, tail: seq<byte>)
    requires Supported(h) && Allocated(h, img) && Allocated(h, dst) && p <= end <= NumPrecincts(h) && ColumnsOk(h, columns)
    requires StatesInRange(columns, h.pih.br) && RunEncode(h, policy, img, p, end, columns).Ok?
    ensures var coded := RunEncode(h, policy, img, p, end, columns).value;
            && |coded.plans| == end - p && StatesInRange(coded.columns, h.pih.br)
            && RunDecode(h, p, end, columns, dst, coded.bytes + tail)
               == Ok(Read(Recovered(h, img, p, coded.plans, dst), coded.columns, tail))
    decreases end - p
  {
    hide Supported, NumPrecincts, Allocated, Extract, PlanOf, StepEncode, StepDecode, Rebuilt, Place, Holds, StateInRange, Npx;
    var coded := RunEncode(h, policy, img, p, end, columns).value;
    if p == end {
      assert coded.bytes + tail == tail;
    } else {
      var c, col := Extract(h, p, img), Column(h, p);
      var plan := PlanOf(h, policy, p, c, columns[col]).value;
      var (bytes, st) := StepEncode(h, p, plan, c, columns[col]).value;
      var rest := RunEncode(h, policy, img, p + 1, end, columns[col := st]).value;
      ExtractHolds(h, p, img);
      StepRoundTrip(h, p, plan, c, columns[col], rest.bytes + tail);
      RebuiltHolds(h, p, c, plan.coding.q, plan.coding.r);
      assert coded.bytes + tail == bytes + (rest.bytes + tail);
      assert coded.plans[1..] == rest.plans;
      RunRoundTrip(h, policy, img, p + 1, end, columns[col := st],
                   Place(h, p, Rebuilt(h, c, plan.coding.q, plan.coding.r), dst), tail);
    }
  }

  lemma {:induction false} RecoveredConcat(h: Headers, src: BandPlanes, p: nat, a: seq<Plan>, b: seq<Plan>, dst: BandPlanes)
    requires Supported(h) && Allocated(h, src) && Allocated(h, dst) && p + |a| + |b| <= NumPrecincts(h)
    ensures Recovered(h, src, p, a + b, dst) == Recovered(h, src, p + |a|, b, Recovered(h, src, p, a, dst))
    decreases |a|
  {
    hide Supported, NumPrecincts, Allocated, Extract, Rebuilt, Place, Holds;
    if a == [] {
      assert a + b == b;
    } else {
      assert (a + b)[0] == a[0] && (a + b)[1..] == a[1..] + b;
      ExtractHolds(h, p, src);
      RebuiltHolds(h, p, Extract(h, p, src), a[0].coding.q, a[0].coding.r);
      RecoveredConcat(h, src, p + 1, a[1..], b,
                      Place(h, p, Rebuilt(h, Extract(h, p, src), a[0].coding.q, a[0].coding.r), dst));
    }
  }

  // ---- slices ----------------------------------------------------------------------------------------

  /** No vertical prediction across slices. */
  function Invalidated(columns: seq<State>): (r: seq<State>)
    ensures |r| == |columns|
  {
    seq(|columns|, i requires 0 <= i < |columns| => columns[i].(valid := false))
  }

  lemma InvalidatedInRange(columns: seq<State>, br: nat)
    requires StatesInRange(columns, br)
    ensures StatesInRange(Invalidated(columns), br)
  {
    forall i | 0 <= i < |columns|
      ensures StateInRange(Invalidated(columns)[i], br)
    {
      assert StateInRange(columns[i], br);
    }
  }

  /** First precinct behind slice t. */
  function SliceEnd(h: Headers, t: nat): (end: nat)
    requires Supported(h) && t < NumSlices(h)
    ensures SliceFirst(h, t) <= end <= NumPrecincts(h)
    ensures end == if t + 1 < NumSlices(h) then SliceFirst(h, t + 1) else NumPrecincts(h)
  {
    SlicesTile(h, t);
    SliceInside(h, t);
    SliceFirst(h, t) + Mul(SliceRows(h, t), Npx(h))
  }

  /** A later slice starts later. */
  lemma SliceInside(h: Headers, t: nat)
    requires Supported(h) && t < NumSlices(h)
    ensures SliceFirst(h, t) <= NumPrecincts(h)
    ensures t + 1 < NumSlices(h) ==> SliceFirst(h, t + 1) <= NumPrecincts(h)
  {
    hide Supported, Npx, Npy;
    HeaderFacts(h);
    GridFacts(h);
    FirstRow(t, h.pih.hsl, Npy(h), Npx(h));
    if t + 1 < NumSlices(h) {
      FirstRow(t + 1, h.pih.hsl, Npy(h), Npx(h));
    }
  }

  lemma FirstRow(t: nat, hsl: nat, m: nat, n: nat)
    requires hsl >= 1 && t < CeilDiv(m, hsl)
    ensures Mul(Mul(t, hsl), n) <= Mul(n, m)
  {
    hide CeilDiv;
    CeilDivLeast(m, hsl, t);
    MulMonotone(Mul(t, hsl), m, n);
    MulCommute(n, m);
  }

  function SlicesEncode(h: Headers, policy: Policy, img: BandPlanes, t: nat, columns: seq<State>): Result<(seq<byte>, seq<Plan>)>
    requires Supported(h) && Allocated(h, img) && ColumnsOk(h, columns)
    decreases NumSlices(h) - t
  {
    if t >= NumSlices(h) then Ok(([], [])) else
    var run :- RunEncode(h, policy, img, SliceFirst(h, t), SliceEnd(h, t), Invalidated(columns));
    var (bytes, plans) :- SlicesEncode(h, policy, img, t + 1, run.columns);
    Ok((PrecinctHeaders.WriteSlice(SliceOf(t)) + run.bytes + bytes, run.plans + plans))
  }

  function SliceOf(t: nat): PrecinctHeaders.SliceHeader {
    PrecinctHeaders.SliceHeader(false, HeaderFields.ToU16(t))
  }

  function SlicesDecode(h: Headers, t: nat, columns: seq<State>, img: BandPlanes, data: seq<byte>): (r: Result<Read>)
    requires Supported(h) && Allocated(h, img) && ColumnsOk(h, columns)
    ensures r.Ok? ==> Allocated(h, r.value.img)
    decreases NumSlices(h) - t
  {
    if t >= NumSlices(h) then Ok(Read(img, columns, data)) else
    var slice :- PrecinctHeaders.ParseSlice(data, 0);
    if slice.tdc then Err(Unsupported)
    else if slice.ysl != t || |data| < PrecinctHeaders.SLICE_HEADER_BYTES then Err(BadHeader)
    else
      var run :- RunDecode(h, SliceFirst(h, t), SliceEnd(h, t), Invalidated(columns), img,
                           data[PrecinctHeaders.SLICE_HEADER_BYTES..]);
      SlicesDecode(h, t + 1, run.columns, run.img, run.rest)
  }

  /** Slice indices fit their 16-bit field. */
  lemma SliceIndexFits(h: Headers, t: nat)
    requires Supported(h) && t < NumSlices(h)
    ensures t < 0x1_0000 && SliceOf(t).ysl == t
  {
    hide Supported, Pow2;
    HeaderFacts(h);
    FewSlices(h.pih.hf, Pow2(h.pih.nly), h.pih.hsl);
  }

  lemma FewSlices(n: nat, a: nat, b: nat)
    requires a >= 1 && b >= 1
    ensures CeilDiv(CeilDiv(n, a), b) <= n
  {
    hide CeilDiv;
    MulMonotone(1, a, n);
    CeilDivLeast(n, a, n);
    MulCommute(n, a);
    MulMonotone(1, b, n);
    MulCommute(n, b);
    CeilDivLeast(CeilDiv(n, a), b, n);
  }

  lemma SliceBack(t: nat, more: seq<byte>)
    requires t < 0x1_0000
    ensures var data := PrecinctHeaders.WriteSlice(SliceOf(t)) + more;
            && PrecinctHeaders.ParseSlice(data, 0) == Ok(PrecinctHeaders.SliceHeader(false, t))
            && |data| >= PrecinctHeaders.SLICE_HEADER_BYTES && data[PrecinctHeaders.SLICE_HEADER_BYTES..] == more
  {
    hide PrecinctHeaders.WriteSlice, PrecinctHeaders.ParseSlice;
    PrecinctHeaders.SliceRoundTrip(SliceOf(t), [], more);
    var data := PrecinctHeaders.WriteSlice(SliceOf(t)) + more;
    assert [] + PrecinctHeaders.WriteSlice(SliceOf(t)) + more == data;
  }

  /** The decoder retraces all slices: every state is reset where the encoder reset it. */
  lemma {:induction false} SlicesRoundTrip(h: Headers, policy: Policy, img: BandPlanes, t: nat, columns: seq<State>,
                                           dst: BandPlanes, tail: seq<byte>)
    requires Supported(h) && Allocated(h, img) && Allocated(h, dst) && t < NumSlices(h) && ColumnsOk(h, columns)
    requires StatesInRange(columns, h.pih.br) && SlicesEncode(h, policy, img, t, columns).Ok?
    ensures var (bytes, plans) := SlicesEncode(h, policy, img, t, columns).value;
            && SliceFirst(h, t) + |plans| == NumPrecincts(h)
            && var r := SlicesDecode(h, t, columns, dst, bytes + tail);
               r.Ok? && r.value.img == Recovered(h, img, SliceFirst(h, t), plans, dst) && r.value.rest == tail
    decreases NumSlices(h) - t
  {
    hide Supported, NumPrecincts, Allocated, RunEncode, RunDecode, Recovered, PrecinctHeaders.ParseSlice,
         PrecinctHeaders.WriteSlice,
         NumSlices, SliceFirst, Invalidated, StateInRange, SliceOf, SliceEnd, Npx;
    var (bytes, plans) := SlicesEncode(h, policy, img, t, columns).value;
    var first, end := SliceFirst(h, t), SliceEnd(h, t);
    var run := RunEncode(h, policy, img, first, end, Invalidated(columns)).value;
    var more := SlicesEncode(h, policy, img, t + 1, run.columns).value;
    InvalidatedInRange(columns, h.pih.br);
    SliceIndexFits(h, t);
    var behind := run.bytes + (more.0 + tail);
    assert bytes + tail == PrecinctHeaders.WriteSlice(SliceOf(t)) + behind;
    SliceBack(t, behind);
    RunRoundTrip(h, policy, img, first, end, Invalidated(columns), dst, more.0 + tail);
    var mid := Recovered(h, img, first, run.plans, dst);
    if t + 1 < NumSlices(h) {
      SlicesRoundTrip(h, policy, img, t + 1, run.columns, mid, tail);
      RecoveredConcat(h, img, first, run.plans, more.1, dst);
    } else {
      assert more.0 + tail == tail;
      assert run.plans + more.1 == run.plans;
    }
  }

  // ---- lossless bodies -------------------------------------------------------------------------------

  ghost predicate AllLossless(plans: seq<Plan>) {
    forall i | 0 <= i < |plans| :: plans[i].coding.q == 0 && plans[i].coding.r == 0
  }

  lemma {:induction false} LosslessRun(h: Headers, policy: Policy, img: BandPlanes, p: nat, end: nat, columns: seq<State>)
    requires Supported(h) && Allocated(h, img) && end <= NumPrecincts(h) && ColumnsOk(h, columns)
    requires policy.Lossless? && RunEncode(h, policy, img, p, end, columns).Ok?
    ensures AllLossless(RunEncode(h, policy, img, p, end, columns).value.plans)
    decreases end - p
  {
    hide Supported, NumPrecincts, Allocated, Extract, StepEncode, ModesFor, Npx;
    if p < end {
      var c, col := Extract(h, p, img), Column(h, p);
      var plan := PlanOf(h, policy, p, c, columns[col]).value;
      var st := StepEncode(h, p, plan, c, columns[col]).value.1;
      LosslessRun(h, policy, img, p + 1, end, columns[col := st]);
    }
  }

  lemma {:induction false} LosslessSlices(h: Headers, policy: Policy, img: BandPlanes, t: nat, columns: seq<State>)
    requires Supported(h) && Allocated(h, img) && ColumnsOk(h, columns)
    requires policy.Lossless? && SlicesEncode(h, policy, img, t, columns).Ok?
    ensures AllLossless(SlicesEncode(h, policy, img, t, columns).value.1)
    decreases NumSlices(h) - t
  {
    hide Supported, NumPrecincts, Allocated, RunEncode, NumSlices, SliceFirst, SliceEnd, Invalidated,
         PrecinctHeaders.WriteSlice, Npx;
    if t < NumSlices(h) {
      LosslessRun(h, policy, img, SliceFirst(h, t), SliceEnd(h, t), Invalidated(columns));
      var run := RunEncode(h, policy, img, SliceFirst(h, t), SliceEnd(h, t), Invalidated(columns)).value;
      LosslessSlices(h, policy, img, t + 1, run.columns);
    }
  }

  lemma RebuiltLossless(h: Headers, c: Coeffs)
    requires Supported(h) && forall e | e in c :: e.band < NumBands(h)
    ensures Rebuilt(h, c, 0, 0) == c
  {
    hide Supported, NumBands, Reconstructed, Truncation;
    HeaderShapes(h);
    LosslessPrecinct(c, WeightsFor(h), h.pih.br, h.pih.qpih == 1);
  }

  /** At Q = R = 0 every precinct is placed as it was extracted. */
  lemma {:induction false} RecoveredLossless(h: Headers, src: BandPlanes, p: nat, plans: seq<Plan>, dst: BandPlanes)
    requires Supported(h) && Allocated(h, src) && Allocated(h, dst) && p + |plans| == NumPrecincts(h) && AllLossless(plans)
    ensures Recovered(h, src, p, plans, dst) == PlaceAll(h, p, src, dst)
    decreases |plans|
  {
    hide Supported, NumPrecincts, Allocated, Extract, Rebuilt, Place, Holds;
    if plans != [] {
      ExtractHolds(h, p, src);
      var c := Extract(h, p, src);
      RebuiltHolds(h, p, c, 0, 0);
      RebuiltLossless(h, c);
      RecoveredLossless(h, src, p + 1, plans[1..], Place(h, p, c, dst));
    }
  }

  /** Decoding a losslessly coded body rebuilds the coefficient image, whatever the buffers held before. */
  lemma LosslessBody(h: Headers, policy: Policy, img: BandPlanes, columns: seq<State>, dst: BandPlanes, tail: seq<byte>)
    requires Supported(h) && Allocated(h, img) && Allocated(h, dst) && ColumnsOk(h, columns)
    requires StatesInRange(columns, h.pih.br) && policy.Lossless? && SlicesEncode(h, policy, img, 0, columns).Ok?
    ensures var r := SlicesDecode(h, 0, columns, dst, SlicesEncode(h, policy, img, 0, columns).value.0 + tail);
            r.Ok? && r.value.img == img && r.value.rest == tail
  {
    SomeSlice(h);
    hide Supported, NumPrecincts, Allocated, SlicesEncode, SlicesDecode, Recovered, PlaceAll, AgreeBefore, NumSlices,
         Npx, AllLossless;
    var plans := SlicesEncode(h, policy, img, 0, columns).value.1;
    SlicesRoundTrip(h, policy, img, 0, columns, dst, tail);
    LosslessSlices(h, policy, img, 0, columns);
    RecoveredLossless(h, img, 0, plans, dst);
    AgreeNowhere(h, img, dst);
    PlacingRebuilds(h, 0, img, dst);
  }

  lemma SomeSlice(h: Headers)
    requires Supported(h)
    ensures NumSlices(h) > 0 && SliceFirst(h, 0) == 0
  {
    hide Supported, Npx, Npy;
    HeaderFacts(h);
    GridFacts(h);
    CeilDivLeast(Npy(h), h.pih.hsl, 0);
  }
}
