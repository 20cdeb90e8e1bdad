// Constant bit rate: every precinct fills its budget, the codestream meets its target, its header says so,
// and it decodes to what the chosen quantisation keeps.
module ConstantRate {
  import opened Wrappers
  import opened Arith
  import opened BitIO
  import opened HeaderTypes
  import opened Geometry
  import opened GeometryTiling
  import opened GeometryPackets
  import opened WaveletLevels
  import opened BodyCodec
  import opened Codec
  import opened RunHistory
  import HeaderCodec
  import HeaderFields
  import HeaderLimits
  import Placement
  import Precinct
  import PrecinctHeaders
  import RateControl
  import RawFallback
  import Segments

  // ---- the size of the headers -----------------------------------------------------------------------

  /** Nothing but the PIH segment depends on Lcod. */
  lemma LengthChangesNothing(h: Headers, length: nat)
    requires Valid(h)
    ensures Valid(WithLength(h, length))
    ensures HeaderCodec.LayoutOf(WithLength(h, length)) == HeaderCodec.LayoutOf(h)
    ensures Supported(h) ==> Supported(WithLength(h, length))
  {
    var h' := WithLength(h, length);
    SameLayout(h, length);
    hide ComputeBandLayout, Pow2;
  }

  lemma SameLayout(h: Headers, length: nat)
    ensures ComputeBandLayout(WithLength(h, length).pih, h.components, h.sd) == ComputeBandLayout(h.pih, h.components, h.sd)
  {
    hide FirstLine;
    var a, b := ComputeBandLayout(WithLength(h, length).pih, h.components, h.sd), ComputeBandLayout(h.pih, h.components, h.sd);
    if a.Ok? && b.Ok? {
      assert a.value.exists_ == b.value.exists_;
    }
  }

  lemma PihPayloadSize(p: PictureHeader)
    requires HeaderFields.Payload(HeaderFields.PihValues(p), HeaderFields.PIH_WIDTHS).Ok?
    ensures |HeaderFields.Payload(HeaderFields.PihValues(p), HeaderFields.PIH_WIDTHS).value| == 24
  {
    hide HeaderFields.Payload, HeaderFields.PihValues, Sum;
    HeaderFields.PihSize();
    HeaderFields.PayloadRoundTrip(HeaderFields.PihValues(p), HeaderFields.PIH_WIDTHS);
  }

  lemma PihStillFits(p: PictureHeader, lcod: u32)
    requires HeaderFields.Payload(HeaderFields.PihValues(p), HeaderFields.PIH_WIDTHS).Ok?
    ensures HeaderFields.Payload(HeaderFields.PihValues(p.(lcod := lcod)), HeaderFields.PIH_WIDTHS).Ok?
  {
    hide Pow2, FieldsBits, Pack;
    WordPowers();
    var w := HeaderFields.PIH_WIDTHS;
    var a, b := HeaderFields.Zip(HeaderFields.PihValues(p), w), HeaderFields.Zip(HeaderFields.PihValues(p.(lcod := lcod)), w);
    assert w[0] == 32;
    forall i | 0 <= i < |b|
      ensures b[i].value < Pow2(b[i].width)
    {
      if i > 0 {
        assert b[i] == a[i];
      }
    }
  }

  /** Every part but PIH is what it was. */
  lemma OtherParts(h: Headers, length: nat)
    requires Valid(h)
    ensures var h' := WithLength(h, length);
            && Valid(h')
            && HeaderCodec.CdtPart(h') == HeaderCodec.CdtPart(h) && HeaderCodec.WgtPart(h') == HeaderCodec.WgtPart(h)
            && HeaderCodec.WgrPart(h') == HeaderCodec.WgrPart(h) && HeaderCodec.NltPart(h') == HeaderCodec.NltPart(h)
            && HeaderCodec.CwdPart(h') == HeaderCodec.CwdPart(h) && HeaderCodec.CtsPart(h') == HeaderCodec.CtsPart(h)
            && HeaderCodec.CrgPart(h') == HeaderCodec.CrgPart(h) && HeaderCodec.TpcPart(h') == HeaderCodec.TpcPart(h)
  {
    hide Valid, HeaderFields.Payload, HeaderFields.WeightsPayload, HeaderFields.NltPayload, HeaderFields.CtsPayload,
         HeaderFields.TpcPayload, HeaderCodec.LayoutOf, HeaderFields.CdtValues, HeaderFields.CrgValues, HeaderCodec.One;
    LengthChangesNothing(h, length);
  }

  lemma PihWithLength(h: Headers, length: nat)
    requires HeaderCodec.PihPart(h).Ok?
    ensures var a, b := HeaderCodec.PihPart(h), HeaderCodec.PihPart(WithLength(h, length));
            && b.Ok? && |a.value| == |b.value| == 1 && a.value[0].marker == b.value[0].marker == Segments.PIH
            && |a.value[0].payload| == |b.value[0].payload| == 24
  {
    hide HeaderFields.Payload, HeaderFields.PihValues;
    PihPayloadSize(h.pih);
    PihStillFits(h.pih, length % 0x1_0000_0000);
    PihPayloadSize(WithLength(h, length).pih);
  }

  lemma PartsWithLength(h: Headers, length: nat)
    requires Valid(h) && HeaderCodec.PartsOf(h).Ok?
    ensures Valid(WithLength(h, length)) && HeaderCodec.PartsOf(WithLength(h, length)).Ok?
    ensures var parts, parts' := HeaderCodec.PartsOf(h).value, HeaderCodec.PartsOf(WithLength(h, length)).value;
            && |parts| == |parts'| == 11 && parts'[0] == parts[0] && parts'[2..] == parts[2..]
            && |parts[0]| == |parts[1]| == |parts'[1]| == 1
            && parts[1][0].marker == parts'[1][0].marker == Segments.PIH
            && |parts'[1][0].payload| == |parts[1][0].payload| == 24
  {
    hide Valid, HeaderCodec.PihPart, HeaderCodec.CdtPart, HeaderCodec.WgtPart, HeaderCodec.WgrPart, HeaderCodec.NltPart,
         HeaderCodec.CwdPart, HeaderCodec.CtsPart, HeaderCodec.CrgPart, HeaderCodec.TpcPart, HeaderCodec.CapPayload,
         HeaderCodec.ComSegments;
    OtherParts(h, length);
    PihWithLength(h, length);
  }

  /** Two runs of segments that differ in the second payload only, and not in its size, have the same size. */
  lemma SecondPayload(a: Segments.Segment, b: Segments.Segment, b': Segments.Segment, rest: seq<Segments.Segment>)
    requires Segments.MarkersOk([a] + ([b] + rest)) && b'.marker == b.marker && |b'.payload| == |b.payload|
    requires Segments.SegmentsBytes([a] + ([b] + rest)).Ok?
    ensures Segments.MarkersOk([a] + ([b'] + rest)) && Segments.SegmentsBytes([a] + ([b'] + rest)).Ok?
    ensures |Segments.SegmentsBytes([a] + ([b'] + rest)).value| == |Segments.SegmentsBytes([a] + ([b] + rest)).value|
  {
    hide Segments.U16Bytes;
    var x, y := [a] + ([b] + rest), [a] + ([b'] + rest);
    assert x[1..] == [b] + rest && x[1..][1..] == rest;
    assert y[1..] == [b'] + rest && y[1..][1..] == rest;
    assert y[0] == x[0] == a && y[1] == b' && x[1] == b;
    forall i | 0 <= i < |y|
      ensures y[i].marker < 0x1_0000
    {
      assert i != 1 ==> y[i] == x[i];
      assert x[i].marker < 0x1_0000;
    }
  }

  lemma JoinTwo(parts: seq<seq<Segments.Segment>>)
    requires |parts| >= 2 && |parts[0]| == 1 && |parts[1]| == 1
    ensures HeaderCodec.Join(parts) == [parts[0][0]] + ([parts[1][0]] + HeaderCodec.Join(parts[2..]))
  {
    assert parts[0] == [parts[0][0]] && parts[1] == [parts[1][0]];
    assert parts[1..][1..] == parts[2..];
  }

  /** Filling in Lcod changes no sizes. */
  lemma HeaderSizeSame(h: Headers, length: nat)
    requires HeaderCodec.WriteHeaders(h).Ok?
    ensures HeaderCodec.WriteHeaders(WithLength(h, length)).Ok?
    ensures |HeaderCodec.WriteHeaders(WithLength(h, length)).value| == |HeaderCodec.WriteHeaders(h).value|
  {
    hide Valid, HeaderCodec.PartsOf, HeaderCodec.Join, Segments.SegmentsBytes, WithLength;
    var h' := WithLength(h, length);
    PartsWithLength(h, length);
    HeaderCodec.PartsMarked(h);
    HeaderCodec.PartsMarked(h');
    var parts, parts' := HeaderCodec.PartsOf(h).value, HeaderCodec.PartsOf(h').value;
    JoinTwo(parts);
    JoinTwo(parts');
    SecondPayload(parts[0][0], parts[1][0], parts'[1][0], HeaderCodec.Join(parts[2..]));
  }

  // ---- the choice ------------------------------------------------------------------------------------

  /** What precinct |before| has to fit into the budget, coded behind these plans. */
  ghost function JobBehind(h: Headers, policy: Policy, img: BandPlanes, before: seq<Plan>): (j: RateControl.Job)
    requires Supported(h) && Allocated(h, img) && |before| < NumPrecincts(h) && policy.ConstantRate?
    ensures j.Ok()
  {
    var p, st := |before|, EntryState(h, img, before);
    JobOf(h, p, ModesFor(h, policy.vertical, policy.significance, st), Placement.Extract(h, p, img), st, policy.budget)
  }

  /**
   * A plan at the edge of the budget, measured from the state its predecessors leave: its Q is the least that fits, and
   * its R, up to the width of its field, the largest that fits with that Q.
   */
  ghost predicate Edge(h: Headers, policy: Policy, img: BandPlanes, before: seq<Plan>, plan: Plan)
    requires Supported(h) && Allocated(h, img) && |before| < NumPrecincts(h) && policy.ConstantRate?
  {
    hide Supported, NumPrecincts, Allocated, RateControl.AtBoundary, RateControl.Optimal;
    var j := JobBehind(h, policy, img, before);
    exists r: nat :: RateControl.AtBoundary(j, plan.coding.q, r, plan.coding.r) && RateControl.Optimal(j, plan.coding.q, r)
  }

  lemma JobRegular(h: Headers, policy: Policy, img: BandPlanes, before: seq<Plan>)
    requires Supported(h) && Allocated(h, img) && |before| < NumPrecincts(h) && policy.ConstantRate?
    ensures RateControl.Regular(JobBehind(h, policy, img, before))
  {
    hide Supported, NumPrecincts, Allocated, Placement.Extract, ModesFor, NumBands, ShapeOf, EntryState, RawFallback.SharedPackets;
    BandsShare(h, |before|);
  }

  /** Every precinct of a constant-rate stream is coded at the edge of its budget. */
  lemma PlannedAtEdge(h: Headers, policy: Policy, img: BandPlanes, before: seq<Plan>, plan: Plan)
    requires Supported(h) && Allocated(h, img) && |before| < NumPrecincts(h) && policy.ConstantRate?
    requires Planned(h, policy, img, before, plan)
    ensures Edge(h, policy, img, before, plan)
  {
    hide Supported, NumPrecincts, Allocated, Placement.Extract, ModesFor, RateControl.Choose, RateControl.Job.Size,
         NumBands, ShapeOf, RateControl.Regular, RateControl.Optimal,
         EntryState, StepEncode;
    var p := |before|;
    HeaderShapes(h);
    Placement.ShapeBands(h, p);
    ShapeIsOk(h, p);
    var j := JobBehind(h, policy, img, before);
    JobRegular(h, policy, img, before);
    RateControl.ChoiceIsBoundary(j);
    RateControl.ChoiceIsOptimal(j);
    var (q, r) := RateControl.Choose(j).value;
    assert RateControl.AtBoundary(j, plan.coding.q, r, plan.coding.r);
  }

  /**
   * The R a header carries, for every picture: the one found exactly when there are at most 128 bands or the finest
   * quantisation does not fit, and 2 * NL - 257 otherwise. Either truncates alike.
   */
  lemma CarriedIsChosen(h: Headers, policy: Policy, img: BandPlanes, before: seq<Plan>, q: nat, r: nat, carried: nat)
    requires Supported(h) && Allocated(h, img) && |before| < NumPrecincts(h) && policy.ConstantRate?
    requires RateControl.AtBoundary(JobBehind(h, policy, img, before), q, r, carried)
    ensures carried == r <==> NumBands(h) <= 128 || !JobBehind(h, policy, img, before).Fits(0, 0)
    ensures carried != r ==> q == 0 && r == 2 * NumBands(h) - 1 && carried == 2 * NumBands(h) - 257
    ensures TruncationsFor(h, q, carried) == TruncationsFor(h, q, r)
  {
    hide Supported, NumPrecincts, Allocated, Placement.Extract, ModesFor, RateControl.Job.Size, NumBands, ShapeOf, EntryState,
         RateControl.AtBoundary, RateControl.Regular, Precinct.Truncations, Precinct.Encode;
    HeaderShapes(h);
    Placement.ShapeBands(h, |before|);
    ShapeIsOk(h, |before|);
    assert NumBands(h) <= 176 by { BandsBounded(h); }
    JobRegular(h, policy, img, before);
    RateControl.CarriedExactly(JobBehind(h, policy, img, before), q, r, carried);
    RateControl.CarriedMeansFound(JobBehind(h, policy, img, before), q, r, carried);
  }

  lemma BandsBounded(h: Headers)
    requires Supported(h)
    ensures NumBands(h) <= 176
  {
    hide Valid, NumBands, NBeta;
    SupportedIsValid(h);
    AllBandsExist(h);
    HeaderLimits.FewBands(h);
  }

  /** Coding a precinct by its plan succeeds exactly when the plan, as its header carries it, fits the budget. */
  lemma RecodingExact(h: Headers, p: nat, plan: Plan, c: Precinct.Coeffs, st: Precinct.State, budget: nat)
    requires Supported(h) && p < NumPrecincts(h) && 1 <= budget < 0x10_0000
    requires Carried(plan, NumBands(h)) && plan.coding.raw == [] && plan.lprc == Some(budget)
    ensures StepEncode(h, p, plan, c, st).Ok? <==>
            JobOf(h, p, plan.coding.d, c, st, budget).Fits(plan.coding.q, plan.coding.r)
  {
    hide Supported, NumPrecincts, NumBands, ShapeOf, Precinct.Encode, PrecinctHeaders.HeaderBytes;
    HeaderShapes(h);
    ShapeIsOk(h, p);
  }

  /** The winner of the search is coded again from its header, and never exceeds the budget: the check behind it cannot fail. */
  lemma WinnerRecodes(h: Headers, policy: Policy, p: nat, c: Precinct.Coeffs, st: Precinct.State)
    requires Supported(h) && p < NumPrecincts(h) && policy.ConstantRate? && 1 <= policy.budget < 0x10_0000
    requires PlanOf(h, policy, p, c, st).Ok?
    ensures StepEncode(h, p, PlanOf(h, policy, p, c, st).value, c, st).Ok?
  {
    hide Supported, NumPrecincts, NumBands, ShapeOf, Precinct.Encode, Precinct.Truncations, RateControl.Choose,
         PrecinctHeaders.HeaderBytes, RateControl.Job.Size;
    HeaderShapes(h);
    ShapeIsOk(h, p);
    Placement.ShapeBands(h, p);
    var d := ModesFor(h, policy.vertical, policy.significance, st);
    var j := JobOf(h, p, d, c, st, policy.budget);
    RateControl.ChoiceIsBoundary(j);
    var (q, r) := RateControl.Choose(j).value;
    RateControl.CarriedMeansFound(j, q, r, r % 256);
    RecodingExact(h, p, PlanOf(h, policy, p, c, st).value, c, st, policy.budget);
  }

  // ---- the codestream --------------------------------------------------------------------------------

  lemma BudgetArith(left: nat, n: nat, budget: nat)
    requires n >= 1 && budget == left / n
    ensures left - n < Mul(n, budget) <= left
  {
    DivBounds(left, n);
    MulCommute(n, budget);
  }

  lemma SplitBytes(n: nat, a: nat, b: nat)
    ensures Mul(n, a + b) == Mul(n, a) + Mul(n, b)
  {
    MulAdd(n, a, b);
  }

  /** Pieces of an encoded stream. */
  ghost predicate Stream(c: EncoderConfig, h: Headers, picture: Picture, policy: Policy, front: nat, body: seq<byte>,
                         plans: seq<Plan>)
  {
    hide Supported, Analyse, Allocated, HeaderCodec.WriteHeaders, PolicyOf, SlicesEncode, Npx;
    && Supported(h) && PlanesOk(picture) && |picture| == h.pih.nc
    && Analyse(h, picture).Ok? && Allocated(h, Analyse(h, picture).value)
    && HeaderCodec.WriteHeaders(h).Ok? && front == |HeaderCodec.WriteHeaders(h).value|
    && PolicyOf(c, h, front) == Ok(policy)
    && SlicesEncode(h, policy, Analyse(h, picture).value, 0, NoStates(h)) == Ok((body, plans))
  }

  /**
   * The bytes for these headers end within one byte per precinct below the target, and start with the headers
   * carrying their length.
   */
  ghost predicate OnTarget(c: EncoderConfig, h: Headers, picture: Picture) {
    hide Supported, Analyse, HeaderCodec.WriteHeaders, PolicyOf, SlicesEncode, NumPrecincts;
    && EncodesWith(c, h, picture)
    && var bytes := EncodeWith(c, h, picture).value;
       && c.target - NumPrecincts(h) < |bytes| <= c.target
       && HeaderCodec.WriteHeaders(WithLength(h, |bytes|)).Ok?
       && var front := HeaderCodec.WriteHeaders(WithLength(h, |bytes|)).value;
          |front| <= |bytes| && bytes[..|front|] == front
  }

  lemma TargetMet(c: EncoderConfig, h: Headers, picture: Picture)
    requires !c.lossless && EncodesWith(c, h, picture)
    ensures OnTarget(c, h, picture)
  {
    hide Supported, Analyse, HeaderCodec.WriteHeaders, SlicesEncode, Allocated, NumPrecincts, NumSlices, SliceFirst, NumBands, Npx,
         PrecinctHeaders.HeaderBytes, Mul, AllPlanned, WithLength;
    var img := Analyse(h, picture).value;
    var front := HeaderCodec.WriteHeaders(h).value;
    var policy := PolicyOf(c, h, |front|).value;
    PrecinctsExist(h);
    SomeSlice(h);
    PicturePlanned(h, policy, img);
    var body := SlicesEncode(h, policy, img, 0, NoStates(h)).value.0;
    var total := |front| + |body| + 2;
    HeaderSizeSame(h, total);
    SplitBytes(NumPrecincts(h), PrecinctHeaders.HeaderBytes(Existing(h), false), policy.budget);
    BudgetArith(c.target - FixedBytes(h, |front|), NumPrecincts(h), policy.budget);
    var final := HeaderCodec.WriteHeaders(WithLength(h, total)).value;
    var bytes := EncodeWith(c, h, picture).value;
    assert bytes == final + (body + END_MARKER);
    assert |bytes| == total;
  }

  /** The headers as written in front of the body. */
  function FinalHeaders(c: EncoderConfig, h: Headers, front: nat, body: seq<byte>): Headers {
    if c.lossless then h else WithLength(h, front + |body| + 2)
  }

  ghost predicate Assembled(c: EncoderConfig, h: Headers, front: nat, body: seq<byte>, bytes: seq<byte>) {
    var written := HeaderCodec.WriteHeaders(FinalHeaders(c, h, front, body));
    written.Ok? && bytes == written.value + body + END_MARKER
  }

  /** What a decoder shows of a body coded with these plans. */
  function Shown(h: Headers, carried: Headers, img: BandPlanes, plans: seq<Plan>): Result<(Headers, Picture)>
    requires Supported(h) && Allocated(h, img) && |plans| <= NumPrecincts(h)
  {
    var out :- Synthesise(h, Recovered(h, img, 0, plans, Blank(h)));
    Ok((carried, out))
  }

  ghost predicate EncodedAs(c: EncoderConfig, h: Headers, picture: Picture, bytes: seq<byte>) {
    hide Supported, Analyse, HeaderCodec.WriteHeaders, PolicyOf, SlicesEncode;
    EncodesWith(c, h, picture) && EncodeWith(c, h, picture).value == bytes
  }

  /** Encode never returns without its pieces. */
  lemma StreamOf(c: EncoderConfig, h: Headers, picture: Picture)
    returns (policy: Policy, front: nat, body: seq<byte>, plans: seq<Plan>, bytes: seq<byte>)
    requires EncodesWith(c, h, picture)
    ensures Stream(c, h, picture, policy, front, body, plans) && Assembled(c, h, front, body, bytes)
    ensures EncodedAs(c, h, picture, bytes)
  {
    hide Supported, Analyse, HeaderCodec.WriteHeaders, SlicesEncode, Allocated, NumPrecincts, NumBands, Npx, PolicyOf, WithLength;
    front := |HeaderCodec.WriteHeaders(h).value|;
    policy := PolicyOf(c, h, front).value;
    var coded := SlicesEncode(h, policy, Analyse(h, picture).value, 0, NoStates(h)).value;
    body, plans := coded.0, coded.1;
    bytes := EncodeWith(c, h, picture).value;
  }

  /** The stream decodes to the transforms of what its plans keep, each chosen for its precinct. */
  ghost predicate DecodesTo(c: EncoderConfig, h: Headers, picture: Picture, policy: Policy, carried: Headers, plans: seq<Plan>,
                            stream: seq<byte>)
  {
    hide Supported, Analyse, Allocated, NumPrecincts, Decode, Shown, AllPlanned;
    && Supported(h) && PlanesOk(picture) && |picture| == h.pih.nc
    && Analyse(h, picture).Ok? && Allocated(h, Analyse(h, picture).value)
    && |plans| == NumPrecincts(h) && AllPlanned(h, policy, Analyse(h, picture).value, plans)
    && Decode(stream) == Shown(h, carried, Analyse(h, picture).value, plans)
  }

  /**
   * Any encoded stream, lossless or not, with anything behind it, decodes to the transforms of what its
   * choices keep: one reconstruction per precinct at a Q and R the encoder chose for it.
   */
  lemma StreamDecodes(c: EncoderConfig, h: Headers, picture: Picture, policy: Policy, front: nat, body: seq<byte>, plans: seq<Plan>,
                      bytes: seq<byte>, tail: seq<byte>)
    requires Plain(h) && Stream(c, h, picture, policy, front, body, plans) && Assembled(c, h, front, body, bytes)
    ensures DecodesTo(c, h, picture, policy, FinalHeaders(c, h, front, body), plans, bytes + tail)
  {
    hide Supported, Analyse, Synthesise, HeaderCodec.WriteHeaders, HeaderCodec.ParseHeaders, SlicesEncode, SlicesDecode, Allocated,
         NumPrecincts, NumSlices, SliceFirst, NumBands, Npx, WithLength, Recovered, AllPlanned, Segments.EndsHeaders,
             StatesInRange, PolicyOf;
    var img := Analyse(h, picture).value;
    var h' := FinalHeaders(c, h, front, body);
    var behind := END_MARKER + tail;
    SomeSlice(h);
    PicturePlanned(h, policy, img);
    BodyEndsHeaders(h, policy, img, NoStates(h), behind);
    StillSupported(h, front + |body| + 2);
    PlainHeadersBack(h', body + behind);
    var written := HeaderCodec.WriteHeaders(h').value;
    var data := bytes + tail;
    assert data == written + (body + behind);
    assert data[|written|..] == body + behind;
    NoStatesInRange(h);
    SlicesRoundTrip(h, policy, img, 0, NoStates(h), Blank(h), behind);
  }

  lemma StillSupported(h: Headers, length: nat)
    requires Supported(h) && WithLength(h, 0) == h && h.nlt.None? && h.refresh.None?
    ensures Supported(WithLength(h, length)) && WithLength(h, length).nlt.None? && WithLength(h, length).refresh.None?
    ensures WithLength(WithLength(h, length), 0) == h
  {
    SupportedIsValid(h);
    LengthChangesNothing(h, length);
    hide Supported, Valid;
  }

  /**
   * The plans of a whole picture coded at a constant rate: each chosen by the policy from the state its
   * predecessors leave, each at the edge of the budget the target gives every precinct.
   */
  ghost predicate KeptBy(c: EncoderConfig, h: Headers, picture: Picture, policy: Policy, plans: seq<Plan>) {
    hide Supported, Analyse, Allocated, NumPrecincts, AllPlanned, HeaderCodec.WriteHeaders, PolicyOf, Edge;
    && Supported(h) && PlanesOk(picture) && |picture| == h.pih.nc
    && Analyse(h, picture).Ok? && Allocated(h, Analyse(h, picture).value) && |plans| == NumPrecincts(h)
    && policy.ConstantRate? && HeaderCodec.WriteHeaders(h).Ok?
    && PolicyOf(c, h, |HeaderCodec.WriteHeaders(h).value|) == Ok(policy)
    && AllPlanned(h, policy, Analyse(h, picture).value, plans)
    && forall p | 0 <= p < |plans| :: Edge(h, policy, Analyse(h, picture).value, plans[..p], plans[p])
  }

  lemma AllAtEdge(h: Headers, policy: Policy, img: BandPlanes, plans: seq<Plan>)
    requires Supported(h) && Allocated(h, img) && |plans| <= NumPrecincts(h) && policy.ConstantRate?
    requires AllPlanned(h, policy, img, plans)
    ensures forall p | 0 <= p < |plans| :: Edge(h, policy, img, plans[..p], plans[p])
  {
    hide Supported, NumPrecincts, Allocated, Planned, Edge;
    forall p | 0 <= p < |plans|
      ensures Edge(h, policy, img, plans[..p], plans[p])
    {
      PlannedAtEdge(h, policy, img, plans[..p], plans[p]);
    }
  }

  /**
   * The codestream is longer than the target less one byte per precinct and no longer than the target, its header
   * carries its length (modulo 2^32), and with anything behind it it decodes to the transforms of what quantisers at
   * the edge of every precinct's budget keep.
   */
  ghost predicate KeepsRate(c: EncoderConfig, picture: Picture, tail: seq<byte>) {
    hide MakeHeaders, Supported, EncodeWith, SizesMatch, NumPrecincts, OnTarget, KeptBy, DecodesTo;
    && Encodes(c, picture) && MakeHeaders(c).Ok?
    && var h, bytes := MakeHeaders(c).value, Encode(c, picture).value;
       && Supported(h)
       && c.target - NumPrecincts(h) < |bytes| <= c.target
       && exists policy: Policy, plans: seq<Plan> ::
            && KeptBy(c, h, picture, policy, plans)
            && DecodesTo(c, h, picture, policy, WithLength(h, |bytes|), plans, bytes + tail)
  }

  /** Constant bit rate: whenever encoding returns, the stream keeps its rate. */
  lemma ConstantRateEndToEnd(c: EncoderConfig, picture: Picture, tail: seq<byte>)
    requires !c.lossless && Encodes(c, picture)
    ensures KeepsRate(c, picture, tail)
  {
    hide MakeHeaders, Supported, Analyse, HeaderCodec.WriteHeaders, SlicesEncode, SlicesDecode, Allocated, ComponentWidth,
         ComponentHeight, Npx, NumBands, NumPrecincts, AllPlanned, Decode, WithLength, EncodeWith, Edge, BudgetOf, Shown;
    var h := MakeHeaders(c).value;
    HeaderFacts(h);
    MadeWithoutLength(c);
    TargetMet(c, h, picture);
    var policy, front, body, plans, bytes := StreamOf(c, h, picture);
    StreamDecodes(c, h, picture, policy, front, body, plans, bytes, tail);
    HeaderSizeSame(h, front + |body| + 2);
    AllAtEdge(h, policy, Analyse(h, picture).value, plans);
    assert KeptBy(c, h, picture, policy, plans);
  }
}
