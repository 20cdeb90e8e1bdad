// The slice and precinct loops of encoder and decoder: column states are objects updated precinct by
// precinct, coefficients live in picture-wide buffers, bytes are appended or consumed at an offset.
module BodyStream {
  import opened Wrappers
  import opened BitIO
  import opened HeaderTypes
  import opened Geometry
  import opened GeometryTiling
  import opened GeometryPackets
  import opened Precinct
  import opened PrecinctDecoder
  import opened WaveletLevels
  import opened WaveletTransform
  import opened Placement
  import opened BodyCodec
  import PrecinctEncoder
  import PrecinctHeaders
  import RateControl

  // ---- column states ---------------------------------------------------------------------------------

  /** One object per column, no two the same. */
  predicate Distinct(columns: seq<PredictorState>) {
    forall i, j | 0 <= i < j < |columns| :: columns[i] != columns[j]
  }

  /** The objects hold these values. */
  ghost predicate Hold(columns: seq<PredictorState>, values: seq<State>)
    reads columns
  {
    |columns| == |values| && forall i | 0 <= i < |columns| :: columns[i].Value() == values[i]
  }

  method FreshColumns(n: nat) returns (columns: seq<PredictorState>)
    ensures |columns| == n && Distinct(columns) && fresh(columns)
    ensures Hold(columns, seq(n, _ => State([], [], false)))
  {
    columns := [];
    for i := 0 to n
      invariant |columns| == i && Distinct(columns) && fresh(columns)
      invariant forall k | 0 <= k < i :: columns[k].Value() == State([], [], false)
    {
      var state := new PredictorState();
      columns := columns + [state];
    }
  }

  /** Start of a slice. */
  method InvalidateAll(columns: seq<PredictorState>, ghost values: seq<State>)
    requires Distinct(columns) && Hold(columns, values)
    modifies columns
    ensures Hold(columns, Invalidated(values))
  {
    for i := 0 to |columns|
      invariant forall k | 0 <= k < i :: columns[k].Value() == values[k].(valid := false)
      invariant forall k | i <= k < |columns| :: columns[k].Value() == values[k]
    {
      columns[i].Invalidate();
    }
  }

  // ---- shapes ----------------------------------------------------------------------------------------

  /** Lines, widths and packets of a precinct, looked up once. */
  method BuildShape(h: Headers, p: nat) returns (sh: Shape)
    requires Supported(h) && p < NumPrecincts(h)
    ensures sh == ShapeOf(h, p)
  {
    hide Supported, NumPrecincts, NumBands, LineStart, LineCount, BandPrecinctWidth, Packets;
    var starts, lines, widths := [], [], [];
    for b := 0 to NumBands(h)
      invariant |starts| == |lines| == |widths| == b
      invariant forall k | 0 <= k < b ::
                  starts[k] == LineStart(h, k) && lines[k] == LineCount(h, p, k) && widths[k] == BandPrecinctWidth(h, p, k)
    {
      starts, lines, widths := starts + [LineStart(h, b)], lines + [LineEnd(h, p, b) - LineStart(h, b)],
          widths + [BandPrecinctWidth(h, p, b)];
    }
    var packets := ListPackets(h, p);
    sh := Shape(starts, lines, widths, packets);
    assert sh == ShapeOf(h, p);
  }

  // ---- encoder ---------------------------------------------------------------------------------------

  /** D of every band for this precinct. */
  method ListModes(h: Headers, vertical: bool, significance: bool, state: PredictorState) returns (d: seq<nat>)
    requires Supported(h)
    ensures d == ModesFor(h, vertical, significance, state.Value())
  {
    hide Supported, NumBands;
    var firstRow := !state.valid;
    d := [];
    for b := 0 to NumBands(h)
      invariant d == ModesFor(h, vertical, significance, state.Value())[..b]
    {
      var bits := 0;
      if vertical && !firstRow {
        bits := bits + 1;
      }
      if significance {
        bits := bits + 2;
      }
      d := d + [bits];
    }
  }

  /** The policy's choice for one precinct; a rate search leaves the state as it found it. */
  method ChoosePlan(h: Headers, policy: Policy, p: nat, c: Coeffs, state: PredictorState) returns (r: Result<Plan>)
    requires Supported(h) && p < NumPrecincts(h)
    ensures r == PlanOf(h, policy, p, c, state.Value())
  {
    hide Supported, NumPrecincts, NumBands, RateControl.Choose, ModesFor;
    match policy {
      case Lossless(v, s) =>
        var d := ListModes(h, v, s, state);
        return Ok(Plan(Coding(0, 0, d, []), None));
      case ConstantRate(v, s, budget) =>
        var d := ListModes(h, v, s, state);
        var qr :- RateControl.ChooseQuantisation(JobOf(h, p, d, c, state.Value(), budget), state);
        return Ok(Plan(Coding(qr.0, qr.1 % 256, d, []), Some(budget)));
      case Given(plans) =>
        if p < |plans| {
          return Ok(plans[p]);
        }
        return Err(BadCoding);
    }
  }

  /** Packets, header and filler of one precinct; advances its column's state. */
  method EncodeStep(h: Headers, p: nat, plan: Plan, c: Coeffs, state: PredictorState) returns (r: Result<seq<byte>>)
    requires Supported(h) && p < NumPrecincts(h)
    modifies state
    ensures match StepEncode(h, p, plan, c, old(state.Value()))
            case Ok((bytes, st)) => r == Ok(bytes) && state.Value() == st
            case Err(e) => r == Err(e)
  {
    hide Supported, NumPrecincts, NumBands, Encode, ShapeOf, PrecinctHeaders.Write;
    HeaderShapes(h);
    ShapeIsOk(h, p);
    ShapeBands(h, p);
    if !Carried(plan, NumBands(h)) {
      return Err(BadCoding);
    }
    var sh := BuildShape(h, p);
    var bytes :- PrecinctEncoder.EncodePrecinct(sh, ModeOf(h), WeightsFor(h), plan.coding, c, state);
    var lprc := if plan.lprc.Some? then plan.lprc.value else |bytes|;
    if |bytes| > lprc {
      return Err(BudgetTooSmall);
    }
    var header :- PrecinctHeaders.WritePrecinctHeader(Existing(h), HeaderFor(plan, lprc), false);
    return Ok(header + bytes + Zeros8(lprc - |bytes|));
  }

  /** A run behind bytes already written. */
  function RunBehind(done: seq<byte>, r: Result<Coded>): Result<(seq<byte>, seq<State>)> {
    match r
    case Ok(coded) => Ok((done + coded.bytes, coded.columns))
    case Err(e) => Err(e)
  }

  lemma RunNext(h: Headers, policy: Policy, img: BandPlanes, p: nat, end: nat, columns: seq<State>, done: seq<byte>)
    requires Supported(h) && Allocated(h, img) && p < end <= NumPrecincts(h) && ColumnsOk(h, columns)
    ensures var c, col := Extract(h, p, img), Column(h, p);
            RunBehind(done, RunEncode(h, policy, img, p, end, columns)) ==
              match PlanOf(h, policy, p, c, columns[col])
              case Err(e) => Err(e)
              case Ok(plan) =>
                match StepEncode(h, p, plan, c, columns[col])
                case Err(e) => Err(e)
                case Ok((bytes, st)) => RunBehind(done + bytes, RunEncode(h, policy, img, p + 1, end, columns[col := st]))
  {
    hide Supported, NumPrecincts, Allocated, Extract, PlanOf, StepEncode, Npx;
    var c, col := Extract(h, p, img), Column(h, p);
    var plan := PlanOf(h, policy, p, c, columns[col]);
    if plan.Ok? {
      var step := StepEncode(h, p, plan.value, c, columns[col]);
      if step.Ok? {
        var rest := RunEncode(h, policy, img, p + 1, end, columns[col := step.value.1]);
        if rest.Ok? {
          assert done + (step.value.0 + rest.value.bytes) == done + step.value.0 + rest.value.bytes;
        }
      }
    }
  }

  method EncodeRun(h: Headers, policy: Policy, image: CoefficientImage, first: nat, end: nat, columns: seq<PredictorState>,
                   ghost values0: seq<State>, out0: seq<byte>)
    returns (r: Result<seq<byte>>, ghost values: seq<State>)
    requires Supported(h) && Allocated(h, image.bands) && first <= end <= NumPrecincts(h) && ColumnsOk(h, values0)
    requires Distinct(columns) && Hold(columns, values0)
    modifies columns
    ensures match RunBehind(out0, RunEncode(h, policy, image.bands, first, end, values0))
            case Ok((bytes, vs)) => r == Ok(bytes) && values == vs && Hold(columns, values)
            case Err(e) => r == Err(e)
  {
    hide Supported, NumPrecincts, Allocated, Extract, PlanOf, StepEncode, RunEncode, Npx;
    values := values0;
    var out := out0;
    ghost var goal := RunBehind(out0, RunEncode(h, policy, image.bands, first, end, values0));
    for p := first to end
      invariant ColumnsOk(h, values) && Hold(columns, values)
      invariant goal == RunBehind(out, RunEncode(h, policy, image.bands, p, end, values))
    {
      RunNext(h, policy, image.bands, p, end, values, out);
      var col := Column(h, p);
      var state := columns[col];
      var c := ExtractPrecinct(h, p, image);
      var chosen := ChoosePlan(h, policy, p, c, state);
      if chosen.Err? {
        return Err(chosen.error), values;
      }
      var bytes := EncodeStep(h, p, chosen.value, c, state);
      if bytes.Err? {
        return Err(bytes.error), values;
      }
      out := out + bytes.value;
      values := values[col := state.Value()];
    }
    RunOver(h, policy, image.bands, end, values, out);
    r := Ok(out);
  }

  lemma RunOver(h: Headers, policy: Policy, img: BandPlanes, end: nat, columns: seq<State>, done: seq<byte>)
    requires Supported(h) && Allocated(h, img) && end <= NumPrecincts(h) && ColumnsOk(h, columns)
    ensures RunBehind(done, RunEncode(h, policy, img, end, end, columns)) == Ok((done, columns))
  {
    assert done + [] == done;
  }

  /** Slices behind bytes already written. */
  function BodyBehind(done: seq<byte>, r: Result<(seq<byte>, seq<Plan>)>): Result<seq<byte>> {
    match r
    case Ok((bytes, _)) => Ok(done + bytes)
    case Err(e) => Err(e)
  }

  lemma SlicesNext(h: Headers, policy: Policy, img: BandPlanes, t: nat, columns: seq<State>, done: seq<byte>)
    requires Supported(h) && Allocated(h, img) && ColumnsOk(h, columns) && t < NumSlices(h)
    ensures BodyBehind(done, SlicesEncode(h, policy, img, t, columns)) ==
            match RunBehind(done + PrecinctHeaders.WriteSlice(SliceOf(t)),
                         RunEncode(h, policy, img, SliceFirst(h, t), SliceEnd(h, t), Invalidated(columns)))
            case Err(e) => Err(e)
            case Ok((bytes, vs)) => BodyBehind(bytes, SlicesEncode(h, policy, img, t + 1, vs))
  {
    hide Supported, NumPrecincts, Allocated, RunEncode, Npx, PrecinctHeaders.WriteSlice, Invalidated, NumSlices,
         SliceFirst, SliceEnd;
    var run := RunEncode(h, policy, img, SliceFirst(h, t), SliceEnd(h, t), Invalidated(columns));
    if run.Ok? {
      var more := SlicesEncode(h, policy, img, t + 1, run.value.columns);
      if more.Ok? {
        var slice := PrecinctHeaders.WriteSlice(SliceOf(t));
        assert done + (slice + run.value.bytes + more.value.0) == done + slice + run.value.bytes + more.value.0;
      }
    }
  }

  lemma SlicesOver(h: Headers, policy: Policy, img: BandPlanes, columns: seq<State>, done: seq<byte>)
    requires Supported(h) && Allocated(h, img) && ColumnsOk(h, columns)
    ensures BodyBehind(done, SlicesEncode(h, policy, img, NumSlices(h), columns)) == Ok(done)
  {
    hide Supported, Npx, Allocated;
    assert done + [] == done;
  }

  /** All slices: header, reset of every column, precincts. */
  method EncodeSlices(h: Headers, policy: Policy, image: CoefficientImage, columns: seq<PredictorState>, ghost values0: seq<State>)
    returns (r: Result<seq<byte>>)
    requires Supported(h) && Allocated(h, image.bands) && ColumnsOk(h, values0) && Distinct(columns) && Hold(columns, values0)
    modifies columns
    ensures r == BodyBehind([], SlicesEncode(h, policy, image.bands, 0, values0))
  {
    hide Supported, NumPrecincts, Allocated, SlicesEncode, RunEncode, Npx, PrecinctHeaders.WriteSlice, Invalidated,
         NumSlices, SliceFirst,
         SliceEnd, SliceOf;
    ghost var values := values0;
    ghost var goal := BodyBehind([], SlicesEncode(h, policy, image.bands, 0, values0));
    var body: seq<byte> := [];
    for t := 0 to NumSlices(h)
      invariant ColumnsOk(h, values) && Hold(columns, values)
      invariant goal == BodyBehind(body, SlicesEncode(h, policy, image.bands, t, values))
    {
      SlicesNext(h, policy, image.bands, t, values, body);
      body := PrecinctHeaders.AppendSlice(SliceOf(t), body);
      InvalidateAll(columns, values);
      var run, after := EncodeRun(h, policy, image, SliceFirst(h, t), SliceEnd(h, t), columns, Invalidated(values), body);
      if run.Err? {
        return run;
      }
      body, values := run.value, after;
    }
    SlicesOver(h, policy, image.bands, values, body);
    return Ok(body);
  }

  // ---- decoder ---------------------------------------------------------------------------------------

  /** One precinct from byte `offset`: its coefficients placed, its column's state advanced. */
  method DecodeStep(h: Headers, p: nat, state: PredictorState, image: CoefficientImage, data: seq<byte>, offset: nat)
    returns (r: Result<nat>)
    requires Supported(h) && p < NumPrecincts(h) && Allocated(h, image.bands) && offset <= |data|
    modifies state, image
    ensures match StepDecode(h, p, old(state.Value()), data[offset..])
            case Ok((c, st, rest)) =>
              && r.Ok? && r.value <= |data| && data[r.value..] == rest && state.Value() == st
              && image.bands == Place(h, p, c, old(image.bands))
            case Err(_) => r.Err?
  {
    hide Supported, NumPrecincts, NumBands, ShapeOf, Decode, Place, Allocated, Holds, PrecinctHeaders.Parse,
         PrecinctHeaders.HeaderBytes;
    HeaderShapes(h);
    var ph :- PrecinctHeaders.ParsePrecinctHeader(data, offset, Existing(h), false);
    var n := PrecinctHeaders.HeaderBytes(Existing(h), false);
    var body := offset + n;
    if body + ph.lprc > |data| {
      return Err(BeyondBody);
    }
    if |ph.d| != NumBands(h) {
      return Err(BadShape);
    }
    assert data[offset..][n..n + ph.lprc] == data[body..body + ph.lprc];
    assert data[offset..][n + ph.lprc..] == data[body + ph.lprc..];
    var cx := ContextFor(h, p, ph.q, ph.r, ph.d, state.Value());
    var buffer := new CoefficientBuffer(ZeroCoeffs(cx.sh));
    var used :- DecodePrecinct(cx, data[body..body + ph.lprc], state, buffer);
    DecodedHolds(h, p, cx, data[body..body + ph.lprc]);
    PlacePrecinct(h, p, buffer.lines, image);
    return Ok(body + ph.lprc);
  }

  method DecodeRun(h: Headers, first: nat, end: nat, columns: seq<PredictorState>, ghost values0: seq<State>,
                   image: CoefficientImage, data: seq<byte>, offset: nat)
    returns (r: Result<nat>, ghost values: seq<State>)
    requires Supported(h) && Allocated(h, image.bands) && first <= end <= NumPrecincts(h) && ColumnsOk(h, values0)
    requires Distinct(columns) && Hold(columns, values0) && offset <= |data|
    modifies columns, image
    ensures match RunDecode(h, first, end, values0, old(image.bands), data[offset..])
            case Ok(read) =>
              && r.Ok? && r.value <= |data| && data[r.value..] == read.rest && image.bands == read.img
              && values == read.columns && Hold(columns, values)
            case Err(_) => r.Err?
  {
    hide Supported, NumPrecincts, StepDecode, Place, Npx, Allocated, Holds;
    values := values0;
    var pos: nat := offset;
    ghost var goal := RunDecode(h, first, end, values0, image.bands, data[offset..]);
    for p := first to end
      invariant Allocated(h, image.bands) && ColumnsOk(h, values) && Hold(columns, values) && pos <= |data|
      invariant goal == RunDecode(h, p, end, values, image.bands, data[pos..])
    {
      var col := Column(h, p);
      var state := columns[col];
      var next := DecodeStep(h, p, state, image, data, pos);
      if next.Err? {
        return next, values;
      }
      values := values[col := state.Value()];
      pos := next.value;
    }
    r := Ok(pos);
  }

  /** All slices from byte `start`; the buffers end up holding the picture's coefficients. */
  method DecodeSlices(h: Headers, columns: seq<PredictorState>, ghost values0: seq<State>, image: CoefficientImage, data: seq<byte>,
                      start: nat)
    returns (r: Result<nat>)
    requires Supported(h) && Allocated(h, image.bands) && ColumnsOk(h, values0)
    requires Distinct(columns) && Hold(columns, values0) && start <= |data|
    modifies columns, image
    ensures match SlicesDecode(h, 0, values0, old(image.bands), data[start..])
            case Ok(read) => r.Ok? && r.value <= |data| && data[r.value..] == read.rest && image.bands == read.img
            case Err(_) => r.Err?
  {
    hide Supported, NumPrecincts, RunDecode, Npx, PrecinctHeaders.ParseSlice, Invalidated, NumSlices, SliceFirst, SliceEnd;
    ghost var values := values0;
    var offset: nat := start;
    ghost var goal := SlicesDecode(h, 0, values0, image.bands, data[start..]);
    for t := 0 to NumSlices(h)
      invariant Allocated(h, image.bands) && ColumnsOk(h, values) && Hold(columns, values) && offset <= |data|
      invariant goal == SlicesDecode(h, t, values, image.bands, data[offset..])
    {
      SliceAt(data, offset);
      var slice :- PrecinctHeaders.ParseSlice(data, offset);
      if slice.tdc {
        return Err(Unsupported);
      }
      if slice.ysl != t || offset + PrecinctHeaders.SLICE_HEADER_BYTES > |data| {
        return Err(BadHeader);
      }
      assert data[offset..][PrecinctHeaders.SLICE_HEADER_BYTES..] == data[offset + PrecinctHeaders.SLICE_HEADER_BYTES..];
      InvalidateAll(columns, values);
      var end, after := DecodeRun(h, SliceFirst(h, t), SliceEnd(h, t), columns, Invalidated(values), image, data,
                                  offset + PrecinctHeaders.SLICE_HEADER_BYTES);
      if end.Err? {
        return end;
      }
      offset, values := end.value, after;
    }
    return Ok(offset);
  }

  lemma SliceAt(data: seq<byte>, offset: nat)
    requires offset <= |data|
    ensures PrecinctHeaders.ParseSlice(data, offset) == PrecinctHeaders.ParseSlice(data[offset..], 0)
  {
  }
}
