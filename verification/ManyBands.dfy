// A picture with more than 128 bands and a generous target: the constant-rate encoder finds an R that its header cannot
// carry, carries another one, and keeps its rate all the same.
module ManyBands {
  import opened Wrappers
  import opened Arith
  import opened BitIO
  import opened HeaderTypes
  import opened Geometry
  import opened GeometryTiling
  import opened GeometryPackets
  import opened Planes
  import opened WaveletLevels
  import opened BodyCodec
  import opened Codec
  import opened RunHistory
  import opened ConstantRate
  import BodyFailures
  import GreyPictures
  import HeaderCodec
  import HeaderFields
  import HeaderLimits
  import Placement
  import Precinct
  import PrecinctHeaders
  import PrecinctRoundTrip
  import RateControl
  import Segments
  import SmallPictures
  import SmallPrecincts

  function EightComponents(): (c: seq<Component>)
    ensures |c| == 8
  {
    seq(8, _ => Component(8, 1, 1))
  }

  function EqualWeights(): (w: seq<BandWeights>)
    ensures |w| == 136
  {
    seq(136, _ => BandWeights(0, 0))
  }

  /** Eight 8-bit components of 64 by 32 samples, six horizontal and five vertical levels, a million bytes. */
  function ManyConfig(): EncoderConfig {
    EncoderConfig(EightComponents(), 64, 32, 6, 5, 0, 1, 0, Cts(0, 0, 0), None, 0, 0, 0, 0, 0, 0, EqualWeights(),
                  true, true, false, 1_000_000)
  }

  function ManyHeaders(): Headers {
    Headers(0, PictureHeader(0, 0, 0, 64, 32, 0, 1, 8, 4, 8, 20, 8, 4, 0, 0, 0, 6, 5, 0, 0, 0, 0, 0),
            EightComponents(), EqualWeights(), None, None, 0, None, None, None, [])
  }

  function GreyOctet(): (p: Picture)
    ensures |p| == 8 && PlanesOk(p)
  {
    seq(8, _ => Plane(64, 32, seq(32, _ => seq(64, _ => 128))))
  }

  // ---- the headers -----------------------------------------------------------------------------------

  lemma {:induction false} NothingSampled(components: seq<Component>)
    requires forall i | 0 <= i < |components| :: components[i].sx == 1 && components[i].sy == 1
    ensures MaxSx(components) == 1 && MaxSy(components) == 1
  {
    if components != [] {
      assert forall i | 0 <= i < |components[1..]| :: components[1..][i] == components[i + 1];
      NothingSampled(components[1..]);
    }
  }

  lemma NoCapability()
    ensures !Has(0, VERTICAL_SUBSAMPLING) && !Has(0, RAW_PER_PACKET) && !Has(0, QUADRATIC_NLT) && !Has(0, EXTENDED_NLT)
  {
  }

  lemma LevelPowers()
    ensures Pow2(0) == 1 && Pow2(1) == 2 && Pow2(5) == 32 && Pow2(6) == 64
  {
    SmallPowers();
    assert Pow2(5) == 2 * Pow2(4);
    assert Pow2(6) == 2 * Pow2(5);
  }

  lemma ManyLayout()
    ensures var h := ManyHeaders();
            var layout := ComputeBandLayout(h.pih, h.components, h.sd);
            layout.Ok? && layout.value.numBands == 136
  {
    hide FirstLine;
    assert NumFilterTypes(6, 5) == 17;
    assert Mul(8, 17) == 136;
  }

  lemma ManyValid()
    ensures Supported(ManyHeaders())
  {
    hide ComputeBandLayout, Has, Pow2;
    var h := ManyHeaders();
    NoCapability();
    LevelPowers();
    ManyLayout();
    NothingSampled(h.components);
  }

  lemma ManyMade()
    ensures MakeHeaders(ManyConfig()) == Ok(ManyHeaders())
  {
    hide ComputeBandLayout, Valid, Supported;
    ManyValid();
    SupportedIsValid(ManyHeaders());
    ManyLayout();
    assert ManyConfig().weights != [];
  }

  // ---- geometry --------------------------------------------------------------------------------------

  /** The fields that sizes and packets depend on. */
  predicate IsMany(h: Headers) {
    && h.pih.nlx == 6 && h.pih.nly == 5 && h.pih.wf == 64 && h.pih.hf == 32 && h.pih.cw == 0 && h.pih.nc == 8 && h.sd == 0
    && h.components == EightComponents()
  }

  lemma ManyGrid(h: Headers)
    requires Supported(h) && IsMany(h)
    ensures Npx(h) == 1 && Npy(h) == 1 && NumPrecincts(h) == 1 && NumBands(h) == 136 && Decomposed(h) == 8 && NBeta(h) == 17
    ensures GridOf(h) == Grid(8, 2, 5, 0)
  {
    hide Supported, Mul, Pow2;
    LevelPowers();
    OneTimes(1);
    assert Mul(8, 17) == 136 by { MulEight(); }
  }

  lemma MulEight()
    ensures Mul(8, 17) == 136 && Mul(8, 2) == 16
  {
  }

  /** A band of a component 64 wide. */
  lemma SizeAtDepth(dx: nat)
    requires dx >= 1
    ensures LowPassSize(64, dx) <= 32 && HighPassSize(64, dx) <= 32
    ensures dx >= 2 ==> LowPassSize(64, dx) <= 16 && HighPassSize(64, dx) <= 16
  {
    hide Pow2, CeilDiv;
    SmallPowers();
    Pow2Monotone(1, dx);
    CeilDivLeast(64, Pow2(dx), 32);
    CeilDivLeast(64, Pow2(dx - 1), 64);
    if dx >= 2 {
      Pow2Monotone(2, dx);
      Pow2Monotone(1, dx - 1);
      CeilDivLeast(64, Pow2(dx), 16);
      CeilDivLeast(64, Pow2(dx - 1), 32);
    }
  }

  lemma ManyDepth(h: Headers, b: nat)
    requires Supported(h) && IsMany(h) && b < NumBands(h)
    ensures BandOf(h, b).dx >= if b < 16 then 2 else 1
    ensures b == 0 ==> BandOf(h, b).dy == 5 && !BandOf(h, b).highY
  {
    hide Supported, NumBands, LowPassSize, HighPassSize, Mul, CeilDiv;
    ManyGrid(h);
    HeaderFacts(h);
    DivMod(b, 8);
    MulEight();
  }

  lemma ManyWidth(h: Headers, b: nat)
    requires Supported(h) && IsMany(h) && b < NumBands(h)
    ensures 0 < NumPrecincts(h) && BandPrecinctWidth(h, 0, b) <= if b < 16 then 16 else 32
  {
    hide Supported, NumPrecincts, NumBands, BandOf, BandPrecinctWidth, FullColumn, Npx, LowPassSize, HighPassSize;
    ManyGrid(h);
    ManyDepth(h, b);
    BandSize(h, b);
    BandFacts(h, b);
    SizeAtDepth(BandOf(h, b).dx);
    CeilDivOne(64);
    SingleWidth(h, 0, b);
    MulZero(Npx(h) - 1, FullColumn(h, b));
  }

  lemma ManyGroups(h: Headers, b: nat)
    requires Supported(h) && IsMany(h) && b < NumBands(h)
    ensures 0 < NumPrecincts(h) && ShapeOf(h, 0).Ok() && ShapeOf(h, 0).Bands() == NumBands(h)
    ensures ShapeOf(h, 0).Groups(b) <= if b < 16 then 4 else 8
  {
    hide Supported, NumPrecincts, NumBands, LineCount, LineStart, BandPrecinctWidth, Packets;
    ManyGrid(h);
    ManyWidth(h, b);
    ShapeIsOk(h, 0);
  }

  predicate GroupsBelow(sh: Precinct.Shape, from: nat, end: nat, k: nat)
    requires sh.Ok()
  {
    end <= sh.Bands() && forall b | from <= b < end :: sh.Groups(b) <= k
  }

  lemma {:induction false} GroupsAtMost(h: Headers, from: nat, end: nat, line: nat, k: nat)
    requires Supported(h) && IsMany(h) && from <= end <= NumBands(h) && 0 < NumPrecincts(h) && ShapeOf(h, 0).Ok()
    requires GroupsBelow(ShapeOf(h, 0), from, end, k)
    ensures ShapeOf(h, 0).EntriesOk(EntriesOf(h, 0, from, end, line))
    ensures SmallPrecincts.GroupsOf(ShapeOf(h, 0), EntriesOf(h, 0, from, end, line)) <= (end - from) * k
    decreases end - from
  {
    hide Supported, NumPrecincts, NumBands, LineCount, LineStart, BandPrecinctWidth, Packets, Precinct.Shape.Groups;
    if from < end {
      GroupsAtMost(h, from + 1, end, line, k);
      OneMoreGroup(end - from, k);
      var es, rest := EntriesOf(h, 0, from, end, line), EntriesOf(h, 0, from + 1, end, line);
      if line < LineCount(h, 0, from) {
        assert es[1..] == rest;
      } else {
        assert es == rest;
      }
    }
  }

  lemma OneMoreGroup(n: nat, k: nat)
    requires n > 0
    ensures n * k == (n - 1) * k + k
  {
  }

  // ---- packets ---------------------------------------------------------------------------------------

  lemma {:induction false} ChunksOfLevel(g: Grid, beta: nat, line: nat, n: nat)
    requires line <= n
    ensures |LevelChunks(g, beta, line, n)| == 3 * (n - line)
    decreases n - line
  {
    if line < n {
      ChunksOfLevel(g, beta, line + 1, n);
    }
  }

  lemma {:induction false} ChunksOfLevels(g: Grid, k: nat)
    requires k <= g.nly
    ensures |Levels(g, k)| == 3 * (Pow2(g.nly) - Pow2(k))
    decreases g.nly - k
  {
    hide LevelChunks;
    if k < g.nly {
      ChunksOfLevel(g, g.beta1 + 3 * k, 0, Pow2(k));
      ChunksOfLevels(g, k + 1);
    }
  }

  lemma {:induction false} NoPlainChunks(g: Grid, line: nat, n: nat)
    requires g.sd == 0 && line <= n
    ensures PlainLines(g, line, n) == []
    decreases n - line
  {
    if line < n {
      NoPlainChunks(g, line + 1, n);
    }
  }

  /** One chunk for the first bands and three for each of 31 lines. */
  lemma ManyChunks()
    ensures |Chunks(Grid(8, 2, 5, 0))| == 94
  {
    hide Pow2, Levels, PlainLines;
    LevelPowers();
    ChunksOfLevels(Grid(8, 2, 5, 0), 0);
    NoPlainChunks(Grid(8, 2, 5, 0), 0, 32);
  }

  lemma {:induction false} PacketsAtMost(h: Headers, p: nat, chunks: seq<Chunk>)
    requires Supported(h) && p < NumPrecincts(h) && Within(chunks, NumBands(h))
    ensures |PacketsOf(h, p, chunks)| <= |chunks|
  {
    hide Supported, NumPrecincts, NumBands, EntriesOf;
    if chunks != [] {
      PacketsAtMost(h, p, chunks[1..]);
    }
  }

  /** A chunk with any band spans the first 16 bands, or eight others. */
  lemma ChunkSize(h: Headers, x: Chunk)
    requires Supported(h) && IsMany(h) && x in Chunks(GridOf(h)) && x.from < x.end
    ensures x.end <= NumBands(h) && ((x.from == 0 && x.end == 16) || x.end == x.from + 8)
  {
    hide Supported, NumBands, Chunks, Mul, Family;
    ManyGrid(h);
    ChunkFamilies(GridOf(h));
    assert WholeFamily(GridOf(h), x);
    assert Covers(x, x.from);
    FamilySize(x.from);
  }

  lemma FamilySize(b: nat)
    ensures var g := Grid(8, 2, 5, 0); g.Bands() == 136
    ensures var (from, end) := Family(Grid(8, 2, 5, 0), b); b < 136 ==> (from == 0 && end == 16) || end == from + 8
  {
  }

  lemma PacketSmall(h: Headers, i: nat)
    requires Supported(h) && IsMany(h) && NumPrecincts(h) == 1 && ShapeOf(h, 0).Ok() && i < |ShapeOf(h, 0).packets|
    ensures SmallPrecincts.GroupsOf(ShapeOf(h, 0), ShapeOf(h, 0).packets[i]) <= 64
  {
    hide Supported, NumPrecincts, NumBands, LineCount, LineStart, BandPrecinctWidth, Precinct.Shape.Groups, Chunks, PacketsOf,
         SmallPrecincts.GroupsOf, EntriesOf, Precinct.Shape.EntriesOk;
    ManyGrid(h);
    AllWithin(h);
    var k := PacketFromChunk(h, 0, Chunks(GridOf(h)), i);
    var x := Chunks(GridOf(h))[k];
    assert x.from < x.end by { NothingFrom(h, x); }
    ChunkSize(h, x);
    var most := if x.end == 16 && x.from == 0 then 4 else 8;
    forall b | x.from <= b < x.end
      ensures b < ShapeOf(h, 0).Bands() && ShapeOf(h, 0).Groups(b) <= most
    {
      ManyGroups(h, b);
    }
    assert ShapeOf(h, 0).Bands() == NumBands(h);
    assert GroupsBelow(ShapeOf(h, 0), x.from, x.end, most);
    GroupsAtMost(h, x.from, x.end, x.line, most);
  }

  lemma NothingFrom(h: Headers, x: Chunk)
    requires Supported(h) && 0 < NumPrecincts(h) && x.end <= NumBands(h) && EntriesOf(h, 0, x.from, x.end, x.line) != []
    ensures x.from < x.end
  {
  }

  lemma FirstLineThere(h: Headers)
    requires Supported(h) && IsMany(h)
    ensures 0 < NumPrecincts(h) && 0 < NumBands(h) && 0 < LineCount(h, 0, 0)
  {
    hide Supported, NumPrecincts, NumBands, BandOf, Npx, Pow2, CeilDiv;
    ManyGrid(h);
    ManyDepth(h, 0);
    BandSize(h, 0);
    BandFacts(h, 0);
    LevelPowers();
    CeilDivLeast(32, 32, 0);
    assert Span(h, 0) == 1 && Row(h, 0) == 0;
  }

  lemma SomePacket(h: Headers)
    requires Supported(h) && IsMany(h)
    ensures 0 < NumPrecincts(h) && Packets(h, 0) != []
  {
    hide Supported, NumPrecincts, NumBands, LineCount, LineStart, EntriesOf, Levels, PlainLines, PacketsOf;
    ManyGrid(h);
    AllWithin(h);
    FirstLineThere(h);
    EntriesSplit(h, 0, 0, 16, 0);
    MulEight();
    var chunks := Chunks(GridOf(h));
    assert chunks[0] == Chunk(0, 16, 0);
    PacketsStep(h, chunks);
  }

  lemma PacketsStep(h: Headers, chunks: seq<Chunk>)
    requires Supported(h) && 0 < NumPrecincts(h) && Within(chunks, NumBands(h)) && chunks != []
    requires EntriesOf(h, 0, chunks[0].from, chunks[0].end, chunks[0].line) != []
    ensures PacketsOf(h, 0, chunks) != []
  {
    hide Supported, NumPrecincts, NumBands, EntriesOf;
  }

  lemma ManySmall(h: Headers)
    requires Supported(h) && IsMany(h)
    ensures NumPrecincts(h) == 1 && SmallPictures.PrecinctSmall(h, 0)
  {
    hide Supported, NumPrecincts, NumBands, LineCount, LineStart, BandPrecinctWidth, SmallPrecincts.GroupsOf, Chunks, PacketsOf,
         Precinct.Shape.EntriesOk;
    ManyGrid(h);
    ShapeIsOk(h, 0);
    SomePacket(h);
    AllWithin(h);
    ManyChunks();
    PacketsAtMost(h, 0, Chunks(GridOf(h)));
    forall i | 0 <= i < |ShapeOf(h, 0).packets|
      ensures SmallPrecincts.GroupsOf(ShapeOf(h, 0), ShapeOf(h, 0).packets[i]) <= 64
    {
      PacketSmall(h, i);
    }
  }

  // ---- the budget ------------------------------------------------------------------------------------

  lemma {:induction false} SegmentsAtMost(segments: seq<Segments.Segment>)
    requires Segments.MarkersOk(segments) && Segments.SegmentsBytes(segments).Ok?
    ensures |Segments.SegmentsBytes(segments).value| <= 0x1_0001 * |segments|
  {
    hide Segments.U16Bytes;
    if segments != [] {
      SegmentsAtMost(segments[1..]);
    }
  }

  lemma FourSegments(h: Headers)
    requires HeaderCodec.WriteHeaders(h).Ok? && h.refresh.None? && h.nlt.None? && h.cts.None? && h.crg.None? && h.tpc.None?
    requires h.sd == 0 && h.comments == []
    ensures |HeaderCodec.WriteHeaders(h).value| <= 0x4_0006
  {
    hide Valid, HeaderCodec.LayoutOf, HeaderFields.Payload, HeaderFields.WeightsPayload, Segments.SegmentsBytes;
    var parts := HeaderCodec.PartsOf(h).value;
    assert |parts| == 11 && |parts[0]| == |parts[1]| == |parts[2]| == |parts[3]| == 1;
    assert parts[4..] == [[], [], [], [], [], [], []];
    JoinFour(parts);
    HeaderCodec.PartsMarked(h);
    SegmentsAtMost(HeaderCodec.Join(parts));
  }

  lemma JoinFour(parts: seq<seq<Segments.Segment>>)
    requires |parts| == 11 && |parts[0]| == |parts[1]| == |parts[2]| == |parts[3]| == 1
    requires parts[4..] == [[], [], [], [], [], [], []]
    ensures |HeaderCodec.Join(parts)| == 4
  {
    hide HeaderCodec.Join;
    JoinStep(parts);
    JoinStep(parts[1..]);
    JoinStep(parts[2..]);
    JoinStep(parts[3..]);
    JoinNothing(parts[4..]);
    assert parts[1..][1..] == parts[2..] && parts[2..][1..] == parts[3..] && parts[3..][1..] == parts[4..];
  }

  lemma JoinStep(parts: seq<seq<Segments.Segment>>)
    requires parts != []
    ensures |HeaderCodec.Join(parts)| == |parts[0]| + |HeaderCodec.Join(parts[1..])|
  {
  }

  lemma {:induction false} JoinNothing(parts: seq<seq<Segments.Segment>>)
    requires forall i | 0 <= i < |parts| :: parts[i] == []
    ensures HeaderCodec.Join(parts) == []
  {
    if parts != [] {
      JoinNothing(parts[1..]);
    }
  }

  lemma {:induction false} CountAtMost(exists_: seq<bool>)
    ensures HeaderFields.Count(exists_) <= |exists_|
  {
    if exists_ != [] {
      CountAtMost(exists_[1..]);
    }
  }

  /** What the million bytes leave to the one precinct: more than any small precinct needs, less than Lprc can say. */
  lemma ManyBudget(h: Headers, front: nat)
    requires Supported(h) && IsMany(h) && h.pih.hsl == 1 && front <= 0x4_0006
    ensures BudgetOf(h, front, 1_000_000).Ok? && 0x8_0000 <= BudgetOf(h, front, 1_000_000).value < 0x10_0000
  {
    hide Supported, NumPrecincts, NumBands, Mul, Npx, Npy, ColumnWidth, Pow2, ComputeBandLayout;
    ManyGrid(h);
    HeaderShapes(h);
    CountAtMost(Existing(h));
    OneSlice(h);
    OneTimes(PrecinctHeaders.HeaderBytes(Existing(h), false));
    OneTimes(PrecinctHeaders.SLICE_HEADER_BYTES);
  }

  lemma OneSlice(h: Headers)
    requires Supported(h) && IsMany(h) && h.pih.hsl == 1
    ensures NumSlices(h) == 1
  {
    hide Supported, Pow2;
    ManyGrid(h);
  }

  // ---- the stream ------------------------------------------------------------------------------------

  /** The R found for the first precinct of the stream, and the one its header carries. */
  ghost predicate FirstCarries(c: EncoderConfig, picture: Picture, found: int, carried: int) {
    hide MakeHeaders, Supported, KeptBy, Allocated, Analyse, NumPrecincts, RateControl.Choose;
    && MakeHeaders(c).Ok?
    && var h := MakeHeaders(c).value;
       && Supported(h) && PlanesOk(picture) && |picture| == h.pih.nc && 0 < NumPrecincts(h)
       && Analyse(h, picture).Ok? && Allocated(h, Analyse(h, picture).value)
       && exists policy: Policy, plans: seq<Plan> ::
            && KeptBy(c, h, picture, policy, plans) && policy.ConstantRate? && plans != []
            && plans[0].coding.r == carried
            && JobBehind(h, policy, Analyse(h, picture).value, []).sh.Bands() > 0
            && var choice := RateControl.Choose(JobBehind(h, policy, Analyse(h, picture).value, []));
               choice.Ok? && choice.value.0 == plans[0].coding.q && choice.value.1 == found
  }

  lemma ManyFits(h: Headers)
    requires h == ManyHeaders() && Supported(h)
    ensures Valid(h) && |GreyOctet()| == h.pih.nc && SizesMatch(h, GreyOctet()) && GreyPictures.Grey(h, GreyOctet())
    ensures HeaderLimits.Writable(h)
  {
    hide Supported, Valid, Pow2, CeilDiv;
    SupportedIsValid(h);
    HeaderLimits.FieldPowers();
    CeilDivOne(64);
    CeilDivOne(32);
  }

  lemma ManyAmple(h: Headers)
    requires h == ManyHeaders() && Supported(h)
    ensures GreyPictures.AmpleFor(ManyConfig(), h)
  {
    hide Supported, Valid, HeaderCodec.WriteHeaders, HeaderLimits.Writable, SizesMatch, GreyPictures.Grey, BudgetOf;
    ManyFits(h);
    HeaderLimits.WriteHeadersExact(h);
    FourSegments(h);
    ManyBudget(h, |HeaderCodec.WriteHeaders(h).value|);
  }

  /** The first precinct is coded with the finest Q and, as far as the search goes, the largest R. */
  lemma FirstChoice(h: Headers, policy: Policy, img: BandPlanes, plan: Plan)
    requires Supported(h) && IsMany(h) && Allocated(h, img) && GreyPictures.AllZero(img) && 0 < NumPrecincts(h)
    requires SmallPictures.Ample(policy) && policy.ConstantRate? && Planned(h, policy, img, [], plan)
    ensures JobBehind(h, policy, img, []).sh.Bands() > 0
    ensures RateControl.Choose(JobBehind(h, policy, img, [])) == Result.Ok((0, 271)) && plan.coding.q == 0 && plan.coding.r == 15
  {
    hide Supported, NumPrecincts, NumBands, Allocated, Placement.Extract, ModesFor, RateControl.Choose, GreyPictures.AllZero,
         Placement.Holds, ShapeOf, StepEncode, Precinct.CoeffsFit, BodyFailures.StateFits, PrecinctRoundTrip.StateInRange,
         SmallPictures.PrecinctSmall;
    ManyGrid(h);
    ManySmall(h);
    HeaderShapes(h);
    Placement.ShapeBands(h, 0);
    var st, c := EntryState(h, img, []), Placement.Extract(h, 0, img);
    FirstState(h, img);
    GreyPictures.ZeroFitsCoded(h, 0, img);
    Placement.ExtractHolds(h, 0, img);
    SmallPictures.AmpleChoice(h, policy, 0, c, st);
  }

  lemma FirstState(h: Headers, img: BandPlanes)
    requires Supported(h) && Allocated(h, img) && 0 < NumPrecincts(h)
    ensures BodyFailures.StateFits(h, 0, EntryState(h, img, []))
    ensures PrecinctRoundTrip.StateInRange(EntryState(h, img, []), h.pih.br)
  {
    hide Supported, NumPrecincts, Allocated, ShapeOf, Npx, SliceTop;
    ShapeIsOk(h, 0);
  }

  /**
   * The search for R ends at 271 and the header says 15. The picture is encoded all the same, keeps its rate and
   * decodes: at Q = 0 no R truncates anything.
   */
  lemma ManyEncodes(c: EncoderConfig, picture: Picture, tail: seq<byte>)
    requires c == ManyConfig() && picture == GreyOctet()
    ensures Encodes(c, picture) && KeepsRate(c, picture, tail) && FirstCarries(c, picture, 271, 15)
  {
    hide Supported, Valid, MakeHeaders, EncodeWith, HeaderLimits.Writable, SizesMatch, GreyPictures.Grey, NumPrecincts, NumBands,
         SmallPictures.PrecinctSmall, KeepsRate, GreyPictures.AmpleFor, FirstCarries;
    var h := ManyHeaders();
    ManyMade();
    ManyValid();
    ManyFits(h);
    ManySmall(h);
    ManyAmple(h);
    GreyPictures.GreyEncodes(c, h, picture);
    ConstantRateEndToEnd(c, picture, tail);
    ManyCarries(c, h, picture, tail);
  }

  lemma ManyCarries(c: EncoderConfig, h: Headers, picture: Picture, tail: seq<byte>)
    requires KeepsRate(c, picture, tail) && MakeHeaders(c) == Ok(h)
    requires c == ManyConfig() && h == ManyHeaders() && picture == GreyOctet()
    ensures FirstCarries(c, picture, 271, 15)
  {
    hide Supported, Valid, MakeHeaders, EncodeWith, SizesMatch, GreyPictures.Grey, NumPrecincts, NumBands, Analyse, Allocated,
         GreyPictures.AllZero, DecodesTo, HeaderCodec.WriteHeaders, SmallPictures.Ample, AllPlanned, Edge, Encode,
         RateControl.Choose, JobBehind, PolicyOf;
    ManyFits(h);
    ManyAmple(h);
    ManyGrid(h);
    var policy: Policy, plans: seq<Plan> :| KeptBy(c, h, picture, policy, plans);
    GreyPictures.GreyAnalysed(h, picture);
    FirstPlanned(h, policy, Analyse(h, picture).value, plans);
    FirstChoice(h, policy, Analyse(h, picture).value, plans[0]);
  }

  lemma FirstPlanned(h: Headers, policy: Policy, img: BandPlanes, plans: seq<Plan>)
    requires Supported(h) && Allocated(h, img) && 0 < |plans| <= NumPrecincts(h) && AllPlanned(h, policy, img, plans)
    ensures Planned(h, policy, img, [], plans[0])
  {
    hide Supported, NumPrecincts, Allocated, Planned;
    assert plans[..0] == [];
  }
}
