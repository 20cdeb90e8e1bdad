// Packets of a precinct (B.7, Table B.4): which line of which band travels in which packet.
module GeometryPackets {
  import opened Arith
  import opened HeaderTypes
  import opened Geometry
  import opened GeometryTiling
  import opened Precinct
  import opened PrecinctRoundTrip
  import RawFallback

  /** Line `line` (relative to the first of each band) of the bands from..end. */
  datatype Chunk = Chunk(from: nat, end: nat, line: nat)

  /** Numbers of decomposed components, LL and horizontal filter types, vertical levels and plain components. */
  datatype Grid = Grid(d: nat, beta1: nat, nly: nat, sd: nat) {
    /** First band of a filter type. */
    function First(beta: nat): nat {
      Mul(d, beta)
    }

    function NBeta(): nat {
      beta1 + 3 * nly
    }

    function Plain(): nat {
      Mul(d, NBeta())
    }

    function Bands(): nat {
      Plain() + sd
    }
  }

  function TypeChunk(g: Grid, beta: nat, line: nat): Chunk {
    Chunk(g.First(beta), g.First(beta) + g.d, line)
  }

  /** HL, LH and HH of one line. */
  function LineChunks(g: Grid, beta: nat, line: nat): seq<Chunk> {
    [TypeChunk(g, beta, line), TypeChunk(g, beta + 1, line), TypeChunk(g, beta + 2, line)]
  }

  function LevelChunks(g: Grid, beta: nat, line: nat, n: nat): seq<Chunk>
    requires line <= n
    decreases n - line
  {
    if line == n then [] else LineChunks(g, beta, line) + LevelChunks(g, beta, line + 1, n)
  }

  /** Two-dimensional levels from the k-th coarsest on. */
  function Levels(g: Grid, k: nat): seq<Chunk>
    requires k <= g.nly
    decreases g.nly - k
  {
    if k == g.nly then [] else LevelChunks(g, g.beta1 + 3 * k, 0, Pow2(k)) + Levels(g, k + 1)
  }

  function PlainLine(g: Grid, i: nat, line: nat): seq<Chunk>
    requires i <= g.sd
    decreases g.sd - i
  {
    if i == g.sd then [] else [Chunk(g.Plain() + i, g.Plain() + i + 1, line)] + PlainLine(g, i + 1, line)
  }

  function PlainLines(g: Grid, line: nat, n: nat): seq<Chunk>
    requires line <= n
    decreases n - line
  {
    if line == n then [] else PlainLine(g, 0, line) + PlainLines(g, line + 1, n)
  }

  function Chunks(g: Grid): seq<Chunk> {
    [Chunk(0, g.First(g.beta1), 0)] + (Levels(g, 0) + PlainLines(g, 0, Pow2(g.nly)))
  }

  // ---- every line of every band once, in order ---------------------------------------------------

  predicate Covers(x: Chunk, b: nat) {
    x.from <= b < x.end
  }

  /** Lines of band b in order of appearance. */
  function LinesIn(chunks: seq<Chunk>, b: nat): seq<nat> {
    if chunks == [] then []
    else LineFor(chunks[0], b) + LinesIn(chunks[1..], b)
  }

  function LineFor(x: Chunk, b: nat): seq<nat> {
    if Covers(x, b) then [x.line] else []
  }

  lemma {:induction false} LinesInConcat(x: seq<Chunk>, y: seq<Chunk>, b: nat)
    ensures LinesIn(x + y, b) == LinesIn(x, b) + LinesIn(y, b)
  {
    hide LinesIn, LineFor;
    NoChunks(b);
    if x == [] {
      assert x + y == y;
    } else {
      assert (x + y)[0] == x[0] && (x + y)[1..] == x[1..] + y;
      FirstChunk(x, b);
      FirstChunk(x + y, b);
      LinesInConcat(x[1..], y, b);
    }
  }

  lemma FirstChunk(chunks: seq<Chunk>, b: nat)
    requires chunks != []
    ensures LinesIn(chunks, b) == LineFor(chunks[0], b) + LinesIn(chunks[1..], b)
  {
  }

  lemma NoChunks(b: nat)
    ensures LinesIn([], b) == []
  {
  }

  /** Lines per precinct of band b. */
  function Height(g: Grid, b: nat): nat
    requires g.d > 0
  {
    if b < g.First(g.beta1) then 1
    else if b < g.Plain() then Pow2(Max(0, Level(g, b)))
    else Pow2(g.nly)
  }

  function Level(g: Grid, b: nat): int
    requires g.d > 0
  {
    (b / g.d - g.beta1) / 3
  }

  lemma TypeCovers(g: Grid, beta: nat, line: nat, b: nat)
    requires g.d > 0
    ensures Covers(TypeChunk(g, beta, line), b) <==> b / g.d == beta
  {
    DivBounds(b, g.d);
    if g.First(beta) <= b < g.First(beta) + g.d {
      MulCommute(g.d, beta);
      DivUnique(b, g.d, beta);
    } else if b / g.d == beta {
      MulCommute(g.d, beta);
    }
  }

  lemma BelowFirst(g: Grid, beta: nat, b: nat)
    requires g.d > 0
    ensures b < g.First(beta) <==> b / g.d < beta
    ensures b / g.d >= 0
  {
    DivNonNegative(b, g.d);
    DivBounds(b, g.d);
    MulCommute(g.d, beta);
    if b / g.d < beta {
      MulMonotone(b / g.d + 1, beta, g.d);
    } else {
      MulMonotone(beta, b / g.d, g.d);
    }
  }

  lemma LineChunkLines(g: Grid, beta: nat, line: nat, b: nat)
    requires g.d > 0
    ensures LinesIn(LineChunks(g, beta, line), b) == if beta <= b / g.d < beta + 3 then [line] else []
  {
    hide Covers, Mul;
    TypeCovers(g, beta, line, b);
    TypeCovers(g, beta + 1, line, b);
    TypeCovers(g, beta + 2, line, b);
    var c := LineChunks(g, beta, line);
    assert c[1..] == [TypeChunk(g, beta + 1, line), TypeChunk(g, beta + 2, line)];
    assert c[1..][1..] == [TypeChunk(g, beta + 2, line)];
    assert c[1..][1..][1..] == [];
    assert LinesIn(c[1..][1..], b) == if b / g.d == beta + 2 then [line] else [];
    assert LinesIn(c[1..], b) == if beta + 1 <= b / g.d < beta + 3 then [line] else [];
  }

  lemma {:induction false} LevelLines(g: Grid, beta: nat, line: nat, n: nat, b: nat)
    requires g.d > 0 && line <= n
    ensures LinesIn(LevelChunks(g, beta, line, n), b) == if beta <= b / g.d < beta + 3 then Range(line, n - line) else []
    decreases n - line
  {
    hide LineChunks, Covers, LinesIn;
    if line < n {
      LinesInConcat(LineChunks(g, beta, line), LevelChunks(g, beta, line + 1, n), b);
      LineChunkLines(g, beta, line, b);
      LevelLines(g, beta, line + 1, n, b);
      assert [line] + Range(line + 1, n - line - 1) == Range(line, n - line);
    } else {
      assert LinesIn([], b) == [] by {
        NoChunks(b);
      }
      assert Range(line, 0) == [];
    }
  }

  /** Band b belongs to the two-dimensional level k. */
  predicate AtLevel(g: Grid, b: nat, k: nat)
    requires g.d > 0
  {
    g.beta1 + 3 * k <= b / g.d < g.beta1 + 3 * k + 3
  }

  lemma {:induction false} LevelsLines(g: Grid, k: nat, b: nat)
    requires g.d > 0 && k <= g.nly
    ensures forall j: nat | k <= j < g.nly && AtLevel(g, b, j) :: LinesIn(Levels(g, k), b) == Range(0, Pow2(j))
    ensures (forall j: nat | k <= j < g.nly :: !AtLevel(g, b, j)) ==> LinesIn(Levels(g, k), b) == []
    decreases g.nly - k
  {
    hide LevelChunks, LinesIn, Pow2;
    if k == g.nly {
      NoChunks(b);
    } else {
      var here := LevelChunks(g, g.beta1 + 3 * k, 0, Pow2(k));
      LinesInConcat(here, Levels(g, k + 1), b);
      LevelLines(g, g.beta1 + 3 * k, 0, Pow2(k), b);
      LevelsLines(g, k + 1, b);
      if AtLevel(g, b, k) {
        forall j: nat | k + 1 <= j < g.nly
          ensures !AtLevel(g, b, j)
        {
        }
        assert LinesIn(here, b) + [] == Range(0, Pow2(k));
      }
    }
  }

  lemma {:induction false} PlainLineLines(g: Grid, i: nat, line: nat, b: nat)
    requires i <= g.sd
    ensures LinesIn(PlainLine(g, i, line), b) == if g.Plain() + i <= b < g.Bands() then [line] else []
    decreases g.sd - i
  {
    if i < g.sd {
      var here, later := [Chunk(g.Plain() + i, g.Plain() + i + 1, line)], PlainLine(g, i + 1, line);
      LinesInConcat(here, later, b);
      PlainLineLines(g, i + 1, line, b);
    }
  }

  lemma {:induction false} PlainLinesLines(g: Grid, line: nat, n: nat, b: nat)
    requires line <= n
    ensures LinesIn(PlainLines(g, line, n), b) == if g.Plain() <= b < g.Bands() then Range(line, n - line) else []
    decreases n - line
  {
    hide LinesIn, PlainLine, Mul;
    if line == n {
      NoChunks(b);
    }
    if line < n {
      LinesInConcat(PlainLine(g, 0, line), PlainLines(g, line + 1, n), b);
      PlainLineLines(g, 0, line, b);
      PlainLinesLines(g, line + 1, n, b);
    }
  }

  /** The chunks list lines 0 .. Height-1 of every band, each once and in order. */
  lemma ChunkLines(g: Grid, b: nat)
    requires g.d > 0 && b < g.Bands()
    ensures LinesIn(Chunks(g), b) == Range(0, Height(g, b))
  {
    hide LinesIn, Levels, PlainLines, Pow2, Mul;
    var head, levels, plain := [Chunk(0, g.First(g.beta1), 0)], Levels(g, 0), PlainLines(g, 0, Pow2(g.nly));
    LinesInConcat(head, levels + plain, b);
    LinesInConcat(levels, plain, b);
    LevelsLines(g, 0, b);
    PlainLinesLines(g, 0, Pow2(g.nly), b);
    BelowFirst(g, g.beta1, b);
    BelowFirst(g, g.NBeta(), b);
    FirstChunk(head, b);
    NoChunks(b);
    assert head[1..] == [];
    if g.beta1 <= b / g.d < g.NBeta() {
      var k: nat := Level(g, b);
      assert AtLevel(g, b, k);
    } else {
      assert forall j: nat | j < g.nly :: !AtLevel(g, b, j);
    }
  }

  // ---- bands that travel together ------------------------------------------------------------------

  /** Bands with the packets of band b. */
  function Family(g: Grid, b: nat): (nat, nat)
    requires g.d > 0
  {
    if b < g.First(g.beta1) then (0, g.First(g.beta1))
    else if b < g.Plain() then
      DivNonNegative(b, g.d); (g.First(b / g.d), g.First(b / g.d) + g.d)
    else (b, b + 1)
  }

  /** The bands of a chunk are one family. */
  ghost predicate WholeFamily(g: Grid, x: Chunk)
    requires g.d > 0
  {
    && x.end <= g.Bands()
    && forall b | Covers(x, b) :: Family(g, b) == (x.from, x.end)
  }

  ghost predicate WholeFamilies(g: Grid, chunks: seq<Chunk>)
    requires g.d > 0
  {
    forall i | 0 <= i < |chunks| :: WholeFamily(g, chunks[i])
  }

  lemma InFamily(g: Grid, b: nat)
    requires g.d > 0
    ensures Family(g, b).0 <= b < Family(g, b).1
  {
    BelowFirst(g, g.beta1, b);
    if g.First(g.beta1) <= b < g.Plain() {
      TypeCovers(g, b / g.d, 0, b);
    }
  }

  lemma TypeIsFamily(g: Grid, beta: nat, line: nat)
    requires g.d > 0 && g.beta1 <= beta < g.NBeta()
    ensures WholeFamily(g, TypeChunk(g, beta, line))
  {
    hide Mul;
    MulNext(g.d, beta, g.NBeta());
    forall b | Covers(TypeChunk(g, beta, line), b)
      ensures Family(g, b) == (g.First(beta), g.First(beta) + g.d)
    {
      TypeCovers(g, beta, line, b);
      BelowFirst(g, g.beta1, b);
      BelowFirst(g, g.NBeta(), b);
    }
  }

  lemma {:induction false} LevelFamilies(g: Grid, k: nat, line: nat, n: nat)
    requires g.d > 0 && k < g.nly && line <= n
    ensures WholeFamilies(g, LevelChunks(g, g.beta1 + 3 * k, line, n))
    decreases n - line
  {
    hide WholeFamily, TypeChunk;
    if line < n {
      TypeIsFamily(g, g.beta1 + 3 * k, line);
      TypeIsFamily(g, g.beta1 + 3 * k + 1, line);
      TypeIsFamily(g, g.beta1 + 3 * k + 2, line);
      LevelFamilies(g, k, line + 1, n);
    }
  }

  lemma {:induction false} LevelsFamilies(g: Grid, k: nat)
    requires g.d > 0 && k <= g.nly
    ensures WholeFamilies(g, Levels(g, k))
    decreases g.nly - k
  {
    hide WholeFamily, LevelChunks;
    if k < g.nly {
      LevelFamilies(g, k, 0, Pow2(k));
      LevelsFamilies(g, k + 1);
    }
  }

  lemma PlainIsFamily(g: Grid, i: nat, line: nat)
    requires g.d > 0 && i < g.sd
    ensures WholeFamily(g, Chunk(g.Plain() + i, g.Plain() + i + 1, line))
  {
    MulMonotone(g.beta1, g.NBeta(), g.d);
    MulCommute(g.d, g.beta1);
    MulCommute(g.d, g.NBeta());
    hide Mul;
  }

  lemma {:induction false} PlainLineFamilies(g: Grid, i: nat, line: nat)
    requires g.d > 0 && i <= g.sd
    ensures WholeFamilies(g, PlainLine(g, i, line))
    decreases g.sd - i
  {
    hide WholeFamily;
    if i < g.sd {
      PlainIsFamily(g, i, line);
      PlainLineFamilies(g, i + 1, line);
    }
  }

  lemma {:induction false} PlainFamilies(g: Grid, line: nat, n: nat)
    requires g.d > 0 && line <= n
    ensures WholeFamilies(g, PlainLines(g, line, n))
    decreases n - line
  {
    hide WholeFamily, PlainLine;
    if line < n {
      PlainLineFamilies(g, 0, line);
      PlainFamilies(g, line + 1, n);
    }
  }

  lemma ChunkFamilies(g: Grid)
    requires g.d > 0
    ensures WholeFamilies(g, Chunks(g))
  {
    assert WholeFamily(g, Chunk(0, g.First(g.beta1), 0)) by {
      MulMonotone(g.beta1, g.NBeta(), g.d);
      MulCommute(g.d, g.beta1);
      MulCommute(g.d, g.NBeta());
    }
    hide WholeFamily, Levels, PlainLines;
    LevelsFamilies(g, 0);
    PlainFamilies(g, 0, Pow2(g.nly));
  }

  /** Two bands are covered by the same chunks or never meet. */
  lemma SameChunks(g: Grid, x: Chunk, y: Chunk, b: nat, c: nat)
    requires g.d > 0 && WholeFamily(g, x) && WholeFamily(g, y) && Covers(x, b) && Covers(x, c)
    ensures Covers(y, b) <==> Covers(y, c)
  {
    InFamily(g, b);
    InFamily(g, c);
  }

  // ---- packets -------------------------------------------------------------------------------------

  function GridOf(h: Headers): Grid
    requires Supported(h)
  {
    HeaderFacts(h);
    Grid(Decomposed(h), Beta1(h.pih.nlx, h.pih.nly), h.pih.nly, h.sd)
  }

  /** The chunk's line of all its bands that have it, in band order. */
  function EntriesOf(h: Headers, p: nat, from: nat, end: nat, line: nat): seq<Entry>
    requires Supported(h) && p < NumPrecincts(h) && end <= NumBands(h)
    decreases end - from
  {
    if from >= end then []
    else (if line < LineCount(h, p, from) then [Entry(from, LineStart(h, from) + line)] else [])
         + EntriesOf(h, p, from + 1, end, line)
  }

  /** A packet without entries is left out. */
  function Push(packets: seq<Packet>, packet: Packet): seq<Packet> {
    if packet == [] then packets else packets + [packet]
  }

  predicate Within(chunks: seq<Chunk>, n: nat) {
    forall i | 0 <= i < |chunks| :: chunks[i].end <= n
  }

  function PacketsOf(h: Headers, p: nat, chunks: seq<Chunk>): seq<Packet>
    requires Supported(h) && p < NumPrecincts(h) && Within(chunks, NumBands(h))
  {
    if chunks == [] then []
    else Push([], EntriesOf(h, p, chunks[0].from, chunks[0].end, chunks[0].line)) + PacketsOf(h, p, chunks[1..])
  }

  lemma AllWithin(h: Headers)
    requires Supported(h)
    ensures Within(Chunks(GridOf(h)), NumBands(h))
  {
    hide Supported, Chunks, NumBands, Mul, NBeta, Family, Covers;
    HeaderFacts(h);
    CountBands(h);
    ChunkFamilies(GridOf(h));
  }

  function Packets(h: Headers, p: nat): seq<Packet>
    requires Supported(h) && p < NumPrecincts(h)
  {
    AllWithin(h);
    PacketsOf(h, p, Chunks(GridOf(h)))
  }

  lemma {:induction false} EntriesLines(h: Headers, p: nat, from: nat, end: nat, line: nat, b: nat)
    requires Supported(h) && p < NumPrecincts(h) && end <= NumBands(h) && b < NumBands(h)
    ensures LinesOf(EntriesOf(h, p, from, end, line), b) ==
            if from <= b < end && line < LineCount(h, p, b) then [LineStart(h, b) + line] else []
    decreases end - from
  {
    hide Supported, NumPrecincts, NumBands, LineCount, LineStart, LinesOf;
    if from < end {
      EntriesLines(h, p, from + 1, end, line, b);
      var here: seq<Entry> := if line < LineCount(h, p, from) then [Entry(from, LineStart(h, from) + line)] else [];
      LinesConcat(here, EntriesOf(h, p, from + 1, end, line), b);
      SingleLine(here, b);
    } else {
      SingleLine([], b);
    }
  }

  lemma SingleLine(es: seq<Entry>, b: nat)
    requires |es| <= 1
    ensures LinesOf(es, b) == if es != [] && es[0].band == b then [es[0].line] else []
  {
    assert es != [] ==> es[1..] == [];
  }

  lemma {:induction false} LinesConcat(x: seq<Entry>, y: seq<Entry>, b: nat)
    ensures LinesOf(x + y, b) == LinesOf(x, b) + LinesOf(y, b)
  {
    if x == [] {
      assert x + y == y;
    } else {
      assert (x + y)[0] == x[0] && (x + y)[1..] == x[1..] + y;
      LinesConcat(x[1..], y, b);
      assert LinesOf(x + y, b) == (if x[0].band == b then [x[0].line] else []) + LinesOf(x[1..] + y, b);
    }
  }

  lemma {:induction false} FlattenConcat(x: seq<Packet>, y: seq<Packet>)
    ensures Flatten(x + y) == Flatten(x) + Flatten(y)
  {
    if x == [] {
      assert x + y == y;
    } else {
      assert (x + y)[1..] == x[1..] + y;
      FlattenConcat(x[1..], y);
    }
  }

  lemma FlattenPush(packet: Packet)
    ensures Flatten(Push([], packet)) == packet
  {
    if packet != [] {
      assert [packet][1..] == [];
    }
  }

  /** The first n line numbers that are below count, shifted to start. */
  function Shifted(lines: seq<nat>, start: nat, count: nat): seq<nat> {
    if lines == [] then []
    else (if lines[0] < count then [start + lines[0]] else []) + Shifted(lines[1..], start, count)
  }

  lemma {:induction false} ShiftedRange(from: nat, n: nat, start: nat, count: nat)
    requires from <= count <= from + n
    ensures Shifted(Range(from, n), start, count) == Range(start + from, count - from)
    decreases n
  {
    if n > 0 {
      assert Range(from, n)[1..] == Range(from + 1, n - 1);
      if from < count {
        ShiftedRange(from + 1, n - 1, start, count);
        assert Range(start + from, count - from) == [start + from] + Range(start + from + 1, count - from - 1);
      } else {
        AllAbove(from + 1, n - 1, start, count);
      }
    }
  }

  lemma {:induction false} AllAbove(from: nat, n: nat, start: nat, count: nat)
    requires count <= from
    ensures Shifted(Range(from, n), start, count) == []
    decreases n
  {
    if n > 0 {
      assert Range(from, n)[1..] == Range(from + 1, n - 1);
      AllAbove(from + 1, n - 1, start, count);
    }
  }

  lemma {:induction false} PacketLines(h: Headers, p: nat, chunks: seq<Chunk>, b: nat)
    requires Supported(h) && p < NumPrecincts(h) && Within(chunks, NumBands(h)) && b < NumBands(h)
    ensures LinesOf(Flatten(PacketsOf(h, p, chunks)), b) ==
            Shifted(LinesIn(chunks, b), LineStart(h, b), LineCount(h, p, b))
  {
    hide Supported, NumPrecincts, NumBands, LineCount, LineStart, EntriesOf, LinesOf, Flatten, Push;
    if chunks == [] {
      NothingPacked(b);
    } else {
      var x := chunks[0];
      var es := EntriesOf(h, p, x.from, x.end, x.line);
      FlattenConcat(Push([], es), PacketsOf(h, p, chunks[1..]));
      FlattenPush(es);
      LinesConcat(es, Flatten(PacketsOf(h, p, chunks[1..])), b);
      EntriesLines(h, p, x.from, x.end, x.line, b);
      PacketLines(h, p, chunks[1..], b);
      ShiftedConcat(if Covers(x, b) then [x.line] else [], LinesIn(chunks[1..], b), LineStart(h, b), LineCount(h, p, b));
    }
  }

  lemma ShiftedConcat(x: seq<nat>, y: seq<nat>, start: nat, count: nat)
    requires |x| <= 1
    ensures Shifted(x + y, start, count) == (if x != [] && x[0] < count then [start + x[0]] else []) + Shifted(y, start, count)
  {
    if x == [] {
      assert x + y == y;
    } else {
      assert (x + y)[1..] == y;
    }
  }

  lemma NothingPacked(b: nat)
    ensures LinesOf(Flatten([]), b) == []
  {
  }

  /** Lines per precinct of a band, as the packets count them, is its span. */
  lemma HeightIsSpan(h: Headers, b: nat)
    requires Supported(h) && b < NumBands(h)
    ensures GridOf(h).d > 0 && b < GridOf(h).Bands() && Height(GridOf(h), b) == Span(h, b)
  {
    hide Valid, Mul, Pow2, LowPassSize, HighPassSize, HorizontalType, CeilDiv;
    HeaderFacts(h);
    var g := GridOf(h);
    BelowFirst(g, g.beta1, b);
    BelowFirst(g, g.NBeta(), b);
    DivMod(b, g.d);
    assert Pow2(0) == 1 by { PowZero(); }
  }

  lemma PowZero()
    ensures Pow2(0) == 1
  {
  }

  // ---- the shape of a precinct ---------------------------------------------------------------------

  /** What the entropy layer needs to know about precinct p. */
  function ShapeOf(h: Headers, p: nat): Shape
    requires Supported(h) && p < NumPrecincts(h)
  {
    Shape(seq(NumBands(h), b requires 0 <= b < NumBands(h) => LineStart(h, b)),
          seq(NumBands(h), b requires 0 <= b < NumBands(h) => LineCount(h, p, b)),
          seq(NumBands(h), b requires 0 <= b < NumBands(h) => BandPrecinctWidth(h, p, b)),
          Packets(h, p))
  }

  predicate EntryIn(h: Headers, p: nat, e: Entry)
    requires Supported(h) && p < NumPrecincts(h)
  {
    e.band < NumBands(h) && LineStart(h, e.band) <= e.line < LineEnd(h, p, e.band)
  }

  lemma {:induction false} EntriesIn(h: Headers, p: nat, from: nat, end: nat, line: nat)
    requires Supported(h) && p < NumPrecincts(h) && end <= NumBands(h)
    ensures forall j | 0 <= j < |EntriesOf(h, p, from, end, line)| :: EntryIn(h, p, EntriesOf(h, p, from, end, line)[j])
    ensures forall b: nat | b < NumBands(h) ::
              HasBand(EntriesOf(h, p, from, end, line), b) <==> from <= b < end && line < LineCount(h, p, b)
    decreases end - from
  {
    hide Supported, NumPrecincts, NumBands, LineCount, LineStart;
    if from < end {
      EntriesIn(h, p, from + 1, end, line);
      var later := EntriesOf(h, p, from + 1, end, line);
      var here: seq<Entry> := if line < LineCount(h, p, from) then [Entry(from, LineStart(h, from) + line)] else [];
      assert EntriesOf(h, p, from, end, line) == here + later;
      forall b: nat | b < NumBands(h)
        ensures HasBand(here + later, b) <==> HasBand(here, b) || HasBand(later, b)
      {
        HasBandConcat(here, later, b);
      }
      assert HasBand(here, from) ==> line < LineCount(h, p, from);
      assert line < LineCount(h, p, from) ==> here[0].band == from && HasBand(here, from);
    }
  }

  lemma HasBandConcat(x: seq<Entry>, y: seq<Entry>, b: nat)
    ensures HasBand(x + y, b) <==> HasBand(x, b) || HasBand(y, b)
  {
    if j :| 0 <= j < |x| && x[j].band == b {
      assert (x + y)[j].band == b;
    }
    if j :| 0 <= j < |y| && y[j].band == b {
      assert (x + y)[|x| + j].band == b;
    }
  }

  /** Every packet holds one chunk. */
  lemma {:induction false} PacketFromChunk(h: Headers, p: nat, chunks: seq<Chunk>, i: nat) returns (k: nat)
    requires Supported(h) && p < NumPrecincts(h) && Within(chunks, NumBands(h)) && i < |PacketsOf(h, p, chunks)|
    ensures k < |chunks| && chunks[k].end <= NumBands(h)
    ensures PacketsOf(h, p, chunks)[i] == EntriesOf(h, p, chunks[k].from, chunks[k].end, chunks[k].line) != []
  {
    hide Supported, NumPrecincts, NumBands, EntriesOf;
    var first := Push([], EntriesOf(h, p, chunks[0].from, chunks[0].end, chunks[0].line));
    assert chunks[0].end <= NumBands(h);
    if i < |first| {
      k := 0;
    } else {
      var j := PacketFromChunk(h, p, chunks[1..], i - |first|);
      k := j + 1;
    }
  }

  /** Vertical depth and filter of band b, by the family it is in. */
  lemma VerticalOf(h: Headers, b: nat)
    requires Supported(h) && b < NumBands(h) && GridOf(h).d > 0
    ensures var g, band := GridOf(h), BandOf(h, b);
            && g.beta1 >= 0 && b / g.d >= 0
            && (b < g.First(g.beta1) ==> band.dy == h.pih.nly && !band.highY)
            && (g.First(g.beta1) <= b < g.Plain() ==> (band.dy, band.highY) == VerticalType(h.pih.nlx, h.pih.nly, b / g.d))
  {
    hide Valid, Mul, Pow2, LowPassSize, HighPassSize, HorizontalType, CeilDiv, ComponentWidth, ComponentHeight;
    HeaderFacts(h);
    var g := GridOf(h);
    BelowFirst(g, g.beta1, b);
    BelowFirst(g, g.NBeta(), b);
    DivMod(b, g.d);
  }

  lemma SameVertical(h: Headers, b: nat, c: nat)
    requires Supported(h) && b < NumBands(h) && c < NumBands(h) && GridOf(h).d > 0
    requires Family(GridOf(h), b) == Family(GridOf(h), c)
    ensures BandOf(h, b).dy == BandOf(h, c).dy && BandOf(h, b).highY == BandOf(h, c).highY
    ensures BandOf(h, b).height == BandOf(h, c).height
  {
    hide Supported, Mul, LowPassSize, HighPassSize, CeilDiv, BandOf, NumBands, Sx, VerticalType;
    BandSize(h, b);
    BandSize(h, c);
    VerticalOf(h, b);
    VerticalOf(h, c);
    var g := GridOf(h);
    InFamily(g, b);
    InFamily(g, c);
    if g.First(g.beta1) <= b < g.Plain() {
      TypeCovers(g, b / g.d, 0, c);
    }
  }

  lemma SameCount(h: Headers, p: nat, b: nat, c: nat)
    requires Supported(h) && p < NumPrecincts(h) && b < NumBands(h) && c < NumBands(h) && GridOf(h).d > 0
    requires Family(GridOf(h), b) == Family(GridOf(h), c)
    ensures LineCount(h, p, b) == LineCount(h, p, c)
  {
    hide Supported, BandOf, NumBands, NumPrecincts, Family, Row;
    SameVertical(h, b, c);
  }

  lemma {:induction false} SamePackets(packets: seq<Packet>, b: nat, c: nat, i: nat)
    requires i <= |packets| && forall j | 0 <= j < |packets| :: HasBand(packets[j], b) <==> HasBand(packets[j], c)
    ensures PacketsWith(packets, b, i) == PacketsWith(packets, c, i)
    decreases |packets| - i
  {
    hide HasBand;
    if i < |packets| {
      SamePackets(packets, b, c, i + 1);
    }
  }

  lemma MeetTogether(h: Headers, p: nat, i: nat, j: nat, b: nat, c: nat)
    requires Supported(h) && p < NumPrecincts(h) && i < |Packets(h, p)| && j < |Packets(h, p)|
    requires HasBand(Packets(h, p)[i], b) && HasBand(Packets(h, p)[i], c)
    ensures HasBand(Packets(h, p)[j], b) <==> HasBand(Packets(h, p)[j], c)
  {
    AllWithin(h);
    HeaderFacts(h);
    hide Supported, NumPrecincts, NumBands, EntriesOf, Chunks, LineCount, LineStart, PacketsOf, HasBand, Family, Covers;
    var chunks := Chunks(GridOf(h));
    ChunkFamilies(GridOf(h));
    var x := PacketFromChunk(h, p, chunks, i);
    var y := PacketFromChunk(h, p, chunks, j);
    PacketBands(h, p, chunks[x], Packets(h, p)[i], b);
    PacketBands(h, p, chunks[x], Packets(h, p)[i], c);
    PacketBands(h, p, chunks[y], Packets(h, p)[j], b);
    PacketBands(h, p, chunks[y], Packets(h, p)[j], c);
    SameChunks(GridOf(h), chunks[x], chunks[y], b, c);
    assert Family(GridOf(h), b) == Family(GridOf(h), c);
    SameCount(h, p, b, c);
  }

  lemma PacketBands(h: Headers, p: nat, x: Chunk, packet: Packet, b: nat)
    requires Supported(h) && p < NumPrecincts(h) && x.end <= NumBands(h)
    requires packet == EntriesOf(h, p, x.from, x.end, x.line)
    ensures HasBand(packet, b) <==> Covers(x, b) && x.line < LineCount(h, p, b)
  {
    hide Supported, NumPrecincts, EntriesOf, LineCount, LineStart;
    EntriesIn(h, p, x.from, x.end, x.line);
  }

  lemma ShapeIsOk(h: Headers, p: nat)
    requires Supported(h) && p < NumPrecincts(h)
    ensures ShapeOf(h, p).Ok()
    ensures forall i | 0 <= i < |ShapeOf(h, p).packets| :: ShapeOf(h, p).packets[i] != []
  {
    hide Supported, NumPrecincts, NumBands, EntriesOf, Chunks, LineCount, LineStart, PacketsOf, BandPrecinctWidth, Npx;
    AllWithin(h);
    var sh := ShapeOf(h, p);
    forall i | 0 <= i < |sh.packets|
      ensures sh.EntriesOk(sh.packets[i]) && sh.packets[i] != []
    {
      PacketIsOk(h, p, i);
    }
  }

  lemma PacketIsOk(h: Headers, p: nat, i: nat)
    requires Supported(h) && p < NumPrecincts(h) && i < |Packets(h, p)|
    ensures Packets(h, p)[i] != []
    ensures forall j | 0 <= j < |Packets(h, p)[i]| :: EntryIn(h, p, Packets(h, p)[i][j])
  {
    hide Supported, NumPrecincts, NumBands, EntriesOf, Chunks, LineCount, LineStart, PacketsOf, EntryIn;
    AllWithin(h);
    var chunks := Chunks(GridOf(h));
    var k := PacketFromChunk(h, p, chunks, i);
    EntriesIn(h, p, chunks[k].from, chunks[k].end, chunks[k].line);
  }

  /** Every line of every band is in exactly one packet, each band's lines in increasing order. */
  lemma ShapeIsComplete(h: Headers, p: nat)
    requires Supported(h) && p < NumPrecincts(h)
    ensures ShapeOf(h, p).Ok() && Complete(ShapeOf(h, p))
  {
    hide Supported, NumPrecincts, NumBands, Chunks, LineStart, PacketsOf, BandPrecinctWidth, LinesOf, Flatten, BandOf, Span,
         LinesIn, Height, Row, Shifted, Npx, Within;
    AllWithin(h);
    ShapeIsOk(h, p);
    var sh := ShapeOf(h, p);
    forall b: nat | b < sh.Bands()
      ensures LinesOf(Flatten(sh.packets), b) == Range(sh.starts[b], sh.lines[b])
    {
      PacketLines(h, p, Chunks(GridOf(h)), b);
      HeightIsSpan(h, b);
      ChunkLines(GridOf(h), b);
      assert LineCount(h, p, b) <= Span(h, b);
      ShiftedRange(0, Span(h, b), LineStart(h, b), LineCount(h, p, b));
    }
  }

  /** Bands that meet in one packet share all their packets. */
  lemma BandsShare(h: Headers, p: nat)
    requires Supported(h) && p < NumPrecincts(h)
    ensures RawFallback.SharedPackets(ShapeOf(h, p))
  {
    hide Supported, NumPrecincts, NumBands, LineStart, LineCount, Packets, BandPrecinctWidth, HasBand;
    var packets := ShapeOf(h, p).packets;
    forall i, b, c: nat | 0 <= i < |packets| && HasBand(packets[i], b) && HasBand(packets[i], c)
      ensures PacketsWith(packets, b, 0) == PacketsWith(packets, c, 0)
    {
      forall j | 0 <= j < |packets|
        ensures HasBand(packets[j], b) <==> HasBand(packets[j], c)
      {
        MeetTogether(h, p, i, j, b, c);
      }
      SamePackets(packets, b, c, 0);
    }
  }

  /**
   * In every precinct of a picture with Rl = 0 the raw flags of the stream agree over all packets of a band,
   * and no band pays more for its counts than raw mode would.
   */
  lemma PictureRawFlags(h: Headers, p: nat, cx: Context, raw: seq<bool>, m: Counts)
    requires Supported(h) && p < NumPrecincts(h) && cx.Ok() && cx.sh == ShapeOf(h, p) && !cx.md.rawPerPacket
    requires |raw| == |cx.sh.packets| && SameRawPerBand(cx.sh, raw)
    ensures SameRawPerBand(cx.sh, FinalRaw(cx, raw, m))
    ensures forall b: nat | b < cx.sh.Bands() ::
              var ps := PacketsWith(cx.sh.packets, b, 0); SumCoded(cx, ps, FinalRaw(cx, raw, m), m) <= SumRaw(cx, ps)
  {
    hide Supported, NumPrecincts, ShapeOf, SameRawPerBand, SumCoded, SumRaw, PacketsWith, Fallback;
    BandsShare(h, p);
    RawFallback.FallbackKeepsAgreement(cx, raw, m);
    RawFallback.PerBandConstraint(cx, raw, m);
  }

  // ---- the loops that list the packets -------------------------------------------------------------

  lemma EntriesSplit(h: Headers, p: nat, from: nat, end: nat, line: nat)
    requires Supported(h) && p < NumPrecincts(h) && from < end <= NumBands(h)
    ensures EntriesOf(h, p, from, end, line) ==
            (if line < LineCount(h, p, from) then [Entry(from, LineStart(h, from) + line)] else [])
            + EntriesOf(h, p, from + 1, end, line)
  {
  }

  lemma {:induction false} PacketsConcat(h: Headers, p: nat, x: seq<Chunk>, y: seq<Chunk>)
    requires Supported(h) && p < NumPrecincts(h) && Within(x, NumBands(h)) && Within(y, NumBands(h))
    ensures Within(x + y, NumBands(h)) && PacketsOf(h, p, x + y) == PacketsOf(h, p, x) + PacketsOf(h, p, y)
  {
    hide Supported, NumPrecincts, NumBands, EntriesOf, Push;
    if x == [] {
      assert x + y == y;
    } else {
      assert (x + y)[0] == x[0] && (x + y)[1..] == x[1..] + y;
      PacketsConcat(h, p, x[1..], y);
    }
  }

  lemma PacketsOfOne(h: Headers, p: nat, x: Chunk, out: seq<Packet>)
    requires Supported(h) && p < NumPrecincts(h) && x.end <= NumBands(h)
    ensures out + PacketsOf(h, p, [x]) == Push(out, EntriesOf(h, p, x.from, x.end, x.line))
  {
    hide Supported, NumPrecincts, NumBands, EntriesOf;
    assert PacketsOf(h, p, []) == [];
  }

  /** One line of one filter type, all decomposed components. */
  method TypePacket(h: Headers, p: nat, beta: nat, line: nat) returns (packet: Packet)
    requires Supported(h) && p < NumPrecincts(h) && beta < NBeta(h)
    ensures var x := TypeChunk(GridOf(h), beta, line);
            x.end <= NumBands(h) && packet == EntriesOf(h, p, x.from, x.end, x.line)
  {
    hide Supported, NumPrecincts, NumBands, EntriesOf, Mul, LineStart, LineCount, NBeta;
    HeaderFacts(h);
    CountBands(h);
    MulNext(Decomposed(h), beta, NBeta(h));
    var d: nat := h.pih.nc - h.sd;
    var from, end := Mul(d, beta), Mul(d, beta) + d;
    ghost var goal := EntriesOf(h, p, from, end, line);
    packet := [];
    for i := 0 to d
      invariant goal == packet + EntriesOf(h, p, from + i, end, line)
    {
      var b := from + i;
      EntriesSplit(h, p, b, end, line);
      if LineStart(h, b) + line < LineEnd(h, p, b) {
        packet := packet + [Entry(b, LineStart(h, b) + line)];
      }
    }
    assert EntriesOf(h, p, end, end, line) == [] by { NoEntries(h, p, end, line); }
  }

  lemma NoEntries(h: Headers, p: nat, end: nat, line: nat)
    requires Supported(h) && p < NumPrecincts(h) && end <= NumBands(h)
    ensures EntriesOf(h, p, end, end, line) == []
  {
  }

  /** Packet 0: line 0 of LL and of the horizontal-only filter types. */
  method FirstPacket(h: Headers, p: nat) returns (packet: Packet)
    requires Supported(h) && p < NumPrecincts(h)
    ensures GridOf(h).First(GridOf(h).beta1) <= NumBands(h)
    ensures packet == EntriesOf(h, p, 0, GridOf(h).First(GridOf(h).beta1), 0)
  {
    hide Supported, NumPrecincts, NumBands, EntriesOf, Mul, LineStart, LineCount, NBeta;
    HeaderFacts(h);
    CountBands(h);
    var d: nat, beta1: nat := h.pih.nc - h.sd, Beta1(h.pih.nlx, h.pih.nly);
    var end := Mul(d, beta1);
    MulMore(d, beta1, NBeta(h));
    ghost var goal := EntriesOf(h, p, 0, end, 0);
    packet := [];
    MulNone(d);
    for beta := 0 to beta1
      invariant Mul(d, beta) <= end && goal == packet + EntriesOf(h, p, Mul(d, beta), end, 0)
    {
      MulNext(d, beta, beta1);
      for i := 0 to d
        invariant goal == packet + EntriesOf(h, p, Mul(d, beta) + i, end, 0)
      {
        var b := Mul(d, beta) + i;
        EntriesSplit(h, p, b, end, 0);
        if LineEnd(h, p, b) > LineStart(h, b) {
          packet := packet + [Entry(b, LineStart(h, b))];
        }
      }
    }
    NoEntries(h, p, end, 0);
  }

  lemma MulMore(d: nat, a: nat, b: nat)
    requires a <= b
    ensures Mul(d, a) <= Mul(d, b)
  {
    MulMonotone(a, b, d);
    MulCommute(d, a);
    MulCommute(d, b);
  }

  /** The three packets of one line of a level. */
  method LinePackets(h: Headers, p: nat, beta0: nat, line: nat, out0: seq<Packet>) returns (out: seq<Packet>)
    requires Supported(h) && p < NumPrecincts(h) && beta0 + 3 <= NBeta(h)
    ensures Within(LineChunks(GridOf(h), beta0, line), NumBands(h))
    ensures out == out0 + PacketsOf(h, p, LineChunks(GridOf(h), beta0, line))
  {
    hide Supported, NumPrecincts, NumBands, EntriesOf, PacketsOf, Push, NBeta, TypeChunk, GridOf;
    out := out0;
    ghost var done: seq<Chunk> := [];
    assert PacketsOf(h, p, []) == [] by { NothingListed(h, p); }
    for beta := beta0 to beta0 + 3
      invariant |done| == beta - beta0 && Within(done, NumBands(h)) && out == out0 + PacketsOf(h, p, done)
      invariant forall j | 0 <= j < |done| :: done[j] == TypeChunk(GridOf(h), beta0 + j, line)
    {
      var packet := TypePacket(h, p, beta, line);
      ghost var x := TypeChunk(GridOf(h), beta, line);
      PacketsConcat(h, p, done, [x]);
      PacketsOfOne(h, p, x, out);
      done := done + [x];
      out := AddPacket(out, packet);
    }
    assert done == LineChunks(GridOf(h), beta0, line);
  }

  lemma NothingListed(h: Headers, p: nat)
    requires Supported(h) && p < NumPrecincts(h)
    ensures PacketsOf(h, p, []) == []
  {
  }

  method AddPacket(out0: seq<Packet>, packet: Packet) returns (out: seq<Packet>)
    ensures out == Push(out0, packet)
  {
    out := out0;
    if packet != [] {
      out := out + [packet];
    }
  }

  lemma LevelDepth(h: Headers, k: nat)
    requires Supported(h) && k < h.pih.nly
    ensures var beta0 := Beta1(h.pih.nlx, h.pih.nly) + 3 * k;
            && 0 <= beta0 && beta0 + 3 <= NBeta(h) && Mul(Decomposed(h), beta0) < NumBands(h)
            && BandOf(h, Mul(Decomposed(h), beta0)).dy == h.pih.nly - k
  {
    hide Supported, Mul, BandOf, NumBands, NBeta, DecomposedBand, Pow2, MaxSx;
    HeaderFacts(h);
    var beta0 := Beta1(h.pih.nlx, h.pih.nly) + 3 * k;
    BandIndex(h, beta0, 0);
    TypeDepth(h, beta0, k);
  }

  lemma TypeDepth(h: Headers, beta: nat, k: nat)
    requires Supported(h) && Decomposed(h) > 0 && beta == Beta1(h.pih.nlx, h.pih.nly) + 3 * k && beta < NBeta(h)
    ensures DecomposedBand(h, beta, 0).dy == h.pih.nly - k
  {
    hide Supported, Mul, NBeta, LowPassSize, HighPassSize;
  }

  /** One two-dimensional level: its lines in order. */
  method LevelPackets(h: Headers, p: nat, k: nat, out0: seq<Packet>) returns (out: seq<Packet>)
    requires Supported(h) && p < NumPrecincts(h) && k < h.pih.nly
    ensures GridOf(h).beta1 + 3 * k >= 0
    ensures var chunks := LevelChunks(GridOf(h), GridOf(h).beta1 + 3 * k, 0, Pow2(k));
            Within(chunks, NumBands(h)) && out == out0 + PacketsOf(h, p, chunks)
  {
    hide Supported, NumPrecincts, NumBands, EntriesOf, PacketsOf, NBeta, LineChunks, Pow2, Mul, BandOf;
    HeaderFacts(h);
    LevelDepth(h, k);
    var beta0: nat := Beta1(h.pih.nlx, h.pih.nly) + 3 * k;
    var dy0 := BandOf(h, Mul(Decomposed(h), beta0)).dy;
    var lines := Pow2(h.pih.nly - dy0);
    ghost var g := GridOf(h);
    LevelWithin(h, beta0, 0, lines);
    ghost var goal := out0 + PacketsOf(h, p, LevelChunks(g, beta0, 0, lines));
    out := out0;
    for line := 0 to lines
      invariant Within(LevelChunks(g, beta0, line, lines), NumBands(h))
      invariant goal == out + PacketsOf(h, p, LevelChunks(g, beta0, line, lines))
    {
      LevelWithin(h, beta0, line + 1, lines);
      LineWithin(h, beta0, line);
      PacketsConcat(h, p, LineChunks(g, beta0, line), LevelChunks(g, beta0, line + 1, lines));
      out := LinePackets(h, p, beta0, line, out);
    }
    NothingListed(h, p);
  }

  lemma LineWithin(h: Headers, beta: nat, line: nat)
    requires Supported(h) && beta + 3 <= NBeta(h)
    ensures Within(LineChunks(GridOf(h), beta, line), NumBands(h))
  {
    hide Supported, NumBands, NBeta, Mul;
    HeaderFacts(h);
    CountBands(h);
    MulNext(Decomposed(h), beta, NBeta(h));
    MulNext(Decomposed(h), beta + 1, NBeta(h));
    MulNext(Decomposed(h), beta + 2, NBeta(h));
  }

  lemma {:induction false} LevelWithin(h: Headers, beta: nat, line: nat, n: nat)
    requires Supported(h) && beta + 3 <= NBeta(h) && line <= n
    ensures Within(LevelChunks(GridOf(h), beta, line, n), NumBands(h))
    decreases n - line
  {
    hide Supported, NumBands, NBeta, LineChunks, GridOf;
    if line < n {
      LineWithin(h, beta, line);
      LevelWithin(h, beta, line + 1, n);
    }
  }

  lemma {:induction false} LevelsWithin(h: Headers, k: nat)
    requires Supported(h) && k <= h.pih.nly
    ensures Within(Levels(GridOf(h), k), NumBands(h))
    decreases h.pih.nly - k
  {
    hide Supported, NumBands, NBeta, LevelChunks, Pow2, Within;
    HeaderFacts(h);
    if k == h.pih.nly {
      assert Within([], NumBands(h)) by { NothingWithin(NumBands(h)); }
    }
    if k < h.pih.nly {
      LevelWithin(h, GridOf(h).beta1 + 3 * k, 0, Pow2(k));
      LevelsWithin(h, k + 1);
      WithinConcat(LevelChunks(GridOf(h), GridOf(h).beta1 + 3 * k, 0, Pow2(k)), Levels(GridOf(h), k + 1), NumBands(h));
    }
  }

  lemma WithinConcat(x: seq<Chunk>, y: seq<Chunk>, n: nat)
    requires Within(x, n) && Within(y, n)
    ensures Within(x + y, n)
  {
  }

  lemma NothingWithin(n: nat)
    ensures Within([], n)
  {
  }

  /** One line of every component without decomposition. */
  method PlainPackets(h: Headers, p: nat, line: nat, out0: seq<Packet>) returns (out: seq<Packet>)
    requires Supported(h) && p < NumPrecincts(h)
    ensures var chunks := PlainLine(GridOf(h), 0, line); Within(chunks, NumBands(h)) && out == out0 + PacketsOf(h, p, chunks)
  {
    hide Supported, NumPrecincts, NumBands, EntriesOf, PacketsOf, Push, NBeta, Mul, LineCount, LineStart;
    HeaderFacts(h);
    CountBands(h);
    ghost var g := GridOf(h);
    PlainWithin(h, 0, line);
    ghost var goal := out0 + PacketsOf(h, p, PlainLine(g, 0, line));
    var base := Mul(Decomposed(h), NBeta(h));
    out := out0;
    for i := 0 to h.sd
      invariant Within(PlainLine(g, i, line), NumBands(h))
      invariant goal == out + PacketsOf(h, p, PlainLine(g, i, line))
    {
      var b := base + i;
      PlainWithin(h, i + 1, line);
      PacketsConcat(h, p, [Chunk(b, b + 1, line)], PlainLine(g, i + 1, line));
      PacketsOfOne(h, p, Chunk(b, b + 1, line), out);
      EntriesSplit(h, p, b, b + 1, line);
      NoEntries(h, p, b + 1, line);
      var packet: Packet := [];
      PlainStart(h, i);
      if line < LineEnd(h, p, b) {
        packet := [Entry(b, line)];
      }
      assert packet == EntriesOf(h, p, b, b + 1, line);
      assert PlainLine(g, i, line) == [Chunk(b, b + 1, line)] + PlainLine(g, i + 1, line);
      out := AddPacket(out, packet);
    }
    NothingListed(h, p);
  }

  lemma PlainStart(h: Headers, i: nat)
    requires Supported(h) && i < h.sd
    ensures Mul(Decomposed(h), NBeta(h)) + i < NumBands(h) && LineStart(h, Mul(Decomposed(h), NBeta(h)) + i) == 0
  {
    hide Supported, NumBands, BandOf, Mul, NBeta;
    HeaderFacts(h);
    PlainIndex(h, Decomposed(h) + i);
  }

  lemma {:induction false} PlainWithin(h: Headers, i: nat, line: nat)
    requires Supported(h) && i <= h.sd
    ensures Within(PlainLine(GridOf(h), i, line), NumBands(h))
    decreases h.sd - i
  {
    hide Supported, NumBands, Mul, NBeta;
    HeaderFacts(h);
    CountBands(h);
    if i < h.sd {
      PlainWithin(h, i + 1, line);
    }
  }

  lemma {:induction false} PlainLinesWithin(h: Headers, line: nat, n: nat)
    requires Supported(h) && line <= n
    ensures Within(PlainLines(GridOf(h), line, n), NumBands(h))
    decreases n - line
  {
    hide Supported, NumBands, PlainLine, GridOf;
    if line < n {
      PlainWithin(h, 0, line);
      PlainLinesWithin(h, line + 1, n);
    }
  }

  /** The packets of precinct p, level by level, then the components without decomposition. */
  method ListPackets(h: Headers, p: nat) returns (out: seq<Packet>)
    requires Supported(h) && p < NumPrecincts(h)
    ensures out == Packets(h, p)
  {
    hide Supported, NumPrecincts, NumBands, EntriesOf, PacketsOf, Push, NBeta, LevelChunks, PlainLine, Pow2, Mul, Decomposed;
    HeaderFacts(h);
    AllWithin(h);
    ghost var g := GridOf(h);
    ghost var head, plain := Chunk(0, g.First(g.beta1), 0), PlainLines(g, 0, Pow2(g.nly));
    LevelsWithin(h, 0);
    PlainLinesWithin(h, 0, Pow2(g.nly));
    var packet := FirstPacket(h, p);
    out := AddPacket([], packet);
    PacketsOfOne(h, p, head, []);
    PacketsConcat(h, p, [head], Levels(g, 0) + plain);
    PacketsConcat(h, p, Levels(g, 0), plain);
    ghost var goal := Packets(h, p);
    assert goal == out + PacketsOf(h, p, Levels(g, 0)) + PacketsOf(h, p, plain);
    for k := 0 to h.pih.nly
      invariant Within(Levels(g, k), NumBands(h))
      invariant goal == out + PacketsOf(h, p, Levels(g, k)) + PacketsOf(h, p, plain)
    {
      LevelsWithin(h, k + 1);
      LevelWithin(h, g.beta1 + 3 * k, 0, Pow2(k));
      PacketsConcat(h, p, LevelChunks(g, g.beta1 + 3 * k, 0, Pow2(k)), Levels(g, k + 1));
      out := LevelPackets(h, p, k, out);
    }
    NothingListed(h, p);
    var lines := Pow2(h.pih.nly);
    for line := 0 to lines
      invariant Within(PlainLines(g, line, lines), NumBands(h))
      invariant goal == out + PacketsOf(h, p, PlainLines(g, line, lines))
    {
      PlainLinesWithin(h, line + 1, lines);
      PlainWithin(h, 0, line);
      PacketsConcat(h, p, PlainLine(g, 0, line), PlainLines(g, line + 1, lines));
      out := PlainPackets(h, p, line, out);
    }
  }

  // ---- slices (B.11) -------------------------------------------------------------------------------

  function NumSlices(h: Headers): nat
    requires Supported(h)
  {
    HeaderFacts(h);
    CeilDiv(Npy(h), h.pih.hsl)
  }

  function SliceRows(h: Headers, t: nat): int
    requires Supported(h)
  {
    Min(h.pih.hsl, Npy(h) - Mul(t, h.pih.hsl))
  }

  function SliceFirst(h: Headers, t: nat): nat
    requires Supported(h)
  {
    Mul(Mul(t, h.pih.hsl), Npx(h))
  }

  /** Slices cut the precincts into consecutive runs of Hsl rows that end where the next begins; the last may be smaller. */
  lemma SlicesTile(h: Headers, t: nat)
    requires Supported(h) && t < NumSlices(h)
    ensures 1 <= SliceRows(h, t) <= h.pih.hsl && (t + 1 < NumSlices(h) ==> SliceRows(h, t) == h.pih.hsl)
    ensures SliceFirst(h, 0) == 0
    ensures SliceFirst(h, t) + Mul(SliceRows(h, t), Npx(h)) ==
            if t + 1 < NumSlices(h) then SliceFirst(h, t + 1) else NumPrecincts(h)
  {
    hide Supported, Npx, Npy;
    HeaderFacts(h);
    GridFacts(h);
    SliceArith(t, h.pih.hsl, Npy(h), Npx(h));
  }

  lemma SliceArith(t: nat, hsl: nat, m: nat, n: nat)
    requires hsl >= 1 && m >= 1 && n >= 1 && t < CeilDiv(m, hsl)
    ensures var rows := Min(hsl, m - Mul(t, hsl));
            && 1 <= rows <= hsl && (t + 1 < CeilDiv(m, hsl) ==> rows == hsl)
            && Mul(Mul(t, hsl), n) + Mul(rows, n) == if t + 1 < CeilDiv(m, hsl) then Mul(Mul(t + 1, hsl), n) else Mul(n, m)
  {
    hide CeilDiv;
    CeilDivLeast(m, hsl, t);
    CeilDivLeast(m, hsl, t + 1);
    assert (t + 1) * hsl == t * hsl + hsl;
    MulCommute(n, m);
    var rows := Min(hsl, m - t * hsl);
    assert (t * hsl) * n + rows * n == (t * hsl + rows) * n;
  }
}
