// The order of a precinct's packets (B.7, Table B.4), told by the bands alone and not by the loops that list them.
module PacketOrder {
  import opened Arith
  import opened HeaderTypes
  import opened Geometry
  import opened GeometryTiling
  import opened GeometryPackets
  import opened Precinct

  /** Resolution of a band: LL and the horizontal types, then the two-dimensional levels, then the plain components. */
  function Resolution(h: Headers, b: nat): int
    requires Supported(h) && b < NumBands(h)
  {
    var band := BandOf(h, b);
    if !band.decomposed then h.pih.nly + 1
    else if band.beta < Beta1(h.pih.nlx, h.pih.nly) then 0
    else 1 + h.pih.nly - band.dy
  }

  /** Line of an entry, counted from the first one of its band in the precinct. */
  function Relative(h: Headers, e: Entry): int
    requires Supported(h) && e.band < NumBands(h)
  {
    e.line - LineStart(h, e.band)
  }

  /** Coarser resolutions first, then upper lines, then lower band numbers. */
  ghost predicate Before(h: Headers, e: Entry, f: Entry)
    requires Supported(h) && e.band < NumBands(h) && f.band < NumBands(h)
  {
    var r, s, k, l := Resolution(h, e.band), Resolution(h, f.band), Relative(h, e), Relative(h, f);
    r < s || (r == s && (k < l || (k == l && e.band < f.band)))
  }

  /** The same line of the same resolution: all bands of the coarsest one, all components of one filter type. */
  ghost predicate Together(h: Headers, e: Entry, f: Entry)
    requires Supported(h) && e.band < NumBands(h) && f.band < NumBands(h)
  {
    && Resolution(h, e.band) == Resolution(h, f.band) && Relative(h, e) == Relative(h, f)
    && (Resolution(h, e.band) == 0 || e.band == f.band
        || (BandOf(h, e.band).decomposed && BandOf(h, f.band).decomposed
            && BandOf(h, e.band).beta == BandOf(h, f.band).beta))
  }

  // ---- the same of chunks ----------------------------------------------------------------------------

  /** Resolution by band number. */
  function Rank(g: Grid, b: nat): int
    requires g.d > 0
  {
    if b < g.First(g.beta1) then 0 else if b < g.Plain() then 1 + Level(g, b) else 1 + g.nly
  }

  predicate Precedes(g: Grid, x: Chunk, y: Chunk)
    requires g.d > 0
  {
    var r, s := Rank(g, x.from), Rank(g, y.from);
    r < s || (r == s && (x.line < y.line || (x.line == y.line && x.end <= y.from)))
  }

  ghost predicate Ascending(g: Grid, chunks: seq<Chunk>)
    requires g.d > 0
  {
    forall i, j | 0 <= i < j < |chunks| :: Precedes(g, chunks[i], chunks[j])
  }

  ghost predicate AllBefore(g: Grid, x: seq<Chunk>, y: seq<Chunk>)
    requires g.d > 0
  {
    forall i, j | 0 <= i < |x| && 0 <= j < |y| :: Precedes(g, x[i], y[j])
  }

  lemma AscendingConcat(g: Grid, x: seq<Chunk>, y: seq<Chunk>)
    requires g.d > 0 && Ascending(g, x) && Ascending(g, y) && AllBefore(g, x, y)
    ensures Ascending(g, x + y)
  {
    hide Precedes;
    forall i, j | 0 <= i < j < |x + y|
      ensures Precedes(g, (x + y)[i], (x + y)[j])
    {
      if i < |x| && j >= |x| {
        assert Precedes(g, x[i], y[j - |x|]);
      } else if i >= |x| {
        assert Precedes(g, y[i - |x|], y[j - |x|]);
      }
    }
  }

  /** Chunks of rank r, none above line `from`. */
  ghost predicate Ranked(g: Grid, chunks: seq<Chunk>, low: int, high: int, from: nat)
    requires g.d > 0
  {
    forall i | 0 <= i < |chunks| :: low <= Rank(g, chunks[i].from) <= high && chunks[i].line >= from
  }

  lemma RankedConcat(g: Grid, x: seq<Chunk>, y: seq<Chunk>, low: int, high: int, from: nat)
    requires g.d > 0 && Ranked(g, x, low, high, from) && Ranked(g, y, low, high, from)
    ensures Ranked(g, x + y, low, high, from)
  {
    hide Rank;
  }

  lemma TypeRank(g: Grid, beta: nat, line: nat)
    requires g.d > 0 && g.beta1 <= beta < g.NBeta()
    ensures Rank(g, TypeChunk(g, beta, line).from) == 1 + (beta - g.beta1) / 3
  {
    var b := g.First(beta);
    TypeCovers(g, beta, line, b);
    BelowFirst(g, g.beta1, b);
    BelowFirst(g, g.NBeta(), b);
  }

  lemma LineAscends(g: Grid, k: nat, line: nat)
    requires g.d > 0 && k < g.nly
    ensures var c := LineChunks(g, g.beta1 + 3 * k, line);
            && Ascending(g, c)
            && forall i | 0 <= i < |c| :: Rank(g, c[i].from) == 1 + k && c[i].line == line
  {
    hide Rank, Mul;
    var beta := g.beta1 + 3 * k;
    TypeRank(g, beta, line);
    TypeRank(g, beta + 1, line);
    TypeRank(g, beta + 2, line);
    MulNext(g.d, beta, g.NBeta());
    MulNext(g.d, beta + 1, g.NBeta());
  }

  lemma {:induction false} LevelAscends(g: Grid, k: nat, line: nat, n: nat)
    requires g.d > 0 && k < g.nly && line <= n
    ensures Ascending(g, LevelChunks(g, g.beta1 + 3 * k, line, n))
    ensures Ranked(g, LevelChunks(g, g.beta1 + 3 * k, line, n), 1 + k, 1 + k, line)
    decreases n - line
  {
    hide Rank, LineChunks;
    if line < n {
      LineAscends(g, k, line);
      LevelAscends(g, k, line + 1, n);
      AscendingConcat(g, LineChunks(g, g.beta1 + 3 * k, line), LevelChunks(g, g.beta1 + 3 * k, line + 1, n));
    }
  }

  lemma {:induction false} LevelsAscend(g: Grid, k: nat)
    requires g.d > 0 && k <= g.nly
    ensures Ascending(g, Levels(g, k)) && Ranked(g, Levels(g, k), 1 + k, g.nly, 0)
    decreases g.nly - k
  {
    hide Rank, LevelChunks, Pow2;
    if k < g.nly {
      var here := LevelChunks(g, g.beta1 + 3 * k, 0, Pow2(k));
      LevelAscends(g, k, 0, Pow2(k));
      LevelsAscend(g, k + 1);
      AscendingConcat(g, here, Levels(g, k + 1));
    }
  }

  lemma PlainRank(g: Grid, i: nat)
    requires g.d > 0
    ensures Rank(g, g.Plain() + i) == 1 + g.nly
  {
    MulMonotone(g.beta1, g.NBeta(), g.d);
    MulCommute(g.d, g.beta1);
    MulCommute(g.d, g.NBeta());
    hide Mul;
  }

  lemma {:induction false} PlainLineAscends(g: Grid, i: nat, line: nat)
    requires g.d > 0 && i <= g.sd
    ensures var c := PlainLine(g, i, line);
            && Ascending(g, c)
            && forall j | 0 <= j < |c| :: Rank(g, c[j].from) == 1 + g.nly && c[j].line == line && c[j].from >= g.Plain() + i
    decreases g.sd - i
  {
    hide Rank, Mul;
    if i < g.sd {
      PlainRank(g, i);
      PlainLineAscends(g, i + 1, line);
    }
  }

  lemma {:induction false} PlainLinesAscend(g: Grid, line: nat, n: nat)
    requires g.d > 0 && line <= n
    ensures Ascending(g, PlainLines(g, line, n)) && Ranked(g, PlainLines(g, line, n), 1 + g.nly, 1 + g.nly, line)
    decreases n - line
  {
    hide Rank, PlainLine;
    if line < n {
      PlainLineAscends(g, 0, line);
      PlainLinesAscend(g, line + 1, n);
      AscendingConcat(g, PlainLine(g, 0, line), PlainLines(g, line + 1, n));
    }
  }

  lemma ChunksAscend(g: Grid)
    requires g.d > 0 && g.beta1 >= 1
    ensures Ascending(g, Chunks(g))
  {
    hide Levels, PlainLines, Pow2;
    var head, levels, plain := [Chunk(0, g.First(g.beta1), 0)], Levels(g, 0), PlainLines(g, 0, Pow2(g.nly));
    assert Rank(g, 0) == 0 by {
      MulMonotone(1, g.beta1, g.d);
      MulCommute(g.d, g.beta1);
    }
    hide Rank;
    LevelsAscend(g, 0);
    PlainLinesAscend(g, 0, Pow2(g.nly));
    AscendingConcat(g, levels, plain);
    RankedConcat(g, levels, plain, 1, 1 + g.nly, 0);
    AscendingConcat(g, head, levels + plain);
  }

  // ---- the packets of a precinct ---------------------------------------------------------------------

  lemma BandKind(h: Headers, b: nat)
    requires Supported(h) && b < NumBands(h)
    ensures var g, band := GridOf(h), BandOf(h, b);
            && g.d > 0 && band.decomposed == (b < g.Plain()) && (band.decomposed ==> band.beta == b / g.d)
            && g.nly == h.pih.nly && g.beta1 == Beta1(h.pih.nlx, h.pih.nly) >= 1
  {
    hide Valid, Mul, Pow2, LowPassSize, HighPassSize, HorizontalType, VerticalType, CeilDiv, ComponentWidth, ComponentHeight;
    HeaderFacts(h);
    DivMod(b, GridOf(h).d);
  }

  lemma RankIsResolution(h: Headers, b: nat)
    requires Supported(h) && b < NumBands(h)
    ensures GridOf(h).d > 0 && Rank(GridOf(h), b) == Resolution(h, b)
  {
    hide Supported, Mul, BandOf, GridOf, NumBands, Beta1;
    BandKind(h, b);
    VerticalOf(h, b);
    BelowFirst(GridOf(h), GridOf(h).beta1, b);
    BelowFirst(GridOf(h), GridOf(h).NBeta(), b);
    if GridOf(h).First(GridOf(h).beta1) <= b < GridOf(h).Plain() {
      LevelDepth(h.pih.nlx, h.pih.nly, b / GridOf(h).d);
    }
  }

  lemma LevelDepth(nlx: nat, nly: nat, beta: nat)
    requires beta >= Beta1(nlx, nly)
    ensures VerticalType(nlx, nly, beta).0 == nly - (beta - Beta1(nlx, nly)) / 3
  {
  }

  /** What the entry of a chunk has in common with it. */
  lemma EntryOfChunk(h: Headers, p: nat, x: Chunk, e: Entry)
    requires Supported(h) && p < NumPrecincts(h) && x.end <= NumBands(h)
    requires e in EntriesOf(h, p, x.from, x.end, x.line)
    ensures e.band < NumBands(h) && GeometryPackets.Covers(x, e.band) && Relative(h, e) == x.line
  {
    hide Supported, NumPrecincts, NumBands, LineCount, LineStart;
    EntryFrom(h, p, x.from, x.end, x.line, e);
  }

  lemma {:induction false} EntryFrom(h: Headers, p: nat, from: nat, end: nat, line: nat, e: Entry)
    requires Supported(h) && p < NumPrecincts(h) && end <= NumBands(h) && e in EntriesOf(h, p, from, end, line)
    ensures from <= e.band < end && e.line == LineStart(h, e.band) + line
    decreases end - from
  {
    hide Supported, NumPrecincts, NumBands, LineCount, LineStart;
    if e in EntriesOf(h, p, from + 1, end, line) {
      EntryFrom(h, p, from + 1, end, line, e);
    }
  }

  predicate Rising(es: seq<Entry>) {
    forall k, l | 0 <= k < l < |es| :: es[k].band < es[l].band
  }

  lemma RisingOn(here: seq<Entry>, later: seq<Entry>, from: nat)
    requires Rising(later) && |here| <= 1 && (here != [] ==> here[0].band == from)
    requires forall l | 0 <= l < |later| :: later[l].band > from
    ensures Rising(here + later)
  {
  }

  lemma {:induction false} EntriesRise(h: Headers, p: nat, from: nat, end: nat, line: nat)
    requires Supported(h) && p < NumPrecincts(h) && end <= NumBands(h)
    ensures Rising(EntriesOf(h, p, from, end, line))
    decreases end - from
  {
    hide Supported, NumPrecincts, NumBands, LineCount, LineStart;
    if from < end {
      EntriesRise(h, p, from + 1, end, line);
      var here: seq<Entry> := if line < LineCount(h, p, from) then [Entry(from, LineStart(h, from) + line)] else [];
      var later := EntriesOf(h, p, from + 1, end, line);
      forall l | 0 <= l < |later|
        ensures later[l].band > from
      {
        EntryFrom(h, p, from + 1, end, line, later[l]);
      }
      RisingOn(here, later, from);
      assert EntriesOf(h, p, from, end, line) == here + later;
    }
  }

  /** Of two packets the first is of an earlier chunk. */
  lemma {:induction false} TwoPackets(h: Headers, p: nat, chunks: seq<Chunk>, i: nat, j: nat) returns (k: nat, l: nat)
    requires Supported(h) && p < NumPrecincts(h) && Within(chunks, NumBands(h)) && i < j < |PacketsOf(h, p, chunks)|
    ensures k < l < |chunks| && chunks[k].end <= NumBands(h) && chunks[l].end <= NumBands(h)
    ensures PacketsOf(h, p, chunks)[i] == EntriesOf(h, p, chunks[k].from, chunks[k].end, chunks[k].line)
    ensures PacketsOf(h, p, chunks)[j] == EntriesOf(h, p, chunks[l].from, chunks[l].end, chunks[l].line)
  {
    hide Supported, NumPrecincts, NumBands, EntriesOf;
    var first := Push([], EntriesOf(h, p, chunks[0].from, chunks[0].end, chunks[0].line));
    assert chunks[0].end <= NumBands(h);
    if i < |first| {
      k := 0;
      var n := PacketFromChunk(h, p, chunks[1..], j - |first|);
      l := n + 1;
    } else {
      var m, n := TwoPackets(h, p, chunks[1..], i - |first|, j - |first|);
      k, l := m + 1, n + 1;
    }
  }

  /** Bands of one chunk: one resolution, and all of it or one filter type or one component of it. */
  lemma ChunkBands(h: Headers, x: Chunk, b: nat)
    requires Supported(h) && GridOf(h).d > 0 && WholeFamily(GridOf(h), x) && GeometryPackets.Covers(x, b) && b < NumBands(h)
    ensures x.from < NumBands(h) && GeometryPackets.Covers(x, x.from) && Resolution(h, b) == Rank(GridOf(h), x.from)
    ensures Resolution(h, b) == 0 || (BandOf(h, b).decomposed && BandOf(h, b).beta == BandOf(h, x.from).beta
                                      && BandOf(h, x.from).decomposed) || x.end == x.from + 1
  {
    hide Supported, BandOf, Mul, NumBands, Resolution, GridOf;
    var g := GridOf(h);
    assert GeometryPackets.Covers(x, x.from) && Family(g, x.from) == Family(g, b) == (x.from, x.end);
    BandKind(h, b);
    BandKind(h, x.from);
    RankIsResolution(h, b);
    RankIsResolution(h, x.from);
    if g.First(g.beta1) <= b < g.Plain() {
      TypeCovers(g, b / g.d, 0, x.from);
    }
  }

  lemma ChunksOrdered(h: Headers)
    requires Supported(h)
    ensures var g := GridOf(h);
            g.d > 0 && Ascending(g, Chunks(g)) && WholeFamilies(g, Chunks(g)) && Within(Chunks(g), NumBands(h))
  {
    hide Valid, Mul, Chunks, WholeFamilies, Ascending, NumBands, Within, NBeta;
    HeaderFacts(h);
    AllWithin(h);
    ChunkFamilies(GridOf(h));
    ChunksAscend(GridOf(h));
  }

  /** Entries of two chunks in order. */
  lemma ChunksApart(h: Headers, p: nat, x: Chunk, y: Chunk, e: Entry, f: Entry)
    requires Supported(h) && p < NumPrecincts(h) && x.end <= NumBands(h) && y.end <= NumBands(h)
    requires e in EntriesOf(h, p, x.from, x.end, x.line) && f in EntriesOf(h, p, y.from, y.end, y.line)
    requires GridOf(h).d > 0 && WholeFamily(GridOf(h), x) && WholeFamily(GridOf(h), y) && Precedes(GridOf(h), x, y)
    ensures e.band < NumBands(h) && f.band < NumBands(h) && Before(h, e, f) && !Together(h, e, f)
  {
    hide Supported, NumPrecincts, EntriesOf, BandOf, NumBands, Resolution, GridOf, Relative, Rank, WholeFamily;
    EntryOfChunk(h, p, x, e);
    EntryOfChunk(h, p, y, f);
    ChunkBands(h, x, e.band);
    ChunkBands(h, y, f.band);
    if x.end <= y.from {
      Apart(h, x, y, e.band, f.band);
    }
  }

  /** Two chunks of one resolution and line hold different filter types or components. */
  lemma Apart(h: Headers, x: Chunk, y: Chunk, b: nat, c: nat)
    requires Supported(h) && GridOf(h).d > 0 && WholeFamily(GridOf(h), x) && WholeFamily(GridOf(h), y)
    requires GeometryPackets.Covers(x, b) && GeometryPackets.Covers(y, c) && b < NumBands(h) && c < NumBands(h) && x.end <= y.from
    ensures b < c && (Resolution(h, b) == Resolution(h, c) ==> Resolution(h, b) != 0)
    ensures !(BandOf(h, b).decomposed && BandOf(h, c).decomposed && BandOf(h, b).beta == BandOf(h, c).beta
              && Resolution(h, b) != 0 && Resolution(h, c) != 0)
  {
    hide Supported, BandOf, Mul, NumBands, Resolution, GridOf;
    var g := GridOf(h);
    assert Family(g, b) != Family(g, c);
    BandKind(h, b);
    BandKind(h, c);
    BelowFirst(g, g.beta1, b);
    BelowFirst(g, g.beta1, c);
    RankIsResolution(h, b);
    RankIsResolution(h, c);
  }

  /** Packets follow one another, and the entries in them, by resolution, then line, then band. */
  lemma EntriesInOrder(h: Headers, p: nat, i: nat, j: nat, k: nat, l: nat)
    requires Supported(h) && p < NumPrecincts(h) && i < |Packets(h, p)| && j < |Packets(h, p)|
    requires k < |Packets(h, p)[i]| && l < |Packets(h, p)[j]| && (i < j || (i == j && k < l))
    ensures var e, f := Packets(h, p)[i][k], Packets(h, p)[j][l];
            e.band < NumBands(h) && f.band < NumBands(h) && Before(h, e, f)
  {
    hide Supported, NumPrecincts, EntriesOf, NumBands, Resolution, Relative, Rank, WholeFamily, Chunks, PacketsOf, GridOf;
    AllWithin(h);
    ChunksOrdered(h);
    var chunks := Chunks(GridOf(h));
    var e, f := Packets(h, p)[i][k], Packets(h, p)[j][l];
    if i < j {
      var x, y := TwoPackets(h, p, chunks, i, j);
      ChunksApart(h, p, chunks[x], chunks[y], e, f);
    } else {
      var x := PacketFromChunk(h, p, chunks, i);
      EntryOfChunk(h, p, chunks[x], e);
      EntryOfChunk(h, p, chunks[x], f);
      EntriesRise(h, p, chunks[x].from, chunks[x].end, chunks[x].line);
      assert WholeFamily(GridOf(h), chunks[x]);
      ChunkBands(h, chunks[x], e.band);
      ChunkBands(h, chunks[x], f.band);
    }
  }

  /** Two entries travel in one packet exactly when they belong together. */
  lemma OnePacket(h: Headers, p: nat, i: nat, j: nat, e: Entry, f: Entry)
    requires Supported(h) && p < NumPrecincts(h) && i < |Packets(h, p)| && j < |Packets(h, p)|
    requires e in Packets(h, p)[i] && f in Packets(h, p)[j]
    ensures e.band < NumBands(h) && f.band < NumBands(h) && (i == j <==> Together(h, e, f))
  {
    hide Supported, NumPrecincts, EntriesOf, NumBands, Resolution, Relative, Rank, WholeFamily, Chunks, PacketsOf, GridOf, BandOf;
    AllWithin(h);
    ChunksOrdered(h);
    var chunks := Chunks(GridOf(h));
    if i < j {
      var x, y := TwoPackets(h, p, chunks, i, j);
      ChunksApart(h, p, chunks[x], chunks[y], e, f);
    } else if j < i {
      var x, y := TwoPackets(h, p, chunks, j, i);
      ChunksApart(h, p, chunks[x], chunks[y], f, e);
    } else {
      var x := PacketFromChunk(h, p, chunks, i);
      EntryOfChunk(h, p, chunks[x], e);
      EntryOfChunk(h, p, chunks[x], f);
      assert WholeFamily(GridOf(h), chunks[x]);
      ChunkBands(h, chunks[x], e.band);
      ChunkBands(h, chunks[x], f.band);
    }
  }
}
