// Moving coefficients between precinct buffers and the picture-wide band buffers.
module Placement {
  import opened HeaderTypes
  import opened Geometry
  import opened GeometryTiling
  import opened GeometryPackets
  import opened Precinct
  import opened Planes
  import opened WaveletLevels
  import WaveletTransform

  // ---- what ends up where ----------------------------------------------------------------------------

  /** Sample (x, y) of band b after precinct p has been placed. */
  function PlacedSample(h: Headers, p: nat, c: Coeffs, b: nat, plane: Plane, x: nat, y: nat): int
    requires Supported(h) && p < NumPrecincts(h) && b < NumBands(h) && Holds(h, p, c)
    requires plane.Ok() && Sized(h, b, plane) && x < plane.width && y < plane.height
  {
    if Owner(h, b, x, y) == p then
      SampleHeld(h, p, c, b, x, y);
      c[Entry(b, LocalLine(h, b, y))][LocalIndex(h, b, x)]
    else plane.At(x, y)
  }

  /** Coefficients of exactly the lines of precinct p. */
  predicate Holds(h: Headers, p: nat, c: Coeffs)
    requires Supported(h) && p < NumPrecincts(h)
  {
    ShapeIsOk(h, p);
    CoeffsOk(ShapeOf(h, p), c)
  }

  lemma EntryHeld(h: Headers, p: nat, c: Coeffs, b: nat, line: nat)
    requires Supported(h) && p < NumPrecincts(h) && b < NumBands(h) && Holds(h, p, c)
    requires LineStart(h, b) <= line < LineEnd(h, p, b)
    ensures Entry(b, line) in c && |c[Entry(b, line)]| == BandPrecinctWidth(h, p, b)
  {
    hide Supported, NumPrecincts, NumBands, LineStart, LineCount, BandPrecinctWidth, Packets;
    ShapeIsOk(h, p);
    assert Entry(b, line) in ShapeOf(h, p).Entries();
  }

  lemma SampleHeld(h: Headers, p: nat, c: Coeffs, b: nat, x: nat, y: nat)
    requires Supported(h) && p < NumPrecincts(h) && b < NumBands(h) && Holds(h, p, c)
    requires x < BandOf(h, b).width && y < BandOf(h, b).height && Owner(h, b, x, y) == p
    ensures Entry(b, LocalLine(h, b, y)) in c && LocalIndex(h, b, x) < |c[Entry(b, LocalLine(h, b, y))]|
  {
    hide Supported, NumPrecincts, NumBands, LineStart, LineCount, BandPrecinctWidth, Holds, LocalLine, LocalIndex, Owner, BandOf;
    SampleInPrecinct(h, b, x, y);
    EntryHeld(h, p, c, b, LocalLine(h, b, y));
  }

  function PlacedRow(h: Headers, p: nat, c: Coeffs, b: nat, plane: Plane, y: nat): (r: seq<int>)
    requires Supported(h) && p < NumPrecincts(h) && b < NumBands(h) && Holds(h, p, c)
    requires plane.Ok() && Sized(h, b, plane) && y < plane.height
    ensures |r| == plane.width
  {
    seq(plane.width, x requires 0 <= x < plane.width => PlacedSample(h, p, c, b, plane, x, y))
  }

  function PlacedBand(h: Headers, p: nat, c: Coeffs, b: nat, plane: Plane): (r: Plane)
    requires Supported(h) && p < NumPrecincts(h) && b < NumBands(h) && Holds(h, p, c)
    requires plane.Ok() && Sized(h, b, plane)
    ensures r.Ok() && r.width == plane.width && r.height == plane.height
  {
    var rows := seq(plane.height, y requires 0 <= y < plane.height => PlacedRow(h, p, c, b, plane, y));
    assert forall y | 0 <= y < plane.height :: |rows[y]| == plane.width;
    Plane(plane.width, plane.height, rows)
  }

  /** All bands after precinct p has been placed. */
  function Place(h: Headers, p: nat, c: Coeffs, img: BandPlanes): (r: BandPlanes)
    requires Supported(h) && p < NumPrecincts(h) && Holds(h, p, c) && Allocated(h, img)
    ensures Allocated(h, r)
  {
    seq(NumBands(h), b requires 0 <= b < NumBands(h) => PlacedBand(h, p, c, b, img[b]))
  }

  /** What precinct p holds at line `line`, index xi of band b: the sample at its band position, zero outside the band. */
  function ExtractedSample(h: Headers, p: nat, e: Entry, xi: nat, img: BandPlanes): int
    requires Supported(h) && p < NumPrecincts(h) && e.band < NumBands(h) && e.line >= LineStart(h, e.band)
    requires Allocated(h, img)
  {
    var x, y := PosX(h, p, e.band, xi), PosY(h, p, e.band, e.line);
    if x < img[e.band].width && y < img[e.band].height then img[e.band].At(x, y) else 0
  }

  function ExtractedLine(h: Headers, p: nat, e: Entry, img: BandPlanes): (r: seq<int>)
    requires Supported(h) && p < NumPrecincts(h) && e.band < NumBands(h) && e.line >= LineStart(h, e.band)
    requires Allocated(h, img)
    ensures |r| == BandPrecinctWidth(h, p, e.band)
  {
    seq(BandPrecinctWidth(h, p, e.band), xi requires 0 <= xi < BandPrecinctWidth(h, p, e.band) =>
      ExtractedSample(h, p, e, xi, img))
  }

  lemma EntryFacts(h: Headers, p: nat, e: Entry)
    requires Supported(h) && p < NumPrecincts(h)
    ensures ShapeOf(h, p).Ok()
    ensures e in ShapeOf(h, p).Entries() <==>
              e.band < NumBands(h) && LineStart(h, e.band) <= e.line < LineEnd(h, p, e.band)
    ensures e.band < NumBands(h) ==> ShapeOf(h, p).widths[e.band] == BandPrecinctWidth(h, p, e.band)
  {
    hide Supported, NumPrecincts, NumBands, LineStart, LineCount, BandPrecinctWidth, Packets;
    ShapeIsOk(h, p);
  }

  lemma ShapeBands(h: Headers, p: nat)
    requires Supported(h) && p < NumPrecincts(h)
    ensures |ShapeOf(h, p).widths| == NumBands(h)
  {
    hide Supported, NumPrecincts, NumBands, LineStart, LineCount, BandPrecinctWidth, Packets;
  }

  /** The line extracted for an entry of the precinct. */
  function LineFor(h: Headers, p: nat, e: Entry, img: BandPlanes): seq<int>
    requires Supported(h) && p < NumPrecincts(h) && Allocated(h, img)
  {
    if e.band < NumBands(h) && e.line >= LineStart(h, e.band) then ExtractedLine(h, p, e, img) else []
  }

  function Extract(h: Headers, p: nat, img: BandPlanes): Coeffs
    requires Supported(h) && p < NumPrecincts(h) && Allocated(h, img)
  {
    ShapeIsOk(h, p);
    map e | e in ShapeOf(h, p).Entries() :: LineFor(h, p, e, img)
  }

  lemma ExtractHolds(h: Headers, p: nat, img: BandPlanes)
    requires Supported(h) && p < NumPrecincts(h) && Allocated(h, img)
    ensures Holds(h, p, Extract(h, p, img))
  {
    hide Supported, NumPrecincts, NumBands, LineStart, LineCount, BandPrecinctWidth, Allocated, ExtractedLine,
         Shape.Entries, ShapeOf;
    ShapeIsOk(h, p);
    ShapeBands(h, p);
    var c := Extract(h, p, img);
    assert c.Keys == ShapeOf(h, p).Entries();
    forall e | e in c
      ensures e.band < |ShapeOf(h, p).widths| && |c[e]| == ShapeOf(h, p).widths[e.band]
    {
      EntryFacts(h, p, e);
    }
  }

  // ---- placement undoes extraction -------------------------------------------------------------------

  /** Every sample of an extracted precinct comes from inside its band: the bounds guard never fires. */
  lemma ExtractedFromBand(h: Headers, p: nat, img: BandPlanes, b: nat, line: nat, xi: nat)
    requires Supported(h) && p < NumPrecincts(h) && Allocated(h, img) && b < NumBands(h)
    requires LineStart(h, b) <= line < LineEnd(h, p, b) && xi < BandPrecinctWidth(h, p, b)
    ensures PosX(h, p, b, xi) < BandOf(h, b).width && PosY(h, p, b, line) < BandOf(h, b).height
    ensures ExtractedSample(h, p, Entry(b, line), xi, img) == img[b].At(PosX(h, p, b, xi), PosY(h, p, b, line))
  {
    hide Supported, NumPrecincts, NumBands, LineStart, LineCount, BandPrecinctWidth, PosX, PosY, BandOf;
    PositionInBand(h, p, b, line, xi);
  }

  lemma ExtractedAt(h: Headers, p: nat, img: BandPlanes, b: nat, line: nat, xi: nat)
    requires Supported(h) && p < NumPrecincts(h) && Allocated(h, img) && b < NumBands(h)
    requires LineStart(h, b) <= line < LineEnd(h, p, b) && xi < BandPrecinctWidth(h, p, b)
    ensures Entry(b, line) in Extract(h, p, img) && xi < |Extract(h, p, img)[Entry(b, line)]|
    ensures Extract(h, p, img)[Entry(b, line)][xi] == ExtractedSample(h, p, Entry(b, line), xi, img)
  {
    hide Supported, NumPrecincts, NumBands, LineStart, LineCount, BandPrecinctWidth, ExtractedSample, Allocated, ShapeOf,
         Shape.Entries;
    EntryFacts(h, p, Entry(b, line));
    ExtractHolds(h, p, img);
    EntryHeld(h, p, Extract(h, p, img), b, line);
  }

  /** A placed precinct gives its own samples back and leaves all others alone. */
  lemma PlacedFromSource(h: Headers, p: nat, src: BandPlanes, dst: BandPlanes, b: nat, x: nat, y: nat)
    requires Supported(h) && p < NumPrecincts(h) && Allocated(h, src) && Allocated(h, dst) && b < NumBands(h)
    requires x < BandOf(h, b).width && y < BandOf(h, b).height
    ensures Holds(h, p, Extract(h, p, src))
    ensures Place(h, p, Extract(h, p, src), dst)[b].At(x, y) ==
            if Owner(h, b, x, y) == p then src[b].At(x, y) else dst[b].At(x, y)
  {
    hide Supported, NumPrecincts, NumBands, LineStart, LineCount, BandPrecinctWidth, Extract, ExtractedSample, Owner, LocalLine,
         LocalIndex, PosX, PosY, BandOf, Holds;
    ExtractHolds(h, p, src);
    var c := Extract(h, p, src);
    assert Place(h, p, c, dst)[b] == PlacedBand(h, p, c, b, dst[b]);
    if Owner(h, b, x, y) == p {
      SampleInPrecinct(h, b, x, y);
      ExtractedAt(h, p, src, b, LocalLine(h, b, y), LocalIndex(h, b, x));
      ExtractedFromBand(h, p, src, b, LocalLine(h, b, y), LocalIndex(h, b, x));
    }
  }

  /** The samples of the first n precincts agree. */
  ghost predicate AgreeBefore(h: Headers, n: nat, src: BandPlanes, dst: BandPlanes)
    requires Supported(h) && Allocated(h, src) && Allocated(h, dst)
  {
    forall b: nat, x: nat, y: nat | b < NumBands(h) && x < BandOf(h, b).width && y < BandOf(h, b).height ::
      Owner(h, b, x, y) < n ==> dst[b].At(x, y) == src[b].At(x, y)
  }

  lemma PlaceNext(h: Headers, p: nat, src: BandPlanes, dst: BandPlanes)
    requires Supported(h) && p < NumPrecincts(h) && Allocated(h, src) && Allocated(h, dst) && AgreeBefore(h, p, src, dst)
    ensures Holds(h, p, Extract(h, p, src))
    ensures AgreeBefore(h, p + 1, src, Place(h, p, Extract(h, p, src), dst))
  {
    hide Supported, NumPrecincts, NumBands, BandOf, Owner, Place, Extract, Holds;
    ExtractHolds(h, p, src);
    var next := Place(h, p, Extract(h, p, src), dst);
    forall b: nat, x: nat, y: nat | b < NumBands(h) && x < BandOf(h, b).width && y < BandOf(h, b).height &&
                                    Owner(h, b, x, y) < p + 1
      ensures next[b].At(x, y) == src[b].At(x, y)
    {
      PlacedFromSource(h, p, src, dst, b, x, y);
    }
  }

  lemma AgreeEverywhere(h: Headers, src: BandPlanes, dst: BandPlanes)
    requires Supported(h) && Allocated(h, src) && Allocated(h, dst) && AgreeBefore(h, NumPrecincts(h), src, dst)
    ensures dst == src
  {
    hide Supported, NumPrecincts, BandOf, Owner;
    forall b: nat | b < NumBands(h)
      ensures dst[b] == src[b]
    {
      forall x, y | 0 <= x < BandOf(h, b).width && 0 <= y < BandOf(h, b).height
        ensures dst[b].At(x, y) == src[b].At(x, y)
      {
        SampleInPrecinct(h, b, x, y);
      }
      SamePlane(dst[b], src[b]);
    }
  }

  /** Placing every precinct extracted from an image, from the p-th on. */
  function PlaceAll(h: Headers, p: nat, src: BandPlanes, dst: BandPlanes): (r: BandPlanes)
    requires Supported(h) && p <= NumPrecincts(h) && Allocated(h, src) && Allocated(h, dst)
    ensures Allocated(h, r)
    decreases NumPrecincts(h) - p
  {
    if p == NumPrecincts(h) then dst else
    ExtractHolds(h, p, src);
    PlaceAll(h, p + 1, src, Place(h, p, Extract(h, p, src), dst))
  }

  /** Precincts tile the bands: placing all of them rebuilds the image, whatever the buffers held. */
  lemma {:induction false} PlacingRebuilds(h: Headers, p: nat, src: BandPlanes, dst: BandPlanes)
    requires Supported(h) && p <= NumPrecincts(h) && Allocated(h, src) && Allocated(h, dst) && AgreeBefore(h, p, src, dst)
    ensures PlaceAll(h, p, src, dst) == src
    decreases NumPrecincts(h) - p
  {
    hide Supported, NumPrecincts, AgreeBefore, Place, Extract, Allocated;
    if p == NumPrecincts(h) {
      AgreeEverywhere(h, src, dst);
    } else {
      PlaceNext(h, p, src, dst);
      PlacingRebuilds(h, p + 1, src, Place(h, p, Extract(h, p, src), dst));
    }
  }

  lemma AgreeNowhere(h: Headers, src: BandPlanes, dst: BandPlanes)
    requires Supported(h) && Allocated(h, src) && Allocated(h, dst)
    ensures AgreeBefore(h, 0, src, dst)
  {
  }

  // ---- the copying loops -----------------------------------------------------------------------------

  /** Sample (x, y) of band b has been copied when the loops stand at (line, xi). */
  predicate Copied(h: Headers, p: nat, b: nat, x: nat, y: nat, line: nat, xi: nat)
    requires Supported(h) && b < NumBands(h) && x < BandOf(h, b).width && y < BandOf(h, b).height
  {
    && Owner(h, b, x, y) == p
    && (LocalLine(h, b, y) < line || (LocalLine(h, b, y) == line && LocalIndex(h, b, x) < xi))
  }

  /** The band as the loops have left it at (line, xi). */
  ghost predicate CopiedUpTo(h: Headers, p: nat, c: Coeffs, b: nat, before: Plane, now: Plane, line: nat, xi: nat)
    requires Supported(h) && p < NumPrecincts(h) && b < NumBands(h) && Holds(h, p, c)
    requires before.Ok() && Sized(h, b, before) && now.Ok() && Sized(h, b, now)
  {
    forall x: nat, y: nat | x < BandOf(h, b).width && y < BandOf(h, b).height ::
      now.At(x, y) == if Copied(h, p, b, x, y, line, xi) then PlacedSample(h, p, c, b, before, x, y) else before.At(x, y)
  }

  lemma CopyStep(h: Headers, p: nat, c: Coeffs, b: nat, before: Plane, now: Plane, line: nat, xi: nat)
    requires Supported(h) && p < NumPrecincts(h) && b < NumBands(h) && Holds(h, p, c)
    requires before.Ok() && Sized(h, b, before) && now.Ok() && Sized(h, b, now)
    requires LineStart(h, b) <= line < LineEnd(h, p, b) && xi < BandPrecinctWidth(h, p, b)
    requires CopiedUpTo(h, p, c, b, before, now, line, xi)
    ensures Entry(b, line) in c && xi < |c[Entry(b, line)]|
    ensures PosX(h, p, b, xi) < now.width && PosY(h, p, b, line) < now.height
    ensures var next := now.Set(PosX(h, p, b, xi), PosY(h, p, b, line), c[Entry(b, line)][xi]);
            Sized(h, b, next) && CopiedUpTo(h, p, c, b, before, next, line, xi + 1)
  {
    hide Supported, NumPrecincts, NumBands, BandOf, Owner, LocalLine, LocalIndex, PosX, PosY, LineStart, LineCount, Holds,
         BandPrecinctWidth;
    EntryHeld(h, p, c, b, line);
    PositionInBand(h, p, b, line, xi);
    var px, py := PosX(h, p, b, xi), PosY(h, p, b, line);
    var next := now.Set(px, py, c[Entry(b, line)][xi]);
    forall x: nat, y: nat | x < BandOf(h, b).width && y < BandOf(h, b).height
      ensures next.At(x, y) ==
              if Copied(h, p, b, x, y, line, xi + 1) then PlacedSample(h, p, c, b, before, x, y) else before.At(x, y)
    {
      if Owner(h, b, x, y) == p && LocalLine(h, b, y) == line && LocalIndex(h, b, x) == xi {
        SampleInPrecinct(h, b, x, y);
      }
    }
  }

  lemma CopyNextLine(h: Headers, p: nat, c: Coeffs, b: nat, before: Plane, now: Plane, line: nat)
    requires Supported(h) && p < NumPrecincts(h) && b < NumBands(h) && Holds(h, p, c)
    requires before.Ok() && Sized(h, b, before) && now.Ok() && Sized(h, b, now)
    requires CopiedUpTo(h, p, c, b, before, now, line, BandPrecinctWidth(h, p, b))
    ensures CopiedUpTo(h, p, c, b, before, now, line + 1, 0)
  {
    hide Supported, NumPrecincts, NumBands, BandOf, Owner, LocalLine, LocalIndex, Holds, BandPrecinctWidth, PlacedSample;
    forall x: nat, y: nat | x < BandOf(h, b).width && y < BandOf(h, b).height
      ensures Copied(h, p, b, x, y, line + 1, 0) <==> Copied(h, p, b, x, y, line, BandPrecinctWidth(h, p, b))
    {
      if Owner(h, b, x, y) == p {
        SampleInPrecinct(h, b, x, y);
      }
    }
  }

  lemma CopyStart(h: Headers, p: nat, c: Coeffs, b: nat, plane: Plane)
    requires Supported(h) && p < NumPrecincts(h) && b < NumBands(h) && Holds(h, p, c) && plane.Ok() && Sized(h, b, plane)
    ensures CopiedUpTo(h, p, c, b, plane, plane, LineStart(h, b), 0)
  {
    hide Supported, NumPrecincts, NumBands, BandOf, Owner, LocalIndex, Holds, PlacedSample, LineStart, LineCount;
    forall x: nat, y: nat | x < BandOf(h, b).width && y < BandOf(h, b).height
      ensures !Copied(h, p, b, x, y, LineStart(h, b), 0)
    {
      SampleInPrecinct(h, b, x, y);
    }
  }

  lemma CopyDone(h: Headers, p: nat, c: Coeffs, b: nat, before: Plane, now: Plane)
    requires Supported(h) && p < NumPrecincts(h) && b < NumBands(h) && Holds(h, p, c)
    requires before.Ok() && Sized(h, b, before) && now.Ok() && Sized(h, b, now)
    requires CopiedUpTo(h, p, c, b, before, now, LineEnd(h, p, b), 0)
    ensures now == PlacedBand(h, p, c, b, before)
  {
    hide Supported, NumPrecincts, NumBands, BandOf, Owner, LocalLine, LocalIndex, Holds, LineStart, LineCount;
    forall x: nat, y: nat | x < BandOf(h, b).width && y < BandOf(h, b).height
      ensures now.At(x, y) == PlacedBand(h, p, c, b, before).At(x, y)
    {
      SampleInPrecinct(h, b, x, y);
    }
    SamePlane(now, PlacedBand(h, p, c, b, before));
  }

  /** Copies one band of a precinct, sample by sample, to its band position. */
  method PlaceBandLines(h: Headers, p: nat, c: Coeffs, b: nat, plane: Plane) returns (now: Plane)
    requires Supported(h) && p < NumPrecincts(h) && b < NumBands(h) && Holds(h, p, c) && plane.Ok() && Sized(h, b, plane)
    ensures now == PlacedBand(h, p, c, b, plane)
  {
    hide Supported, NumPrecincts, NumBands, BandOf, Holds, LineStart, LineCount, BandPrecinctWidth, CopiedUpTo, PlacedBand, Sized;
    now := plane;
    CopyStart(h, p, c, b, plane);
    for line := LineStart(h, b) to LineEnd(h, p, b)
      invariant now.Ok() && Sized(h, b, now)
      invariant CopiedUpTo(h, p, c, b, plane, now, line, 0)
    {
      EntryHeld(h, p, c, b, line);
      var values := c[Entry(b, line)];
      for xi := 0 to |values|
        invariant now.Ok() && Sized(h, b, now)
        invariant CopiedUpTo(h, p, c, b, plane, now, line, xi)
      {
        CopyStep(h, p, c, b, plane, now, line, xi);
        var x, y := PosX(h, p, b, xi), PosY(h, p, b, line);
        if x < now.width && y < now.height {
          now := now.Set(x, y, values[xi]);
        }
      }
      CopyNextLine(h, p, c, b, plane, now, line);
    }
    CopyDone(h, p, c, b, plane, now);
  }

  /** Copies a precinct into the picture-wide buffers. */
  method PlacePrecinct(h: Headers, p: nat, c: Coeffs, image: WaveletTransform.CoefficientImage)
    requires Supported(h) && p < NumPrecincts(h) && Holds(h, p, c) && Allocated(h, image.bands)
    modifies image
    ensures image.bands == Place(h, p, c, old(image.bands))
  {
    hide Supported, NumPrecincts, NumBands, BandOf, Holds, PlacedBand;
    ghost var start := image.bands;
    for b := 0 to |image.bands|
      invariant |image.bands| == |start| == NumBands(h)
      invariant forall i | b <= i < |start| :: image.bands[i] == start[i]
      invariant forall i | 0 <= i < b :: image.bands[i] == PlacedBand(h, p, c, i, start[i])
    {
      var now := PlaceBandLines(h, p, c, b, image.bands[b]);
      image.bands := image.bands[b := now];
    }
    assert image.bands == Place(h, p, c, start);
  }

  /** Reads one line of a precinct from the picture-wide buffers. */
  method ExtractLine(h: Headers, p: nat, e: Entry, image: WaveletTransform.CoefficientImage) returns (values: seq<int>)
    requires Supported(h) && p < NumPrecincts(h) && e.band < NumBands(h) && e.line >= LineStart(h, e.band)
    requires Allocated(h, image.bands)
    ensures values == ExtractedLine(h, p, e, image.bands)
  {
    hide Supported, NumPrecincts, NumBands, BandOf, LineStart, BandPrecinctWidth, PosX, PosY;
    ghost var whole := ExtractedLine(h, p, e, image.bands);
    values := [];
    for xi := 0 to BandPrecinctWidth(h, p, e.band)
      invariant values == whole[..xi]
    {
      var x, y := PosX(h, p, e.band, xi), PosY(h, p, e.band, e.line);
      var plane := image.bands[e.band];
      values := values + [if x < plane.width && y < plane.height then plane.At(x, y) else 0];
    }
  }

  /** Reads a precinct from the picture-wide buffers. */
  method ExtractPrecinct(h: Headers, p: nat, image: WaveletTransform.CoefficientImage) returns (c: Coeffs)
    requires Supported(h) && p < NumPrecincts(h) && Allocated(h, image.bands)
    ensures c == Extract(h, p, image.bands)
  {
    hide Supported, NumPrecincts, NumBands, BandOf, LineStart, LineCount, ExtractedLine, ShapeOf, Shape.Entries, Allocated;
    EntriesOfBand(h, p);
    ghost var entries := ShapeOf(h, p).Entries();
    c := map[];
    for b := 0 to NumBands(h)
      invariant c.Keys <= entries
      invariant forall e | e in entries :: e in c <==> e.band < b
      invariant forall e | e in c :: c[e] == LineFor(h, p, e, image.bands)
    {
      for line := LineStart(h, b) to LineEnd(h, p, b)
        invariant c.Keys <= entries
        invariant forall e | e in entries :: e in c <==> e.band < b || (e.band == b && e.line < line)
        invariant forall e | e in c :: c[e] == LineFor(h, p, e, image.bands)
      {
        EntryFacts(h, p, Entry(b, line));
        var values := ExtractLine(h, p, Entry(b, line), image);
        c := c[Entry(b, line) := values];
      }
    }
    assert c == Extract(h, p, image.bands);
  }

  lemma EntriesOfBand(h: Headers, p: nat)
    requires Supported(h) && p < NumPrecincts(h)
    ensures ShapeOf(h, p).Ok()
    ensures forall e | e in ShapeOf(h, p).Entries() ::
              e.band < NumBands(h) && LineStart(h, e.band) <= e.line < LineEnd(h, p, e.band)
  {
    hide Supported, NumPrecincts, NumBands, LineStart, LineCount, ShapeOf, Shape.Entries;
    ShapeIsOk(h, p);
    forall e | e in ShapeOf(h, p).Entries()
      ensures e.band < NumBands(h) && LineStart(h, e.band) <= e.line < LineEnd(h, p, e.band)
    {
      EntryFacts(h, p, e);
    }
  }
}
