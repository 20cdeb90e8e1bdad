// The whole header of a codestream, segment by segment (Annex A), as bytes.
module HeaderSegments {
  import opened Wrappers
  import opened Arith
  import opened BitIO
  import opened HeaderTypes
  import opened HeaderFields
  import opened HeaderLayout
  import opened Segments
  import HeaderCodec

  /** What every stream starts with: SOC, CAP, PIH, the component table and the weights. */
  function FrontBytes(h: Headers): seq<int>
    requires Valid(h)
  {
    [0xFF, 0x10] + (SegmentOf(0xFF50, HeaderCodec.CapPayload(h.cap)) + (SegmentOf(0xFF12, PihBytes(h.pih))
    + (SegmentOf(0xFF13, CdtBytes(h.components))
    + SegmentOf(0xFF14, WeightBytes(HeaderCodec.LayoutOf(h).exists_, h.weights)))))
  }

  function RefreshBytes(h: Headers): seq<int>
    requires Valid(h)
  {
    if h.refresh.None? then []
    else SegmentOf(0xFF1B, WeightBytes(HeaderCodec.LayoutOf(h).exists_, h.refresh.value))
  }

  /** Kind 1 with its offset as a two's complement word, or kind 2 with two thresholds and a slope. */
  function NltBytes(n: Nlt): seq<int> {
    if n.kind == 1 then [1, n.dco / 0x100 % 0x100, n.dco % 0x100]
    else [2] + U32Bytes(n.t1) + U32Bytes(n.t2) + [n.e]
  }

  /** Four bits of a two's complement number. */
  function Nibble(q: int): int {
    if q < 0 then 16 + q else q
  }

  function TpcBytes(t: Tpc): seq<int>
    requires |t.yh| == |t.sh|
  {
    [t.si, 16 * Nibble(t.qbi) + Nibble(t.qbr)] + Pairs(t.yh, t.sh)
  }

  function Pairs(a: seq<u8>, b: seq<u8>): seq<int>
    requires |a| == |b|
  {
    if a == [] then [] else [a[0], b[0]] + Pairs(a[1..], b[1..])
  }

  function ComBytes(comments: seq<Com>): seq<int> {
    if comments == [] then []
    else SegmentOf(0xFF15, [comments[0].kind / 0x100, comments[0].kind % 0x100] + comments[0].data) + ComBytes(comments[1..])
  }

  /** Segments only some streams have. */
  function OptionalBytes(h: Headers): seq<int>
    requires Valid(h) && TpcShaped(h) && CrgShaped(h)
  {
    RefreshBytes(h)
    + ((if h.nlt.None? then [] else SegmentOf(0xFF16, NltBytes(h.nlt.value)))
    + ((if h.sd > 0 then SegmentOf(0xFF17, [h.sd]) else [])
    + ((if h.cts.None? then [] else SegmentOf(0xFF18, [h.cts.value.cf, 16 * h.cts.value.e1 + h.cts.value.e2]))
    + ((if h.crg.None? then [] else SegmentOf(0xFF19, CrgWords(h.crg.value.x, h.crg.value.y)))
    + ((if h.tpc.None? then [] else SegmentOf(0xFF1A, TpcBytes(h.tpc.value)))
    + ComBytes(h.comments))))))
  }

  predicate TpcShaped(h: Headers) {
    h.tpc.Some? ==> |h.tpc.value.yh| == |h.tpc.value.sh|
  }

  predicate CrgShaped(h: Headers) {
    h.crg.Some? ==> |h.crg.value.x| == |h.crg.value.y|
  }

  // ---- runs of segments ------------------------------------------------------------------------------

  function RunBytes(segments: seq<Segment>): seq<int> {
    if segments == [] then [] else SegmentOf(segments[0].marker, segments[0].payload) + RunBytes(segments[1..])
  }

  lemma {:induction false} RunLayout(segments: seq<Segment>)
    requires MarkersOk(segments) && SegmentsBytes(segments).Ok?
    ensures SegmentsBytes(segments).value == RunBytes(segments)
  {
    if segments != [] {
      assert segments == [segments[0]] + segments[1..];
      FirstSegment(segments[0], segments[1..]);
      RunLayout(segments[1..]);
    }
  }

  lemma {:induction false} RunConcat(a: seq<Segment>, b: seq<Segment>)
    ensures RunBytes(a + b) == RunBytes(a) + RunBytes(b)
  {
    hide SegmentOf;
    if a == [] {
      assert a + b == b;
    } else {
      assert (a + b)[0] == a[0] && (a + b)[1..] == a[1..] + b;
      RunConcat(a[1..], b);
    }
  }

  lemma RunOne(marker: nat, payload: seq<byte>)
    ensures RunBytes([Segment(marker, payload)]) == SegmentOf(marker, payload)
  {
    hide SegmentOf;
  }

  lemma JoinRuns(parts: seq<seq<Segment>>)
    requires parts != []
    ensures RunBytes(HeaderCodec.Join(parts)) == RunBytes(parts[0]) + RunBytes(HeaderCodec.Join(parts[1..]))
  {
    hide RunBytes;
    RunConcat(parts[0], HeaderCodec.Join(parts[1..]));
  }

  // ---- payloads --------------------------------------------------------------------------------------

  lemma {:induction false} PairsListed(a: seq<u8>, b: seq<u8>)
    requires |a| == |b|
    ensures PairValues(a, b) == Pairs(a, b)
  {
    if a != [] {
      PairsListed(a[1..], b[1..]);
    }
  }

  lemma {:induction false} PairsSmall(a: seq<u8>, b: seq<u8>)
    requires |a| == |b|
    ensures forall i | 0 <= i < |PairValues(a, b)| :: PairValues(a, b)[i] < 0x100
  {
    if a != [] {
      PairsSmall(a[1..], b[1..]);
    }
  }

  lemma PackedSigns(a: nat, b: nat, c: nat, d: nat)
    requires a < 2 && b < 8 && c < 2 && d < 8
    ensures Packed([a, b, c, d], [1, 3, 1, 3]) == [128 * a + 16 * b + 8 * c + d] && Sum([1, 3, 1, 3]) == 8
  {
    hide FieldsBits, Pow2, Sum;
    SmallPowers();
    SevenBits();
    TwoFields(c, 1, d, 3);
    HeaderLayout.PrependField(b, 3, [c, d], [1, 3]);
    assert [b] + [c, d] == [b, c, d] && [3] + [1, 3] == [3, 1, 3];
    HeaderLayout.PrependField(a, 1, [b, c, d], [3, 1, 3]);
    assert [a] + [b, c, d] == [a, b, c, d] && [1] + [3, 1, 3] == [1, 3, 1, 3];
    PackOctet(FieldsBits(Zip([a, b, c, d], [1, 3, 1, 3])));
    SumConcat([1, 3], [1, 3]);
    SumTwo(1, 3);
    assert [1, 3] + [1, 3] == [1, 3, 1, 3];
  }

  /** TPC: two numbers of four bits in its second byte, then a pair per band. */
  lemma TpcLayout(t: Tpc)
    requires -8 <= t.qbi <= 7 && -8 <= t.qbr <= 7 && |t.yh| == |t.sh| && TpcPayload(t).Ok?
    ensures TpcPayload(t).value == TpcBytes(t)
  {
    hide FieldsBits, Pack, Sum, Zip, Fit, PairValues, Pairs, WeightWidths, Repeat;
    var signs := [SignBit(t.qbi), LowBits(t.qbi), SignBit(t.qbr), LowBits(t.qbr)];
    var pairs, widths := PairValues(t.yh, t.sh), WeightWidths(|t.yh|);
    PackedByte(t.si);
    PackedSigns(signs[0], signs[1], signs[2], signs[3]);
    PairsOfEights(|t.yh|);
    PairsSmall(t.yh, t.sh);
    PairsListed(t.yh, t.sh);
    PackedBytes(pairs);
    PackedAppend(signs, [1, 3, 1, 3], pairs, widths);
    PackedAppend([t.si], [8], signs + pairs, [1, 3, 1, 3] + widths);
    assert [t.si] + (signs + pairs) ==
           [t.si, SignBit(t.qbi), LowBits(t.qbi), SignBit(t.qbr), LowBits(t.qbr)] + pairs;
    assert [8] + ([1, 3, 1, 3] + widths) == TPC_HEAD + widths;
  }

  lemma {:induction false} ComLayout(comments: seq<Com>)
    ensures RunBytes(HeaderCodec.ComSegments(comments)) == ComBytes(comments)
  {
    hide SegmentOf;
    if comments != [] {
      ComLayout(comments[1..]);
    }
  }

  // ---- the whole header ------------------------------------------------------------------------------

  lemma NoSegments()
    ensures RunBytes([]) == []
  {
  }

  lemma Shapes(h: Headers)
    requires Valid(h)
    ensures TpcShaped(h) && CrgShaped(h)
    ensures h.nlt.Some? ==> h.nlt.value.kind == 1 || h.nlt.value.kind == 2
    ensures h.tpc.Some? ==> -8 <= h.tpc.value.qbi <= 7 && -8 <= h.tpc.value.qbr <= 7
  {
    hide ComputeBandLayout, Pow2;
  }

  lemma FrontRuns(h: Headers)
    requires Valid(h) && HeaderCodec.PihPart(h).Ok? && HeaderCodec.CdtPart(h).Ok? && HeaderCodec.WgtPart(h).Ok?
    ensures RunBytes(HeaderCodec.PihPart(h).value) == SegmentOf(0xFF12, PihBytes(h.pih))
    ensures RunBytes(HeaderCodec.CdtPart(h).value) == SegmentOf(0xFF13, CdtBytes(h.components))
    ensures RunBytes(HeaderCodec.WgtPart(h).value) ==
            SegmentOf(0xFF14, WeightBytes(HeaderCodec.LayoutOf(h).exists_, h.weights))
  {
    hide Payload, WeightsPayload, HeaderCodec.LayoutOf, PihValues, CdtValues, CdtBytes, PihBytes, Valid, WeightBytes, RunBytes,
         SegmentOf;
    PihLayout(h.pih);
    CdtLayout(h);
    WeightsLayout(HeaderCodec.LayoutOf(h).exists_, h.weights);
    RunOne(PIH, Payload(PihValues(h.pih), PIH_WIDTHS).value);
    RunOne(CDT, Payload(CdtValues(h.components), CdtWidths(|h.components|)).value);
    RunOne(WGT, WeightsPayload(HeaderCodec.LayoutOf(h).exists_, h.weights).value);
  }

  lemma RefreshRun(h: Headers)
    requires Valid(h) && HeaderCodec.WgrPart(h).Ok?
    ensures RunBytes(HeaderCodec.WgrPart(h).value) == RefreshBytes(h)
  {
    hide WeightsPayload, HeaderCodec.LayoutOf, Valid, WeightBytes, RunBytes, SegmentOf;
    NoSegments();
    if h.refresh.Some? {
      WeightsLayout(HeaderCodec.LayoutOf(h).exists_, h.refresh.value);
      RunOne(WGR, WeightsPayload(HeaderCodec.LayoutOf(h).exists_, h.refresh.value).value);
    }
  }

  lemma OffsetBytes(dco: int)
    ensures -0x8000 <= dco < 0x8000 ==>
              U16Bytes(if dco < 0 then 0x1_0000 + dco else dco) == [dco / 0x100 % 0x100, dco % 0x100]
  {
  }

  lemma NltFits(n: Nlt)
    requires NltPayload(n).Ok? && n.kind == 1
    ensures -0x8000 <= n.dco < 0x8000
  {
    hide Payload;
  }

  lemma NltBytesAre(n: Nlt)
    requires NltPayload(n).Ok? && (n.kind == 1 || n.kind == 2)
    ensures NltPayload(n).value == NltBytes(n)
  {
    hide NltPayload, U16Bytes, U32Bytes;
    NltLayout(n);
    if n.kind == 1 {
      NltFits(n);
      OffsetBytes(n.dco);
      assert [1] + [n.dco / 0x100 % 0x100, n.dco % 0x100] == [1, n.dco / 0x100 % 0x100, n.dco % 0x100];
    }
  }

  lemma NltRun(h: Headers)
    requires Valid(h) && HeaderCodec.NltPart(h).Ok?
    ensures RunBytes(HeaderCodec.NltPart(h).value) == if h.nlt.None? then [] else SegmentOf(0xFF16, NltBytes(h.nlt.value))
  {
    hide NltPayload, RunBytes, SegmentOf, Valid;
    NoSegments();
    Shapes(h);
    if h.nlt.Some? {
      NltBytesAre(h.nlt.value);
      RunOne(NLT, NltPayload(h.nlt.value).value);
    }
  }

  lemma CrgPayload(c: Crg)
    requires |c.x| == |c.y| && Payload(CrgValues(c), CrgWidths(|c.x|)).Ok?
    ensures Payload(CrgValues(c), CrgWidths(|c.x|)).value == CrgWords(c.x, c.y)
  {
    hide FieldsBits, Pack, Fit, CrgValues, CrgWidths, CrgWords;
    CrgLayout(c);
  }

  lemma OtherRuns(h: Headers)
    requires Valid(h) && HeaderCodec.CtsPart(h).Ok? && HeaderCodec.CrgPart(h).Ok? && HeaderCodec.TpcPart(h).Ok?
    ensures TpcShaped(h) && CrgShaped(h)
    ensures RunBytes(HeaderCodec.CwdPart(h)) == if h.sd > 0 then SegmentOf(0xFF17, [h.sd]) else []
    ensures RunBytes(HeaderCodec.CtsPart(h).value) ==
            if h.cts.None? then [] else SegmentOf(0xFF18, [h.cts.value.cf, 16 * h.cts.value.e1 + h.cts.value.e2])
    ensures RunBytes(HeaderCodec.CrgPart(h).value) ==
            if h.crg.None? then [] else SegmentOf(0xFF19, CrgWords(h.crg.value.x, h.crg.value.y))
    ensures RunBytes(HeaderCodec.TpcPart(h).value) == if h.tpc.None? then [] else SegmentOf(0xFF1A, TpcBytes(h.tpc.value))
  {
    hide Payload, CtsPayload, TpcPayload, RunBytes, SegmentOf, Valid, CrgValues, CrgWords, TpcBytes;
    NoSegments();
    Shapes(h);
    if h.sd > 0 {
      RunOne(Segments.CWD, [h.sd]);
    }
    if h.cts.Some? {
      CtsLayout(h.cts.value);
      RunOne(CTS, CtsPayload(h.cts.value).value);
    }
    if h.crg.Some? {
      CrgPayload(h.crg.value);
      RunOne(CRG, Payload(CrgValues(h.crg.value), CrgWidths(|h.crg.value.x|)).value);
    }
    if h.tpc.Some? {
      TpcLayout(h.tpc.value);
      RunOne(TPC, TpcPayload(h.tpc.value).value);
    }
  }

  /** The parts of the header one by one. */
  lemma PartsRuns(h: Headers)
    requires Valid(h) && HeaderCodec.PartsOf(h).Ok?
    ensures TpcShaped(h) && CrgShaped(h)
    ensures [0xFF, 0x10] + RunBytes(HeaderCodec.Join(HeaderCodec.PartsOf(h).value)) == FrontBytes(h) + OptionalBytes(h)
  {
    hide Valid, HeaderCodec.PihPart, HeaderCodec.CdtPart, HeaderCodec.WgtPart, HeaderCodec.WgrPart, HeaderCodec.NltPart,
         HeaderCodec.CwdPart, HeaderCodec.CtsPart, HeaderCodec.CrgPart, HeaderCodec.TpcPart, HeaderCodec.CapPayload,
         HeaderCodec.ComSegments, RunBytes, SegmentOf, HeaderCodec.LayoutOf, WeightBytes, HeaderCodec.Join, PihBytes, CdtBytes,
         RefreshBytes, NltBytes, TpcBytes, CrgWords, ComBytes;
    var parts := HeaderCodec.PartsOf(h).value;
    FrontRuns(h);
    RefreshRun(h);
    NltRun(h);
    OtherRuns(h);
    ComLayout(h.comments);
    RunOne(CAP, HeaderCodec.CapPayload(h.cap));
    ElevenRuns(parts);
  }

  /** Runs of the parts from i on, one after the other. */
  function Runs(parts: seq<seq<Segment>>, i: nat): seq<int>
    requires i <= |parts|
    decreases |parts| - i
  {
    if i == |parts| then [] else RunBytes(parts[i]) + Runs(parts, i + 1)
  }

  lemma {:induction false} RunsJoined(parts: seq<seq<Segment>>, i: nat)
    requires i <= |parts|
    ensures RunBytes(HeaderCodec.Join(parts[i..])) == Runs(parts, i)
    decreases |parts| - i
  {
    hide RunBytes;
    NoSegments();
    if i < |parts| {
      assert parts[i..][0] == parts[i] && parts[i..][1..] == parts[i + 1..];
      JoinRuns(parts[i..]);
      RunsJoined(parts, i + 1);
    }
  }

  lemma ElevenRuns(parts: seq<seq<Segment>>)
    requires |parts| == 11
    ensures RunBytes(HeaderCodec.Join(parts)) ==
            RunBytes(parts[0]) + (RunBytes(parts[1]) + (RunBytes(parts[2]) + (RunBytes(parts[3]) + (RunBytes(parts[4])
            + (RunBytes(parts[5]) + (RunBytes(parts[6]) + (RunBytes(parts[7]) + (RunBytes(parts[8]) + (RunBytes(parts[9])
            + RunBytes(parts[10]))))))))))
  {
    hide RunBytes, HeaderCodec.Join;
    RunsJoined(parts, 0);
    assert parts[0..] == parts;
    assert Runs(parts, 10) == RunBytes(parts[10]) + Runs(parts, 11) == RunBytes(parts[10]);
    assert Runs(parts, 9) == RunBytes(parts[9]) + Runs(parts, 10);
    assert Runs(parts, 8) == RunBytes(parts[8]) + Runs(parts, 9);
    assert Runs(parts, 7) == RunBytes(parts[7]) + Runs(parts, 8);
    assert Runs(parts, 6) == RunBytes(parts[6]) + Runs(parts, 7);
    assert Runs(parts, 5) == RunBytes(parts[5]) + Runs(parts, 6);
    assert Runs(parts, 4) == RunBytes(parts[4]) + Runs(parts, 5);
    assert Runs(parts, 3) == RunBytes(parts[3]) + Runs(parts, 4);
    assert Runs(parts, 2) == RunBytes(parts[2]) + Runs(parts, 3);
    assert Runs(parts, 1) == RunBytes(parts[1]) + Runs(parts, 2);
    assert Runs(parts, 0) == RunBytes(parts[0]) + Runs(parts, 1);
  }

  /** The header of every codestream: each segment with its marker, length and fields, in the order of the markers. */
  lemma HeaderBytesAre(h: Headers)
    requires HeaderCodec.WriteHeaders(h).Ok?
    ensures Valid(h) && TpcShaped(h) && CrgShaped(h)
    ensures HeaderCodec.WriteHeaders(h).value == FrontBytes(h) + OptionalBytes(h)
  {
    hide Valid, HeaderCodec.PartsOf, HeaderCodec.Join, SegmentsBytes, FrontBytes, OptionalBytes, RunBytes;
    HeaderCodec.PartsMarked(h);
    PartsRuns(h);
    RunLayout(HeaderCodec.Join(HeaderCodec.PartsOf(h).value));
  }
}
