// Which headers can be written at all, and which of the written ones the parser refuses.
module HeaderLimits {
  import opened Wrappers
  import opened Arith
  import opened BitIO
  import opened HeaderTypes
  import opened HeaderFields
  import opened HeaderCodec
  import opened Segments

  // ---- payloads that always fit ----------------------------------------------------------------------

  predicate Bytes(v: seq<nat>) {
    forall i | 0 <= i < |v| :: v[i] < 0x100
  }

  predicate Words(v: seq<nat>) {
    forall i | 0 <= i < |v| :: v[i] < 0x1_0000
  }

  lemma {:induction false} RepeatSame(k: nat, n: nat)
    ensures forall i | 0 <= i < |Repeat([k, k], n)| :: Repeat([k, k], n)[i] == k
  {
    if n > 0 {
      RepeatSame(k, n - 1);
    }
  }

  lemma FieldPowers()
    ensures Pow2(1) == 2 && Pow2(2) == 4 && Pow2(3) == 8 && Pow2(4) == 16 && Pow2(8) == 0x100
    ensures Pow2(15) == 0x8000 && Pow2(16) == 0x1_0000 && Pow2(32) == 0x1_0000_0000
  {
    SmallPowers();
    WordPowers();
    DoubleWordPowers();
    assert Pow2(3) == 2 * Pow2(2);
    assert Pow2(16) == 2 * Pow2(15);
  }

  lemma BytesFit(v: seq<nat>, n: nat)
    requires |v| == 2 * n && Bytes(v)
    ensures Payload(v, WeightWidths(n)).Ok? && |Payload(v, WeightWidths(n)).value| == 2 * n
  {
    hide Pow2, Sum, Repeat, ParsePayload;
    FieldPowers();
    RepeatSame(8, n);
    WeightSize(n);
    PayloadRoundTrip(v, WeightWidths(n));
  }

  lemma WordsFit(v: seq<nat>, n: nat)
    requires |v| == 2 * n && Words(v)
    ensures Payload(v, CrgWidths(n)).Ok? && |Payload(v, CrgWidths(n)).value| == 4 * n
  {
    hide Pow2, Sum, Repeat, ParsePayload;
    FieldPowers();
    RepeatSame(16, n);
    CrgSize(n);
    PayloadRoundTrip(v, CrgWidths(n));
  }

  lemma {:induction false} WeightBytes(exists_: seq<bool>, w: seq<BandWeights>)
    requires |w| == |exists_|
    ensures Bytes(WeightValues(exists_, w))
  {
    if w != [] {
      WeightBytes(exists_[1..], w[1..]);
    }
  }

  lemma {:induction false} CrgWords(c: Crg)
    requires |c.x| == |c.y|
    ensures Words(CrgValues(c))
    decreases |c.x|
  {
    if c.x != [] {
      CrgWords(Crg(c.x[1..], c.y[1..]));
    }
  }

  lemma {:induction false} PairBytes(a: seq<u8>, b: seq<u8>)
    requires |a| == |b|
    ensures Bytes(PairValues(a, b))
  {
    if a != [] {
      PairBytes(a[1..], b[1..]);
    }
  }

  lemma {:induction false} CountAtMost(exists_: seq<bool>)
    ensures Count(exists_) <= |exists_|
  {
    if exists_ != [] {
      CountAtMost(exists_[1..]);
    }
  }

  lemma {:induction false} CdtFits(cs: seq<Component>)
    requires forall i | 0 <= i < |cs| :: cs[i].sx < 16 && cs[i].sy < 16
    ensures Fit(Zip(CdtValues(cs), CdtWidths(|cs|)))
  {
    FieldPowers();
    hide Pow2;
    if cs != [] {
      CdtFits(cs[1..]);
      var v, w := CdtValues(cs), CdtWidths(|cs|);
      var v', w' := CdtValues(cs[1..]), CdtWidths(|cs| - 1);
      assert w == [8, 4, 4] + w';
      forall i | 0 <= i < |v|
        ensures v[i] < Pow2(w[i])
      {
        if i >= 3 {
          assert Zip(v', w')[i - 3] == Fixed(v'[i - 3], w'[i - 3]);
        }
      }
    }
  }

  lemma CdtPayloadFits(cs: seq<Component>)
    requires ComponentsOk(cs)
    ensures Payload(CdtValues(cs), CdtWidths(|cs|)).Ok? && |Payload(CdtValues(cs), CdtWidths(|cs|)).value| == 2 * |cs|
  {
    hide CdtValues, CdtWidths, Sum, ParsePayload;
    CdtFits(cs);
    CdtSize(|cs|);
    PayloadRoundTrip(CdtValues(cs), CdtWidths(|cs|));
  }

  /** The two picture header fields that have no constraint of their own and one bit each. */
  lemma PihFits(h: Headers)
    requires Valid(h)
    ensures Payload(PihValues(h.pih), PIH_WIDTHS).Ok? <==> h.pih.lh <= 1 && h.pih.rl <= 1
    ensures Payload(PihValues(h.pih), PIH_WIDTHS).Ok? ==> |Payload(PihValues(h.pih), PIH_WIDTHS).value| == 24
  {
    hide ComputeBandLayout, BandTablesOk, ComponentsOk, TransformOk, CapabilitiesOk, Has, Sum, ParsePayload, Pow2, MaxSx, MaxSy;
    FieldPowers();
    var v, w := PihValues(h.pih), PIH_WIDTHS;
    assert |h.components| > 0 && h.pih.br <= 5 && h.pih.fq <= 8;
    if h.pih.lh <= 1 && h.pih.rl <= 1 {
      PihFieldsFit(h.pih);
      PihSize();
      PayloadRoundTrip(v, w);
    } else {
      assert Zip(v, w)[18] == Fixed(h.pih.lh, 1) && Zip(v, w)[19] == Fixed(h.pih.rl, 1);
    }
  }

  lemma PihFieldsFit(p: PictureHeader)
    requires p.fq < 16 && p.br < 16 && p.fslc <= 1 && p.ppoc < 8 && p.cpih < 16 && p.nlx < 16 && p.nly < 16
    requires p.lh <= 1 && p.rl <= 1 && p.qpih < 4 && p.fs < 4 && p.rm < 4
    ensures Fit(Zip(PihValues(p), PIH_WIDTHS))
  {
    hide Pow2;
    FieldPowers();
    var v := PihValues(p);
    var a, b, c := v[..8], v[8..16], v[16..];
    assert forall i | 0 <= i < 8 :: a[i] < Pow2(PIH_SIZES[i]);
    assert forall i | 0 <= i < 8 :: b[i] < Pow2(PIH_DEPTHS[i]);
    assert forall i | 0 <= i < 7 :: c[i] < Pow2(PIH_MODES[i]);
    forall i | 0 <= i < |v|
      ensures v[i] < Pow2(PIH_WIDTHS[i])
    {
      if i < 8 {
        assert v[i] == a[i];
      } else if i < 16 {
        assert v[i] == b[i - 8];
      } else {
        assert v[i] == c[i - 16];
      }
    }
  }

  predicate DcoFits(n: Nlt) {
    n.kind == 1 ==> -0x8000 <= n.dco < 0x8000
  }

  lemma NltFits(n: Nlt)
    requires n.kind == 1 || n.kind == 2
    ensures NltPayload(n).Ok? <==> DcoFits(n)
    ensures NltPayload(n).Ok? ==> |NltPayload(n).value| <= 10
  {
    hide Pow2, Sum, ParsePayload;
    FieldPowers();
    SumThree(8, 1, 15);
    SumFour(8, 32, 32, 8);
    if n.kind == 1 {
      var alpha := n.dco + if n.dco < 0 then 0x8000 else 0;
      if 0 <= alpha < 0x8000 {
        PayloadRoundTrip([n.kind, if n.dco < 0 then 1 else 0, alpha], [8, 1, 15]);
      }
    } else {
      PayloadRoundTrip([n.kind, n.t1, n.t2, n.e], [8, 32, 32, 8]);
    }
  }

  lemma CtsFits(c: Cts)
    requires c.cf < 16 && c.e1 < 16 && c.e2 < 16
    ensures CtsPayload(c).Ok? && |CtsPayload(c).value| == 2
  {
    hide Pow2, Sum, ParsePayload;
    FieldPowers();
    SumFour(4, 4, 4, 4);
    PayloadRoundTrip([0, c.cf, c.e1, c.e2], [4, 4, 4, 4]);
  }

  lemma TpcFits(t: Tpc)
    requires -8 <= t.qbi <= 7 && -8 <= t.qbr <= 7 && |t.yh| == |t.sh|
    ensures TpcPayload(t).Ok? && |TpcPayload(t).value| == 2 + 2 * |t.yh|
  {
    hide Pow2, Sum, Repeat, ParsePayload, PairValues;
    FieldPowers();
    PairBytes(t.yh, t.sh);
    RepeatSame(8, |t.yh|);
    TpcSize(|t.yh|);
    var head := [t.si, SignBit(t.qbi), LowBits(t.qbi), SignBit(t.qbr), LowBits(t.qbr)];
    var v, w := head + PairValues(t.yh, t.sh), TPC_HEAD + WeightWidths(|t.yh|);
    forall i | 0 <= i < |v|
      ensures v[i] < Pow2(w[i])
    {
      if i >= 5 {
        assert v[i] == PairValues(t.yh, t.sh)[i - 5] && w[i] == 8;
      }
    }
    PayloadRoundTrip(v, w);
  }

  // ---- segments --------------------------------------------------------------------------------------

  predicate Short(s: Segment) {
    |s.payload| <= 0xFFFD
  }

  predicate AllShort(segments: seq<Segment>) {
    forall i | 0 <= i < |segments| :: Short(segments[i])
  }

  lemma {:induction false} SegmentsFit(segments: seq<Segment>)
    requires MarkersOk(segments)
    ensures SegmentsBytes(segments).Ok? <==> AllShort(segments)
  {
    if segments != [] {
      SegmentsFit(segments[1..]);
      assert segments == [segments[0]] + segments[1..];
    }
  }

  lemma {:induction false} JoinShort(parts: seq<seq<Segment>>)
    ensures AllShort(Join(parts)) <==> forall i | 0 <= i < |parts| :: AllShort(parts[i])
  {
    if parts != [] {
      JoinShort(parts[1..]);
      ShortConcat(parts[0], Join(parts[1..]));
      assert parts == [parts[0]] + parts[1..];
      hide AllShort;
      if forall i | 0 <= i < |parts| :: AllShort(parts[i]) {
        forall i | 0 <= i < |parts[1..]|
          ensures AllShort(parts[1..][i])
        {
          assert AllShort(parts[i + 1]);
        }
      }
    }
  }

  lemma ShortConcat(x: seq<Segment>, y: seq<Segment>)
    ensures AllShort(x + y) <==> AllShort(x) && AllShort(y)
  {
    if AllShort(x + y) {
      forall i | 0 <= i < |y|
        ensures Short(y[i])
      {
        assert (x + y)[|x| + i] == y[i];
      }
      forall i | 0 <= i < |x|
        ensures Short(x[i])
      {
        assert (x + y)[i] == x[i];
      }
    }
  }

  lemma OneShort(s: Segment)
    ensures AllShort([s]) <==> Short(s)
  {
    assert [s][0] == s;
  }

  predicate CommentsFit(comments: seq<Com>) {
    forall i | 0 <= i < |comments| :: |comments[i].data| <= 0xFFFB
  }

  lemma {:induction false} CommentsShort(comments: seq<Com>)
    ensures AllShort(ComSegments(comments)) <==> CommentsFit(comments)
  {
    if comments != [] {
      CommentsShort(comments[1..]);
      var first := Segment(COM, ComPayload(comments[0]));
      ShortConcat([first], ComSegments(comments[1..]));
      OneShort(first);
      assert comments == [comments[0]] + comments[1..];
    }
  }

  lemma CapShort(cap: u32)
    ensures Short(Segment(CAP, CapPayload(cap)))
  {
    hide Pack, CapBits;
    CapFits(cap);
    PackBits(CapBits(cap, 8 * CapBytes(cap)));
  }

  lemma FewBands(h: Headers)
    requires Valid(h)
    ensures LayoutOf(h).numBands <= 176
  {
    hide SizesOk, ComponentsOk, PrecisionOk, TransformOk, CapabilitiesOk, BandTablesOk, BandExists;
    assert h.pih.nly <= 6 by { DepthsBounded(h); }
    var d, n := h.pih.nc - h.sd, NumFilterTypes(h.pih.nlx, h.pih.nly);
    MulMonotone(d, 8, n);
  }

  lemma DepthsBounded(h: Headers)
    requires Valid(h)
    ensures h.pih.nly <= 6
  {
  }

  // ---- the exact conditions --------------------------------------------------------------------------

  /** What the fields of the codestream can carry, beyond the constraints. */
  predicate Writable(h: Headers) {
    && h.pih.lh <= 1 && h.pih.rl <= 1
    && (h.nlt.Some? ==> DcoFits(h.nlt.value))
    && CommentsFit(h.comments)
  }

  /** A part that is missing, or one short segment. */
  predicate PartFits(part: Result<seq<Segment>>) {
    part.Ok? && AllShort(part.value)
  }

  lemma OneFits(marker: nat, payload: Result<seq<byte>>)
    requires payload.Ok? ==> |payload.value| <= 0xFFFD
    ensures One(marker, payload).Ok? <==> payload.Ok?
    ensures payload.Ok? ==> PartFits(One(marker, payload))
  {
    if payload.Ok? {
      OneShort(Segment(marker, payload.value));
    }
  }

  lemma NoneFits()
    ensures PartFits(Ok([]))
  {
  }

  lemma TablesFit(h: Headers)
    requires Valid(h)
    ensures PartFits(CdtPart(h)) && PartFits(WgtPart(h)) && PartFits(WgrPart(h)) && PartFits(CrgPart(h)) && PartFits(TpcPart(h))
  {
    hide Payload, WeightsPayload, TpcPayload, One, CdtValues, CrgValues, WeightValues, PartFits, Bytes, Words, Count,
         ComputeBandLayout,
         PihOk, SizesOk, PrecisionOk, ComponentsOk, WeightWidths, CrgWidths, CdtWidths;
    FewBands(h);
    NoneFits();
    var layout := LayoutOf(h);
    CountAtMost(layout.exists_);
    assert |h.components| <= 8 && ComponentsOk(h.components) by { ComponentsBounded(h); }
    CdtPayloadFits(h.components);
    OneFits(CDT, Payload(CdtValues(h.components), CdtWidths(|h.components|)));
    WeightTableFits(layout, h.weights);
    OneFits(WGT, WeightsPayload(layout.exists_, h.weights));
    if h.refresh.Some? {
      WeightTableFits(layout, h.refresh.value);
      OneFits(WGR, WeightsPayload(layout.exists_, h.refresh.value));
    }
    if h.crg.Some? {
      CrgWords(h.crg.value);
      WordsFit(CrgValues(h.crg.value), |h.crg.value.x|);
      OneFits(CRG, Payload(CrgValues(h.crg.value), CrgWidths(|h.crg.value.x|)));
    }
    if h.tpc.Some? {
      TpcFits(h.tpc.value);
      OneFits(TPC, TpcPayload(h.tpc.value));
    }
  }

  lemma ComponentsBounded(h: Headers)
    requires Valid(h)
    ensures |h.components| <= 8 && ComponentsOk(h.components)
  {
  }

  lemma WeightTableFits(layout: BandLayout, w: seq<BandWeights>)
    requires |w| == |layout.exists_| <= 176
    ensures WeightsPayload(layout.exists_, w).Ok? && |WeightsPayload(layout.exists_, w).value| <= 352
  {
    hide Payload, WeightValues, Bytes, Count, WeightWidths;
    WeightBytes(layout.exists_, w);
    CountAtMost(layout.exists_);
    BytesFit(WeightValues(layout.exists_, w), Count(layout.exists_));
  }

  lemma SmallPartsFit(h: Headers)
    requires Valid(h)
    ensures PihPart(h).Ok? <==> h.pih.lh <= 1 && h.pih.rl <= 1
    ensures PihPart(h).Ok? ==> PartFits(PihPart(h))
    ensures NltPart(h).Ok? <==> (h.nlt.Some? ==> DcoFits(h.nlt.value))
    ensures NltPart(h).Ok? ==> PartFits(NltPart(h))
    ensures PartFits(CtsPart(h))
  {
    hide Payload, NltPayload, CtsPayload, PihValues, One, PartFits, ComputeBandLayout, PihOk, SizesOk, PrecisionOk, ComponentsOk;
    NoneFits();
    PihFits(h);
    OneFits(PIH, Payload(PihValues(h.pih), PIH_WIDTHS));
    if h.nlt.Some? {
      NltFits(h.nlt.value);
      OneFits(NLT, NltPayload(h.nlt.value));
    }
    if h.cts.Some? {
      CtsFits(h.cts.value);
      OneFits(CTS, CtsPayload(h.cts.value));
    }
  }

  lemma PartsFit(h: Headers)
    requires Valid(h)
    ensures PartsOf(h).Ok? <==> h.pih.lh <= 1 && h.pih.rl <= 1 && (h.nlt.Some? ==> DcoFits(h.nlt.value))
    ensures PartsOf(h).Ok? ==> (AllShort(Join(PartsOf(h).value)) <==> CommentsFit(h.comments))
  {
    hide Valid, PihPart, CdtPart, WgtPart, WgrPart, NltPart, CtsPart, CrgPart, TpcPart, AllShort, CapPayload, ComSegments,
         CommentsFit;
    TablesFit(h);
    SmallPartsFit(h);
    if PartsOf(h).Ok? {
      var parts := PartsOf(h).value;
      JoinShort(parts);
      CommentsShort(h.comments);
      CapShort(h.cap);
      OneShort(Segment(CAP, CapPayload(h.cap)));
      CwdShort(h);
      assert AllShort(parts[10]) <==> CommentsFit(h.comments);
    }
  }

  lemma CwdShort(h: Headers)
    ensures AllShort(CwdPart(h))
  {
  }

  /** WriteHeaders returns exactly on valid headers whose fields fit: nothing else can fail. */
  lemma WriteHeadersExact(h: Headers)
    ensures WriteHeaders(h).Ok? <==> Valid(h) && Writable(h)
  {
    hide Valid, PartsOf, Join, SegmentsBytes, AllShort;
    if Valid(h) {
      PartsFit(h);
      if PartsOf(h).Ok? {
        PartsMarked(h);
        SegmentsFit(Join(PartsOf(h).value));
      }
    }
  }
}
