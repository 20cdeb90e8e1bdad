// The header writer and parser as they run: bit cursors, an output that grows segment by segment, and
// scans over the collected segments.
module HeaderStream {
  import opened Wrappers
  import opened Arith
  import opened BitIO
  import opened HeaderTypes
  import opened HeaderFields
  import opened Segments
  import opened HeaderCodec

  // ---- payloads --------------------------------------------------------------------------------------

  method WritePayload(values: seq<nat>, widths: seq<nat>) returns (r: Result<seq<byte>>)
    requires |values| == |widths| && Narrow(widths)
    ensures r == Payload(values, widths)
  {
    hide Fit, FieldsBits, Pack;
    var w := new BitWriter();
    var _ :- PutFields(w, Zip(values, widths));
    assert [] + FieldsBits(Zip(values, widths)) == FieldsBits(Zip(values, widths));
    var bytes := w.Take();
    return Ok(bytes);
  }

  predicate Narrow(widths: seq<nat>) {
    forall i | 0 <= i < |widths| :: widths[i] <= 32
  }

  /** Fields of a payload whose size has been checked. */
  method ReadPayload(widths: seq<nat>, payload: seq<byte>) returns (r: Result<seq<nat>>)
    requires Narrow(widths)
    ensures r == ParsePayload(widths, payload)
  {
    hide Sum, Bits, ReadFields;
    if 8 * |payload| != Sum(widths) {
      return Err(BadHeader);
    }
    var reader := new BitReader(payload, 0);
    assert payload[0..] == payload;
    r := ReadAll(reader, widths);
  }

  lemma {:induction false} RepeatNarrow(widths: seq<nat>, n: nat)
    requires Narrow(widths)
    ensures Narrow(Repeat(widths, n))
  {
    if n > 0 {
      RepeatNarrow(widths, n - 1);
    }
  }

  /** Capability bits up to the highest set, bit by bit. */
  method WriteCap(cap: u32) returns (payload: seq<byte>)
    ensures payload == CapPayload(cap)
  {
    hide Pack, BitLength, Has;
    var n := 8 * CapBytes(cap);
    var w := new BitWriter();
    for i := 0 to n
      invariant w.Valid() && w.Contents == CapBits(cap, n)[..i]
    {
      w.PutBit(Has(cap, i));
    }
    assert CapBits(cap, n)[..n] == CapBits(cap, n);
    payload := w.Take();
  }

  lemma CapValueSnoc(bits: seq<bool>, i: nat)
    requires i < |bits|
    ensures CapValue(bits[..i + 1]) == CapValue(bits[..i]) + if bits[i] then Pow2(i) else 0
  {
    assert bits[..i + 1][..i] == bits[..i];
  }

  /** Sets one capability per bit read; bits from 32 on are refused. */
  method ReadCap(payload: seq<byte>) returns (r: Result<u32>)
    ensures r == ParseCap(payload)
  {
    hide Bits, CapValue, Pow2, ParseCap;
    ghost var bits := Bits(payload);
    var reader := new BitReader(payload, 0);
    assert payload[0..] == payload;
    var cap: nat := 0;
    assert bits[..0] == [] && CapValue([]) == 0 by { NoBits(); }
    BitCount(payload);
    for i := 0 to 8 * |payload|
      invariant reader.Valid() && reader.Rest() == bits[i..]
      invariant cap == CapValue(bits[..i])
      invariant forall k | 32 <= k < i :: !bits[k]
    {
      CapValueSnoc(bits, i);
      var bit := reader.Bit();
      if bit.value {
        if i >= 32 {
          HighRefused(payload, i);
          return Err(BadHeader);
        }
        cap := cap + Pow2(i);
      }
    }
    assert bits[..8 * |payload|] == bits;
    CapParsed(payload);
    if payload != [] && payload[|payload| - 1] == 0 {
      return Err(BadHeader);
    }
    return Ok(ToU32(cap));
  }

  lemma HighRefused(payload: seq<byte>, i: nat)
    requires 32 <= i < |Bits(payload)| && Bits(payload)[i]
    ensures ParseCap(payload) == Err(BadHeader)
  {
    hide Bits, CapValue;
  }

  lemma CapParsed(payload: seq<byte>)
    requires forall k | 32 <= k < |Bits(payload)| :: !Bits(payload)[k]
    ensures ParseCap(payload) ==
            if payload != [] && payload[|payload| - 1] == 0 then Err(BadHeader) else Ok(ToU32(CapValue(Bits(payload))))
  {
    hide Bits, CapValue;
  }

  lemma NoBits()
    ensures CapValue([]) == 0
  {
  }

  lemma BitCount(payload: seq<byte>)
    ensures |Bits(payload)| == 8 * |payload|
  {
  }

  // ---- writer ----------------------------------------------------------------------------------------

  /** The segment of a payload that may have failed. */
  method Single(marker: nat, payload: Result<seq<byte>>) returns (r: Result<seq<Segment>>)
    ensures r == One(marker, payload)
  {
    var p :- payload;
    return Ok([Segment(marker, p)]);
  }

  lemma FixedWidths(h: Headers)
    requires Valid(h)
    ensures Narrow(PIH_WIDTHS) && Narrow(CdtWidths(|h.components|)) && Narrow(WeightWidths(Count(LayoutOf(h).exists_)))
    ensures h.crg.Some? ==> Narrow(CrgWidths(|h.crg.value.x|))
  {
    hide Valid, LayoutOf, Count, Repeat;
    RepeatNarrow([8, 4, 4], |h.components|);
    RepeatNarrow([8, 8], Count(LayoutOf(h).exists_));
    if h.crg.Some? {
      RepeatNarrow([16, 16], |h.crg.value.x|);
    }
  }

  method WriteNlt(n: Nlt) returns (r: Result<seq<byte>>)
    ensures r == NltPayload(n)
  {
    hide Payload;
    if n.kind == 1 {
      var sigma := if n.dco < 0 then 1 else 0;
      var alpha := n.dco + sigma * 0x8000;
      if alpha < 0 || alpha >= 0x8000 {
        return Err(BadHeader);
      }
      r := WritePayload([n.kind, sigma, alpha], [8, 1, 15]);
    } else {
      r := WritePayload([n.kind, n.t1, n.t2, n.e], [8, 32, 32, 8]);
    }
  }

  lemma TpcNarrow(n: nat)
    ensures Narrow(TPC_HEAD + WeightWidths(n))
  {
    RepeatNarrow([8, 8], n);
  }

  method WriteWgr(h: Headers) returns (r: Result<seq<Segment>>)
    requires Valid(h)
    ensures r == WgrPart(h)
  {
    hide Valid, Payload, LayoutOf, WeightValues, WeightWidths, CrgWidths, CdtWidths;
    FixedWidths(h);
    if h.refresh.None? {
      return Ok([]);
    }
    var exists_ := LayoutOf(h).exists_;
    var p := WritePayload(WeightValues(exists_, h.refresh.value), WeightWidths(Count(exists_)));
    r := Single(WGR, p);
  }

  method WriteCrg(h: Headers) returns (r: Result<seq<Segment>>)
    requires Valid(h)
    ensures r == CrgPart(h)
  {
    hide Valid, Payload, CrgValues, LayoutOf, CrgWidths, Narrow, WeightWidths, CdtWidths;
    FixedWidths(h);
    ValidSd(h);
    if h.crg.None? {
      return Ok([]);
    }
    var p := WritePayload(CrgValues(h.crg.value), CrgWidths(|h.crg.value.x|));
    r := Single(CRG, p);
  }

  method WriteTpc(h: Headers) returns (r: Result<seq<Segment>>)
    requires Valid(h)
    ensures r == TpcPart(h)
  {
    hide Valid, Payload, PairValues, LayoutOf;
    ValidSd(h);
    if h.tpc.None? {
      return Ok([]);
    }
    var t := h.tpc.value;
    TpcNarrow(|t.yh|);
    var head := [t.si, SignBit(t.qbi), LowBits(t.qbi), SignBit(t.qbr), LowBits(t.qbr)];
    var p := WritePayload(head + PairValues(t.yh, t.sh), TPC_HEAD + WeightWidths(|t.yh|));
    r := Single(TPC, p);
  }

  method WriteSmallParts(h: Headers) returns (nlt: Result<seq<Segment>>, cts: Result<seq<Segment>>)
    ensures nlt == NltPart(h) && cts == CtsPart(h)
  {
    hide Payload, NltPayload;
    nlt, cts := Ok([]), Ok([]);
    if h.nlt.Some? {
      var p := WriteNlt(h.nlt.value);
      nlt := Single(NLT, p);
    }
    if h.cts.Some? {
      var c := h.cts.value;
      var p := WritePayload([0, c.cf, c.e1, c.e2], [4, 4, 4, 4]);
      cts := Single(CTS, p);
    }
  }

  method WriteMandatory(h: Headers) returns (pih: Result<seq<Segment>>, cdt: Result<seq<Segment>>, wgt: Result<seq<Segment>>)
    requires Valid(h)
    ensures pih == PihPart(h) && cdt == CdtPart(h) && wgt == WgtPart(h)
  {
    hide Valid, Payload, LayoutOf, PihValues, CdtValues, WeightValues, WeightWidths, CrgWidths, CdtWidths;
    FixedWidths(h);
    var exists_ := LayoutOf(h).exists_;
    var p := WritePayload(PihValues(h.pih), PIH_WIDTHS);
    pih := Single(PIH, p);
    p := WritePayload(CdtValues(h.components), CdtWidths(|h.components|));
    cdt := Single(CDT, p);
    p := WritePayload(WeightValues(exists_, h.weights), WeightWidths(Count(exists_)));
    wgt := Single(WGT, p);
  }

  /** Appends segments to the output, each with marker and length. */
  method PutAll(segments: seq<Segment>, out0: seq<byte>) returns (r: Result<seq<byte>>)
    requires MarkersOk(segments)
    ensures r == match SegmentsBytes(segments)
                 case Ok(bytes) => Ok(out0 + bytes)
                 case Err(e) => Err(e)
  {
    hide SegmentBytes;
    var out := out0;
    ghost var goal := Behind(out0, SegmentsBytes(segments));
    for i := 0 to |segments|
      invariant goal == Behind(out, SegmentsBytes(segments[i..]))
    {
      assert segments[i..][0] == segments[i] && segments[i..][1..] == segments[i + 1..];
      AfterSegment(out, segments[i..]);
      out :- PutSegment(segments[i].marker, segments[i].payload, out);
    }
    assert out + [] == out;
    return Ok(out);
  }

  lemma AfterSegment(out: seq<byte>, segments: seq<Segment>)
    requires MarkersOk(segments) && segments != []
    ensures Behind(out, SegmentsBytes(segments)) ==
            match SegmentBytes(segments[0])
            case Ok(first) => Behind(out + first, SegmentsBytes(segments[1..]))
            case Err(e) => Err(e)
  {
    hide SegmentBytes;
    if SegmentsBytes(segments).Ok? {
      assert out + (SegmentBytes(segments[0]).value + SegmentsBytes(segments[1..]).value)
          == out + SegmentBytes(segments[0]).value + SegmentsBytes(segments[1..]).value;
    }
  }

  method ListComments(comments: seq<Com>) returns (segments: seq<Segment>)
    ensures segments == ComSegments(comments)
  {
    segments := [];
    for i := 0 to |comments|
      invariant ComSegments(comments) == segments + ComSegments(comments[i..])
    {
      var c := comments[i];
      assert comments[i..][1..] == comments[i + 1..];
      segments := segments + [Segment(COM, [c.kind / 256, c.kind % 256] + c.data)];
    }
  }

  /** All parts of the headers, mandatory and optional. */
  method ListParts(h: Headers) returns (r: Result<seq<seq<Segment>>>)
    requires Valid(h)
    ensures r == PartsOf(h)
  {
    hide Valid, PihPart, CdtPart, WgtPart, WgrPart, NltPart, CtsPart, CrgPart, TpcPart, CapPayload, ComSegments;
    var cap := WriteCap(h.cap);
    var pihPart, cdtPart, wgtPart := WriteMandatory(h);
    var pih :- pihPart;
    var cdt :- cdtPart;
    var wgt :- wgtPart;
    var wgr :- WriteWgr(h);
    var nltPart, ctsPart := WriteSmallParts(h);
    var nlt :- nltPart;
    var cwd := if h.sd > 0 then [Segment(Segments.CWD, [h.sd])] else [];
    var cts :- ctsPart;
    var crg :- WriteCrg(h);
    var tpc :- WriteTpc(h);
    var coms := ListComments(h.comments);
    return Ok([[Segment(CAP, cap)], pih, cdt, wgt, wgr, nlt, cwd, cts, crg, tpc, coms]);
  }

  /** SOC, then every segment in order. */
  method WriteHeaderBytes(h: Headers) returns (r: Result<seq<byte>>)
    ensures r == WriteHeaders(h)
  {
    hide Valid, PartsOf, SegmentsBytes, SegmentBytes;
    if !Valid(h) {
      return Err(BadHeader);
    }
    var parts :- ListParts(h);
    PartsMarked(h);
    var segments := [];
    ghost var all := Join(parts);
    for i := 0 to |parts|
      invariant all == segments + Join(parts[i..])
    {
      assert parts[i..][0] == parts[i] && parts[i..][1..] == parts[i + 1..];
      segments := segments + parts[i];
    }
    assert segments == all;
    r := PutAll(segments, [0xFF, 0x10]);
  }

  // ---- parser ----------------------------------------------------------------------------------------

  method ReadPih(payload: seq<byte>) returns (r: Result<PictureHeader>)
    ensures r == ParsePih(payload)
  {
    hide ParsePayload;
    var v :- ReadPayload(PIH_WIDTHS, payload);
    return Ok(PihOf(v));
  }

  method ReadCdt(nc: nat, payload: seq<byte>) returns (r: Result<seq<Component>>)
    ensures r == ParseCdt(nc, payload)
  {
    hide ParsePayload;
    RepeatNarrow([8, 4, 4], nc);
    var v :- ReadPayload(CdtWidths(nc), payload);
    return Ok(CdtOf(nc, v));
  }

  lemma PairNarrow(n: nat)
    ensures Narrow(WeightWidths(n))
  {
    RepeatNarrow([8, 8], n);
  }

  lemma NextWeights(exists_: seq<bool>, v: seq<nat>, b: nat, next: nat)
    requires b < |exists_| && next <= |v| && |v[next..]| == 2 * Count(exists_[b..])
    ensures if exists_[b] then
              && next + 2 <= |v| && |v[next + 2..]| == 2 * Count(exists_[b + 1..])
              && WeightsOf(exists_[b..], v[next..]) ==
                 [BandWeights(ToU8(v[next]), ToU8(v[next + 1]))] + WeightsOf(exists_[b + 1..], v[next + 2..])
            else
              && |v[next..]| == 2 * Count(exists_[b + 1..])
              && WeightsOf(exists_[b..], v[next..]) == [NO_WEIGHTS] + WeightsOf(exists_[b + 1..], v[next..])
  {
    hide ToU8;
    assert exists_[b..][0] == exists_[b] && exists_[b..][1..] == exists_[b + 1..];
    if exists_[b] {
      assert v[next..][2..] == v[next + 2..];
    }
  }

  lemma NoMoreWeights(exists_: seq<bool>, v: seq<nat>)
    requires exists_ == []
    ensures Count(exists_) == 0
    ensures v == [] ==> WeightsOf(exists_, v) == []
  {
  }

  /** Entries of the existing bands in order; the others keep zero weights. */
  method ReadWeights(exists_: seq<bool>, payload: seq<byte>) returns (r: Result<seq<BandWeights>>)
    ensures r == ParseWeights(exists_, payload)
  {
    hide ParsePayload, GainsOk, WeightsOf, Count, Repeat, Narrow;
    PairNarrow(Count(exists_));
    var v :- ReadPayload(WeightWidths(Count(exists_)), payload);
    var w: seq<BandWeights> := [];
    var next: nat := 0;
    for b := 0 to |exists_|
      invariant next + 2 * Count(exists_[b..]) == |v|
      invariant WeightsOf(exists_, v) == w + WeightsOf(exists_[b..], v[next..])
    {
      NextWeights(exists_, v, b, next);
      if exists_[b] {
        w := w + [BandWeights(ToU8(v[next]), ToU8(v[next + 1]))];
        next := next + 2;
      } else {
        w := w + [NO_WEIGHTS];
      }
    }
    NoMoreWeights(exists_[|exists_|..], v[next..]);
    assert w + [] == w;
    if GainsOk(w) {
      return Ok(w);
    }
    return Err(BadHeader);
  }

  method ReadNlt(payload: seq<byte>) returns (r: Result<Nlt>)
    ensures r == ParseNlt(payload)
  {
    hide ParsePayload;
    if |payload| == 3 {
      var v :- ReadPayload([8, 1, 15], payload);
      if v[0] != 1 {
        return Err(BadHeader);
      }
      return Ok(Nlt(1, Signed(v[2], v[1], 0x8000), 0, 0, 1));
    } else if |payload| == 10 {
      var v :- ReadPayload([8, 32, 32, 8], payload);
      if v[0] != 2 || v[3] < 1 || v[3] > 4 {
        return Err(BadHeader);
      }
      return Ok(Nlt(2, 0, ToU32(v[1]), ToU32(v[2]), ToU8(v[3])));
    }
    return Err(BadHeader);
  }

  method ReadCts(payload: seq<byte>) returns (r: Result<Cts>)
    ensures r == ParseCts(payload)
  {
    hide ParsePayload;
    var v :- ReadPayload([4, 4, 4, 4], payload);
    if v[0] != 0 {
      return Err(BadHeader);
    }
    return Ok(Cts(ToU8(v[1]), ToU8(v[2]), ToU8(v[3])));
  }

  method ReadCrg(nc: nat, payload: seq<byte>) returns (r: Result<Crg>)
    ensures r == ParseCrg(nc, payload)
  {
    hide ParsePayload;
    RepeatNarrow([16, 16], nc);
    var v :- ReadPayload(CrgWidths(nc), payload);
    return Ok(CrgOf(nc, v));
  }

  method ReadTpc(numBands: nat, payload: seq<byte>) returns (r: Result<Tpc>)
    ensures r == ParseTpc(numBands, payload)
  {
    hide ParsePayload;
    TpcNarrow(numBands);
    var v :- ReadPayload(TPC_HEAD + WeightWidths(numBands), payload);
    var pairs := PairsOf(numBands, v[5..]);
    return Ok(Tpc(ToU8(v[0]), Signed(v[2], v[1], 8), Signed(v[4], v[3], 8), pairs.0, pairs.1));
  }

  /** CAP, PIH, CDT and CWD: what the band table is computed from. */
  method ReadFront(segments: seq<Segment>) returns (r: Result<Front>)
    ensures r == ParseFront(segments)
  {
    hide FindOne, ParseCap, ParsePih, ParseCdt;
    if |segments| < 2 || segments[0].marker != CAP || segments[1].marker != PIH {
      return Err(BadHeader);
    }
    var cap :- ReadCap(segments[0].payload);
    var pih :- ReadPih(segments[1].payload);
    var cdt :- FindSegment(segments, CDT);
    if cdt.None? {
      return Err(BadHeader);
    }
    var components :- ReadCdt(pih.nc, cdt.value);
    var sd: u8 := 0;
    var cwd :- FindSegment(segments, Segments.CWD);
    if cwd.Some? {
      if |cwd.value| != 1 {
        return Err(BadHeader);
      }
      sd := cwd.value[0];
    }
    if sd >= pih.nc {
      return Err(BadHeader);
    }
    return Ok(Front(cap, pih, components, sd));
  }

  /** Fields that may be missing, given the front and the band table. */
  datatype Rest = Rest(refresh: Option<seq<BandWeights>>, nlt: Option<Nlt>, cts: Option<Cts>, crg: Option<Crg>, tpc: Option<Tpc>)

  function ParseRest(nc: nat, layout: BandLayout, segments: seq<Segment>): Result<Rest> {
    var wgr :- FindOne(segments, WGR);
    var refresh :- Optionally(wgr, ParseWeights(layout.exists_, Given(wgr)));
    var nltAt :- FindOne(segments, NLT);
    var nlt :- Optionally(nltAt, ParseNlt(Given(nltAt)));
    var ctsAt :- FindOne(segments, CTS);
    var cts :- Optionally(ctsAt, ParseCts(Given(ctsAt)));
    var crgAt :- FindOne(segments, CRG);
    var crg :- Optionally(crgAt, ParseCrg(nc, Given(crgAt)));
    var tpcAt :- FindOne(segments, TPC);
    var tpc :- Optionally(tpcAt, ParseTpc(layout.numBands, Given(tpcAt)));
    Ok(Rest(refresh, nlt, cts, crg, tpc))
  }

  method ReadRest(nc: nat, layout: BandLayout, segments: seq<Segment>) returns (r: Result<Rest>)
    ensures r == ParseRest(nc, layout, segments)
  {
    hide FindOne, ParseWeights, ParseNlt, ParseCts, ParseCrg, ParseTpc;
    var refresh: Option<seq<BandWeights>> := None;
    var nlt: Option<Nlt> := None;
    var cts: Option<Cts> := None;
    var crg: Option<Crg> := None;
    var tpc: Option<Tpc> := None;
    var wgrAt :- FindSegment(segments, WGR);
    if wgrAt.Some? {
      var v :- ReadWeights(layout.exists_, wgrAt.value);
      refresh := Some(v);
    }
    var nltAt :- FindSegment(segments, NLT);
    if nltAt.Some? {
      var v :- ReadNlt(nltAt.value);
      nlt := Some(v);
    }
    var ctsAt :- FindSegment(segments, CTS);
    if ctsAt.Some? {
      var v :- ReadCts(ctsAt.value);
      cts := Some(v);
    }
    var crgAt :- FindSegment(segments, CRG);
    if crgAt.Some? {
      var v :- ReadCrg(nc, crgAt.value);
      crg := Some(v);
    }
    var tpcAt :- FindSegment(segments, TPC);
    if tpcAt.Some? {
      var v :- ReadTpc(layout.numBands, tpcAt.value);
      tpc := Some(v);
    }
    return Ok(Rest(refresh, nlt, cts, crg, tpc));
  }

  lemma {:induction false} MoreComs(done: seq<seq<byte>>, more: seq<seq<byte>>)
    ensures ParseComs(done + more) ==
            match ParseComs(done)
            case Ok(a) => (match ParseComs(more) case Ok(b) => Ok(a + b) case Err(e) => Err(e))
            case Err(e) => Err(e)
  {
    if done == [] {
      assert done + more == more;
      if ParseComs(more).Ok? {
        assert [] + ParseComs(more).value == ParseComs(more).value;
      }
    } else {
      assert (done + more)[0] == done[0] && (done + more)[1..] == done[1..] + more;
      MoreComs(done[1..], more);
      if ParseCom(done[0]).Ok? && ParseComs(done[1..]).Ok? && ParseComs(more).Ok? {
        assert [ParseCom(done[0]).value] + (ParseComs(done[1..]).value + ParseComs(more).value)
            == [ParseCom(done[0]).value] + ParseComs(done[1..]).value + ParseComs(more).value;
      }
    }
  }

  lemma OneCom(payload: seq<byte>)
    ensures ParseComs([payload]) ==
            match ParseCom(payload)
            case Ok(c) => Ok([c])
            case Err(e) => Err(e)
  {
    hide ParseCom;
    assert [payload][1..] == [];
    assert ParseComs([]) == Ok([]);
    if ParseCom(payload).Ok? {
      assert [ParseCom(payload).value] + [] == [ParseCom(payload).value];
    }
  }

  /** Comments in order; any marker that does not belong among the headers is refused. */
  method ReadComments(segments: seq<Segment>) returns (r: Result<seq<Com>>)
    ensures r.Ok? <==>
              ParseComs(Payloads(segments, COM)).Ok? && forall i | 0 <= i < |segments| :: Known(segments[i].marker)
    ensures r.Ok? ==> r == ParseComs(Payloads(segments, COM))
  {
    hide ParseCom, Known, ParseComs;
    var comments: seq<Com> := [];
    assert segments[..0] == [] && Payloads([], COM) == [] && ParseComs([]) == Ok([]) by { NoComs(); }
    for i := 0 to |segments|
      invariant ParseComs(Payloads(segments[..i], COM)) == Ok(comments)
      invariant forall k | 0 <= k < i :: Known(segments[k].marker)
    {
      var s := segments[i];
      assert segments[..i + 1] == segments[..i] + [s];
      PayloadsConcat(segments[..i], [s], COM);
      PayloadsOfOne(s, COM);
      MoreComs(Payloads(segments[..i], COM), Payloads([s], COM));
      if s.marker == COM {
        OneCom(s.payload);
        var c := ParseCom(s.payload);
        if c.Err? {
          assert segments == segments[..i + 1] + segments[i + 1..];
          PayloadsConcat(segments[..i + 1], segments[i + 1..], COM);
          MoreComs(Payloads(segments[..i + 1], COM), Payloads(segments[i + 1..], COM));
          return Err(BadHeader);
        }
        comments := comments + [c.value];
      } else {
        NoComs();
        assert comments + [] == comments;
      }
      if !Known(s.marker) {
        return Err(BadHeader);
      }
    }
    assert segments[..|segments|] == segments;
    return Ok(comments);
  }

  lemma NoComs()
    ensures Payloads([], COM) == [] && ParseComs([]) == Ok([])
  {
  }

  /** From segments to validated headers. */
  method InterpretSegments(segments: seq<Segment>) returns (r: Result<Headers>)
    ensures r.Ok? <==> Interpret(segments).Ok?
    ensures r.Ok? ==> r == Interpret(segments)
  {
    hide FindOne, ParseFront, ParseWeights, ParseComs, Payloads, Valid, ComputeBandLayout, Known, Optionally, ParseNlt, ParseCts,
         ParseCrg, ParseTpc;
    var f :- ReadFront(segments);
    var layout :- ComputeBandLayout(f.pih, f.components, f.sd);
    var wgt :- FindSegment(segments, WGT);
    if wgt.None? {
      return Err(BadHeader);
    }
    var weights :- ReadWeights(layout.exists_, wgt.value);
    var rest :- ReadRest(f.pih.nc, layout, segments);
    var comments :- ReadComments(segments);
    var h := Headers(f.cap, f.pih, f.components, weights, rest.refresh, rest.nlt, f.sd, rest.cts, rest.crg, rest.tpc, comments);
    if !Valid(h) {
      return Err(BadHeader);
    }
    return Ok(h);
  }

  /** Headers from the start of a codestream, and where the first slice begins. */
  method ParseHeaderBytes(data: seq<byte>) returns (r: Result<(Headers, int)>)
    ensures r.Ok? <==> ParseHeaders(data).Ok?
    ensures r.Ok? ==> r == ParseHeaders(data)
  {
    hide ReadSegments, Interpret;
    var soc :- ReadU16(data, 0);
    if soc != SOC {
      return Err(BadHeader);
    }
    var collected :- CollectSegments(data, 2);
    var h :- InterpretSegments(collected.0);
    return Ok((h, collected.1));
  }
}
