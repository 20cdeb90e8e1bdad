// Writing and parsing the codestream headers (Annex A).
module HeaderCodec {
  import opened Wrappers
  import opened Arith
  import opened BitIO
  import opened HeaderTypes
  import opened HeaderFields
  import opened Segments

  // ---- CAP -------------------------------------------------------------------------------------------

  /** Capability bits 0 .. n-1, bit 0 leftmost. */
  function CapBits(cap: u32, n: nat): (r: seq<bool>)
    ensures |r| == n
  {
    seq(n, i requires 0 <= i < n => Has(cap, i))
  }

  /** Bytes up to the highest capability bit set. */
  function CapBytes(cap: u32): nat {
    if cap == 0 then 0 else (BitLength(cap) - 1) / 8 + 1
  }

  function CapPayload(cap: u32): seq<byte> {
    Pack(CapBits(cap, 8 * CapBytes(cap)))
  }

  function CapValue(bits: seq<bool>): nat {
    if bits == [] then 0 else CapValue(bits[..|bits| - 1]) + if bits[|bits| - 1] then Pow2(|bits| - 1) else 0
  }

  function ParseCap(payload: seq<byte>): Result<u32> {
    if exists i | 32 <= i < |Bits(payload)| :: Bits(payload)[i] then Err(BadHeader)
    else if payload != [] && payload[|payload| - 1] == 0 then Err(BadHeader)
    else Ok(ToU32(CapValue(Bits(payload))))
  }

  lemma {:induction false} CapValueOf(cap: u32, n: nat)
    ensures CapValue(CapBits(cap, n)) == cap % Pow2(n)
  {
    if n > 0 {
      CapValueOf(cap, n - 1);
      assert CapBits(cap, n)[..n - 1] == CapBits(cap, n - 1);
      ShrNext(cap, n - 1);
      ModuloNext(cap, Pow2(n - 1));
    }
  }

  lemma ModuloNext(v: nat, p: nat)
    requires p >= 1
    ensures v % (2 * p) == v % p + if (v / p) % 2 == 1 then p else 0
  {
    DivMod(v, p);
    DivMod(v / p, 2);
    var q, r := (v / p) / 2, v % p + if (v / p) % 2 == 1 then p else 0;
    TwoFactors(p, v / p, q);
    DivUnique(v, 2 * p, q);
    DivMod(v, 2 * p);
    TwoFactors(p, 2 * q, q);
    MulCommute(2 * p, q);
  }

  lemma TwoFactors(p: int, d: int, q: int)
    ensures p * (2 * q) == (2 * p) * q && p * (2 * q + 1) == (2 * p) * q + p
  {
  }

  lemma TopBit(v: nat)
    requires v > 0
    ensures BitLength(v) >= 1 && Shr(v, BitLength(v) - 1) == 1
  {
    var m := BitLength(v);
    BitLengthLeast(v, m);
    BitLengthLeast(v, m - 1);
    assert Pow2(m) == 2 * Pow2(m - 1);
    DivUnique(v, Pow2(m - 1), 1);
  }

  lemma CapRoundTrip(cap: u32)
    ensures ParseCap(CapPayload(cap)) == Ok(cap)
  {
    hide Pow2, BitLength, CapBits, CapValue, Bits, Pack, CapBytes;
    var n := CapBytes(cap);
    var bits := CapBits(cap, 8 * n);
    PackBits(bits);
    assert Bits(CapPayload(cap)) == bits + [] == bits;
    CapFits(cap);
    CapValueOf(cap, 8 * n);
    Reduced(cap, Pow2(8 * n));
    if cap != 0 {
      LastCapByte(cap);
    } else {
      NoCap();
    }
  }

  lemma NoCap()
    ensures CapPayload(0) == []
  {
  }

  lemma Reduced(v: nat, p: nat)
    requires v < p
    ensures v % p == v
  {
    DivUnique(v, p, 0);
    DivMod(v, p);
  }

  lemma CapFits(cap: u32)
    ensures 8 * CapBytes(cap) <= 32 && cap < Pow2(8 * CapBytes(cap))
  {
    hide Pow2;
    WordPowers();
    SmallPowers();
    BitLengthLeast(cap, 32);
    if cap != 0 {
      BitLengthLeast(cap, BitLength(cap));
      Pow2Monotone(BitLength(cap), 8 * CapBytes(cap));
    }
  }

  /** The last byte holds the highest bit set, so it is not zero. */
  lemma LastCapByte(cap: u32)
    requires cap != 0
    ensures CapPayload(cap) != [] && CapPayload(cap)[|CapPayload(cap)| - 1] != 0
  {
    hide BitLength, Pow2, ByteOf, BitAt;
    TopBit(cap);
    var top := BitLength(cap) - 1;
    var bits := CapBits(cap, 8 * CapBytes(cap));
    ByteOfBit(bits, 8 * (top / 8), top % 8);
    assert bits[top];
    NonZero(ByteOf(bits, 8 * (top / 8)), top % 8);
  }

  lemma NonZero(b: byte, k: nat)
    requires k < 8 && BitAt(b, k)
    ensures b != 0
  {
  }

  // ---- the segments of a header ----------------------------------------------------------------------

  function One(marker: nat, payload: Result<seq<byte>>): Result<seq<Segment>> {
    var p :- payload;
    Ok([Segment(marker, p)])
  }

  function ComSegments(comments: seq<Com>): (r: seq<Segment>)
    ensures forall i | 0 <= i < |r| :: r[i].marker == COM
  {
    if comments == [] then [] else [Segment(COM, ComPayload(comments[0]))] + ComSegments(comments[1..])
  }

  function LayoutOf(h: Headers): (layout: BandLayout)
    requires Valid(h)
    ensures |layout.exists_| == layout.numBands == |h.weights|
    ensures h.refresh.Some? ==> |h.refresh.value| == layout.numBands
    ensures h.tpc.Some? ==> |h.tpc.value.yh| == |h.tpc.value.sh| == layout.numBands
  {
    ComputeBandLayout(h.pih, h.components, h.sd).value
  }

  /** Markers in the order they are written. */
  const MARKER_ORDER: seq<nat> := [CAP, PIH, CDT, WGT, WGR, NLT, Segments.CWD, CTS, CRG, TPC, COM]

  function PihPart(h: Headers): Result<seq<Segment>> {
    One(PIH, Payload(PihValues(h.pih), PIH_WIDTHS))
  }

  function CdtPart(h: Headers): Result<seq<Segment>> {
    One(CDT, Payload(CdtValues(h.components), CdtWidths(|h.components|)))
  }

  function WgtPart(h: Headers): Result<seq<Segment>>
    requires Valid(h)
  {
    One(WGT, WeightsPayload(LayoutOf(h).exists_, h.weights))
  }

  function WgrPart(h: Headers): Result<seq<Segment>>
    requires Valid(h)
  {
    if h.refresh.None? then Ok([]) else One(WGR, WeightsPayload(LayoutOf(h).exists_, h.refresh.value))
  }

  function NltPart(h: Headers): Result<seq<Segment>> {
    if h.nlt.None? then Ok([]) else One(NLT, NltPayload(h.nlt.value))
  }

  function CwdPart(h: Headers): seq<Segment> {
    if h.sd > 0 then [Segment(Segments.CWD, [h.sd])] else []
  }

  function CtsPart(h: Headers): Result<seq<Segment>> {
    if h.cts.None? then Ok([]) else One(CTS, CtsPayload(h.cts.value))
  }

  function CrgPart(h: Headers): Result<seq<Segment>>
    requires Valid(h)
  {
    if h.crg.None? then Ok([]) else One(CRG, Payload(CrgValues(h.crg.value), CrgWidths(|h.crg.value.x|)))
  }

  function TpcPart(h: Headers): Result<seq<Segment>>
    requires Valid(h)
  {
    if h.tpc.None? then Ok([]) else One(TPC, TpcPayload(h.tpc.value))
  }

  /** The segments of each marker in that order. */
  function PartsOf(h: Headers): Result<seq<seq<Segment>>>
    requires Valid(h)
  {
    var pih :- PihPart(h);
    var cdt :- CdtPart(h);
    var wgt :- WgtPart(h);
    var wgr :- WgrPart(h);
    var nlt :- NltPart(h);
    var cts :- CtsPart(h);
    var crg :- CrgPart(h);
    var tpc :- TpcPart(h);
    Ok([[Segment(CAP, CapPayload(h.cap))], pih, cdt, wgt, wgr, nlt, CwdPart(h), cts, crg, tpc, ComSegments(h.comments)])
  }

  function Join(parts: seq<seq<Segment>>): seq<Segment> {
    if parts == [] then [] else parts[0] + Join(parts[1..])
  }

  /** Part i holds segments of marker i only. */
  ghost predicate Sorted(parts: seq<seq<Segment>>, markers: seq<nat>) {
    && |parts| == |markers|
    && forall i, j | 0 <= i < |parts| && 0 <= j < |parts[i]| :: parts[i][j].marker == markers[i]
  }

  lemma {:induction false} NoPayloads(segments: seq<Segment>, marker: nat)
    requires forall j | 0 <= j < |segments| :: segments[j].marker != marker
    ensures Payloads(segments, marker) == []
  {
    if segments != [] {
      NoPayloads(segments[1..], marker);
    }
  }

  lemma {:induction false} PayloadsElsewhere(parts: seq<seq<Segment>>, markers: seq<nat>, marker: nat)
    requires Sorted(parts, markers) && forall i | 0 <= i < |markers| :: markers[i] != marker
    ensures Payloads(Join(parts), marker) == []
  {
    if parts != [] {
      PayloadsConcat(parts[0], Join(parts[1..]), marker);
      NoPayloads(parts[0], marker);
      PayloadsElsewhere(parts[1..], markers[1..], marker);
    }
  }

  /** Segments of one marker are found in their own part. */
  lemma {:induction false} PayloadsOfPart(parts: seq<seq<Segment>>, markers: seq<nat>, i: nat)
    requires Sorted(parts, markers) && i < |parts|
    requires forall j, k | 0 <= j < k < |markers| :: markers[j] != markers[k]
    ensures Payloads(Join(parts), markers[i]) == Payloads(parts[i], markers[i])
  {
    PayloadsConcat(parts[0], Join(parts[1..]), markers[i]);
    if i == 0 {
      PayloadsElsewhere(parts[1..], markers[1..], markers[0]);
      assert Payloads(parts[0], markers[0]) + [] == Payloads(parts[0], markers[0]);
    } else {
      NoPayloads(parts[0], markers[i]);
      PayloadsOfPart(parts[1..], markers[1..], i - 1);
    }
  }

  // ---- parsing ---------------------------------------------------------------------------------------

  predicate Known(marker: nat) {
    marker in MARKER_ORDER
  }

  function ParseComs(payloads: seq<seq<byte>>): Result<seq<Com>> {
    if payloads == [] then Ok([]) else
    var first :- ParseCom(payloads[0]);
    var rest :- ParseComs(payloads[1..]);
    Ok([first] + rest)
  }

  /** Fields that need no band table. */
  datatype Front = Front(cap: u32, pih: PictureHeader, components: seq<Component>, sd: u8)

  function ParseFront(segments: seq<Segment>): (r: Result<Front>)
    ensures r.Ok? ==> |r.value.components| == r.value.pih.nc && r.value.sd < r.value.pih.nc
  {
    if |segments| < 2 || segments[0].marker != CAP || segments[1].marker != PIH then Err(BadHeader) else
    var cap :- ParseCap(segments[0].payload);
    var pih :- ParsePih(segments[1].payload);
    var cdt :- FindOne(segments, CDT);
    if cdt.None? then Err(BadHeader) else
    var components :- ParseCdt(pih.nc, cdt.value);
    var cwd :- FindOne(segments, Segments.CWD);
    if cwd.Some? && |cwd.value| != 1 then Err(BadHeader) else
    var sd: u8 := if cwd.Some? then cwd.value[0] else 0;
    if sd >= pih.nc then Err(BadHeader) else Ok(Front(cap, pih, components, sd))
  }

  function Optionally<T>(payload: Option<seq<byte>>, parsed: Result<T>): Result<Option<T>> {
    if payload.None? then Ok(None) else
    var v :- parsed;
    Ok(Some(v))
  }

  function Given(payload: Option<seq<byte>>): seq<byte> {
    if payload.Some? then payload.value else []
  }

  function Interpret(segments: seq<Segment>): Result<Headers> {
    var f :- ParseFront(segments);
    var layout :- ComputeBandLayout(f.pih, f.components, f.sd);
    var wgt :- FindOne(segments, WGT);
    if wgt.None? then Err(BadHeader) else
    var weights :- ParseWeights(layout.exists_, wgt.value);
    var wgr :- FindOne(segments, WGR);
    var refresh :- Optionally(wgr, ParseWeights(layout.exists_, Given(wgr)));
    var nltAt :- FindOne(segments, NLT);
    var nlt :- Optionally(nltAt, ParseNlt(Given(nltAt)));
    var ctsAt :- FindOne(segments, CTS);
    var cts :- Optionally(ctsAt, ParseCts(Given(ctsAt)));
    var crgAt :- FindOne(segments, CRG);
    var crg :- Optionally(crgAt, ParseCrg(f.pih.nc, Given(crgAt)));
    var tpcAt :- FindOne(segments, TPC);
    var tpc :- Optionally(tpcAt, ParseTpc(layout.numBands, Given(tpcAt)));
    var comments :- ParseComs(Payloads(segments, COM));
    var h := Headers(f.cap, f.pih, f.components, weights, refresh, nlt, f.sd, cts, crg, tpc, comments);
    if (exists i | 0 <= i < |segments| :: !Known(segments[i].marker)) || !Valid(h) then Err(BadHeader) else Ok(h)
  }

  /** Headers and the offset of the first slice (or end) marker. */
  function ParseHeaders(data: seq<byte>): Result<(Headers, int)> {
    var soc :- ReadU16(data, 0);
    if soc != SOC then Err(BadHeader) else
    var (segments, rest) :- ReadSegments(data[2..]);
    var h :- Interpret(segments);
    Ok((h, |data| - |rest|))
  }

  function WriteHeaders(h: Headers): Result<seq<byte>> {
    if !Valid(h) then Err(BadHeader) else
    var parts :- PartsOf(h);
    PartsMarked(h);
    var body :- SegmentsBytes(Join(parts));
    Ok(U16Bytes(SOC) + body)
  }

  // ---- round trip ------------------------------------------------------------------------------------

  lemma PartsSorted(h: Headers)
    requires Valid(h) && PartsOf(h).Ok?
    ensures Sorted(PartsOf(h).value, MARKER_ORDER)
  {
    hide Valid, Payload, WeightsPayload, NltPayload, CtsPayload, TpcPayload, CapPayload, LayoutOf;
  }

  lemma {:induction false} JoinMarked(parts: seq<seq<Segment>>, markers: seq<nat>)
    requires Sorted(parts, markers)
    ensures forall i | 0 <= i < |Join(parts)| :: Join(parts)[i].marker in markers
  {
    if parts != [] {
      JoinMarked(parts[1..], markers[1..]);
    }
  }

  lemma PartsMarked(h: Headers)
    requires Valid(h) && PartsOf(h).Ok?
    ensures MarkersOk(Join(PartsOf(h).value)) && Segments.Readable(Join(PartsOf(h).value))
    ensures forall i | 0 <= i < |Join(PartsOf(h).value)| :: Known(Join(PartsOf(h).value)[i].marker)
  {
    hide Valid, PartsOf, Join;
    PartsSorted(h);
    JoinMarked(PartsOf(h).value, MARKER_ORDER);
  }

  /** What the parser makes of written headers. */
  function Kept(h: Headers): Headers
    requires Valid(h)
  {
    var exists_ := LayoutOf(h).exists_;
    h.(weights := Present(exists_, h.weights),
       refresh := if h.refresh.Some? then Some(Present(exists_, h.refresh.value)) else None,
       nlt := if h.nlt.Some? then Some(NltKept(h.nlt.value)) else None)
  }

  /** Ranges the parser checks beyond those the writer checks. */
  predicate Parseable(h: Headers)
    requires Valid(h)
  {
    && (h.nlt.Some? && h.nlt.value.kind == 2 ==> 1 <= h.nlt.value.e <= 4)
    && (h.refresh.Some? ==> GainsOk(Present(LayoutOf(h).exists_, h.refresh.value)))
  }

  lemma KeptValid(h: Headers)
    requires Valid(h)
    ensures Valid(Kept(h)) && GainsOk(Present(LayoutOf(h).exists_, h.weights))
  {
    hide PihOk, ComponentsOk, SizesOk, ComputeBandLayout;
  }

  lemma {:induction false} ComsBack(comments: seq<Com>)
    ensures ParseComs(Payloads(ComSegments(comments), COM)) == Ok(comments)
  {
    if comments != [] {
      var segments := ComSegments(comments);
      assert segments[0] == Segment(COM, ComPayload(comments[0])) && segments[1..] == ComSegments(comments[1..]);
      ComRoundTrip(comments[0]);
      ComsBack(comments[1..]);
      var payloads := Payloads(segments, COM);
      assert payloads[0] == ComPayload(comments[0]) && payloads[1..] == Payloads(ComSegments(comments[1..]), COM);
      assert comments == [comments[0]] + comments[1..];
    } else {
      assert ComSegments(comments) == [];
    }
  }

  lemma Found(parts: seq<seq<Segment>>, i: nat)
    requires Sorted(parts, MARKER_ORDER) && i < |MARKER_ORDER| && |parts[i]| <= 1
    ensures FindOne(Join(parts), MARKER_ORDER[i]) == Ok(if parts[i] == [] then None else Some(parts[i][0].payload))
  {
    hide Join, Payloads;
    PayloadsOfPart(parts, MARKER_ORDER, i);
    if parts[i] == [] {
      NoPayloads(parts[i], MARKER_ORDER[i]);
    } else {
      assert parts[i] == [parts[i][0]];
      PayloadsOfOne(parts[i][0], MARKER_ORDER[i]);
    }
  }

  /** The parts the front of the parser looks at. */
  lemma FrontParts(h: Headers)
    requires Valid(h) && PartsOf(h).Ok?
    ensures Payload(PihValues(h.pih), PIH_WIDTHS).Ok? && Payload(CdtValues(h.components), CdtWidths(|h.components|)).Ok?
    ensures var parts := PartsOf(h).value;
            && |parts| == 11
            && parts[0] == [Segment(CAP, CapPayload(h.cap))]
            && parts[1] == [Segment(PIH, Payload(PihValues(h.pih), PIH_WIDTHS).value)]
            && parts[2] == [Segment(CDT, Payload(CdtValues(h.components), CdtWidths(|h.components|)).value)]
            && parts[6] == if h.sd > 0 then [Segment(Segments.CWD, [h.sd])] else []
  {
    hide Valid, Payload, CapPayload, WeightsPayload, NltPayload, CtsPayload, TpcPayload, LayoutOf, PihValues, CdtValues, CrgValues;
  }

  lemma FrontBack(h: Headers)
    requires Valid(h) && PartsOf(h).Ok?
    ensures ParseFront(Join(PartsOf(h).value)) == Ok(Front(h.cap, h.pih, h.components, h.sd))
  {
    hide Valid, Join, FindOne, Payload, ParsePih, ParseCdt, ParseCap, CapPayload, PartsOf, Sorted, PihValues, CdtValues;
    ValidSd(h);
    var parts := PartsOf(h).value;
    FrontParts(h);
    PartsSorted(h);
    FirstTwo(parts);
    CapRoundTrip(h.cap);
    PihRoundTrip(h.pih);
    CdtRoundTrip(h.components);
    Found(parts, 2);
    Found(parts, 6);
  }

  lemma ValidSd(h: Headers)
    requires Valid(h)
    ensures |h.components| == h.pih.nc && h.sd < h.pih.nc && ComputeBandLayout(h.pih, h.components, h.sd) == Ok(LayoutOf(h))
    ensures h.nlt.Some? ==> h.nlt.value.kind == 1 || h.nlt.value.kind == 2
    ensures h.crg.Some? ==> |h.crg.value.x| == |h.crg.value.y| == h.pih.nc
    ensures h.tpc.Some? ==> -8 <= h.tpc.value.qbi <= 7 && -8 <= h.tpc.value.qbr <= 7
  {
    hide PihOk, ComponentsOk, SizesOk;
  }

  lemma FirstTwo(parts: seq<seq<Segment>>)
    requires |parts| >= 2 && |parts[0]| == 1 && |parts[1]| == 1
    ensures |Join(parts)| >= 2 && Join(parts)[0] == parts[0][0] && Join(parts)[1] == parts[1][0]
  {
    assert Join(parts) == parts[0] + (parts[1] + Join(parts[1..][1..]));
  }

  /** The payload of a part with one segment at most. */
  function PayloadOf(part: seq<Segment>): Option<seq<byte>> {
    if part == [] then None else Some(part[0].payload)
  }

  /** Where the parser finds the parts behind the front. */
  lemma OptionalParts(h: Headers)
    requires Valid(h) && PartsOf(h).Ok?
    ensures WgtPart(h).Ok? && WgrPart(h).Ok? && NltPart(h).Ok? && CtsPart(h).Ok? && CrgPart(h).Ok? && TpcPart(h).Ok?
    ensures var s := Join(PartsOf(h).value);
            && FindOne(s, WGT) == Ok(PayloadOf(WgtPart(h).value)) && FindOne(s, WGR) == Ok(PayloadOf(WgrPart(h).value))
            && FindOne(s, NLT) == Ok(PayloadOf(NltPart(h).value)) && FindOne(s, CTS) == Ok(PayloadOf(CtsPart(h).value))
            && FindOne(s, CRG) == Ok(PayloadOf(CrgPart(h).value)) && FindOne(s, TPC) == Ok(PayloadOf(TpcPart(h).value))
            && Payloads(s, COM) == Payloads(ComSegments(h.comments), COM)
  {
    hide Valid, Join, Payloads, FindOne, Payload, CapPayload, WeightsPayload, NltPayload, CtsPayload, TpcPayload, LayoutOf, Sorted,
         PihValues, CdtValues, CrgValues, ComSegments;
    var parts := PartsOf(h).value;
    PartsSorted(h);
    Found(parts, 3);
    Found(parts, 4);
    Found(parts, 5);
    Found(parts, 7);
    Found(parts, 8);
    Found(parts, 9);
    PayloadsOfPart(parts, MARKER_ORDER, 10);
  }

  /** Weight tables parse back, or fail on their gains. */
  lemma TablesBack(h: Headers)
    requires Valid(h) && WgtPart(h).Ok? && WgrPart(h).Ok?
    ensures var exists_ := LayoutOf(h).exists_;
            && PayloadOf(WgtPart(h).value).Some?
            && ParseWeights(exists_, PayloadOf(WgtPart(h).value).value) == Ok(Present(exists_, h.weights))
            && Optionally(PayloadOf(WgrPart(h).value), ParseWeights(exists_, Given(PayloadOf(WgrPart(h).value)))) ==
               if h.refresh.None? then Ok(None)
               else if GainsOk(Present(exists_, h.refresh.value)) then Ok(Some(Present(exists_, h.refresh.value)))
               else Err(BadHeader)
  {
    hide Valid, WeightsPayload, ParseWeights, LayoutOf, Present, GainsOk;
    KeptValid(h);
    WeightsRoundTrip(LayoutOf(h).exists_, h.weights);
    if h.refresh.Some? {
      WeightsRoundTrip(LayoutOf(h).exists_, h.refresh.value);
    }
  }

  /** The other optional segments parse back, the extended slope permitting. */
  lemma SettingsBack(h: Headers)
    requires Valid(h) && NltPart(h).Ok? && CtsPart(h).Ok? && CrgPart(h).Ok? && TpcPart(h).Ok?
    ensures Optionally(PayloadOf(NltPart(h).value), ParseNlt(Given(PayloadOf(NltPart(h).value)))) ==
            if h.nlt.None? then Ok(None)
            else if h.nlt.value.kind == 1 || 1 <= h.nlt.value.e <= 4 then Ok(Some(NltKept(h.nlt.value)))
            else Err(BadHeader)
    ensures Optionally(PayloadOf(CtsPart(h).value), ParseCts(Given(PayloadOf(CtsPart(h).value)))) == Ok(h.cts)
    ensures Optionally(PayloadOf(CrgPart(h).value), ParseCrg(h.pih.nc, Given(PayloadOf(CrgPart(h).value)))) == Ok(h.crg)
    ensures Optionally(PayloadOf(TpcPart(h).value), ParseTpc(LayoutOf(h).numBands, Given(PayloadOf(TpcPart(h).value)))) == Ok(h.tpc)
  {
    hide Valid, Payload, NltPayload, CtsPayload, TpcPayload, ParseNlt, ParseCts, ParseCrg, ParseTpc, LayoutOf, CrgValues, NltKept;
    ValidSd(h);
    if h.nlt.Some? {
      NltRoundTrip(h.nlt.value);
    }
    if h.cts.Some? {
      CtsRoundTrip(h.cts.value);
    }
    if h.crg.Some? {
      CrgRoundTrip(h.crg.value);
    }
    if h.tpc.Some? {
      TpcRoundTrip(h.tpc.value);
    }
  }

  lemma InterpretBack(h: Headers)
    requires Valid(h) && PartsOf(h).Ok?
    ensures Interpret(Join(PartsOf(h).value)) == if Parseable(h) then Ok(Kept(h)) else Err(BadHeader)
  {
    hide Valid, Join, Payloads, FindOne, ParseFront, ParseWeights, ParseNlt, ParseCts, ParseCrg, ParseTpc, ParseComs, LayoutOf,
         PartsOf, PayloadOf, WgtPart, WgrPart, NltPart, CtsPart, CrgPart, TpcPart, ComputeBandLayout, Present, GainsOk, NltKept,
         ComSegments, Optionally, Known;
    ValidSd(h);
    KeptValid(h);
    PartsMarked(h);
    FrontBack(h);
    OptionalParts(h);
    TablesBack(h);
    SettingsBack(h);
    ComsBack(h.comments);
  }

  /**
   * Parsing written headers, with a slice or end marker behind them, stops exactly at that marker. It gives
   * the headers back with the entries of missing bands and of the other NLT type cleared, and refuses
   * extended slopes outside 1..4 and refresh gains above 15, which the writer lets through.
   */
  lemma HeadersRoundTrip(h: Headers, tail: seq<byte>)
    requires WriteHeaders(h).Ok? && EndsHeaders(tail)
    ensures Valid(h)
    ensures ParseHeaders(WriteHeaders(h).value + tail) ==
            if Parseable(h) then Ok((Kept(h), |WriteHeaders(h).value|)) else Err(BadHeader)
  {
    hide Valid, PartsOf, Join, SegmentsBytes, ReadSegments, Interpret, Parseable, Kept, EndsHeaders;
    PartsMarked(h);
    var segments := Join(PartsOf(h).value);
    var body := SegmentsBytes(segments).value;
    var data := WriteHeaders(h).value + tail;
    assert data == [] + U16Bytes(SOC) + (body + tail);
    U16RoundTrip(SOC, [], body + tail);
    assert data[2..] == body + tail;
    SegmentsRoundTrip(segments, tail);
    InterpretBack(h);
  }

  /** Headers come back unchanged exactly when the parser accepts them and they carry no idle fields. */
  lemma HeadersExact(h: Headers, tail: seq<byte>)
    requires WriteHeaders(h).Ok? && EndsHeaders(tail)
    ensures Valid(h)
    ensures ParseHeaders(WriteHeaders(h).value + tail) == Ok((h, |WriteHeaders(h).value|)) <==> Parseable(h) && Kept(h) == h
  {
    hide ParseHeaders, Parseable, Kept, Valid;
    HeadersRoundTrip(h, tail);
  }
}
