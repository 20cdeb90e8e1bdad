// The size of an encoded precinct never grows with Q and never falls with R, although coarser truncation changes which
// groups are silent and which packets are raw.
module SizesMonotone {
  import opened Arith
  import opened BitIO
  import opened Precinct
  import opened RawFallback
  import opened RawOptimality
  import opened CoarserTruncation
  import PacketHeaders

  // ---- sizes as sums ---------------------------------------------------------------------------------

  /** Packet headers, data and signs of the packets from i on. */
  function OtherBytes(cx: Context, q: Quantised, i: nat): nat
    requires cx.Ok() && i <= |cx.sh.packets|
    requires forall j | 0 <= j < |cx.sh.packets| :: Covers(q, cx.sh.packets[j])
    decreases |cx.sh.packets| - i
  {
    if i == |cx.sh.packets| then 0
    else PacketHeaders.HeaderBytes(cx.md.shortHeader) + |ValueBytes(cx, cx.sh.packets[i], q)| + OtherBytes(cx, q, i + 1)
  }

  lemma PackLength(bits: seq<bool>)
    ensures |Pack(bits)| == BytesFor(|bits|)
  {
  }

  lemma PacketSize(cx: Context, es: seq<Entry>, raw: bool, q: Quantised)
    requires cx.Ok() && cx.sh.EntriesOk(es) && Covers(q, es) && PacketBytes(cx, es, raw, q).Ok?
    ensures |PacketBytes(cx, es, raw, q).value| ==
            PacketHeaders.HeaderBytes(cx.md.shortHeader) + CodedBytes(cx, es, raw, CountsOf(q)) + |ValueBytes(cx, es, q)|
  {
    hide CountBits, CountsOf, ValueBytes, PacketHeaders.Write, HeaderOf, Pack, BytesFor;
    var (sig, cnt) := CountBits(cx, es, raw, CountsOf(q)).value;
    PackLength(sig);
    PackLength(cnt);
    PacketHeaders.RoundTrip(HeaderOf(cx, es, raw, cnt, q), cx.md.shortHeader, []);
  }

  lemma {:induction false} SizeIsSum(cx: Context, raw: seq<bool>, q: Quantised, i: nat)
    requires cx.Ok() && i <= |raw| == |cx.sh.packets|
    requires forall j | 0 <= j < |raw| :: Covers(q, cx.sh.packets[j])
    requires PacketsBytes(cx, raw, q, i).Ok?
    ensures |PacketsBytes(cx, raw, q, i).value| == CountBytes(cx, raw, CountsOf(q), i) + OtherBytes(cx, q, i)
    decreases |raw| - i
  {
    hide PacketBytes, CountsOf, CodedBytes, ValueBytes, Covers;
    if i < |raw| {
      PacketSize(cx, cx.sh.packets[i], raw[i], q);
      SizeIsSum(cx, raw, q, i + 1);
    }
  }

  // ---- coarser truncation ----------------------------------------------------------------------------

  lemma {:induction false} OtherBytesFall(cx: Context, cx': Context, c: Coeffs, i: nat)
    requires Coarser(cx, cx') && CoeffsOk(cx.sh, c) && i <= |cx.sh.packets|
    requires forall j | 0 <= j < |cx.sh.packets| :: Covers(QuantiseAll(cx, c), cx.sh.packets[j])
    requires forall j | 0 <= j < |cx.sh.packets| :: Covers(QuantiseAll(cx', c), cx.sh.packets[j])
    ensures OtherBytes(cx', QuantiseAll(cx', c), i) <= OtherBytes(cx, QuantiseAll(cx, c), i)
    decreases |cx.sh.packets| - i
  {
    hide ValueBytes, QuantiseAll, Covers, CoeffsOk;
    if i < |cx.sh.packets| {
      ValueBytesFall(cx, cx', cx.sh.packets[i], c);
      OtherBytesFall(cx, cx', c, i + 1);
    }
  }

  lemma {:induction false} EveryPacketCodes(cx: Context, raw: seq<bool>, m: Counts, i: nat)
    requires cx.Ok() && i <= |raw| == |cx.sh.packets| && CheckCounts(cx, raw, m, i).Ok?
    ensures forall j | i <= j < |raw| :: CountBits(cx, cx.sh.packets[j], raw[j], m).Ok?
    decreases |raw| - i
  {
    hide CountBits;
    if i < |raw| {
      EveryPacketCodes(cx, raw, m, i + 1);
    }
  }

  /** With the same raw packets, counts never cost more. */
  lemma {:induction false} CountBytesFall(cx: Context, cx': Context, raw: seq<bool>, m: Counts, m': Counts, i: nat)
    requires Coarser(cx, cx') && i <= |raw| == |cx.sh.packets| && Clipped(cx, cx', m, m')
    requires forall j | i <= j < |raw| :: CountBits(cx, cx.sh.packets[j], false, m).Ok?
    ensures CountBytes(cx', raw, m', i) <= CountBytes(cx, raw, m, i)
    decreases |raw| - i
  {
    hide CountBits, CodedBytes, Clipped;
    if i < |raw| {
      RawCost(cx, cx.sh.packets[i], m);
      CodedBytesFall(cx, cx', cx.sh.packets[i], raw[i], m, m');
      CountBytesFall(cx, cx', raw, m, m', i + 1);
    }
  }

  /** Nor do they when each encoder chooses its raw packets. */
  lemma ChosenCountsFall(cx: Context, cx': Context, m: Counts, m': Counts)
    requires Coarser(cx, cx') && Clipped(cx, cx', m, m') && (cx.md.rawPerPacket || SharedPackets(cx.sh))
    requires var none := NoneRaw(|cx.sh.packets|); CheckCounts(cx, none, m, 0).Ok?
    ensures var none := NoneRaw(|cx.sh.packets|);
            CountBytes(cx', FinalRaw(cx', none, m'), m', 0) <= CountBytes(cx, FinalRaw(cx, none, m), m, 0)
  {
    hide CountBytes, CountBits, Clipped, FinalRaw, SharedPackets;
    var none := NoneRaw(|cx.sh.packets|);
    var final := FinalRaw(cx, none, m);
    EveryPacketCodes(cx, none, m, 0);
    NoneAdmissible(cx);
    FinalRawOptimal(cx, none, m);
    CountBytesFall(cx, cx', final, m, m', 0);
    FinalRawOptimal(cx', final, m');
  }

  lemma NoneAdmissible(cx: Context)
    requires cx.Ok()
    ensures Admissible(cx, NoneRaw(|cx.sh.packets|))
  {
  }

  /** A precinct never takes more bytes at coarser truncation. */
  lemma PrecinctFalls(cx: Context, cx': Context, c: Coeffs)
    requires Coarser(cx, cx') && CoeffsOk(cx.sh, c) && (cx.md.rawPerPacket || SharedPackets(cx.sh))
    requires forall j | 0 <= j < |cx.sh.packets| :: Covers(QuantiseAll(cx, c), cx.sh.packets[j])
    requires forall j | 0 <= j < |cx.sh.packets| :: Covers(QuantiseAll(cx', c), cx.sh.packets[j])
    requires var none := NoneRaw(|cx.sh.packets|);
             EncodeQuantised(cx, none, QuantiseAll(cx, c)).Ok? && EncodeQuantised(cx', none, QuantiseAll(cx', c)).Ok?
    ensures var none := NoneRaw(|cx.sh.packets|);
            |EncodeQuantised(cx', none, QuantiseAll(cx', c)).value.bytes| <=
            |EncodeQuantised(cx, none, QuantiseAll(cx, c)).value.bytes|
  {
    hide QuantiseAll, Covers, CountsOf, CheckCounts, FinalRaw, PacketsBytes, NextState, CountBytes, OtherBytes, SharedPackets,
         Clipped;
    var none, q, q' := NoneRaw(|cx.sh.packets|), QuantiseAll(cx, c), QuantiseAll(cx', c);
    QuantisedClips(cx, cx', c);
    ChosenCountsFall(cx, cx', CountsOf(q), CountsOf(q'));
    OtherBytesFall(cx, cx', c, 0);
    SizeIsSum(cx, FinalRaw(cx, none, CountsOf(q)), q, 0);
    SizeIsSum(cx', FinalRaw(cx', none, CountsOf(q')), q', 0);
  }

  // ---- Q and R ---------------------------------------------------------------------------------------

  /** A larger Q or a smaller R truncates no less. */
  lemma TruncationsRise(weights: seq<Weight>, q: nat, r: nat, q': nat, r': nat, br: nat)
    requires q <= q' && r' <= r
    ensures forall b | 0 <= b < |weights| :: Truncations(weights, q, r, br)[b] <= Truncations(weights, q', r', br)[b]
  {
    hide Pow2;
  }

  /**
   * Sizes never rise with Q nor fall with R, for an encoder that asks for no raw packets. Bands sharing packets matter
   * with one raw flag per band only.
   */
  lemma EncodedFalls(sh: Shape, md: Mode, weights: seq<Weight>, d: seq<nat>, c: Coeffs, st: State, q: nat, r: nat, q': nat, r': nat)
    requires sh.Ok() && |weights| == sh.Bands() && (md.rawPerPacket || SharedPackets(sh)) && q <= q' && r' <= r
    requires Encode(sh, md, weights, Coding(q, r, d, []), c, st).Ok? && Encode(sh, md, weights, Coding(q', r', d, []), c, st).Ok?
    ensures |Encode(sh, md, weights, Coding(q', r', d, []), c, st).value.bytes| <=
            |Encode(sh, md, weights, Coding(q, r, d, []), c, st).value.bytes|
  {
    hide Truncations, QuantiseAll, CoeffsFit, EncodeQuantised, SharedPackets, Covers, CoeffsOk, SameRawPerBand, AsksVertical;
    var cx, cx' := ContextOf(sh, md, weights, q, r, d, st), ContextOf(sh, md, weights, q', r', d, st);
    TruncationsRise(weights, q, r, q', r', md.br);
    LineCovered(cx, c);
    LineCovered(cx', c);
    PrecinctFalls(cx, cx', c);
  }
}
