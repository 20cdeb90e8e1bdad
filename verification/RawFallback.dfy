// The raw-mode constraint of clause C.5.3 and the agreement rule of clause C.3.
module RawFallback {
  import opened Wrappers
  import opened Precinct

  lemma {:induction false} RawLineLength(br: nat, line: seq<nat>)
    ensures |RawLineBits(br, line)| == |line| * br
  {
    if line != [] {
      RawLineLength(br, line[1..]);
      assert |line| * br == br + (|line| - 1) * br;
    } else {
      assert 0 * br == 0;
    }
  }

  /** Raw mode never fails and costs exactly its bound. */
  lemma {:induction false} RawCost(cx: Context, es: seq<Entry>, m: Counts)
    requires cx.Ok() && cx.sh.EntriesOk(es)
    ensures CountBits(cx, es, true, m).Ok?
    ensures CountBits(cx, es, true, m).value.0 == [] && |CountBits(cx, es, true, m).value.1| == RawBits(cx, es)
  {
    if es != [] {
      RawLineLength(cx.md.br, LineCounts(cx.sh, m, es[0]));
      RawCost(cx, es[1..], m);
    }
  }

  lemma RawCodedBytes(cx: Context, es: seq<Entry>, m: Counts)
    requires cx.Ok() && cx.sh.EntriesOk(es)
    ensures CodedBytes(cx, es, true, m) == RawBytes(cx, es)
  {
    RawCost(cx, es, m);
  }

  /** Clause C.5.3.2: with per-packet selection, no packet exceeds its raw cost. */
  lemma PerPacketConstraint(cx: Context, raw: seq<bool>, m: Counts, i: nat)
    requires cx.Ok() && cx.md.rawPerPacket && i < |raw| == |cx.sh.packets|
    ensures CodedBytes(cx, cx.sh.packets[i], FinalRaw(cx, raw, m)[i], m) <= RawBytes(cx, cx.sh.packets[i])
    ensures raw[i] ==> FinalRaw(cx, raw, m)[i]
  {
    RawCodedBytes(cx, cx.sh.packets[i], m);
  }

  lemma {:induction false} AllRawSum(cx: Context, ps: seq<nat>, raw: seq<bool>, m: Counts)
    requires cx.Ok() && Indices(cx, ps) && |raw| == |cx.sh.packets|
    requires forall k | 0 <= k < |ps| :: raw[ps[k]]
    ensures SumCoded(cx, ps, raw, m) == SumRaw(cx, ps)
  {
    if ps != [] {
      RawCodedBytes(cx, cx.sh.packets[ps[0]], m);
      assert forall k | 0 <= k < |ps[1..]| :: ps[1..][k] == ps[k + 1];
      AllRawSum(cx, ps[1..], raw, m);
    }
  }

  lemma SetRawSame(raw: seq<bool>, ps: seq<nat>)
    requires SetRaw(raw, ps) == raw
    ensures forall k | 0 <= k < |ps| && ps[k] < |raw| :: raw[ps[k]]
  {
    forall k | 0 <= k < |ps| && ps[k] < |raw|
      ensures raw[ps[k]]
    {
      assert ps[k] in ps;
      assert SetRaw(raw, ps)[ps[k]];
    }
  }

  lemma {:induction false} StablePass(cx: Context, raw: seq<bool>, m: Counts, b: nat)
    requires cx.Ok() && |raw| == |cx.sh.packets| && b <= cx.sh.Bands()
    requires FallbackPass(cx, raw, m, b) == raw
    ensures forall i: nat | b <= i < cx.sh.Bands() ::
              var ps := PacketsWith(cx.sh.packets, i, 0); SumCoded(cx, ps, raw, m) <= SumRaw(cx, ps)
    decreases cx.sh.Bands() - b
  {
    hide SumCoded, SumRaw;
    if b < cx.sh.Bands() {
      var ps := PacketsWith(cx.sh.packets, b, 0);
      if SumCoded(cx, ps, raw, m) > SumRaw(cx, ps) {
        var raw' := SetRaw(raw, ps);
        assert FallbackPass(cx, raw', m, b + 1) == raw;
        forall i | 0 <= i < |raw|
          ensures raw'[i] == raw[i]
        {
        }
        assert raw' == raw;
        SetRawSame(raw, ps);
        AllRawSum(cx, ps, raw, m);
        assert false;
      }
      StablePass(cx, raw, m, b + 1);
    }
  }

  /** Clause C.5.3.3: with common selection, no band's packets together exceed their raw cost. */
  lemma {:induction false} PerBandConstraint(cx: Context, raw: seq<bool>, m: Counts)
    requires cx.Ok() && |raw| == |cx.sh.packets|
    ensures forall b: nat | b < cx.sh.Bands() ::
              var ps := PacketsWith(cx.sh.packets, b, 0);
              SumCoded(cx, ps, Fallback(cx, raw, m), m) <= SumRaw(cx, ps)
    decreases CodedCountOf(raw)
  {
    var raw' := FallbackPass(cx, raw, m, 0);
    if raw' == raw {
      StablePass(cx, raw, m, 0);
    } else {
      FewerCoded(raw, raw');
      PerBandConstraint(cx, raw', m);
    }
  }

  // ---- clause C.3 ------------------------------------------------------------------------------------

  /** Bands that meet in one packet share all their packets. */
  ghost predicate SharedPackets(sh: Shape) {
    forall i, b, c: nat | 0 <= i < |sh.packets| && HasBand(sh.packets[i], b) && HasBand(sh.packets[i], c) ::
      PacketsWith(sh.packets, b, 0) == PacketsWith(sh.packets, c, 0)
  }

  lemma SetRawKeepsAgreement(cx: Context, raw: seq<bool>, b: nat)
    requires cx.Ok() && |raw| == |cx.sh.packets| && SharedPackets(cx.sh) && SameRawPerBand(cx.sh, raw)
    ensures SameRawPerBand(cx.sh, SetRaw(raw, PacketsWith(cx.sh.packets, b, 0)))
  {
    var ps := PacketsWith(cx.sh.packets, b, 0);
    var raw' := SetRaw(raw, ps);
    forall c, k | 0 <= c < cx.sh.Bands() && 0 <= k < |PacketsWith(cx.sh.packets, c, 0)|
      ensures raw'[PacketsWith(cx.sh.packets, c, 0)[k]] == raw'[PacketsWith(cx.sh.packets, c, 0)[0]]
    {
      var qs := PacketsWith(cx.sh.packets, c, 0);
      assert raw[qs[k]] == raw[qs[0]];
      assert qs[k] in qs && qs[0] in qs;
      assert HasBand(cx.sh.packets[qs[k]], c) && HasBand(cx.sh.packets[qs[0]], c);
      assert qs[k] in ps ==> HasBand(cx.sh.packets[qs[k]], b);
      assert qs[0] in ps ==> HasBand(cx.sh.packets[qs[0]], b);
    }
  }

  lemma {:induction false} PassKeepsAgreement(cx: Context, raw: seq<bool>, m: Counts, b: nat)
    requires cx.Ok() && |raw| == |cx.sh.packets| && b <= cx.sh.Bands()
    requires SharedPackets(cx.sh) && SameRawPerBand(cx.sh, raw)
    ensures SameRawPerBand(cx.sh, FallbackPass(cx, raw, m, b))
    decreases cx.sh.Bands() - b
  {
    hide SumCoded, SumRaw, SameRawPerBand, SharedPackets, SetRaw;
    if b < cx.sh.Bands() {
      var ps := PacketsWith(cx.sh.packets, b, 0);
      SetRawKeepsAgreement(cx, raw, b);
      PassKeepsAgreement(cx, if SumCoded(cx, ps, raw, m) > SumRaw(cx, ps) then SetRaw(raw, ps) else raw, m, b + 1);
    }
  }

  /** Clause C.3: all packets of a band keep agreeing on raw mode. */
  lemma {:induction false} FallbackKeepsAgreement(cx: Context, raw: seq<bool>, m: Counts)
    requires cx.Ok() && |raw| == |cx.sh.packets| && SharedPackets(cx.sh) && SameRawPerBand(cx.sh, raw)
    ensures SameRawPerBand(cx.sh, Fallback(cx, raw, m))
    decreases CodedCountOf(raw)
  {
    hide SameRawPerBand, SharedPackets, FallbackPass;
    var raw' := FallbackPass(cx, raw, m, 0);
    if raw' != raw {
      FewerCoded(raw, raw');
      PassKeepsAgreement(cx, raw, m, 0);
      FallbackKeepsAgreement(cx, raw', m);
    }
  }

  // ---- the flags in the stream ---------------------------------------------------------------------

  lemma {:induction false} FallbackStable(cx: Context, raw: seq<bool>, m: Counts)
    requires cx.Ok() && |raw| == |cx.sh.packets|
    ensures Fallback(cx, Fallback(cx, raw, m), m) == Fallback(cx, raw, m)
    ensures forall i | 0 <= i < |raw| && raw[i] :: Fallback(cx, raw, m)[i]
    decreases CodedCountOf(raw)
  {
    var raw' := FallbackPass(cx, raw, m, 0);
    if raw' != raw {
      FewerCoded(raw, raw');
      FallbackStable(cx, raw', m);
    }
  }

  /** The fallback only adds raw packets, and asking for its outcome changes nothing. */
  lemma FinalRawStable(cx: Context, raw: seq<bool>, m: Counts)
    requires cx.Ok() && |raw| == |cx.sh.packets|
    ensures FinalRaw(cx, FinalRaw(cx, raw, m), m) == FinalRaw(cx, raw, m)
    ensures forall i | 0 <= i < |raw| && raw[i] :: FinalRaw(cx, raw, m)[i]
  {
    if !cx.md.rawPerPacket {
      FallbackStable(cx, raw, m);
    }
  }

  lemma {:induction false} CountsStillCode(cx: Context, raw: seq<bool>, raw': seq<bool>, m: Counts, i: nat)
    requires cx.Ok() && i <= |raw| == |raw'| == |cx.sh.packets|
    requires CheckCounts(cx, raw, m, i).Ok? && forall j | 0 <= j < |raw| && raw[j] :: raw'[j]
    ensures CheckCounts(cx, raw', m, i).Ok?
    decreases |raw| - i
  {
    if i < |raw| {
      RawCost(cx, cx.sh.packets[i], m);
      CountsStillCode(cx, raw, raw', m, i + 1);
    }
  }

  /** Encoding with the raw flags the stream carries gives the same stream. */
  lemma FlagsOfTheStream(cx: Context, raw: seq<bool>, q: Quantised)
    requires cx.Ok() && |raw| == |cx.sh.packets|
    requires forall j | 0 <= j < |raw| :: Covers(q, cx.sh.packets[j])
    requires EncodeQuantised(cx, raw, q).Ok?
    ensures EncodeQuantised(cx, FinalRaw(cx, raw, CountsOf(q)), q) == EncodeQuantised(cx, raw, q)
  {
    hide FinalRaw, Covers, CountsOf, PacketsBytes, NextState;
    FinalRawStable(cx, raw, CountsOf(q));
    CountsStillCode(cx, raw, FinalRaw(cx, raw, CountsOf(q)), CountsOf(q), 0);
  }
}
