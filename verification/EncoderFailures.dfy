// When encoding a precinct fails: coefficients too large, or lengths beyond their fields. Everything else the encoder
// checks holds by itself once its choices are in range and the predictor state fits the precinct.
module EncoderFailures {
  import opened Wrappers
  import opened Arith
  import opened BitIO
  import opened Precinct
  import opened PrecinctLines
  import opened PrecinctRoundTrip
  import opened PrecinctTheorems
  import opened RawFallback

  /** A state that can predict every band with lines in this precinct, if it can predict at all. */
  ghost predicate StateMatches(sh: Shape, st: State)
    requires sh.Ok()
  {
    st.valid ==>
      && |st.lastLine| == |st.tAbove| == sh.Bands()
      && forall b: nat | b < sh.Bands() && sh.lines[b] > 0 :: |st.lastLine[b]| == sh.Groups(b)
  }

  /** Choices a caller has to keep in range. */
  predicate CodingOk(cx: Context, coding: Coding)
    requires cx.Ok()
  {
    coding.q <= 31 && coding.r < 2 * cx.sh.Bands() && |coding.d| == cx.sh.Bands() && RequestedRaw(cx, coding).Ok?
  }

  // ---- counts can always be coded --------------------------------------------------------------------

  lemma PredictionExists(cx: Context, e: Entry, m: Counts)
    requires cx.Ok() && cx.sh.EntryOk(e) && StateMatches(cx.sh, cx.st) && (cx.Vertical(e.band) ==> cx.st.valid)
    ensures Predicted(cx, e, m).Ok?
  {
  }

  lemma LineCodes(cx: Context, e: Entry, raw: bool, q: Quantised)
    requires cx.Ok() && cx.sh.EntryOk(e) && QuantisedOk(cx, q) && StateMatches(cx.sh, cx.st)
    requires !raw && cx.Vertical(e.band) ==> cx.st.valid
    ensures LineBits(cx, e, raw, CountsOf(q)).Ok?
  {
    hide StateMatches, QuantisedOk, CodedLineBits, RawLineBits, Predicted, CountsOf, FlagsOf;
    if !raw {
      var line := LineCounts(cx.sh, CountsOf(q), e);
      PredictionExists(cx, e, CountsOf(q));
      CountsOfLine(cx, q, e);
      AboveTruncation(q[e], cx.sh.Groups(e.band), cx.t[e.band], cx.md.br);
      var predicted := Predicted(cx, e, CountsOf(q)).value;
      CodedLineSucceeds(cx.t[e.band], line, predicted, FlagsOf(cx, e.band, line, predicted), 0);
    }
  }

  lemma AboveTruncation(q: QLine, groups: nat, t: nat, br: nat)
    requires QLineOk(q, groups, t, br)
    ensures forall g | 0 <= g < |q.m| :: t <= q.m[g]
  {
    forall g | 0 <= g < |q.m|
      ensures t <= q.m[g]
    {
      assert GroupFits(q.vals[g], q.m[g], t);
    }
  }

  /** Vertical prediction is asked for only where there is something to predict from. */
  predicate Askable(cx: Context, es: seq<Entry>, raw: bool)
    requires cx.Ok() && cx.sh.EntriesOk(es)
  {
    raw || cx.st.valid || forall j | 0 <= j < |es| :: !cx.Vertical(es[j].band)
  }

  lemma {:induction false} PacketCodes(cx: Context, es: seq<Entry>, raw: bool, q: Quantised)
    requires cx.Ok() && cx.sh.EntriesOk(es) && QuantisedOk(cx, q) && StateMatches(cx.sh, cx.st) && Askable(cx, es, raw)
    ensures CountBits(cx, es, raw, CountsOf(q)).Ok?
  {
    hide StateMatches, QuantisedOk, LineBits, CountsOf;
    if es != [] {
      LineCodes(cx, es[0], raw, q);
      PacketCodes(cx, es[1..], raw, q);
    }
  }

  ghost predicate AllAskable(cx: Context, raw: seq<bool>)
    requires cx.Ok() && |raw| == |cx.sh.packets|
  {
    forall i | 0 <= i < |raw| :: Askable(cx, cx.sh.packets[i], raw[i])
  }

  lemma RequestAskable(cx: Context, coding: Coding)
    requires cx.Ok() && RequestedRaw(cx, coding).Ok?
    ensures AllAskable(cx, RequestedRaw(cx, coding).value)
  {
    hide SameRawPerBand;
  }

  lemma StillAskable(cx: Context, raw: seq<bool>, m: Counts)
    requires cx.Ok() && |raw| == |cx.sh.packets| && AllAskable(cx, raw)
    ensures AllAskable(cx, FinalRaw(cx, raw, m))
  {
    hide FinalRaw, Askable;
    FinalRawStable(cx, raw, m);
    var final := FinalRaw(cx, raw, m);
    forall i | 0 <= i < |final|
      ensures Askable(cx, cx.sh.packets[i], final[i])
    {
      MoreRaw(cx, cx.sh.packets[i], raw[i], final[i]);
    }
  }

  lemma MoreRaw(cx: Context, es: seq<Entry>, raw: bool, raw': bool)
    requires cx.Ok() && cx.sh.EntriesOk(es) && Askable(cx, es, raw) && (raw ==> raw')
    ensures Askable(cx, es, raw')
  {
  }

  lemma {:induction false} CountsCheck(cx: Context, raw: seq<bool>, q: Quantised, i: nat)
    requires cx.Ok() && i <= |raw| == |cx.sh.packets| && QuantisedOk(cx, q) && StateMatches(cx.sh, cx.st) && AllAskable(cx, raw)
    ensures CheckCounts(cx, raw, CountsOf(q), i).Ok?
    decreases |raw| - i
  {
    hide StateMatches, QuantisedOk, CountBits, CountsOf, Askable;
    if i < |raw| {
      assert Askable(cx, cx.sh.packets[i], raw[i]);
      PacketCodes(cx, cx.sh.packets[i], raw[i], q);
      CountsCheck(cx, raw, q, i + 1);
    }
  }

  /** Packets fail on their lengths only. */
  lemma {:induction false} PacketsFail(cx: Context, raw: seq<bool>, q: Quantised, i: nat)
    requires cx.Ok() && i <= |raw| == |cx.sh.packets| && QuantisedOk(cx, q) && StateMatches(cx.sh, cx.st) && AllAskable(cx, raw)
    requires forall j | 0 <= j < |raw| :: Covers(q, cx.sh.packets[j])
    ensures PacketsBytes(cx, raw, q, i).Err? ==> PacketsBytes(cx, raw, q, i).error == LengthOutOfRange
    decreases |raw| - i
  {
    hide StateMatches, QuantisedOk, CountBits, CountsOf, Askable, ValueBytes, HeaderOf, Covers, Pow2, FieldsBits, Pack;
    if i < |raw| {
      assert Askable(cx, cx.sh.packets[i], raw[i]);
      PacketCodes(cx, cx.sh.packets[i], raw[i], q);
      PacketsFail(cx, raw, q, i + 1);
    }
  }

  lemma QuantisedFails(cx: Context, raw: seq<bool>, q: Quantised)
    requires cx.Ok() && |raw| == |cx.sh.packets| && QuantisedOk(cx, q) && StateMatches(cx.sh, cx.st) && AllAskable(cx, raw)
    requires forall j | 0 <= j < |raw| :: Covers(q, cx.sh.packets[j])
    ensures EncodeQuantised(cx, raw, q).Err? ==> EncodeQuantised(cx, raw, q).error == LengthOutOfRange
  {
    hide StateMatches, QuantisedOk, CountsOf, AllAskable, CheckCounts, PacketsBytes, FinalRaw, NextState, Covers;
    CountsCheck(cx, raw, q, 0);
    StillAskable(cx, raw, CountsOf(q));
    PacketsFail(cx, FinalRaw(cx, raw, CountsOf(q)), q, 0);
  }

  /**
   * With choices in range, coefficients of the precinct's shape and a state that fits it, encoding fails exactly on
   * coefficients beyond 2^Br - 1 bitplanes, and otherwise on lengths beyond their fields only.
   */
  lemma EncodeFails(sh: Shape, md: Mode, weights: seq<Weight>, coding: Coding, c: Coeffs, st: State)
    requires sh.Ok() && |weights| == sh.Bands() && CoeffsOk(sh, c) && StateMatches(sh, st)
    requires |coding.d| == sh.Bands() && CodingOk(ContextOf(sh, md, weights, coding.q, coding.r, coding.d, st), coding)
    ensures var enc := Encode(sh, md, weights, coding, c, st);
            && (enc.Err? ==> enc.error == TooManyBitplanes || enc.error == LengthOutOfRange)
            && (enc.Err? && enc.error == TooManyBitplanes <==> !CoeffsFit(c, md.br))
  {
    hide RequestedRaw, EncodeQuantised, Truncations, QuantiseAll, CoeffsFit, StateMatches, AllAskable, QuantisedOk, Covers, Pow2;
    var cx := ContextOf(sh, md, weights, coding.q, coding.r, coding.d, st);
    if CoeffsFit(c, md.br) {
      var raw := RequestedRaw(cx, coding).value;
      PrecinctQuantised(cx, c);
      LineCovered(cx, c);
      RequestAskable(cx, coding);
      QuantisedFails(cx, raw, QuantiseAll(cx, c));
    }
  }
}
