// Re-encoding from the stream alone: the raw flags come from its packet headers, the coefficients from its
// decoder, and the encoder accepts both and writes the same bytes again.
module StreamFlags {
  import opened Wrappers
  import opened Arith
  import opened BitIO
  import opened Precinct
  import opened PrecinctRoundTrip
  import opened PrecinctTheorems
  import opened RawFallback
  import opened Reencoding
  import HeaderTypes
  import Geometry
  import GeometryTiling
  import GeometryPackets

  /** Dr of every packet from the i-th on, as the decoder meets them. */
  function FlagsRead(cx: Context, i: nat, m: Counts, out: Coeffs, data: seq<byte>): seq<bool>
    requires cx.Ok() && i <= |cx.sh.packets|
    decreases |cx.sh.packets| - i
  {
    if i == |cx.sh.packets| then [] else
    match DecodePacket(cx, cx.sh.packets[i], m, out, data)
    case Err(_) => []
    case Ok((m', out', rest)) =>
      [DecodeCounts(cx, cx.sh.packets[i], m, data).value.0.dr] + FlagsRead(cx, i + 1, m', out', rest)
  }

  function FlagsOfBody(cx: Context, body: seq<byte>): seq<bool>
    requires cx.Ok()
  {
    FlagsRead(cx, 0, map[], ZeroCoeffs(cx.sh), body)
  }

  lemma {:induction false} FlagsComeBack(cx: Context, raw: seq<bool>, i: nat, m: Counts, out: Coeffs, q: Quantised, tail: seq<byte>)
    requires cx.Ok() && i <= |raw| == |cx.sh.packets| && QuantisedOk(cx, q)
    requires forall j | 0 <= j < |raw| :: Covers(q, cx.sh.packets[j])
    requires Pending(cx.sh, Flatten(cx.sh.packets[i..])) && InBounds(cx, CountsOf(q))
    requires Agree(cx.sh, Flatten(cx.sh.packets[i..]), m, CountsOf(q))
    requires OutAgrees(cx, Flatten(cx.sh.packets[i..]), out, q)
    requires PacketsBytes(cx, raw, q, i).Ok?
    ensures FlagsRead(cx, i, m, out, PacketsBytes(cx, raw, q, i).value + tail) == raw[i..]
    decreases |raw| - i
  {
    hide DecodePacket, DecodeCounts, PacketBytes, Pending, Agree, OutAgrees, InBounds, QuantisedOk, Covers, CountsOf;
    if i < |raw| {
      var es, later := cx.sh.packets[i], Flatten(cx.sh.packets[i + 1..]);
      assert cx.sh.packets[i..][1..] == cx.sh.packets[i + 1..];
      assert Flatten(cx.sh.packets[i..]) == es + later;
      var bytes := PacketsBytes(cx, raw, q, i).value + tail;
      var more := PacketsBytes(cx, raw, q, i + 1).value + tail;
      assert bytes == PacketBytes(cx, es, raw[i], q).value + more;
      PacketRoundTrip(cx, es, later, raw[i], m, out, q, more);
      var r := DecodePacket(cx, es, m, out, bytes).value;
      FlagsComeBack(cx, raw, i + 1, r.0, r.1, q, tail);
      assert raw[i..] == [raw[i]] + raw[i + 1..];
    }
  }

  lemma FlagsOfQuantised(cx: Context, raw: seq<bool>, q: Quantised, filler: seq<byte>)
    requires cx.Ok() && |raw| == |cx.sh.packets| && Complete(cx.sh) && QuantisedOk(cx, q) && InBounds(cx, CountsOf(q))
    requires forall j | 0 <= j < |raw| :: Covers(q, cx.sh.packets[j])
    requires PacketsBytes(cx, raw, q, 0).Ok?
    ensures FlagsOfBody(cx, PacketsBytes(cx, raw, q, 0).value + filler) == raw
  {
    StartPending(cx.sh);
    assert cx.sh.packets[0..] == cx.sh.packets && raw[0..] == raw;
    hide FlagsRead, PacketsBytes, Pending, InBounds, QuantisedOk, Covers, Complete, Coded;
    FlagsComeBack(cx, raw, 0, map[], ZeroCoeffs(cx.sh), q, filler);
  }

  /** What the fallback made of an admissible request is an admissible request. */
  lemma FinalIsRequestable(cx: Context, coding: Coding, m: Counts)
    requires cx.Ok() && SharedPackets(cx.sh) && RequestedRaw(cx, coding).Ok?
    ensures var raw := FinalRaw(cx, RequestedRaw(cx, coding).value, m); RequestedRaw(cx, coding.(raw := raw)) == Ok(raw)
  {
    hide SameRawPerBand, SharedPackets, Fallback;
    var asked := RequestedRaw(cx, coding).value;
    var raw := FinalRaw(cx, asked, m);
    FinalRawStable(cx, asked, m);
    if !cx.md.rawPerPacket {
      FallbackKeepsAgreement(cx, asked, m);
    }
    if raw == [] {
      assert seq(|cx.sh.packets|, _ => false) == raw;
    }
  }

  /**
   * Whatever raw flags were asked for: encoding what the decoder makes of a precinct, with the flags read from its
   * packet headers, passes the encoder's checks and reproduces its bytes and its state.
   */
  lemma StreamReencodes(sh: Shape, md: Mode, weights: seq<Weight>, coding: Coding, c: Coeffs, st: State, buffer: Coeffs,
                        filler: seq<byte>)
    requires sh.Ok() && |weights| == sh.Bands() && Complete(sh) && SharedPackets(sh) && StateInRange(st, md.br)
    requires Encode(sh, md, weights, coding, c, st).Ok?
    ensures |coding.d| == sh.Bands()
    ensures var enc := Encode(sh, md, weights, coding, c, st).value;
            var cx := ContextOf(sh, md, weights, coding.q, coding.r, coding.d, st);
            var decoded := Decode(cx, buffer, enc.bytes + filler);
            && decoded.Ok?
            && Encode(sh, md, weights, coding.(raw := FlagsOfBody(cx, enc.bytes + filler)), decoded.value.out, st) == Ok(enc)
  {
    hide Truncations, Decode, FinalRaw, RequestedRaw, QuantisePrecinct, Pow2, FlagsOfBody, SharedPackets, Complete, StateInRange,
         EncodeQuantised, Covers, QuantisedOk, InBounds, PacketsBytes, CoeffsOk;
    PrecinctRoundTrips(sh, md, weights, coding, c, st, buffer, filler);
    var cx := ContextOf(sh, md, weights, coding.q, coding.r, coding.d, st);
    var asked := RequestedRaw(cx, coding).value;
    LineCovered(cx, c) by { QuantisedParts(cx, c); }
    var q := QuantisePrecinct(cx, c).value;
    QuantisedParts(cx, c);
    PrecinctQuantised(cx, c);
    CountsBounded(cx, q);
    var raw := FinalRaw(cx, asked, CountsOf(q));
    EncodedParts(cx, asked, q);
    FlagsOfQuantised(cx, raw, q, filler);
    FinalIsRequestable(cx, coding, CountsOf(q));
    FlagsOfTheStream(cx, asked, q);
    ReencodingIsExact(sh, md, weights, coding, c, st);
    PrecinctRequantises(cx, c);
  }

  lemma QuantisedParts(cx: Context, c: Coeffs)
    requires cx.Ok() && QuantisePrecinct(cx, c).Ok?
    ensures CoeffsOk(cx.sh, c) && CoeffsFit(c, cx.md.br) && QuantisePrecinct(cx, c) == Ok(QuantiseAll(cx, c))
  {
  }

  lemma EncodedParts(cx: Context, raw: seq<bool>, q: Quantised)
    requires cx.Ok() && |raw| == |cx.sh.packets|
    requires forall j | 0 <= j < |raw| :: Covers(q, cx.sh.packets[j])
    requires EncodeQuantised(cx, raw, q).Ok?
    ensures PacketsBytes(cx, FinalRaw(cx, raw, CountsOf(q)), q, 0) == Ok(EncodeQuantised(cx, raw, q).value.bytes)
  {
  }

  /** So it is in every precinct of every picture. */
  lemma PictureReencodes(h: HeaderTypes.Headers, p: nat, md: Mode, weights: seq<Weight>, coding: Coding, c: Coeffs, st: State,
                         filler: seq<byte>)
    requires Geometry.Supported(h) && p < GeometryTiling.NumPrecincts(h) && GeometryPackets.ShapeOf(h, p).Ok()
    requires |weights| == GeometryPackets.ShapeOf(h, p).Bands() && StateInRange(st, md.br)
    requires Encode(GeometryPackets.ShapeOf(h, p), md, weights, coding, c, st).Ok?
    ensures |coding.d| == GeometryPackets.ShapeOf(h, p).Bands()
    ensures var sh := GeometryPackets.ShapeOf(h, p);
            var enc := Encode(sh, md, weights, coding, c, st).value;
            var cx := ContextOf(sh, md, weights, coding.q, coding.r, coding.d, st);
            var decoded := Decode(cx, ZeroCoeffs(sh), enc.bytes + filler);
            && decoded.Ok?
            && Encode(sh, md, weights, coding.(raw := FlagsOfBody(cx, enc.bytes + filler)), decoded.value.out, st) == Ok(enc)
  {
    hide Geometry.Supported, GeometryTiling.NumPrecincts, GeometryPackets.ShapeOf, SharedPackets, Complete, Encode, Decode,
         FlagsOfBody,
         StateInRange, Truncations;
    GeometryPackets.ShapeIsComplete(h, p);
    GeometryPackets.BandsShare(h, p);
    var sh := GeometryPackets.ShapeOf(h, p);
    StreamReencodes(sh, md, weights, coding, c, st, ZeroCoeffs(sh), filler);
  }
}
