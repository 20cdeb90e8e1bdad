// What the precinct codec promises: round trip with exact byte consumption, equal predictor states
// afterwards, and nothing lost at Q = R = 0.
module PrecinctTheorems {
  import opened Wrappers
  import opened Arith
  import opened BitIO
  import opened Quantiser
  import opened Precinct
  import opened PrecinctRoundTrip

  // ---- the encoder's data is well formed -----------------------------------------------------------

  lemma GroupQuantised(group: seq<int>, t: nat, uniform: bool, br: nat)
    requires t < Pow2(br) && |group| <= 4
    requires forall k | 0 <= k < |group| :: Abs(group[k]) < Pow2(Pow2(br) - 1)
    ensures CodedCount(group, t) < Pow2(br)
    ensures GroupFits(QuantiseGroup(group, CodedCount(group, t), t, uniform), CodedCount(group, t), t)
  {
    var m := CodedCount(group, t);
    BitplaneCountLeast(group, Pow2(br) - 1);
    BitplaneCountLeast(group, m);
    hide Quantise, BitplaneCountOf, Pow2;
    forall k | 0 <= k < |group|
      ensures Quantise(Abs(group[k]), m, t, uniform) < Pow2(m - t)
    {
      QuantiseFits(Abs(group[k]), m, t, uniform);
    }
    Positive(m - t);
  }

  lemma Positive(n: nat)
    ensures 0 < Pow2(n)
  {
  }

  lemma GroupWithin(line: seq<int>, g: nat, br: nat)
    requires LineFits(line, br) && 4 * g <= |line|
    ensures |GroupOf(line, g)| <= 4
    ensures forall k | 0 <= k < |GroupOf(line, g)| :: Abs(GroupOf(line, g)[k]) < Pow2(Pow2(br) - 1)
  {
    hide Pow2;
    forall k | 0 <= k < |GroupOf(line, g)|
      ensures Abs(GroupOf(line, g)[k]) < Pow2(Pow2(br) - 1)
    {
      assert GroupOf(line, g)[k] == line[4 * g + k];
    }
  }

  lemma LineQuantised(line: seq<int>, t: nat, uniform: bool, br: nat)
    requires t < Pow2(br) && LineFits(line, br)
    ensures QLineOk(QuantiseLine(line, t, uniform), CeilDiv(|line|, 4), t, br)
  {
    hide Pow2, CodedCount, QuantiseGroup, GroupFits, GroupOf, LineFits;
    forall g | 0 <= g < CeilDiv(|line|, 4)
      ensures var group := GroupOf(line, g);
              CodedCount(group, t) < Pow2(br) &&
              GroupFits(QuantiseGroup(group, CodedCount(group, t), t, uniform), CodedCount(group, t), t)
    {
      GroupWithin(line, g, br);
      GroupQuantised(GroupOf(line, g), t, uniform, br);
    }
  }

  lemma PrecinctQuantised(cx: Context, c: Coeffs)
    requires cx.Ok() && CoeffsOk(cx.sh, c) && CoeffsFit(c, cx.md.br) && InRange(cx.t, cx.md.br)
    ensures QuantisedOk(cx, QuantiseAll(cx, c))
  {
    var q := QuantiseAll(cx, c);
    assert q.Keys == c.Keys;
    forall e | e in q
      ensures QLineOk(q[e], cx.sh.Groups(e.band), cx.t[e.band], cx.md.br)
    {
      LineQuantised(c[e], cx.t[e.band], cx.md.uniform, cx.md.br);
    }
  }

  lemma CountsBounded(cx: Context, q: Quantised)
    requires cx.Ok() && QuantisedOk(cx, q) && InRange(cx.t, cx.md.br) && StateInRange(cx.st, cx.md.br)
    ensures InBounds(cx, CountsOf(q))
  {
    forall e | cx.sh.EntryOk(e)
      ensures InRange(LineCounts(cx.sh, CountsOf(q), e), cx.md.br)
    {
      CountsOfLine(cx, q, e);
    }
  }

  // ---- what a decoder reconstructs -----------------------------------------------------------------

  /** Dequantise(Quantise(c)) in the bitplane count of the sample's own code group. */
  function ReconstructedSample(line: seq<int>, x: nat, t: nat, uniform: bool): int
    requires x < |line|
  {
    var m := CodedCount(GroupOf(line, x / 4), t);
    Dequantise(Quantise(Abs(line[x]), m, t, uniform), line[x] < 0, m, t, uniform)
  }

  /** Depends on the coefficients, the truncation position and the quantiser type only. */
  function ReconstructedLine(line: seq<int>, t: nat, uniform: bool): (r: seq<int>)
    ensures |r| == |line|
  {
    seq(|line|, x requires 0 <= x < |line| => ReconstructedSample(line, x, t, uniform))
  }

  function Reconstructed(c: Coeffs, t: seq<nat>, uniform: bool): Coeffs
    requires forall e | e in c :: e.band < |t|
  {
    map e | e in c :: ReconstructedLine(c[e], t[e.band], uniform)
  }

  lemma RecoveredSample(line: seq<int>, x: nat, t: nat, uniform: bool)
    requires x < |line|
    ensures var q := QuantiseLine(line, t, uniform);
            var group := q.vals[x / 4];
            Dequantise(group.v[x % 4], group.s[x % 4], q.m[x / 4], t, uniform) == ReconstructedSample(line, x, t, uniform)
  {
    hide Quantise, BitplaneCountOf;
    var group := GroupOf(line, x / 4);
    assert group[x % 4] == line[x];
  }

  lemma RecoveredLine(cx: Context, c: Coeffs, e: Entry)
    requires cx.Ok() && CoeffsOk(cx.sh, c) && QuantisedOk(cx, QuantiseAll(cx, c)) && cx.sh.EntryOk(e)
    ensures e in c && Recovered(cx, QuantiseAll(cx, c), e) == ReconstructedLine(c[e], cx.t[e.band], cx.md.uniform)
  {
    EntryInShape(cx.sh, e);
    forall x: nat | x < |c[e]|
      ensures Recovered(cx, QuantiseAll(cx, c), e)[x] == ReconstructedSample(c[e], x, cx.t[e.band], cx.md.uniform)
    {
      RecoveredSample(c[e], x, cx.t[e.band], cx.md.uniform);
    }
  }

  // ---- round trip ------------------------------------------------------------------------------------

  lemma {:induction false} PacketsRoundTrip(cx: Context, raw: seq<bool>, i: nat, m: Counts, out: Coeffs, q: Quantised,
                                            tail: seq<byte>)
    requires cx.Ok() && i <= |raw| == |cx.sh.packets| && QuantisedOk(cx, q)
    requires forall j | 0 <= j < |raw| :: Covers(q, cx.sh.packets[j])
    requires Pending(cx.sh, Flatten(cx.sh.packets[i..])) && InBounds(cx, CountsOf(q))
    requires Agree(cx.sh, Flatten(cx.sh.packets[i..]), m, CountsOf(q))
    requires OutAgrees(cx, Flatten(cx.sh.packets[i..]), out, q)
    requires PacketsBytes(cx, raw, q, i).Ok?
    ensures var r := DecodePackets(cx, i, m, out, PacketsBytes(cx, raw, q, i).value + tail);
            && r.Ok? && r.value.2 == tail
            && Agree(cx.sh, [], r.value.0, CountsOf(q)) && OutAgrees(cx, [], r.value.1, q)
    decreases |raw| - i
  {
    hide DecodePacket, PacketBytes, Pending, Agree, OutAgrees, InBounds, QuantisedOk, Covers, CountsOf;
    var bytes := PacketsBytes(cx, raw, q, i).value + tail;
    if i == |raw| {
      assert bytes == tail;
      assert cx.sh.packets[i..] == [];
    } else {
      var es, later := cx.sh.packets[i], Flatten(cx.sh.packets[i + 1..]);
      assert cx.sh.packets[i..][1..] == cx.sh.packets[i + 1..];
      assert Flatten(cx.sh.packets[i..]) == es + later;
      var more := PacketsBytes(cx, raw, q, i + 1).value + tail;
      assert bytes == PacketBytes(cx, es, raw[i], q).value + more;
      PacketRoundTrip(cx, es, later, raw[i], m, out, q, more);
      var r := DecodePacket(cx, es, m, out, bytes).value;
      PacketsRoundTrip(cx, raw, i + 1, r.0, r.1, q, tail);
    }
  }

  lemma {:induction false} FlattenOk(sh: Shape, i: nat)
    requires sh.Ok() && i <= |sh.packets|
    ensures sh.EntriesOk(Flatten(sh.packets[i..]))
    decreases |sh.packets| - i
  {
    if i < |sh.packets| {
      FlattenOk(sh, i + 1);
      assert sh.packets[i..][1..] == sh.packets[i + 1..];
    }
  }

  lemma StartPending(sh: Shape)
    requires sh.Ok() && Complete(sh)
    ensures Pending(sh, Flatten(sh.packets))
    ensures forall e | sh.EntryOk(e) :: !Coded(sh, Flatten(sh.packets), e)
  {
    FlattenOk(sh, 0);
    assert sh.packets[0..] == sh.packets;
  }

  lemma SameState(sh: Shape, m: Counts, full: Counts, t: seq<nat>)
    requires sh.Ok() && Agree(sh, [], m, full)
    ensures NextState(sh, m, t) == NextState(sh, full, t)
  {
    forall b: nat | b < sh.Bands() && sh.lines[b] > 0
      ensures LineCounts(sh, m, Entry(b, sh.starts[b] + sh.lines[b] - 1)) ==
              LineCounts(sh, full, Entry(b, sh.starts[b] + sh.lines[b] - 1))
    {
      var e := Entry(b, sh.starts[b] + sh.lines[b] - 1);
      assert sh.EntryOk(e);
      NothingLeft(sh, e);
    }
  }

  /** Packets of quantised data decode to that data, whichever packets are raw. */
  lemma QuantisedRoundTrip(cx: Context, raw: seq<bool>, q: Quantised, buffer: Coeffs, filler: seq<byte>)
    requires cx.Ok() && |raw| == |cx.sh.packets| && Complete(cx.sh) && QuantisedOk(cx, q) && InBounds(cx, CountsOf(q))
    requires forall j | 0 <= j < |raw| :: Covers(q, cx.sh.packets[j])
    requires PacketsBytes(cx, raw, q, 0).Ok?
    ensures var r := Decode(cx, buffer, PacketsBytes(cx, raw, q, 0).value + filler);
            && r.Ok? && r.value.rest == filler && r.value.state == NextState(cx.sh, CountsOf(q), cx.t)
            && OutAgrees(cx, [], r.value.out, q)
  {
    var out := if CoeffsOk(cx.sh, buffer) then buffer else ZeroCoeffs(cx.sh);
    StartPending(cx.sh);
    assert cx.sh.packets[0..] == cx.sh.packets;
    hide DecodePackets, PacketsBytes, Pending, InBounds, QuantisedOk, Covers, NextState, Complete, Coded;
    PacketsRoundTrip(cx, raw, 0, map[], out, q, filler);
    var r := DecodePackets(cx, 0, map[], out, PacketsBytes(cx, raw, q, 0).value + filler).value;
    SameState(cx.sh, r.0, CountsOf(q), cx.t);
  }

  /**
   * Decoding an encoded precinct, with any filler behind it, consumes exactly its bytes, yields
   * Dequantise(Quantise(c)) for every sample and leaves the encoder's predictor state. The
   * coefficients depend on Q, R, the weights and Qpih; D, raw flags and sign placement drop out.
   */
  lemma PrecinctRoundTrips(sh: Shape, md: Mode, weights: seq<Weight>, coding: Coding, c: Coeffs, st: State,
                           buffer: Coeffs, filler: seq<byte>)
    requires sh.Ok() && |weights| == sh.Bands() && Complete(sh) && StateInRange(st, md.br)
    requires Encode(sh, md, weights, coding, c, st).Ok?
    ensures |coding.d| == sh.Bands()
    ensures forall e | e in c :: e.band < |weights|
    ensures var cx := ContextOf(sh, md, weights, coding.q, coding.r, coding.d, st);
            var enc := Encode(sh, md, weights, coding, c, st).value;
            Decode(cx, buffer, enc.bytes + filler) == Ok(Decoded(filler, Reconstructed(c, cx.t, md.uniform), enc.state))
  {
    var cx := ContextOf(sh, md, weights, coding.q, coding.r, coding.d, st);
    var raw := RequestedRaw(cx, coding).value;
    LineCovered(cx, c);
    var q := QuantiseAll(cx, c);
    PrecinctQuantised(cx, c);
    CountsBounded(cx, q);
    var final := FinalRaw(cx, raw, CountsOf(q));
    QuantisedRoundTrip(cx, final, q, buffer, filler);
    var r := Decode(cx, buffer, PacketsBytes(cx, final, q, 0).value + filler).value;
    AllRecovered(cx, c, r.out);
  }

  lemma AllRecovered(cx: Context, c: Coeffs, out: Coeffs)
    requires cx.Ok() && CoeffsOk(cx.sh, c) && QuantisedOk(cx, QuantiseAll(cx, c))
    requires OutAgrees(cx, [], out, QuantiseAll(cx, c))
    ensures out == Reconstructed(c, cx.t, cx.md.uniform)
  {
    var q := QuantiseAll(cx, c);
    assert out.Keys == c.Keys;
    forall e | e in out
      ensures out[e] == ReconstructedLine(c[e], cx.t[e.band], cx.md.uniform)
    {
      NothingLeft(cx.sh, e);
      RecoveredLine(cx, c, e);
    }
  }

  // ---- predictor states stay in range ----------------------------------------------------------------

  lemma NextStateInRange(sh: Shape, m: Counts, t: seq<nat>, br: nat)
    requires sh.Ok() && InRange(t, br) && forall e | sh.EntryOk(e) :: InRange(LineCounts(sh, m, e), br)
    ensures StateInRange(NextState(sh, m, t), br) && NextState(sh, m, t).valid
  {
    hide LineCounts, Pow2, InRange;
    assert InRange([], br) by {
      EmptyInRange(br);
    }
    forall b: nat | b < sh.Bands() && sh.lines[b] > 0
      ensures InRange(LineCounts(sh, m, Entry(b, sh.starts[b] + sh.lines[b] - 1)), br)
    {
      assert sh.EntryOk(Entry(b, sh.starts[b] + sh.lines[b] - 1));
    }
  }

  lemma EmptyInRange(br: nat)
    ensures InRange([], br)
  {
  }

  /** The state an encoder leaves is again one it may start from. */
  lemma EncodeKeepsState(sh: Shape, md: Mode, weights: seq<Weight>, coding: Coding, c: Coeffs, st: State)
    requires sh.Ok() && |weights| == sh.Bands() && StateInRange(st, md.br)
    requires Encode(sh, md, weights, coding, c, st).Ok?
    ensures StateInRange(Encode(sh, md, weights, coding, c, st).value.state, md.br)
    ensures Encode(sh, md, weights, coding, c, st).value.state.valid
  {
    hide NextState, StateInRange, QuantisedOk, CountsOf, LineCounts, QuantiseAll, CoeffsFit, Covers, PacketsBytes, CheckCounts,
         FinalRaw, RequestedRaw;
    var cx := ContextOf(sh, md, weights, coding.q, coding.r, coding.d, st);
    LineCovered(cx, c);
    PrecinctQuantised(cx, c);
    CountsBounded(cx, QuantiseAll(cx, c));
    NextStateInRange(sh, CountsOf(QuantiseAll(cx, c)), cx.t, md.br);
  }

  // ---- lossless coding -------------------------------------------------------------------------------

  lemma ReconstructedLossless(line: seq<int>, uniform: bool)
    ensures ReconstructedLine(line, 0, uniform) == line
  {
    forall x: nat | x < |line|
      ensures ReconstructedSample(line, x, 0, uniform) == line[x]
    {
      var group := GroupOf(line, x / 4);
      var m := CodedCount(group, 0);
      BitplaneCountLeast(group, m);
      assert group[x % 4] == line[x];
      LosslessAtZero(Abs(line[x]), m, uniform);
    }
  }

  /** Q = R = 0 truncates nothing, so every coefficient survives. */
  lemma LosslessPrecinct(c: Coeffs, weights: seq<Weight>, br: nat, uniform: bool)
    requires forall e | e in c :: e.band < |weights|
    ensures Reconstructed(c, Truncations(weights, 0, 0, br), uniform) == c
  {
    forall e | e in c
      ensures ReconstructedLine(c[e], Truncations(weights, 0, 0, br)[e.band], uniform) == c[e]
    {
      ReconstructedLossless(c[e], uniform);
    }
  }
}
