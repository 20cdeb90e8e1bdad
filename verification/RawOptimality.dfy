// The raw-mode fallback is not only within its bounds (clause C.5.3): no other admissible choice of raw packets
// makes the significance and count subpackets of a precinct smaller.
module RawOptimality {
  import opened Precinct
  import opened RawFallback

  /** Significance and count bytes of the packets from i on. */
  function CountBytes(cx: Context, raw: seq<bool>, m: Counts, i: nat): nat
    requires cx.Ok() && i <= |raw| == |cx.sh.packets|
    decreases |raw| - i
  {
    if i == |raw| then 0 else CodedBytes(cx, cx.sh.packets[i], raw[i], m) + CountBytes(cx, raw, m, i + 1)
  }

  /** The request of an encoder that asks for nothing. */
  function NoneRaw(n: nat): seq<bool> {
    seq(n, _ => false)
  }

  // ---- selection per packet --------------------------------------------------------------------------

  lemma {:induction false} CheaperEach(cx: Context, raw: seq<bool>, raw': seq<bool>, m: Counts, i: nat)
    requires cx.Ok() && i <= |raw| == |raw'| == |cx.sh.packets|
    requires forall j | 0 <= j < |raw| ::
               CodedBytes(cx, cx.sh.packets[j], raw'[j], m) <= CodedBytes(cx, cx.sh.packets[j], raw[j], m)
    ensures CountBytes(cx, raw', m, i) <= CountBytes(cx, raw, m, i)
    ensures CountBytes(cx, raw', m, i) == CountBytes(cx, raw, m, i) ==> forall j | i <= j < |raw| ::
              CodedBytes(cx, cx.sh.packets[j], raw'[j], m) == CodedBytes(cx, cx.sh.packets[j], raw[j], m)
    decreases |raw| - i
  {
    hide CodedBytes;
    if i < |raw| {
      CheaperEach(cx, raw, raw', m, i + 1);
    }
  }

  /** With a flag per packet, each packet takes the cheaper mode, and raw mode only where it is cheaper. */
  lemma PerPacketOptimal(cx: Context, raw: seq<bool>, m: Counts)
    requires cx.Ok() && cx.md.rawPerPacket && |raw| == |cx.sh.packets|
    ensures CountBytes(cx, FinalRaw(cx, NoneRaw(|raw|), m), m, 0) <= CountBytes(cx, raw, m, 0)
    ensures CountBytes(cx, FinalRaw(cx, NoneRaw(|raw|), m), m, 0) == CountBytes(cx, raw, m, 0) ==>
              forall i | 0 <= i < |raw| && FinalRaw(cx, NoneRaw(|raw|), m)[i] :: raw[i]
  {
    hide CodedBytes, RawBytes;
    var final := FinalRaw(cx, NoneRaw(|raw|), m);
    forall j | 0 <= j < |raw|
      ensures CodedBytes(cx, cx.sh.packets[j], final[j], m) <= CodedBytes(cx, cx.sh.packets[j], raw[j], m)
    {
      RawCodedBytes(cx, cx.sh.packets[j], m);
    }
    CheaperEach(cx, raw, final, m, 0);
    if CountBytes(cx, final, m, 0) == CountBytes(cx, raw, m, 0) {
      forall i | 0 <= i < |raw| && final[i]
        ensures raw[i]
      {
        RawCodedBytes(cx, cx.sh.packets[i], m);
        assert CodedBytes(cx, cx.sh.packets[i], final[i], m) == CodedBytes(cx, cx.sh.packets[i], raw[i], m);
      }
    }
  }

  // ---- selection per band ----------------------------------------------------------------------------

  /** Only bands whose packets together exceed their raw cost have raw packets. */
  ghost predicate Justified(cx: Context, raw: seq<bool>, m: Counts)
    requires cx.Ok() && |raw| == |cx.sh.packets|
  {
    forall b, k | 0 <= b < cx.sh.Bands() && 0 <= k < |PacketsWith(cx.sh.packets, b, 0)| ::
      raw[PacketsWith(cx.sh.packets, b, 0)[k]] ==> Exceeds(cx, b, m)
  }

  predicate Exceeds(cx: Context, b: nat, m: Counts)
    requires cx.Ok()
  {
    var ps := PacketsWith(cx.sh.packets, b, 0);
    SumCoded(cx, ps, NoneRaw(|cx.sh.packets|), m) > SumRaw(cx, ps)
  }

  lemma {:induction false} SumDepends(cx: Context, ps: seq<nat>, raw: seq<bool>, raw': seq<bool>, m: Counts)
    requires cx.Ok() && Indices(cx, ps) && |raw| == |raw'| == |cx.sh.packets|
    requires forall k | 0 <= k < |ps| :: raw'[ps[k]] == raw[ps[k]]
    ensures SumCoded(cx, ps, raw', m) == SumCoded(cx, ps, raw, m)
  {
    hide CodedBytes;
    if ps != [] {
      assert forall k | 0 <= k < |ps[1..]| :: ps[1..][k] == ps[k + 1];
      SumDepends(cx, ps[1..], raw, raw', m);
    }
  }

  /** The packets of a band are raw together or coded together. */
  lemma Uniform(cx: Context, raw: seq<bool>, m: Counts, b: nat)
    requires cx.Ok() && |raw| == |cx.sh.packets| && b < cx.sh.Bands() && SameRawPerBand(cx.sh, raw)
    ensures var ps := PacketsWith(cx.sh.packets, b, 0);
            ps != [] ==> SumCoded(cx, ps, raw, m) ==
                         if raw[ps[0]] then SumRaw(cx, ps) else SumCoded(cx, ps, NoneRaw(|raw|), m)
  {
    hide SumCoded, SumRaw;
    var ps := PacketsWith(cx.sh.packets, b, 0);
    if ps != [] {
      if raw[ps[0]] {
        AllRawSum(cx, ps, raw, m);
      } else {
        SumDepends(cx, ps, NoneRaw(|raw|), raw, m);
      }
    }
  }

  lemma SetRawJustified(cx: Context, raw: seq<bool>, m: Counts, b: nat)
    requires cx.Ok() && |raw| == |cx.sh.packets| && SharedPackets(cx.sh) && Justified(cx, raw, m) && Exceeds(cx, b, m)
    ensures Justified(cx, SetRaw(raw, PacketsWith(cx.sh.packets, b, 0)), m)
  {
    hide SumCoded, SumRaw;
    var packets := cx.sh.packets;
    var ps := PacketsWith(packets, b, 0);
    forall c, k | 0 <= c < cx.sh.Bands() && 0 <= k < |PacketsWith(packets, c, 0)|
                  && SetRaw(raw, ps)[PacketsWith(packets, c, 0)[k]]
      ensures Exceeds(cx, c, m)
    {
      var i := PacketsWith(packets, c, 0)[k];
      if !raw[i] {
        assert HasBand(packets[i], b) && HasBand(packets[i], c);
      }
    }
  }

  lemma {:induction false} PassJustified(cx: Context, raw: seq<bool>, m: Counts, b: nat)
    requires cx.Ok() && |raw| == |cx.sh.packets| && b <= cx.sh.Bands()
    requires SharedPackets(cx.sh) && SameRawPerBand(cx.sh, raw) && Justified(cx, raw, m)
    ensures Justified(cx, FallbackPass(cx, raw, m, b), m)
    decreases cx.sh.Bands() - b
  {
    hide SameRawPerBand, SharedPackets, SetRaw, Justified, SumCoded, SumRaw;
    if b < cx.sh.Bands() {
      var ps := PacketsWith(cx.sh.packets, b, 0);
      if SumCoded(cx, ps, raw, m) > SumRaw(cx, ps) {
        NoSum(cx, ps, raw, m);
        Uniform(cx, raw, m, b);
        SetRawKeepsAgreement(cx, raw, b);
        SetRawJustified(cx, raw, m, b);
        PassJustified(cx, SetRaw(raw, ps), m, b + 1);
      } else {
        PassJustified(cx, raw, m, b + 1);
      }
    }
  }

  lemma NoSum(cx: Context, ps: seq<nat>, raw: seq<bool>, m: Counts)
    requires cx.Ok() && Indices(cx, ps) && |raw| == |cx.sh.packets| && SumCoded(cx, ps, raw, m) > SumRaw(cx, ps)
    ensures ps != []
  {
  }

  lemma {:induction false} FallbackJustified(cx: Context, raw: seq<bool>, m: Counts)
    requires cx.Ok() && |raw| == |cx.sh.packets|
    requires SharedPackets(cx.sh) && SameRawPerBand(cx.sh, raw) && Justified(cx, raw, m)
    ensures Justified(cx, Fallback(cx, raw, m), m)
    decreases CodedCountOf(raw)
  {
    hide SameRawPerBand, SharedPackets, FallbackPass, Justified;
    var raw' := FallbackPass(cx, raw, m, 0);
    if raw' != raw {
      FewerCoded(raw, raw');
      PassKeepsAgreement(cx, raw, m, 0);
      PassJustified(cx, raw, m, 0);
      FallbackJustified(cx, raw', m);
    }
  }

  /** x with the flags of final on these packets. */
  function Overwritten(x: seq<bool>, final: seq<bool>, ps: seq<nat>): (r: seq<bool>)
    requires |final| == |x|
    ensures |r| == |x|
  {
    seq(|x|, i requires 0 <= i < |x| => if i in ps then final[i] else x[i])
  }

  lemma OverwrittenAgrees(cx: Context, x: seq<bool>, final: seq<bool>, b: nat)
    requires cx.Ok() && |x| == |final| == |cx.sh.packets| && SharedPackets(cx.sh)
    requires SameRawPerBand(cx.sh, x) && SameRawPerBand(cx.sh, final)
    ensures SameRawPerBand(cx.sh, Overwritten(x, final, PacketsWith(cx.sh.packets, b, 0)))
  {
    var packets := cx.sh.packets;
    var ps := PacketsWith(packets, b, 0);
    var y := Overwritten(x, final, ps);
    forall c, k | 0 <= c < cx.sh.Bands() && 0 <= k < |PacketsWith(packets, c, 0)|
      ensures y[PacketsWith(packets, c, 0)[k]] == y[PacketsWith(packets, c, 0)[0]]
    {
      var qs := PacketsWith(packets, c, 0);
      assert x[qs[k]] == x[qs[0]] && final[qs[k]] == final[qs[0]];
      assert qs[k] in qs && qs[0] in qs;
      assert HasBand(packets[qs[k]], c) && HasBand(packets[qs[0]], c);
      assert qs[k] in ps ==> HasBand(packets[qs[k]], b);
      assert qs[0] in ps ==> HasBand(packets[qs[0]], b);
    }
  }

  /** Flags that differ on the packets ps only: so do the costs. */
  lemma {:induction false} CostMoves(cx: Context, x: seq<bool>, y: seq<bool>, ps: seq<nat>, m: Counts, i: nat)
    requires cx.Ok() && i <= |x| == |y| == |cx.sh.packets| && Indices(cx, ps)
    requires forall k | 0 <= k < |ps| :: i <= ps[k]
    requires forall j, k | 0 <= j < k < |ps| :: ps[j] < ps[k]
    requires forall j | i <= j < |x| && j !in ps :: x[j] == y[j]
    ensures CountBytes(cx, x, m, i) + SumCoded(cx, ps, y, m) == CountBytes(cx, y, m, i) + SumCoded(cx, ps, x, m)
    decreases |x| - i
  {
    hide CodedBytes;
    if i < |x| {
      if ps != [] && ps[0] == i {
        assert forall j | i + 1 <= j < |x| && j !in ps[1..] :: j !in ps;
        CostMoves(cx, x, y, ps[1..], m, i + 1);
      } else {
        assert i !in ps;
        CostMoves(cx, x, y, ps, m, i + 1);
      }
    } else {
      assert ps == [];
    }
  }

  /** Taking over the flags of one band from a constrained, justified choice never costs anything. */
  lemma BandImproves(cx: Context, x: seq<bool>, final: seq<bool>, m: Counts, b: nat)
    requires cx.Ok() && |x| == |final| == |cx.sh.packets| && b < cx.sh.Bands()
    requires SameRawPerBand(cx.sh, x) && SameRawPerBand(cx.sh, final) && Justified(cx, final, m)
    requires var ps := PacketsWith(cx.sh.packets, b, 0); SumCoded(cx, ps, final, m) <= SumRaw(cx, ps)
    ensures CountBytes(cx, Overwritten(x, final, PacketsWith(cx.sh.packets, b, 0)), m, 0) <= CountBytes(cx, x, m, 0)
  {
    hide SumCoded, SumRaw, SameRawPerBand, CountBytes;
    var ps := PacketsWith(cx.sh.packets, b, 0);
    var y := Overwritten(x, final, ps);
    CostMoves(cx, x, y, ps, m, 0);
    SumDepends(cx, ps, final, y, m);
    Uniform(cx, x, m, b);
    Uniform(cx, final, m, b);
    if ps == [] {
      SumDepends(cx, ps, final, x, m);
    }
  }

  lemma EmptyCostsNothing(cx: Context, raw: bool, m: Counts)
    requires cx.Ok()
    ensures CodedBytes(cx, [], raw, m) == 0
  {
  }

  /** Flags that agree on all packets of all bands cost the same: the other packets are empty. */
  lemma EqualOnBands(cx: Context, x: seq<bool>, final: seq<bool>, m: Counts)
    requires cx.Ok() && |x| == |final| == |cx.sh.packets|
    requires forall b, k | 0 <= b < cx.sh.Bands() && 0 <= k < |PacketsWith(cx.sh.packets, b, 0)| ::
               x[PacketsWith(cx.sh.packets, b, 0)[k]] == final[PacketsWith(cx.sh.packets, b, 0)[k]]
    ensures CountBytes(cx, final, m, 0) <= CountBytes(cx, x, m, 0)
  {
    hide CodedBytes;
    var packets := cx.sh.packets;
    forall j | 0 <= j < |x|
      ensures CodedBytes(cx, packets[j], final[j], m) <= CodedBytes(cx, packets[j], x[j], m)
    {
      if packets[j] == [] {
        EmptyCostsNothing(cx, final[j], m);
        EmptyCostsNothing(cx, x[j], m);
      } else {
        assert cx.sh.EntriesOk(packets[j]);
        var b := packets[j][0].band;
        assert HasBand(packets[j], b);
        var ps := PacketsWith(packets, b, 0);
        assert j in ps;
        var k :| 0 <= k < |ps| && ps[k] == j;
      }
    }
    CheaperEach(cx, x, final, m, 0);
  }

  lemma {:induction false} BandsImprove(cx: Context, x: seq<bool>, final: seq<bool>, m: Counts, b: nat)
    requires cx.Ok() && |x| == |final| == |cx.sh.packets| && b <= cx.sh.Bands() && SharedPackets(cx.sh)
    requires SameRawPerBand(cx.sh, x) && SameRawPerBand(cx.sh, final) && Justified(cx, final, m)
    requires forall c: nat | c < cx.sh.Bands() ::
               var ps := PacketsWith(cx.sh.packets, c, 0); SumCoded(cx, ps, final, m) <= SumRaw(cx, ps)
    requires forall c, k | 0 <= c < b && 0 <= k < |PacketsWith(cx.sh.packets, c, 0)| ::
               x[PacketsWith(cx.sh.packets, c, 0)[k]] == final[PacketsWith(cx.sh.packets, c, 0)[k]]
    ensures CountBytes(cx, final, m, 0) <= CountBytes(cx, x, m, 0)
    decreases cx.sh.Bands() - b
  {
    hide SumCoded, SumRaw, SameRawPerBand, SharedPackets, CountBytes, Justified;
    if b == cx.sh.Bands() {
      EqualOnBands(cx, x, final, m);
    } else {
      var ps := PacketsWith(cx.sh.packets, b, 0);
      BandImproves(cx, x, final, m, b);
      OverwrittenAgrees(cx, x, final, b);
      BandsImprove(cx, Overwritten(x, final, ps), final, m, b + 1);
    }
  }

  /** With one flag per band, no flags on which the packets of every band agree cost less. */
  lemma PerBandOptimal(cx: Context, raw: seq<bool>, m: Counts)
    requires cx.Ok() && |raw| == |cx.sh.packets| && SharedPackets(cx.sh) && SameRawPerBand(cx.sh, raw)
    ensures CountBytes(cx, Fallback(cx, NoneRaw(|raw|), m), m, 0) <= CountBytes(cx, raw, m, 0)
  {
    hide CountBytes, SumCoded, SumRaw, Fallback, SharedPackets;
    var none := NoneRaw(|raw|);
    FallbackKeepsAgreement(cx, none, m);
    FallbackJustified(cx, none, m);
    PerBandConstraint(cx, none, m);
    BandsImprove(cx, raw, Fallback(cx, none, m), m, 0);
  }

  /** Flags the stream may carry. */
  predicate Admissible(cx: Context, raw: seq<bool>)
    requires cx.Ok()
  {
    |raw| == |cx.sh.packets| && (cx.md.rawPerPacket || SameRawPerBand(cx.sh, raw))
  }

  /** Of all admissible flags, those of an encoder without requests of its own give the fewest count bytes. */
  lemma FinalRawOptimal(cx: Context, raw: seq<bool>, m: Counts)
    requires cx.Ok() && Admissible(cx, raw) && (cx.md.rawPerPacket || SharedPackets(cx.sh))
    ensures CountBytes(cx, FinalRaw(cx, NoneRaw(|raw|), m), m, 0) <= CountBytes(cx, raw, m, 0)
    ensures Admissible(cx, FinalRaw(cx, NoneRaw(|raw|), m))
  {
    hide CountBytes, Fallback, SharedPackets;
    if cx.md.rawPerPacket {
      PerPacketOptimal(cx, raw, m);
    } else {
      PerBandOptimal(cx, raw, m);
      FallbackKeepsAgreement(cx, NoneRaw(|raw|), m);
    }
  }
}
