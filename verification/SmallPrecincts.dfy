// How long a packet can get, and precincts so small that no length field can overflow: they encode exactly when their
// coefficients fit.
module SmallPrecincts {
  import opened Wrappers
  import opened Arith
  import opened BitIO
  import opened Vlc
  import opened Precinct
  import opened PrecinctRoundTrip
  import opened PrecinctTheorems
  import opened RawFallback
  import opened EncoderFailures
  import PacketHeaders

  /** Code groups in a packet. */
  function GroupsIn(cx: Context, es: seq<Entry>): nat
    requires cx.Ok() && cx.sh.EntriesOk(es)
  {
    if es == [] then 0 else cx.sh.Groups(es[0].band) + GroupsIn(cx, es[1..])
  }

  // ---- bits per code group ---------------------------------------------------------------------------

  lemma {:induction false} PlanesLength(n: nat, v: seq<nat>)
    requires |v| == 4
    ensures |PlaneBits(n, v)| == 4 * n
  {
    if n > 0 {
      PlanesLength(n - 1, v);
    }
  }

  lemma {:induction false} ValuesLength(q: QLine, groups: nat, t: nat, br: nat, signsHere: bool, g: nat)
    requires QLineOk(q, groups, t, br) && br <= 5 && g <= groups && AllOk(q.vals)
    ensures |ValueBits(q, t, signsHere, g)| <= 128 * (groups - g)
    decreases groups - g
  {
    hide Pow2, GroupFits, GroupBits;
    if g < groups {
      ValuesLength(q, groups, t, br, signsHere, g + 1);
      BelowWord(q.m[g], br);
      if q.m[g] > t {
        GroupLength(q.m[g] - t, signsHere, q.vals[g]);
      }
    }
  }

  lemma GroupLength(planes: nat, signsHere: bool, group: Group)
    requires group.Ok() && planes < 32
    ensures |GroupBits(planes, signsHere, group)| <= 128
  {
    PlanesLength(planes, group.v);
  }

  lemma BelowWord(m: nat, br: nat)
    requires m < Pow2(br) && br <= 5
    ensures m < 32
  {
    Pow2Monotone(br, 5);
    assert Pow2(5) == 32;
  }

  lemma {:induction false} DataLength(cx: Context, es: seq<Entry>, q: Quantised)
    requires cx.Ok() && cx.sh.EntriesOk(es) && Covers(q, es) && QuantisedOk(cx, q) && cx.md.br <= 5
    ensures |DataBits(cx, es, q)| <= 128 * GroupsIn(cx, es)
  {
    hide QuantisedOk, ValueBits;
    if es != [] {
      CountsOfLine(cx, q, es[0]);
      ValuesLength(q[es[0]], cx.sh.Groups(es[0].band), cx.t[es[0].band], cx.md.br, !cx.md.signPackets, 0);
      DataLength(cx, es[1..], q);
    }
  }

  lemma {:induction false} GroupSignsLength(group: Group, k: nat)
    requires group.Ok() && k <= 4
    ensures |GroupSignBits(group, k)| <= 4 - k
    decreases 4 - k
  {
    if k < 4 {
      GroupSignsLength(group, k + 1);
    }
  }

  lemma {:induction false} LineSignsLength(vals: Values, g: nat)
    requires g <= |vals| && AllOk(vals)
    ensures |LineSignBits(vals, g)| <= 4 * (|vals| - g)
    decreases |vals| - g
  {
    if g < |vals| {
      GroupSignsLength(vals[g], 0);
      LineSignsLength(vals, g + 1);
    }
  }

  lemma {:induction false} SignsLength(cx: Context, es: seq<Entry>, q: Quantised)
    requires cx.Ok() && cx.sh.EntriesOk(es) && Covers(q, es) && QuantisedOk(cx, q)
    ensures |SignBits(cx, es, q)| <= 4 * GroupsIn(cx, es)
  {
    hide QuantisedOk, LineSignBits;
    if es != [] {
      CountsOfLine(cx, q, es[0]);
      LineSignsLength(q[es[0]].vals, 0);
      SignsLength(cx, es[1..], q);
    }
  }

  lemma {:induction false} CodedLength(t: nat, line: seq<nat>, predicted: seq<nat>, z: seq<bool>, g: nat, br: nat)
    requires g <= |line| == |predicted| && InRange(line, br) && InRange(predicted, br) && br <= 5
    requires CodedLineBits(t, line, predicted, z, g).Ok?
    ensures |CodedLineBits(t, line, predicted, z, g).value| <= 64 * (|line| - g)
    decreases |line| - g
  {
    if g < |line| {
      CodedLength(t, line, predicted, z, g + 1, br);
      if !Flagged(z, g) {
        CountResidual(line[g], predicted[g], t, br);
        Pow2Monotone(br + 1, 6);
        assert Pow2(6) == 64;
      }
    }
  }

  lemma FlagsLength(cx: Context, b: nat, line: seq<nat>, predicted: seq<nat>)
    requires b < |cx.t| == |cx.d| && |line| == |predicted|
    ensures |FlagsOf(cx, b, line, predicted)| <= |line|
  {
    hide Flagged;
    CeilDivLeast(|line|, 8, |line|);
  }

  lemma LineLength(cx: Context, e: Entry, raw: bool, m: Counts)
    requires cx.Ok() && cx.sh.EntryOk(e) && InBounds(cx, m) && cx.md.br <= 5 && LineBits(cx, e, raw, m).Ok?
    ensures var (z, c) := LineBits(cx, e, raw, m).value;
            |z| <= cx.sh.Groups(e.band) && |c| <= 64 * cx.sh.Groups(e.band)
  {
    hide InBounds, CodedLineBits, Predicted, FlagsOf;
    var line := LineCounts(cx.sh, m, e);
    if raw {
      RawLineLength(cx.md.br, line);
      MulMonotone(cx.md.br, 64, |line|);
    } else {
      var predicted := Predicted(cx, e, m).value;
      LineInBounds(cx, e, m);
      PredictedInRange(cx, e, m);
      FlagsLength(cx, e.band, line, predicted);
      CodedLength(cx.t[e.band], line, predicted, FlagsOf(cx, e.band, line, predicted), 0, cx.md.br);
    }
  }

  lemma LineInBounds(cx: Context, e: Entry, m: Counts)
    requires cx.Ok() && cx.sh.EntryOk(e) && InBounds(cx, m)
    ensures InRange(LineCounts(cx.sh, m, e), cx.md.br)
  {
  }

  lemma {:induction false} CountsLength(cx: Context, es: seq<Entry>, raw: bool, m: Counts)
    requires cx.Ok() && cx.sh.EntriesOk(es) && InBounds(cx, m) && cx.md.br <= 5 && CountBits(cx, es, raw, m).Ok?
    ensures var (sig, cnt) := CountBits(cx, es, raw, m).value;
            |sig| <= GroupsIn(cx, es) && |cnt| <= 64 * GroupsIn(cx, es)
  {
    hide InBounds, LineBits;
    if es != [] {
      LineLength(cx, es[0], raw, m);
      CountsLength(cx, es[1..], raw, m);
    }
  }

  // ---- small precincts -------------------------------------------------------------------------------

  /** At most 256 packets of at most 64 code groups. */
  predicate Small(sh: Shape)
    requires sh.Ok()
  {
    && 0 < |sh.packets| <= 256
    && forall i | 0 <= i < |sh.packets| :: GroupsOf(sh, sh.packets[i]) <= 64
  }

  function GroupsOf(sh: Shape, es: seq<Entry>): nat
    requires sh.Ok() && sh.EntriesOk(es)
  {
    if es == [] then 0 else sh.Groups(es[0].band) + GroupsOf(sh, es[1..])
  }

  lemma {:induction false} SameGroups(cx: Context, es: seq<Entry>)
    requires cx.Ok() && cx.sh.EntriesOk(es)
    ensures GroupsIn(cx, es) == GroupsOf(cx.sh, es)
  {
    if es != [] {
      SameGroups(cx, es[1..]);
    }
  }

  lemma BytesAtMost(n: nat, k: nat)
    requires n <= 8 * k
    ensures BytesFor(n) <= k
  {
  }

  lemma LengthPowers()
    ensures Pow2(11) == 0x800 && Pow2(13) == 0x2000 && Pow2(15) == 0x8000 && Pow2(20) == 0x10_0000
  {
    hide Pow2;
    SmallPowers();
    WordPowers();
    Pow2Add(8, 2);
    Pow2Add(10, 1);
    Pow2Add(11, 2);
    Pow2Add(13, 2);
    Pow2Add(16, 4);
  }

  lemma SmallPacket(cx: Context, es: seq<Entry>, raw: bool, q: Quantised)
    requires cx.Ok() && cx.sh.EntriesOk(es) && Covers(q, es) && QuantisedOk(cx, q) && InBounds(cx, CountsOf(q)) && cx.md.br <= 5
    requires GroupsIn(cx, es) <= 64 && CountBits(cx, es, raw, CountsOf(q)).Ok?
    ensures PacketBytes(cx, es, raw, q).Ok? && 0 < |PacketBytes(cx, es, raw, q).value| <= 2048
  {
    hide QuantisedOk, InBounds, Covers, CountsOf, CountBits, DataBits, SignBits, GroupsIn, Pow2, FieldsBits, Bits, Pack, BytesFor;
    var (sig, cnt) := CountBits(cx, es, raw, CountsOf(q)).value;
    var dat, sgn := DataBits(cx, es, q), SignBits(cx, es, q);
    CountsLength(cx, es, raw, CountsOf(q));
    DataLength(cx, es, q);
    SignsLength(cx, es, q);
    BytesAtMost(|sig|, 8);
    BytesAtMost(|cnt|, 512);
    BytesAtMost(|dat|, 1024);
    BytesAtMost(|sgn|, 32);
    LengthPowers();
    var pk := HeaderOf(cx, es, raw, cnt, q);
    PacketHeaders.RoundTrip(pk, cx.md.shortHeader, []);
    PackedSize(sig);
    PackedSize(cnt);
    PackedSize(dat);
    PackedSize(sgn);
  }

  lemma PackedSize(bits: seq<bool>)
    ensures |Pack(bits)| == BytesFor(|bits|)
  {
  }

  lemma {:induction false} SmallPackets(cx: Context, raw: seq<bool>, q: Quantised, i: nat)
    requires cx.Ok() && i <= |raw| == |cx.sh.packets| && QuantisedOk(cx, q) && InBounds(cx, CountsOf(q)) && cx.md.br <= 5
    requires forall j | 0 <= j < |raw| :: Covers(q, cx.sh.packets[j])
    requires StateMatches(cx.sh, cx.st) && AllAskable(cx, raw) && Small(cx.sh)
    ensures PacketsBytes(cx, raw, q, i).Ok?
    ensures |PacketsBytes(cx, raw, q, i).value| <= 2048 * (|raw| - i)
    ensures i < |raw| ==> |PacketsBytes(cx, raw, q, i).value| > 0
    decreases |raw| - i
  {
    hide StateMatches, QuantisedOk, InBounds, CountBits, CountsOf, Askable, Covers, PacketBytes;
    if i < |raw| {
      assert Askable(cx, cx.sh.packets[i], raw[i]);
      PacketCodes(cx, cx.sh.packets[i], raw[i], q);
      SameGroups(cx, cx.sh.packets[i]);
      SmallPacket(cx, cx.sh.packets[i], raw[i], q);
      SmallPackets(cx, raw, q, i + 1);
    }
  }

  /** A small precinct encodes exactly when its coefficients fit, into at most 2^19 bytes. */
  lemma SmallEncodes(sh: Shape, md: Mode, weights: seq<Weight>, coding: Coding, c: Coeffs, st: State)
    requires sh.Ok() && |weights| == sh.Bands() && CoeffsOk(sh, c) && StateMatches(sh, st) && StateInRange(st, md.br)
    requires |coding.d| == sh.Bands() && CodingOk(ContextOf(sh, md, weights, coding.q, coding.r, coding.d, st), coding)
    requires Small(sh) && md.br <= 5
    ensures Encode(sh, md, weights, coding, c, st).Ok? <==> CoeffsFit(c, md.br)
    ensures Encode(sh, md, weights, coding, c, st).Ok? ==> |Encode(sh, md, weights, coding, c, st).value.bytes| <= 0x8_0000
  {
    hide RequestedRaw, Truncations, QuantiseAll, CoeffsFit, StateMatches, AllAskable, QuantisedOk, Covers, Pow2, CheckCounts,
         PacketsBytes, FinalRaw, NextState, CountsOf, Small, InBounds, StateInRange;
    var cx := ContextOf(sh, md, weights, coding.q, coding.r, coding.d, st);
    if CoeffsFit(c, md.br) {
      var raw, q := RequestedRaw(cx, coding).value, QuantiseAll(cx, c);
      PrecinctQuantised(cx, c);
      LineCovered(cx, c);
      CountsBounded(cx, q);
      RequestAskable(cx, coding);
      CountsCheck(cx, raw, q, 0);
      StillAskable(cx, raw, CountsOf(q));
      SmallPackets(cx, FinalRaw(cx, raw, CountsOf(q)), q, 0);
      FewPackets(sh);
    }
  }

  lemma FewPackets(sh: Shape)
    requires sh.Ok() && Small(sh)
    ensures 0 < |sh.packets| <= 256
  {
  }
}
