// What the coding modes of the picture header change in the entropy-coded data: Qpih, Fs, Rm, Rl, Lh and Br.
module HeaderModes {
  import opened Wrappers
  import opened Arith
  import opened HeaderTypes
  import opened Geometry
  import opened GeometryTiling
  import opened GeometryPackets
  import opened BitIO
  import opened BodyCodec
  import opened Precinct
  import opened Quantiser
  import BitLayout
  import CountCosts
  import PacketHeaders
  import RawOptimality

  /**
   * Qpih = 0: indices count steps of 2^T and are read in the middle of their step; Qpih = 1: the uniform quantiser, without
   * a wider step around zero.
   */
  lemma QuantiserOf(h: Headers, d: nat, m: nat, t: nat)
    requires Supported(h) && t < m && d < Pow2(m)
    ensures var v := Quantise(d, m, t, ModeOf(h).uniform);
            var y := Magnitude(v, m, t, ModeOf(h).uniform);
            && (h.pih.qpih == 0 ==> if d < Pow2(t) then v == 0 && y == 0
                                    else v == d / Pow2(t) && y > 0 && 2 * Abs(y - d) <= Pow2(t))
            && (h.pih.qpih == 1 ==> UniformNear(d, y, m, t))
  {
    hide Valid, Pow2, UniformNear, Magnitude, Neumann, Rounded;
    if h.pih.qpih == 0 {
      DeadZoneHalfStep(d, m, t);
      DeadZoneIndex(d, t);
      if d < Pow2(t) {
        DivUnique(d, Pow2(t), 0);
      }
    } else if h.pih.qpih == 1 {
      UniformHalfStep(d, m, t);
    }
  }

  predicate Held(q: Quantised, e: Entry) {
    e in q && |q[e].m| == |q[e].vals| && AllOk(q[e].vals)
  }

  /** Fs = 0: signs travel with the data, and no packet has a sign subpacket; Fs = 1: every packet has its own. */
  lemma SignsOf(h: Headers, cx: Context, e: Entry, q: Quantised, raw: bool)
    requires cx.Ok() && cx.md == ModeOf(h) && cx.sh.EntryOk(e) && Held(q, e) && PacketBytes(cx, [e], raw, q).Ok?
    ensures CountBits(cx, [e], raw, CountsOf(q)).Ok?
    ensures var bytes, (sig, cnt) := PacketBytes(cx, [e], raw, q).value, CountBits(cx, [e], raw, CountsOf(q)).value;
            var parsed := PacketHeaders.Parse(cx.md.shortHeader, bytes);
            && parsed.Ok?
            && var pk := parsed.value;
               var b := PacketHeaders.HeaderBytes(cx.md.shortHeader) + BytesFor(|sig|) + pk.lcnt;
               var c := b + pk.ldat;
               && |bytes| == c + pk.lsgn
               && bytes[b..c] == Pack(ValueBits(q[e], cx.t[e.band], h.pih.fs != 1, 0))
               && bytes[c..] == if h.pih.fs == 1 then Pack(LineSignBits(q[e].vals, 0)) else []
  {
    hide PacketBytes, CountBits, Pack, PacketHeaders.Parse, ValueBits, LineSignBits, CountsOf;
    BitLayout.PacketLayout(cx, [e], raw, q);
    OneLine(cx, e, q);
  }

  lemma OneLine(cx: Context, e: Entry, q: Quantised)
    requires cx.Ok() && cx.sh.EntryOk(e) && Held(q, e)
    ensures DataBits(cx, [e], q) == ValueBits(q[e], cx.t[e.band], !cx.md.signPackets, 0)
    ensures SignBits(cx, [e], q) == LineSignBits(q[e].vals, 0)
  {
    hide ValueBits, LineSignBits;
    assert [e][1..] == [];
  }

  /** Rm = 0: a silent group has the count predicted for it; otherwise it ends at the truncation position. */
  lemma RunsOf(h: Headers, cx: Context, b: nat, predicted: seq<nat>)
    requires cx.md == ModeOf(h) && b < |cx.t|
    ensures CountCosts.Inferred(cx, b, predicted) ==
            if h.pih.rm == 0 then predicted else seq(|predicted|, _ => cx.t[b])
  {
  }

  /**
   * Rl = 1: of all raw flags those the fallback ends with cost least; Rl = 0: of all that agree on the packets of every band,
   * and they agree themselves.
   */
  lemma RawFlagsOf(h: Headers, p: nat, cx: Context, raw: seq<bool>, m: Counts)
    requires Supported(h) && p < NumPrecincts(h) && cx.Ok() && cx.md == ModeOf(h) && cx.sh == ShapeOf(h, p)
    requires |raw| == |cx.sh.packets| && (h.pih.rl != 1 ==> SameRawPerBand(cx.sh, raw))
    ensures var final := FinalRaw(cx, RawOptimality.NoneRaw(|raw|), m);
            && RawOptimality.CountBytes(cx, final, m, 0) <= RawOptimality.CountBytes(cx, raw, m, 0)
            && (h.pih.rl != 1 ==> SameRawPerBand(cx.sh, final))
  {
    hide Supported, NumPrecincts, ShapeOf, RawOptimality.CountBytes, Fallback, SameRawPerBand, FinalRaw;
    BandsShare(h, p);
    RawOptimality.FinalRawOptimal(cx, raw, m);
  }

  /** Packet headers take five bytes when Wf times Nc is below 32752, and seven otherwise or when Lh asks for it. */
  lemma HeaderSizeOf(h: Headers)
    ensures PacketHeaders.HeaderBytes(ModeOf(h).shortHeader) ==
            if h.pih.lh == 0 && h.pih.wf * h.pih.nc < 32752 then 5 else 7
  {
  }

  /** Raw counts take Br bits. */
  lemma RawCountsOf(h: Headers, cx: Context, line: seq<nat>, g: nat)
    requires cx.md == ModeOf(h) && g < |line| && InRange(line, h.pih.br)
    ensures var bits := RawLineBits(cx.md.br, line);
            Mul(g, h.pih.br) + h.pih.br <= |bits| && Value(bits[Mul(g, h.pih.br)..Mul(g, h.pih.br) + h.pih.br]) == line[g]
  {
    CountCosts.RawCountAt(h.pih.br, line, g);
  }
}
