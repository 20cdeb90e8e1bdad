// What coarser truncation does to a precinct: counts and predictions are clipped from below, codewords shorten, silent
// groups stay silent, and bitplanes and non-zero indices become fewer.
module CoarserTruncation {
  import opened Wrappers
  import opened Arith
  import opened BitIO
  import opened Vlc
  import opened Quantiser
  import opened Precinct
  import opened PrecinctRoundTrip
  import opened RawFallback

  /** The same precinct with truncation positions at least as high. */
  ghost predicate Coarser(cx: Context, cx': Context) {
    && cx.Ok() && cx'.Ok()
    && cx'.sh == cx.sh && cx'.md == cx.md && cx'.d == cx.d && cx'.st == cx.st
    && forall b | 0 <= b < |cx.t| :: cx.t[b] <= cx'.t[b]
  }

  function Clip(s: seq<nat>, t: nat): (r: seq<nat>)
    ensures |r| == |s|
  {
    seq(|s|, i requires 0 <= i < |s| => Max(s[i], t))
  }

  predicate AtLeast(s: seq<nat>, t: nat) {
    forall i | 0 <= i < |s| :: t <= s[i]
  }

  /** Counts of every line, none below T, and the same clipped at the coarser T. */
  ghost predicate Clipped(cx: Context, cx': Context, m: Counts, m': Counts)
    requires Coarser(cx, cx')
  {
    forall e | cx.sh.EntryOk(e) ::
      && LineCounts(cx.sh, m', e) == Clip(LineCounts(cx.sh, m, e), cx'.t[e.band])
      && AtLeast(LineCounts(cx.sh, m, e), cx.t[e.band])
  }

  // ---- counts ----------------------------------------------------------------------------------------

  /** Clipping count and prediction alike never lengthens the codeword of their difference. */
  lemma SymbolFalls(m: nat, p: nat, t: nat, t': nat)
    requires t <= t' && t <= m && t <= p
    ensures m - p + Theta(p, t) >= 0 && Max(m, t') - Max(p, t') + Theta(Max(p, t'), t') >= 0
    ensures Symbol(Max(m, t') - Max(p, t'), Theta(Max(p, t'), t')) <= Symbol(m - p, Theta(p, t))
  {
  }

  lemma {:induction false} CodedLineFalls(t: nat, line: seq<nat>, predicted: seq<nat>, z: seq<bool>, t': nat, z': seq<bool>, g: nat)
    requires t <= t' && g <= |line| == |predicted| && AtLeast(line, t) && AtLeast(predicted, t)
    requires forall h: nat | Flagged(z, h) :: Flagged(z', h)
    ensures var a := CodedLineBits(t, line, predicted, z, g);
            var b := CodedLineBits(t', Clip(line, t'), Clip(predicted, t'), z', g);
            a.Ok? && b.Ok? && |b.value| <= |a.value|
    decreases |line| - g
  {
    hide Flagged, Symbol, Theta;
    if g < |line| {
      SymbolFalls(line[g], predicted[g], t, t');
      CodedLineFalls(t, line, predicted, z, t', z', g + 1);
    }
  }

  lemma PredictedClips(cx: Context, cx': Context, e: Entry, m: Counts, m': Counts)
    requires Coarser(cx, cx') && cx.sh.EntryOk(e) && Clipped(cx, cx', m, m') && Predicted(cx, e, m).Ok?
    ensures var p := Predicted(cx, e, m).value;
            AtLeast(p, cx.t[e.band]) && Predicted(cx', e, m') == Ok(Clip(p, cx'.t[e.band]))
  {
    hide LineCounts;
    var b, n := e.band, cx.sh.Groups(e.band);
    if cx.Vertical(b) && e.line != cx.sh.starts[b] {
      var above := Entry(b, e.line - 1);
      assert cx.sh.EntryOk(above);
    }
    var p, p' := Predicted(cx, e, m).value, Predicted(cx', e, m').value;
    assert p' == Clip(p, cx'.t[b]);
  }

  lemma FlagsStay(cx: Context, cx': Context, b: nat, line: seq<nat>, predicted: seq<nat>)
    requires Coarser(cx, cx') && b < |cx.t| && |line| == |predicted|
    ensures var z := FlagsOf(cx, b, line, predicted);
            var z' := FlagsOf(cx', b, Clip(line, cx'.t[b]), Clip(predicted, cx'.t[b]));
            |z'| == |z| && forall h: nat | Flagged(z, h) :: Flagged(z', h)
  {
    var line', predicted' := Clip(line, cx'.t[b]), Clip(predicted, cx'.t[b]);
    if cx.Significance(b) {
      var z, z' := Flags(cx, b, line, predicted), Flags(cx', b, line', predicted');
      forall j | 0 <= j < |z| && z[j]
        ensures z'[j]
      {
        forall g | 8 * j <= g < Min(|line'|, 8 * j + 8)
          ensures line'[g] == Silent(cx', b, predicted'[g])
        {
          assert line[g] == Silent(cx, b, predicted[g]);
        }
      }
    }
  }

  lemma LineBitsFall(cx: Context, cx': Context, e: Entry, raw: bool, m: Counts, m': Counts)
    requires Coarser(cx, cx') && cx.sh.EntryOk(e) && Clipped(cx, cx', m, m') && LineBits(cx, e, raw, m).Ok?
    ensures LineBits(cx', e, raw, m').Ok?
    ensures var (z, c) := LineBits(cx, e, raw, m).value;
            var (z', c') := LineBits(cx', e, raw, m').value;
            |z'| == |z| && |c'| <= |c|
  {
    hide Predicted, LineCounts, FlagsOf, CodedLineBits, Flagged, AtLeast, Clip;
    var line, line' := LineCounts(cx.sh, m, e), LineCounts(cx.sh, m', e);
    if raw {
      RawLineLength(cx.md.br, line);
      RawLineLength(cx.md.br, line');
    } else {
      PredictedClips(cx, cx', e, m, m');
      var predicted := Predicted(cx, e, m).value;
      FlagsStay(cx, cx', e.band, line, predicted);
      var z := FlagsOf(cx, e.band, line, predicted);
      var z' := FlagsOf(cx', e.band, line', Clip(predicted, cx'.t[e.band]));
      CodedLineFalls(cx.t[e.band], line, predicted, z, cx'.t[e.band], z', 0);
    }
  }

  lemma {:induction false} CountBitsFall(cx: Context, cx': Context, es: seq<Entry>, raw: bool, m: Counts, m': Counts)
    requires Coarser(cx, cx') && cx.sh.EntriesOk(es) && Clipped(cx, cx', m, m') && CountBits(cx, es, raw, m).Ok?
    ensures CountBits(cx', es, raw, m').Ok?
    ensures var (sig, cnt) := CountBits(cx, es, raw, m).value;
            var (sig', cnt') := CountBits(cx', es, raw, m').value;
            |sig'| == |sig| && |cnt'| <= |cnt|
  {
    hide LineBits, Clipped;
    if es != [] {
      LineBitsFall(cx, cx', es[0], raw, m, m');
      CountBitsFall(cx, cx', es[1..], raw, m, m');
    }
  }

  lemma BytesMonotone(a: nat, b: nat)
    requires a <= b
    ensures BytesFor(a) <= BytesFor(b)
  {
  }

  /** A packet's counts never cost more. */
  lemma CodedBytesFall(cx: Context, cx': Context, es: seq<Entry>, raw: bool, m: Counts, m': Counts)
    requires Coarser(cx, cx') && cx.sh.EntriesOk(es) && Clipped(cx, cx', m, m') && CountBits(cx, es, raw, m).Ok?
    ensures CodedBytes(cx', es, raw, m') <= CodedBytes(cx, es, raw, m)
  {
    hide Clipped, CountBits, BytesFor;
    CountBitsFall(cx, cx', es, raw, m, m');
    BytesMonotone(|CountBits(cx', es, raw, m').value.1|, |CountBits(cx, es, raw, m).value.1|);
  }

  // ---- quantised precincts ---------------------------------------------------------------------------

  lemma CountClips(group: seq<int>, t: nat, t': nat)
    requires t <= t'
    ensures CodedCount(group, t') == Max(CodedCount(group, t), t') && t <= CodedCount(group, t)
  {
  }

  lemma LineClips(line: seq<int>, t: nat, t': nat, uniform: bool)
    requires t <= t'
    ensures QuantiseLine(line, t', uniform).m == Clip(QuantiseLine(line, t, uniform).m, t')
    ensures AtLeast(QuantiseLine(line, t, uniform).m, t)
  {
    hide CodedCount, QuantiseGroup, GroupOf;
    forall g | 0 <= g < CeilDiv(|line|, 4)
      ensures CodedCount(GroupOf(line, g), t') == Max(CodedCount(GroupOf(line, g), t), t') && t <= CodedCount(GroupOf(line, g), t)
    {
      CountClips(GroupOf(line, g), t, t');
    }
  }

  lemma CountsOfQuantised(cx: Context, c: Coeffs, e: Entry)
    requires cx.Ok() && CoeffsOk(cx.sh, c) && cx.sh.EntryOk(e)
    ensures e in c && LineCounts(cx.sh, CountsOf(QuantiseAll(cx, c)), e) == QuantiseLine(c[e], cx.t[e.band], cx.md.uniform).m
  {
    hide QuantiseLine;
    EntryInShape(cx.sh, e);
  }

  lemma QuantisedClips(cx: Context, cx': Context, c: Coeffs)
    requires Coarser(cx, cx') && CoeffsOk(cx.sh, c)
    ensures Clipped(cx, cx', CountsOf(QuantiseAll(cx, c)), CountsOf(QuantiseAll(cx', c)))
  {
    hide QuantiseLine, LineCounts, AtLeast, Clip, CountsOf, QuantiseAll;
    forall e | cx.sh.EntryOk(e)
      ensures LineCounts(cx.sh, CountsOf(QuantiseAll(cx', c)), e) ==
              Clip(LineCounts(cx.sh, CountsOf(QuantiseAll(cx, c)), e), cx'.t[e.band])
      ensures AtLeast(LineCounts(cx.sh, CountsOf(QuantiseAll(cx, c)), e), cx.t[e.band])
    {
      CountsOfQuantised(cx, c, e);
      CountsOfQuantised(cx', c, e);
      LineClips(c[e], cx.t[e.band], cx'.t[e.band], cx.md.uniform);
    }
  }

  // ---- data ------------------------------------------------------------------------------------------

  lemma {:induction false} PlaneCount(n: nat, v: seq<nat>)
    requires |v| == 4
    ensures |PlaneBits(n, v)| == 4 * n
  {
    if n > 0 {
      PlaneCount(n - 1, v);
    }
  }

  /** Bits of one code group: signs, if they are here, and its planes. */
  function GroupSize(m: nat, t: nat, signsHere: bool): nat {
    if m <= t then 0 else (if signsHere then 4 else 0) + 4 * (m - t)
  }

  lemma NextGroup(q: QLine, t: nat, signsHere: bool, g: nat)
    requires g <= |q.m| == |q.vals| && AllOk(q.vals)
    ensures |ValueBits(q, t, signsHere, g)| ==
            if g == |q.m| then 0 else GroupSize(q.m[g], t, signsHere) + |ValueBits(q, t, signsHere, g + 1)|
  {
    hide PlaneBits;
    if g < |q.m| && q.m[g] > t {
      PlaneCount(q.m[g] - t, q.vals[g].v);
    }
  }

  lemma SizeFalls(m: seq<nat>, t: nat, t': nat, signsHere: bool, g: nat)
    requires t <= t' && AtLeast(m, t) && g < |m|
    ensures GroupSize(Clip(m, t')[g], t', signsHere) <= GroupSize(m[g], t, signsHere)
  {
  }

  /** Fewer planes remain of a clipped group. */
  lemma {:induction false} ValuesFall(q: QLine, t: nat, q': QLine, t': nat, signsHere: bool, g: nat)
    requires g <= |q.m| == |q.vals| == |q'.m| == |q'.vals| && AllOk(q.vals) && AllOk(q'.vals)
    requires t <= t' && AtLeast(q.m, t) && q'.m == Clip(q.m, t')
    ensures |ValueBits(q', t', signsHere, g)| <= |ValueBits(q, t, signsHere, g)|
    decreases |q.m| - g
  {
    hide ValueBits, GroupSize, AllOk, AtLeast, Clip;
    NextGroup(q, t, signsHere, g);
    NextGroup(q', t', signsHere, g);
    if g < |q.m| {
      SizeFalls(q.m, t, t', signsHere, g);
      ValuesFall(q, t, q', t', signsHere, g + 1);
    }
  }

  lemma {:induction false} DataFalls(cx: Context, cx': Context, es: seq<Entry>, c: Coeffs)
    requires Coarser(cx, cx') && CoeffsOk(cx.sh, c) && cx.sh.EntriesOk(es)
    requires Covers(QuantiseAll(cx, c), es) && Covers(QuantiseAll(cx', c), es)
    ensures |DataBits(cx', es, QuantiseAll(cx', c))| <= |DataBits(cx, es, QuantiseAll(cx, c))|
  {
    hide ValueBits, QuantiseLine, AtLeast, Clip, CoeffsOk;
    if es != [] {
      var b, e := es[0].band, es[0];
      EntryInShape(cx.sh, e);
      LineClips(c[e], cx.t[b], cx'.t[b], cx.md.uniform);
      ValuesFall(QuantiseLine(c[e], cx.t[b], cx.md.uniform), cx.t[b], QuantiseLine(c[e], cx'.t[b], cx.md.uniform), cx'.t[b],
                 !cx.md.signPackets, 0);
      DataFalls(cx, cx', es[1..], c);
    }
  }

  // ---- signs -----------------------------------------------------------------------------------------

  /** An index that survives coarser truncation survived the finer one. */
  lemma NonzeroDead(d: nat, t: nat, t': nat)
    requires t <= t' && Shr(d, t') > 0
    ensures Shr(d, t) > 0
  {
    Pow2Monotone(t, t');
    hide Pow2;
    DivBounds(d, Pow2(t'));
    DeadZoneIndex(d, t);
    DeadZoneIndex(d, t');
    if d / Pow2(t) <= 0 {
      DivBounds(d, Pow2(t));
      DivNonNegative(d, Pow2(t'));
      MulMonotone(1, d / Pow2(t'), Pow2(t'));
    }
  }

  lemma QuotientPositive(n: nat, k: nat)
    requires k > 0
    ensures n / k > 0 <==> n >= k
  {
    DivBounds(n, k);
    if n / k <= 0 {
      MulMonotone(n / k, 0, k);
    } else {
      MulMonotone(1, n / k, k);
    }
  }

  lemma RoundedPositive(d: nat, base: nat, base': nat, top: nat)
    requires 1 <= base' <= base && top >= 1 && Rounded(d, base', top) > 0
    ensures Rounded(d, base, top) > 0
  {
    MulMonotone(0, base' - 1, d);
    MulMonotone(base' - 1, base - 1, d);
    MulCommute(d, base - 1);
    MulCommute(d, base' - 1);
    QuotientPositive(d * (base' - 1) + top, 2 * top);
    QuotientPositive(d * (base - 1) + top, 2 * top);
  }

  lemma NonzeroUniform(d: nat, m: nat, t: nat, t': nat)
    requires t <= t' < m && Rounded(d, Pow2(m - t' + 1), Pow2(m)) > 0
    ensures Rounded(d, Pow2(m - t + 1), Pow2(m)) > 0
  {
    hide Pow2, Rounded;
    Pow2Monotone(m - t' + 1, m - t + 1);
    RoundedPositive(d, Pow2(m - t + 1), Pow2(m - t' + 1), Pow2(m));
  }

  lemma IndexStays(group: seq<int>, k: nat, t: nat, t': nat, uniform: bool)
    requires t <= t' && k < |group| && Quantise(Abs(group[k]), CodedCount(group, t'), t', uniform) > 0
    ensures Quantise(Abs(group[k]), CodedCount(group, t), t, uniform) > 0
  {
    hide Pow2, Rounded, Shr, BitplaneCountOf;
    var d := Abs(group[k]);
    if uniform {
      NonzeroUniform(d, CodedCount(group, t'), t, t');
    } else {
      NonzeroDead(d, t, t');
    }
  }

  lemma {:induction false} GroupSignsFall(a: Group, b: Group, k: nat)
    requires a.Ok() && b.Ok() && k <= 4 && forall i | 0 <= i < 4 && b.v[i] != 0 :: a.v[i] != 0
    ensures |GroupSignBits(b, k)| <= |GroupSignBits(a, k)|
    decreases 4 - k
  {
    if k < 4 {
      GroupSignsFall(a, b, k + 1);
    }
  }

  lemma GroupOfSigns(group: seq<int>, t: nat, t': nat, uniform: bool)
    requires t <= t'
    ensures var a := QuantiseGroup(group, CodedCount(group, t), t, uniform);
            var b := QuantiseGroup(group, CodedCount(group, t'), t', uniform);
            |GroupSignBits(b, 0)| <= |GroupSignBits(a, 0)|
  {
    hide Quantise, CodedCount, GroupSignBits;
    var a := QuantiseGroup(group, CodedCount(group, t), t, uniform);
    var b := QuantiseGroup(group, CodedCount(group, t'), t', uniform);
    forall i | 0 <= i < 4 && b.v[i] != 0
      ensures a.v[i] != 0
    {
      IndexStays(group, i, t, t', uniform);
    }
    GroupSignsFall(a, b, 0);
  }

  lemma {:induction false} LineSignsFall(line: seq<int>, t: nat, t': nat, uniform: bool, g: nat)
    requires t <= t' && g <= CeilDiv(|line|, 4)
    ensures |LineSignBits(QuantiseLine(line, t', uniform).vals, g)| <= |LineSignBits(QuantiseLine(line, t, uniform).vals, g)|
    decreases CeilDiv(|line|, 4) - g
  {
    hide CodedCount, QuantiseGroup, GroupOf, GroupSignBits;
    if g < CeilDiv(|line|, 4) {
      GroupOfSigns(GroupOf(line, g), t, t', uniform);
      LineSignsFall(line, t, t', uniform, g + 1);
    }
  }

  lemma {:induction false} SignsFall(cx: Context, cx': Context, es: seq<Entry>, c: Coeffs)
    requires Coarser(cx, cx') && CoeffsOk(cx.sh, c) && cx.sh.EntriesOk(es)
    requires Covers(QuantiseAll(cx, c), es) && Covers(QuantiseAll(cx', c), es)
    ensures |SignBits(cx', es, QuantiseAll(cx', c))| <= |SignBits(cx, es, QuantiseAll(cx, c))|
  {
    hide LineSignBits, QuantiseLine, CoeffsOk;
    if es != [] {
      var b, e := es[0].band, es[0];
      EntryInShape(cx.sh, e);
      LineSignsFall(c[e], cx.t[b], cx'.t[b], cx.md.uniform, 0);
      SignsFall(cx, cx', es[1..], c);
    }
  }

  /** Data and signs of a packet never take more bytes. */
  lemma ValueBytesFall(cx: Context, cx': Context, es: seq<Entry>, c: Coeffs)
    requires Coarser(cx, cx') && CoeffsOk(cx.sh, c) && cx.sh.EntriesOk(es)
    requires Covers(QuantiseAll(cx, c), es) && Covers(QuantiseAll(cx', c), es)
    ensures |ValueBytes(cx', es, QuantiseAll(cx', c))| <= |ValueBytes(cx, es, QuantiseAll(cx, c))|
  {
    hide DataBits, SignBits, QuantiseAll, Covers, BytesFor;
    DataFalls(cx, cx', es, c);
    SignsFall(cx, cx', es, c);
    BytesMonotone(|DataBits(cx', es, QuantiseAll(cx', c))|, |DataBits(cx, es, QuantiseAll(cx, c))|);
    BytesMonotone(|SignBits(cx', es, QuantiseAll(cx', c))|, |SignBits(cx, es, QuantiseAll(cx, c))|);
  }
}
