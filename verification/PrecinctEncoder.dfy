// PrecinctEncoder::Encode: quantisation, subpacket writers and the raw-mode fallback as loops, proved
// to compute Precinct.Encode.
module PrecinctEncoder {
  import opened Wrappers
  import opened Arith
  import opened BitIO
  import opened Vlc
  import opened Quantiser
  import opened Precinct
  import opened PrecinctDecoder
  import PacketHeaders
  import PrecinctRoundTrip
  import PrecinctTheorems
  import RawFallback

  // ---- quantisation ------------------------------------------------------------------------------

  /** One code group; None when it needs more than max_m bitplanes. */
  method QuantizeGroup(group: seq<int>, t: nat, uniform: bool, maxM: nat) returns (r: Result<(nat, Group)>)
    requires |group| <= 4
    ensures r.Ok? <==> BitplaneCountOf(group) <= maxM
    ensures r.Ok? ==> r.value == (CodedCount(group, t), QuantiseGroup(group, CodedCount(group, t), t, uniform))
    ensures r.Err? ==> r == Err(TooManyBitplanes)
  {
    var raw := BitplaneCount(group);
    if raw > maxM {
      return Err(TooManyBitplanes);
    }
    var m := Max(raw, t);
    hide Quantise, BitplaneCountOf;
    var v: seq<nat>, s: seq<bool> := [], [];
    for k := 0 to 4
      invariant |v| == |s| == k
      invariant forall i | 0 <= i < k :: v[i] == QuantiseGroup(group, m, t, uniform).v[i]
      invariant forall i | 0 <= i < k :: s[i] == QuantiseGroup(group, m, t, uniform).s[i]
    {
      if k < |group| {
        var c := group[k];
        var value := QuantizeMagnitude(Abs(c), m, t, uniform);
        v, s := v + [value], s + [c < 0 && value != 0];
      } else {
        v, s := v + [0], s + [false];
      }
    }
    assert v == QuantiseGroup(group, m, t, uniform).v && s == QuantiseGroup(group, m, t, uniform).s;
    return Ok((m, Group(v, s)));
  }

  lemma GroupsFit(line: seq<int>, br: nat)
    ensures LineFits(line, br) <==>
              forall g | 0 <= g < CeilDiv(|line|, 4) :: BitplaneCountOf(GroupOf(line, g)) <= Pow2(br) - 1
  {
    hide Pow2, BitplaneCountOf;
    if forall g | 0 <= g < CeilDiv(|line|, 4) :: BitplaneCountOf(GroupOf(line, g)) <= Pow2(br) - 1 {
      forall x | 0 <= x < |line|
        ensures Abs(line[x]) < Pow2(Pow2(br) - 1)
      {
        var group := GroupOf(line, x / 4);
        BitplaneCountLeast(group, Pow2(br) - 1);
        assert group[x % 4] == line[x];
      }
    }
    if LineFits(line, br) {
      forall g | 0 <= g < CeilDiv(|line|, 4)
        ensures BitplaneCountOf(GroupOf(line, g)) <= Pow2(br) - 1
      {
        var group := GroupOf(line, g);
        forall k | 0 <= k < |group|
          ensures Abs(group[k]) < Pow2(Pow2(br) - 1)
        {
          assert group[k] == line[4 * g + k];
        }
        BitplaneCountLeast(group, Pow2(br) - 1);
      }
    }
  }

  method QuantizeLine(line: seq<int>, t: nat, uniform: bool, br: nat) returns (r: Result<QLine>)
    ensures r == if LineFits(line, br) then Ok(QuantiseLine(line, t, uniform)) else Err(TooManyBitplanes)
  {
    GroupsFit(line, br);
    hide LineFits, CodedCount, QuantiseGroup, Pow2, BitplaneCountOf;
    var n := CeilDiv(|line|, 4);
    var m: seq<nat>, vals: Values := [], [];
    for g := 0 to n
      invariant |m| == |vals| == g
      invariant forall i | 0 <= i < g :: m[i] == QuantiseLine(line, t, uniform).m[i]
      invariant forall i | 0 <= i < g :: vals[i] == QuantiseLine(line, t, uniform).vals[i]
      invariant forall i | 0 <= i < g :: BitplaneCountOf(GroupOf(line, i)) <= Pow2(br) - 1
    {
      var q :- QuantizeGroup(GroupOf(line, g), t, uniform, Pow2(br) - 1);
      m, vals := m + [q.0], vals + [q.1];
    }
    assert m == QuantiseLine(line, t, uniform).m && vals == QuantiseLine(line, t, uniform).vals;
    return Ok(QLine(m, vals));
  }

  ghost predicate LineDone(cx: Context, c: Coeffs, q: Quantised, e: Entry)
    requires cx.Ok()
  {
    e in q && e in c && e.band < cx.sh.Bands() && LineFits(c[e], cx.md.br) &&
    q[e] == QuantiseLine(c[e], cx.t[e.band], cx.md.uniform)
  }

  lemma AllLinesDone(cx: Context, c: Coeffs, q: Quantised)
    requires cx.Ok() && CoeffsOk(cx.sh, c) && q.Keys == c.Keys && forall e | e in q :: LineDone(cx, c, q, e)
    ensures QuantisePrecinct(cx, c) == Ok(q)
  {
    hide LineFits, QuantiseLine;
    assert q == QuantiseAll(cx, c);
  }

  lemma LineTooLarge(cx: Context, c: Coeffs, e: Entry)
    requires cx.Ok() && CoeffsOk(cx.sh, c) && e in c && !LineFits(c[e], cx.md.br)
    ensures QuantisePrecinct(cx, c) == Err(TooManyBitplanes)
  {
    hide LineFits, QuantiseLine;
  }

  /** Line by line over the bands of the precinct. */
  method QuantizePrecinct(cx: Context, c: Coeffs) returns (r: Result<Quantised>)
    requires cx.Ok()
    ensures r == QuantisePrecinct(cx, c)
  {
    if !CoeffsOk(cx.sh, c) {
      return Err(BadShape);
    }
    hide LineFits, QuantiseLine, QuantisePrecinct, QuantiseAll, CoeffsFit;
    var q: Quantised := map[];
    for b := 0 to cx.sh.Bands()
      invariant forall e :: e in q <==> e in c && e.band < b
      invariant forall e | e in q :: LineDone(cx, c, q, e)
    {
      for li := 0 to cx.sh.lines[b]
        invariant forall e :: e in q <==> e in c && (e.band < b || (e.band == b && e.line < cx.sh.starts[b] + li))
        invariant forall e | e in q :: LineDone(cx, c, q, e)
      {
        var e := Entry(b, cx.sh.starts[b] + li);
        assert e in c;
        var line := QuantizeLine(c[e], cx.t[b], cx.md.uniform, cx.md.br);
        if line.Err? {
          LineTooLarge(cx, c, e);
          return Err(line.error);
        }
        q := q[e := line.value];
      }
    }
    assert q.Keys == c.Keys;
    AllLinesDone(cx, c, q);
    return Ok(q);
  }

  // ---- subpacket writers ---------------------------------------------------------------------------

  /** What is still to write moves over piece by piece. */
  lemma Advance(goal: seq<bool>, now: seq<bool>, piece: seq<bool>, rest: seq<bool>)
    requires goal == now + (piece + rest)
    ensures goal == (now + piece) + rest
  {
  }

  lemma Finished(goal: seq<bool>, now: seq<bool>)
    requires goal == now + []
    ensures goal == now
  {
  }

  /** Significance flags of one line: silent groups of groups (Tables C.15 and C.16 inverted). */
  method FlagsForLine(cx: Context, b: nat, line: seq<nat>, predicted: seq<nat>) returns (z: seq<bool>)
    requires b < |cx.t| && |line| == |predicted|
    ensures z == Flags(cx, b, line, predicted)
  {
    z := [];
    var ns := CeilDiv(|line|, 8);
    for j := 0 to ns
      invariant |z| == j
      invariant forall i | 0 <= i < j :: z[i] == Flags(cx, b, line, predicted)[i]
    {
      var silent := true;
      var end := Min(|line|, 8 * j + 8);
      for gi := 8 * j to end
        invariant silent <==> forall g | 8 * j <= g < gi :: line[g] == Silent(cx, b, predicted[g])
      {
        var insignificant := if cx.md.runToT then line[gi] == cx.t[b] else line[gi] as int - predicted[gi] == 0;
        if !insignificant {
          silent := false;
        }
      }
      assert silent == Flags(cx, b, line, predicted)[j];
      z := z + [silent];
    }
  }

  method PutRawLine(w: BitWriter, br: nat, line: seq<nat>)
    requires w.Valid() && br <= 32 && InRange(line, br)
    modifies w
    ensures w.Valid() && w.Contents == old(w.Contents) + RawLineBits(br, line)
  {
    hide Pow2, FieldBits;
    assert line[0..] == line;
    ghost var goal := w.Contents + RawLineBits(br, line);
    for gi := 0 to |line|
      invariant w.Valid()
      invariant goal == w.Contents + RawLineBits(br, line[gi..])
    {
      assert line[gi..][1..] == line[gi + 1..];
      Advance(goal, w.Contents, FieldBits(line[gi], br), RawLineBits(br, line[gi + 1..]));
      var put := w.Put(line[gi], br);
      assert put.Ok?;
    }
    Finished(goal, w.Contents);
  }

  /** Contents once the rest of a line is written, or its error. */
  ghost predicate WritesRest(w: BitWriter, before: seq<bool>, whole: Result<seq<bool>>, rest: Result<seq<bool>>)
    reads w
  {
    match whole
    case Ok(bits) => rest.Ok? && before + bits == w.Contents + rest.value
    case Err(e) => rest == Err(e)
  }

  method PutCodedLine(w: BitWriter, t: nat, line: seq<nat>, predicted: seq<nat>, z: seq<bool>) returns (r: Result<()>)
    requires w.Valid() && |line| == |predicted|
    modifies w
    ensures w.Valid()
    ensures match CodedLineBits(t, line, predicted, z, 0)
            case Ok(bits) => r == Ok(()) && w.Contents == old(w.Contents) + bits
            case Err(e) => r == Err(e)
  {
    hide Code, Theta;
    ghost var whole := CodedLineBits(t, line, predicted, z, 0);
    for gi := 0 to |line|
      invariant w.Valid()
      invariant WritesRest(w, old(w.Contents), whole, CodedLineBits(t, line, predicted, z, gi))
    {
      if !Flagged(z, gi) {
        ghost var before := w.Contents;
        var x := line[gi] as int - predicted[gi];
        var _ :- VlcEncode(w, x, predicted[gi], t);
        ghost var rest := CodedLineBits(t, line, predicted, z, gi + 1);
        if rest.Ok? {
          assert before + (Code(x, predicted[gi], t) + rest.value) == w.Contents + rest.value;
        }
      }
    }
    return Ok(());
  }

  /** Significance and count subpackets of one packet. */
  method EncodeCounts(cx: Context, es: seq<Entry>, raw: bool, m: Counts)
    returns (r: Result<(seq<byte>, seq<byte>)>)
    requires cx.Ok() && cx.sh.EntriesOk(es) && cx.md.br <= 32
    requires forall e | cx.sh.EntryOk(e) :: InRange(LineCounts(cx.sh, m, e), cx.md.br)
    ensures match CountBits(cx, es, raw, m)
            case Ok((sig, cnt)) => r == Ok((Pack(sig), Pack(cnt)))
            case Err(e) => r == Err(e)
  {
    hide Predicted, Flags, CodedLineBits, RawLineBits, Pack, InRange, LineCounts;
    var sigWriter := new BitWriter();
    var cntWriter := new BitWriter();
    assert es[0..] == es;
    NoBitsBefore(CountBits(cx, es, raw, m));
    for i := 0 to |es|
      invariant sigWriter.Valid() && cntWriter.Valid() && fresh(sigWriter) && fresh(cntWriter) && sigWriter != cntWriter
      invariant CountBits(cx, es, raw, m) == BehindBits(sigWriter.Contents, cntWriter.Contents, CountBits(cx, es[i..], raw, m))
    {
      var e := es[i];
      var line := LineCounts(cx.sh, m, e);
      assert es[i..][1..] == es[i + 1..];
      ghost var sig, cnt := sigWriter.Contents, cntWriter.Contents;
      AfterLine(cx, es[i..], raw, m, sig, cnt);
      if raw {
        PutRawLine(cntWriter, cx.md.br, line);
        assert sig + [] == sig;
      } else {
        var predicted :- Predicted(cx, e, m);
        var z: seq<bool> := [];
        if cx.Significance(e.band) {
          z := FlagsForLine(cx, e.band, line, predicted);
        }
        PutBits(sigWriter, z);
        var _ :- PutCodedLine(cntWriter, cx.t[e.band], line, predicted, z);
      }
    }
    assert sigWriter.Contents + [] == sigWriter.Contents && cntWriter.Contents + [] == cntWriter.Contents;
    var sig := sigWriter.Take();
    var cnt := cntWriter.Take();
    return Ok((sig, cnt));
  }

  method PutBits(w: BitWriter, bits: seq<bool>)
    requires w.Valid()
    modifies w
    ensures w.Valid() && w.Contents == old(w.Contents) + bits
  {
    for j := 0 to |bits|
      invariant w.Valid() && w.Contents == old(w.Contents) + bits[..j]
    {
      w.PutBit(bits[j]);
    }
  }

  function BehindBits(sig: seq<bool>, cnt: seq<bool>, rest: Result<(seq<bool>, seq<bool>)>): Result<(seq<bool>, seq<bool>)> {
    match rest
    case Ok((s, c)) => Ok((sig + s, cnt + c))
    case Err(e) => Err(e)
  }

  lemma NoBitsBefore(r: Result<(seq<bool>, seq<bool>)>)
    ensures BehindBits([], [], r) == r
  {
    assert r.Ok? ==> [] + r.value.0 == r.value.0 && [] + r.value.1 == r.value.1;
  }

  lemma AfterLine(cx: Context, es: seq<Entry>, raw: bool, m: Counts, sig: seq<bool>, cnt: seq<bool>)
    requires cx.Ok() && cx.sh.EntriesOk(es) && es != []
    ensures BehindBits(sig, cnt, CountBits(cx, es, raw, m)) ==
              match LineBits(cx, es[0], raw, m)
              case Ok((z, c)) => BehindBits(sig + z, cnt + c, CountBits(cx, es[1..], raw, m))
              case Err(e) => Err(e)
  {
    hide LineBits;
    var line, rest := LineBits(cx, es[0], raw, m), CountBits(cx, es[1..], raw, m);
    if line.Ok? && rest.Ok? {
      assert sig + (line.value.0 + rest.value.0) == sig + line.value.0 + rest.value.0;
      assert cnt + (line.value.1 + rest.value.1) == cnt + line.value.1 + rest.value.1;
    }
  }

  method PutPlanes(w: BitWriter, planes: nat, v: seq<nat>)
    requires w.Valid() && |v| == 4
    modifies w
    ensures w.Valid() && w.Contents == old(w.Contents) + PlaneBits(planes, v)
  {
    hide Digit;
    ghost var goal := w.Contents + PlaneBits(planes, v);
    var i := planes;
    while i > 0
      invariant 0 <= i && w.Valid()
      invariant goal == w.Contents + PlaneBits(i, v)
    {
      i := i - 1;
      var plane := [Digit(v[0], i), Digit(v[1], i), Digit(v[2], i), Digit(v[3], i)];
      Advance(goal, w.Contents, plane, PlaneBits(i, v));
      PutBits(w, plane);
    }
    Finished(goal, w.Contents);
  }

  method PutGroup(w: BitWriter, planes: nat, signsHere: bool, group: Group)
    requires w.Valid() && group.Ok()
    modifies w
    ensures w.Valid() && w.Contents == old(w.Contents) + GroupBits(planes, signsHere, group)
  {
    hide PlaneBits;
    if signsHere {
      PutBits(w, group.s);
    }
    PutPlanes(w, planes, group.v);
  }

  method PutValues(w: BitWriter, q: QLine, t: nat, signsHere: bool)
    requires w.Valid() && |q.m| == |q.vals| && AllOk(q.vals)
    modifies w
    ensures w.Valid() && w.Contents == old(w.Contents) + ValueBits(q, t, signsHere, 0)
  {
    hide GroupBits;
    ghost var goal := w.Contents + ValueBits(q, t, signsHere, 0);
    for g := 0 to |q.m|
      invariant w.Valid()
      invariant goal == w.Contents + ValueBits(q, t, signsHere, g)
    {
      if q.m[g] > t {
        Advance(goal, w.Contents, GroupBits(q.m[g] - t, signsHere, q.vals[g]), ValueBits(q, t, signsHere, g + 1));
        PutGroup(w, q.m[g] - t, signsHere, q.vals[g]);
      } else {
        assert [] + ValueBits(q, t, signsHere, g + 1) == ValueBits(q, t, signsHere, g + 1);
      }
    }
    Finished(goal, w.Contents);
  }

  /** Data subpacket (Table C.9). */
  method EncodeData(cx: Context, es: seq<Entry>, q: Quantised) returns (bytes: seq<byte>)
    requires cx.Ok() && cx.sh.EntriesOk(es) && Covers(q, es)
    ensures bytes == Pack(DataBits(cx, es, q))
  {
    hide ValueBits, Pack;
    var w := new BitWriter();
    ghost var goal := DataBits(cx, es, q);
    assert es[0..] == es && goal == [] + goal;
    for i := 0 to |es|
      invariant w.Valid() && fresh(w)
      invariant goal == w.Contents + DataBits(cx, es[i..], q)
    {
      assert es[i..][1..] == es[i + 1..];
      Advance(goal, w.Contents, ValueBits(q[es[i]], cx.t[es[i].band], !cx.md.signPackets, 0), DataBits(cx, es[i + 1..], q));
      PutValues(w, q[es[i]], cx.t[es[i].band], !cx.md.signPackets);
    }
    Finished(goal, w.Contents);
    bytes := w.Take();
  }

  method PutGroupSigns(w: BitWriter, group: Group)
    requires w.Valid() && group.Ok()
    modifies w
    ensures w.Valid() && w.Contents == old(w.Contents) + GroupSignBits(group, 0)
  {
    ghost var goal := w.Contents + GroupSignBits(group, 0);
    for k := 0 to 4
      invariant w.Valid()
      invariant goal == w.Contents + GroupSignBits(group, k)
    {
      if group.v[k] != 0 {
        Advance(goal, w.Contents, [group.s[k]], GroupSignBits(group, k + 1));
        w.PutBit(group.s[k]);
      } else {
        assert [] + GroupSignBits(group, k + 1) == GroupSignBits(group, k + 1);
      }
    }
    Finished(goal, w.Contents);
  }

  method PutLineSigns(w: BitWriter, vals: Values)
    requires w.Valid() && AllOk(vals)
    modifies w
    ensures w.Valid() && w.Contents == old(w.Contents) + LineSignBits(vals, 0)
  {
    hide GroupSignBits;
    ghost var goal := w.Contents + LineSignBits(vals, 0);
    for g := 0 to |vals|
      invariant w.Valid()
      invariant goal == w.Contents + LineSignBits(vals, g)
    {
      Advance(goal, w.Contents, GroupSignBits(vals[g], 0), LineSignBits(vals, g + 1));
      PutGroupSigns(w, vals[g]);
    }
    Finished(goal, w.Contents);
  }

  /** Sign subpacket (Table C.10). */
  method EncodeSigns(cx: Context, es: seq<Entry>, q: Quantised) returns (bytes: seq<byte>)
    requires cx.Ok() && cx.sh.EntriesOk(es) && Covers(q, es)
    ensures bytes == Pack(SignBits(cx, es, q))
  {
    hide LineSignBits, Pack;
    var w := new BitWriter();
    ghost var goal := SignBits(cx, es, q);
    assert es[0..] == es && goal == [] + goal;
    for i := 0 to |es|
      invariant w.Valid() && fresh(w)
      invariant goal == w.Contents + SignBits(cx, es[i..], q)
    {
      assert es[i..][1..] == es[i + 1..];
      Advance(goal, w.Contents, LineSignBits(q[es[i]].vals, 0), SignBits(cx, es[i + 1..], q));
      PutLineSigns(w, q[es[i]].vals);
    }
    Finished(goal, w.Contents);
    bytes := w.Take();
  }

  // ---- raw-mode fallback -----------------------------------------------------------------------

  /** Stored subpackets of the first n packets are the ones for these raw flags. */
  ghost predicate Stored(cx: Context, raw: seq<bool>, m: Counts, sig: seq<seq<byte>>, cnt: seq<seq<byte>>, n: nat)
    requires cx.Ok()
  {
    && n <= |raw| == |cx.sh.packets| && n <= |sig| && n <= |cnt|
    && forall i: nat | i < n :: Holds(cx, cx.sh.packets[i], raw[i], m, sig[i], cnt[i])
  }

  ghost predicate Holds(cx: Context, es: seq<Entry>, raw: bool, m: Counts, sig: seq<byte>, cnt: seq<byte>)
    requires cx.Ok() && cx.sh.EntriesOk(es)
  {
    && CountBits(cx, es, raw, m).Ok?
    && sig == Pack(CountBits(cx, es, raw, m).value.0)
    && cnt == Pack(CountBits(cx, es, raw, m).value.1)
  }

  lemma StoredSize(cx: Context, es: seq<Entry>, raw: bool, m: Counts, sig: seq<byte>, cnt: seq<byte>)
    requires cx.Ok() && cx.sh.EntriesOk(es) && Holds(cx, es, raw, m, sig, cnt)
    ensures |sig| + |cnt| == CodedBytes(cx, es, raw, m)
  {
  }

  method RawCostOf(cx: Context, es: seq<Entry>) returns (n: nat)
    requires cx.Ok() && cx.sh.EntriesOk(es)
    ensures n == RawBytes(cx, es)
  {
    var bits: nat := 0;
    assert es[0..] == es;
    for i := 0 to |es|
      invariant bits + RawBits(cx, es[i..]) == RawBits(cx, es)
    {
      assert es[i..][1..] == es[i + 1..];
      bits := bits + cx.sh.Groups(es[i].band) * cx.md.br;
    }
    n := BytesFor(bits);
  }

  /** The packets before i that include band b have been listed. */
  ghost predicate Listed(packets: seq<Packet>, b: nat, ps: seq<nat>, i: nat) {
    i <= |packets| && PacketsWith(packets, b, 0) == ps + PacketsWith(packets, b, i)
  }

  lemma ListNext(packets: seq<Packet>, b: nat, ps: seq<nat>, i: nat)
    requires i < |packets| && Listed(packets, b, ps, i)
    ensures Listed(packets, b, if HasBand(packets[i], b) then ps + [i] else ps, i + 1)
  {
    hide HasBand;
    Regroup(ps, if HasBand(packets[i], b) then [i] else [], PacketsWith(packets, b, i + 1));
  }

  lemma Regroup(a: seq<nat>, x: seq<nat>, rest: seq<nat>)
    ensures a + (x + rest) == (a + x) + rest && a + [] == a
  {
  }

  lemma ListEnds(packets: seq<Packet>, b: nat, ps: seq<nat>)
    ensures Listed(packets, b, [], 0)
    ensures Listed(packets, b, ps, |packets|) ==> ps == PacketsWith(packets, b, 0)
  {
    Regroup([], [], PacketsWith(packets, b, 0));
    Regroup(ps, [], []);
  }

  /** Packets that include band b, in order (Table B.4). */
  method PacketsOfBand(packets: seq<Packet>, b: nat) returns (ps: seq<nat>)
    ensures ps == PacketsWith(packets, b, 0)
  {
    hide HasBand, Listed, PacketsWith;
    ps := [];
    ListEnds(packets, b, ps);
    for i := 0 to |packets|
      invariant Listed(packets, b, ps, i)
    {
      ListNext(packets, b, ps, i);
      if HasBand(packets[i], b) {
        ps := ps + [i];
      }
    }
    ListEnds(packets, b, ps);
  }

  method BandCost(cx: Context, ps: seq<nat>, raw: seq<bool>, m: Counts, sig: seq<seq<byte>>, cnt: seq<seq<byte>>)
    returns (coded: nat, limit: nat)
    requires cx.Ok() && Indices(cx, ps) && Stored(cx, raw, m, sig, cnt, |cx.sh.packets|)
    ensures coded == SumCoded(cx, ps, raw, m) && limit == SumRaw(cx, ps)
  {
    hide CodedBytes, RawBytes, Holds;
    coded, limit := 0, 0;
    assert ps[0..] == ps;
    for k := 0 to |ps|
      invariant coded + SumCoded(cx, ps[k..], raw, m) == SumCoded(cx, ps, raw, m)
      invariant limit + SumRaw(cx, ps[k..]) == SumRaw(cx, ps)
    {
      assert ps[k..][1..] == ps[k + 1..];
      var es := cx.sh.packets[ps[k]];
      StoredSize(cx, es, raw[ps[k]], m, sig[ps[k]], cnt[ps[k]]);
      var cost := RawCostOf(cx, es);
      coded, limit := coded + (|sig[ps[k]]| + |cnt[ps[k]]|), limit + cost;
    }
  }

  /** Turns the listed packets raw and re-encodes their counts. */
  method TurnRaw(cx: Context, ps: seq<nat>, raw: seq<bool>, m: Counts, sig: seq<seq<byte>>, cnt: seq<seq<byte>>)
    returns (raw': seq<bool>, sig': seq<seq<byte>>, cnt': seq<seq<byte>>, changed: bool)
    requires cx.Ok() && Indices(cx, ps) && cx.md.br <= 32
    requires forall e | cx.sh.EntryOk(e) :: InRange(LineCounts(cx.sh, m, e), cx.md.br)
    requires Stored(cx, raw, m, sig, cnt, |cx.sh.packets|)
    ensures raw' == SetRaw(raw, ps) && (changed <==> raw' != raw)
    ensures Stored(cx, raw', m, sig', cnt', |cx.sh.packets|)
  {
    hide InRange, CountBits, Pack;
    raw', sig', cnt', changed := raw, sig, cnt, false;
    for k := 0 to |ps|
      invariant |raw'| == |raw| && forall i | 0 <= i < |raw| :: raw'[i] == (raw[i] || i in ps[..k])
      invariant changed <==> raw' != raw
      invariant Stored(cx, raw', m, sig', cnt', |cx.sh.packets|)
    {
      var si := ps[k];
      assert ps[..k + 1] == ps[..k] + [si];
      if !raw'[si] {
        var coded := EncodeCounts(cx, cx.sh.packets[si], true, m);
        RawFallback.RawCost(cx, cx.sh.packets[si], m);
        assert !raw[si];
        raw', sig', cnt', changed := raw'[si := true], sig'[si := coded.value.0], cnt'[si := coded.value.1], true;
      }
    }
    assert ps[..|ps|] == ps;
    assert raw' == SetRaw(raw, ps);
  }

  /** Rl = 0: passes over the bands until nothing changes. */
  method FallBackPerBand(cx: Context, requested: seq<bool>, m: Counts, sig0: seq<seq<byte>>, cnt0: seq<seq<byte>>)
    returns (raw: seq<bool>, sig: seq<seq<byte>>, cnt: seq<seq<byte>>)
    requires cx.Ok() && cx.md.br <= 32
    requires forall e | cx.sh.EntryOk(e) :: InRange(LineCounts(cx.sh, m, e), cx.md.br)
    requires Stored(cx, requested, m, sig0, cnt0, |cx.sh.packets|)
    ensures raw == Fallback(cx, requested, m) && Stored(cx, raw, m, sig, cnt, |cx.sh.packets|)
  {
    hide InRange, SumCoded, SumRaw, SetRaw, Holds;
    raw, sig, cnt := requested, sig0, cnt0;
    var changed := true;
    while changed
      invariant Stored(cx, raw, m, sig, cnt, |cx.sh.packets|)
      invariant Fallback(cx, raw, m) == Fallback(cx, requested, m)
      invariant !changed ==> raw == Fallback(cx, requested, m)
      decreases CodedCountOf(raw), changed
    {
      ghost var before := raw;
      changed := false;
      for b := 0 to cx.sh.Bands()
        invariant Stored(cx, raw, m, sig, cnt, |cx.sh.packets|)
        invariant FallbackPass(cx, before, m, 0) == FallbackPass(cx, raw, m, b)
        invariant forall i | 0 <= i < |before| && before[i] :: raw[i]
        invariant changed <==> raw != before
      {
        var ps := PacketsOfBand(cx.sh.packets, b);
        var coded, limit := BandCost(cx, ps, raw, m, sig, cnt);
        if coded > limit {
          ghost var mid := raw;
          var turned;
          raw, sig, cnt, turned := TurnRaw(cx, ps, raw, m, sig, cnt);
          SetRawGrows(before, mid, ps);
          changed := changed || turned;
        }
      }
      FewerCoded(before, raw);
    }
  }

  lemma SetRawGrows(before: seq<bool>, mid: seq<bool>, ps: seq<nat>)
    requires |before| == |mid| && forall i | 0 <= i < |before| && before[i] :: mid[i]
    ensures forall i | 0 <= i < |before| && before[i] :: SetRaw(mid, ps)[i]
    ensures SetRaw(mid, ps) == before ==> mid == before
  {
    if SetRaw(mid, ps) == before {
      forall i | 0 <= i < |before|
        ensures mid[i] == before[i]
      {
        assert SetRaw(mid, ps)[i] == before[i];
      }
    }
  }

  /** Rl = 1: each packet on its own. */
  method FallBackPerPacket(cx: Context, requested: seq<bool>, m: Counts, sig0: seq<seq<byte>>, cnt0: seq<seq<byte>>)
    returns (raw: seq<bool>, sig: seq<seq<byte>>, cnt: seq<seq<byte>>)
    requires cx.Ok() && cx.md.br <= 32 && cx.md.rawPerPacket
    requires forall e | cx.sh.EntryOk(e) :: InRange(LineCounts(cx.sh, m, e), cx.md.br)
    requires Stored(cx, requested, m, sig0, cnt0, |cx.sh.packets|)
    ensures raw == FinalRaw(cx, requested, m) && Stored(cx, raw, m, sig, cnt, |cx.sh.packets|)
  {
    hide InRange, CountBits, Pack, CodedBytes, RawBytes;
    raw, sig, cnt := requested, sig0, cnt0;
    for si := 0 to |cx.sh.packets|
      invariant |raw| == |requested| && raw[si..] == requested[si..]
      invariant forall i | 0 <= i < si :: raw[i] == FinalRaw(cx, requested, m)[i]
      invariant Stored(cx, raw, m, sig, cnt, |cx.sh.packets|)
    {
      var es := cx.sh.packets[si];
      assert raw[si] == raw[si..][0] == requested[si];
      StoredSize(cx, es, raw[si], m, sig[si], cnt[si]);
      var cost := RawCostOf(cx, es);
      if !raw[si] && |sig[si]| + |cnt[si]| > cost {
        var coded := EncodeCounts(cx, es, true, m);
        RawFallback.RawCost(cx, es, m);
        raw, sig, cnt := raw[si := true], sig[si := coded.value.0], cnt[si := coded.value.1];
      }
      assert raw[si + 1..] == requested[si..][1..];
    }
    assert raw == FinalRaw(cx, requested, m);
  }

  // ---- the precinct --------------------------------------------------------------------------------

  /** Header and subpackets of every packet, in order. */
  method Assemble(cx: Context, raw: seq<bool>, q: Quantised, sig: seq<seq<byte>>, cnt: seq<seq<byte>>)
    returns (r: Result<seq<byte>>)
    requires cx.Ok() && |raw| == |cx.sh.packets| && Stored(cx, raw, CountsOf(q), sig, cnt, |raw|)
    requires forall j | 0 <= j < |raw| :: Covers(q, cx.sh.packets[j])
    ensures r == PacketsBytes(cx, raw, q, 0)
  {
    hide PacketBytes, Covers;
    var bytes: seq<byte> := [];
    ghost var whole := PacketsBytes(cx, raw, q, 0);
    assert whole.Ok? ==> [] + whole.value == whole.value;
    for si := 0 to |raw|
      invariant whole == Behind(bytes, PacketsBytes(cx, raw, q, si))
    {
      var packet :- AssemblePacket(cx, cx.sh.packets[si], raw[si], q, sig[si], cnt[si]);
      BehindPacket(bytes, packet, PacketsBytes(cx, raw, q, si + 1));
      bytes := bytes + packet;
    }
    assert bytes + [] == bytes;
    return Ok(bytes);
  }

  lemma BehindPacket(bytes: seq<byte>, packet: seq<byte>, rest: Result<seq<byte>>)
    ensures rest.Ok? ==> bytes + (packet + rest.value) == bytes + packet + rest.value
  {
  }

  method AssemblePacket(cx: Context, es: seq<Entry>, raw: bool, q: Quantised, sig: seq<byte>, cnt: seq<byte>)
    returns (r: Result<seq<byte>>)
    requires cx.Ok() && cx.sh.EntriesOk(es) && Covers(q, es) && Holds(cx, es, raw, CountsOf(q), sig, cnt)
    ensures r == PacketBytes(cx, es, raw, q)
  {
    hide CountBits, DataBits, SignBits, PacketHeaders.Write, Covers, CountsOf;
    ghost var bits := CountBits(cx, es, raw, CountsOf(q)).value;
    var dat := EncodeData(cx, es, q);
    var sgn: seq<byte> := [];
    if cx.md.signPackets {
      sgn := EncodeSigns(cx, es, q);
    }
    var pk := PacketHeaders.PacketHeader(raw, |dat|, |cnt|, |sgn|);
    assert pk == HeaderOf(cx, es, raw, bits.1, q);
    var header :- PacketHeaders.WritePacketHeader(pk, cx.md.shortHeader);
    assert header + sig + cnt + dat + sgn == header + sig + cnt + ValueBytes(cx, es, q);
    return Ok(header + sig + cnt + dat + sgn);
  }

  /** Count subpackets of all packets, before any fallback. */
  method EncodeAllCounts(cx: Context, raw: seq<bool>, m: Counts)
    returns (r: Result<(seq<seq<byte>>, seq<seq<byte>>)>)
    requires cx.Ok() && |raw| == |cx.sh.packets| && cx.md.br <= 32
    requires forall e | cx.sh.EntryOk(e) :: InRange(LineCounts(cx.sh, m, e), cx.md.br)
    ensures match CheckCounts(cx, raw, m, 0)
            case Ok(_) => r.Ok? && Stored(cx, raw, m, r.value.0, r.value.1, |raw|)
            case Err(e) => r == Err(e)
  {
    hide InRange, CountBits, Pack;
    var sig: seq<seq<byte>>, cnt: seq<seq<byte>> := [], [];
    for si := 0 to |raw|
      invariant |sig| == |cnt| == si && Stored(cx, raw, m, sig, cnt, si)
      invariant CheckCounts(cx, raw, m, 0) == CheckCounts(cx, raw, m, si)
    {
      var coded :- EncodeCounts(cx, cx.sh.packets[si], raw[si], m);
      sig, cnt := sig + [coded.0], cnt + [coded.1];
    }
    return Ok((sig, cnt));
  }

  /** Subpackets, fallback and assembly of a quantised precinct. */
  method PackQuantised(cx: Context, requested: seq<bool>, q: Quantised, state: PredictorState) returns (r: Result<seq<byte>>)
    requires cx.Ok() && |requested| == |cx.sh.packets| && cx.md.br <= 32
    requires forall j | 0 <= j < |requested| :: Covers(q, cx.sh.packets[j])
    requires forall e | cx.sh.EntryOk(e) :: InRange(LineCounts(cx.sh, CountsOf(q), e), cx.md.br)
    modifies state
    ensures match EncodeQuantised(cx, requested, q)
            case Ok(enc) => r == Ok(enc.bytes) && state.Value() == enc.state
            case Err(e) => r == Err(e) && state.Value() == old(state.Value())
  {
    hide PacketsBytes, CheckCounts, FinalRaw, Fallback, CountsOf, NextState, Stored, Covers, InRange, LineCounts;
    var m := CountsOf(q);
    var counts :- EncodeAllCounts(cx, requested, m);
    var raw, sig, cnt;
    if cx.md.rawPerPacket {
      raw, sig, cnt := FallBackPerPacket(cx, requested, m, counts.0, counts.1);
    } else {
      raw, sig, cnt := FallBackPerBand(cx, requested, m, counts.0, counts.1);
      FinalIsFallback(cx, requested, m);
    }
    var bytes :- Assemble(cx, raw, q, sig, cnt);
    if |bytes| == 0 || |bytes| >= 0x10_0000 {
      return Err(LengthOutOfRange);
    }
    UpdateState(cx.sh, m, cx.t, state);
    return Ok(bytes);
  }

  /**
   * Quantises and packs one precinct, falling back to raw counts where clause C.5.3 demands it, and
   * advances the predictor state as the decoder will. On an error the state is untouched.
   */
  method EncodePrecinct(sh: Shape, md: Mode, weights: seq<Weight>, coding: Coding, c: Coeffs, state: PredictorState)
    returns (r: Result<seq<byte>>)
    requires sh.Ok() && |weights| == sh.Bands() && md.br <= 32
    modifies state
    ensures match Encode(sh, md, weights, coding, c, old(state.Value()))
            case Ok(enc) => r == Ok(enc.bytes) && state.Value() == enc.state
            case Err(e) => r == Err(e) && state.Value() == old(state.Value())
  {
    hide EncodeQuantised, RequestedRaw, Truncation, QuantiseAll, Covers, CountsOf, LineCounts, QuantisedOk;
    if |coding.d| != sh.Bands() || coding.q > 31 || coding.r >= 2 * sh.Bands() {
      return Err(BadCoding);
    }
    var cx := ContextOf(sh, md, weights, coding.q, coding.r, coding.d, state.Value());
    var requested :- RequestedRaw(cx, coding);
    var q :- QuantizePrecinct(cx, c);
    LineCovered(cx, c);
    PrecinctTheorems.PrecinctQuantised(cx, c);
    QuantisedInRange(cx, q);
    r := PackQuantised(cx, requested, q, state);
  }

  lemma FinalIsFallback(cx: Context, raw: seq<bool>, m: Counts)
    requires cx.Ok() && |raw| == |cx.sh.packets| && !cx.md.rawPerPacket
    ensures FinalRaw(cx, raw, m) == Fallback(cx, raw, m)
  {
  }

  lemma QuantisedInRange(cx: Context, q: Quantised)
    requires cx.Ok() && QuantisedOk(cx, q)
    ensures forall e | cx.sh.EntryOk(e) :: InRange(LineCounts(cx.sh, CountsOf(q), e), cx.md.br)
  {
    forall e | cx.sh.EntryOk(e)
      ensures InRange(LineCounts(cx.sh, CountsOf(q), e), cx.md.br)
    {
      PrecinctRoundTrip.CountsOfLine(cx, q, e);
    }
  }
}
