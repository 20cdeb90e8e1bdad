// The precinct decoder on arbitrary bytes: it reports an error, or stops inside the body with every
// count below 2^Br and every magnitude within the bitplanes of its group.
module DecoderTotality {
  import opened Wrappers
  import opened Arith
  import opened BitIO
  import opened Quantiser
  import opened Precinct
  import opened PrecinctRoundTrip
  import opened PrecinctTheorems

  ghost predicate Suffix(rest: seq<byte>, data: seq<byte>) {
    |rest| <= |data| && rest == data[|data| - |rest|..]
  }

  lemma SuffixOfSuffix(a: seq<byte>, b: seq<byte>, c: seq<byte>)
    requires Suffix(a, b) && Suffix(b, c)
    ensures Suffix(a, c)
  {
  }

  lemma SubpacketSuffix(data: seq<byte>, used: int, length: nat)
    ensures EndSubpacket(data, used, length).Ok? ==> Suffix(EndSubpacket(data, used, length).value, data)
  {
  }

  // ---- counts ------------------------------------------------------------------------------------

  ghost predicate CountsInRange(m: Counts, br: nat) {
    forall e | e in m :: InRange(m[e], br)
  }

  lemma {:induction false} RawLineInRange(br: nat, n: nat, acc: seq<nat>, bits: seq<bool>)
    requires |acc| <= n && InRange(acc, br)
    ensures ReadRawLine(br, n, acc, bits).Ok? ==> InRange(ReadRawLine(br, n, acc, bits).value.0, br)
    decreases n - |acc|
  {
    hide Value, Pow2;
    if |acc| < n && |bits| >= br {
      ValueBound(bits[..br]);
      RawLineInRange(br, n, acc + [Value(bits[..br])], bits[br..]);
    }
  }

  lemma LineInRange(cx: Context, e: Entry, raw: bool, z: seq<bool>, m: Counts, bits: seq<bool>)
    requires cx.Ok() && cx.sh.EntryOk(e)
    ensures ReadLine(cx, e, raw, z, m, bits).Ok? ==> InRange(ReadLine(cx, e, raw, z, m, bits).value.0, cx.md.br)
  {
    hide ReadRawLine, ReadCodedLine, Predicted, Pow2;
    if raw {
      RawLineInRange(cx.md.br, cx.sh.Groups(e.band), [], bits);
    }
  }

  lemma {:induction false} ReadCountsInRange(cx: Context, es: seq<Entry>, raw: bool, z: seq<seq<bool>>, i: nat, m: Counts,
                                             bits: seq<bool>)
    requires cx.Ok() && cx.sh.EntriesOk(es) && i <= |es| == |z| && CountsInRange(m, cx.md.br)
    ensures var r := ReadCounts(cx, es, raw, z, i, m, bits); r.Ok? ==> CountsInRange(r.value.0, cx.md.br)
    decreases |es| - i
  {
    hide ReadLine, InRange;
    if i < |es| {
      LineInRange(cx, es[i], raw, z[i], m, bits);
      var r := ReadLine(cx, es[i], raw, z[i], m, bits);
      if r.Ok? {
        ReadCountsInRange(cx, es, raw, z, i + 1, m[es[i] := r.value.0], r.value.1);
      }
    }
  }

  // ---- values ------------------------------------------------------------------------------------

  /** No value needs more than the bitplanes of its group. */
  ghost predicate WithinPlanes(vals: Values, line: seq<nat>, t: nat) {
    && |vals| <= |line| && AllOk(vals)
    && forall g, k | 0 <= g < |vals| && 0 <= k < 4 :: vals[g].v[k] < (if line[g] <= t then 1 else Pow2(line[g] - t))
  }

  lemma {:induction false} PlanesBound(n: nat, v: seq<nat>, bits: seq<bool>)
    requires |v| == 4
    ensures var r := ReadPlanes(n, v, bits); r.Ok? ==> forall k | 0 <= k < 4 :: r.value.0[k] < v[k] + Pow2(n)
  {
    hide Digit;
    if n > 0 && |bits| >= 4 {
      PlanesBound(n - 1, OrPlane(v, n - 1, bits[..4]), bits[4..]);
    }
  }

  lemma GroupWithin(planes: nat, signsHere: bool, bits: seq<bool>)
    ensures var r := ReadGroup(planes, signsHere, bits);
            r.Ok? ==> forall k | 0 <= k < 4 :: r.value.0.v[k] < Pow2(planes)
  {
    hide ReadPlanes, Pow2;
    assert forall k | 0 <= k < 4 :: ZERO_GROUP.v[k] == 0;
    if !signsHere {
      PlanesBound(planes, ZERO_GROUP.v, bits);
    } else if |bits| >= 4 {
      PlanesBound(planes, ZERO_GROUP.v, bits[4..]);
    }
  }

  lemma {:induction false} ValuesWithin(line: seq<nat>, t: nat, signsHere: bool, acc: Values, bits: seq<bool>)
    requires |acc| <= |line| && AllOk(acc) && WithinPlanes(acc, line, t)
    ensures var r := ReadValues(line, t, signsHere, acc, bits); r.Ok? ==> WithinPlanes(r.value.0, line, t)
    decreases |line| - |acc|
  {
    hide ReadGroup, Pow2;
    var g := |acc|;
    if g < |line| {
      if line[g] <= t {
        ValuesWithin(line, t, signsHere, acc + [ZERO_GROUP], bits);
      } else {
        var r := ReadGroup(line[g] - t, signsHere, bits);
        if r.Ok? {
          GroupWithin(line[g] - t, signsHere, bits);
          ValuesWithin(line, t, signsHere, acc + [r.value.0], r.value.1);
        }
      }
    }
  }

  ghost predicate AllWithin(cx: Context, es: seq<Entry>, vals: seq<Values>, m: Counts)
    requires cx.Ok() && cx.sh.EntriesOk(es)
  {
    && |vals| <= |es|
    && forall i | 0 <= i < |vals| :: WithinPlanes(vals[i], LineCounts(cx.sh, m, es[i]), cx.t[es[i].band])
  }

  lemma {:induction false} DataWithin(cx: Context, es: seq<Entry>, m: Counts, acc: seq<Values>, bits: seq<bool>)
    requires cx.Ok() && cx.sh.EntriesOk(es) && ValuesOk(cx, es, acc) && AllWithin(cx, es, acc, m)
    ensures var r := ReadData(cx, es, m, acc, bits); r.Ok? ==> AllWithin(cx, es, r.value.0, m)
    decreases |es| - |acc|
  {
    hide ReadValues, WithinPlanes, LineCounts;
    if |acc| < |es| {
      var e := es[|acc|];
      EmptyWithin(LineCounts(cx.sh, m, e), cx.t[e.band]);
      ValuesWithin(LineCounts(cx.sh, m, e), cx.t[e.band], !cx.md.signPackets, [], bits);
      var r := ReadValues(LineCounts(cx.sh, m, e), cx.t[e.band], !cx.md.signPackets, [], bits);
      if r.Ok? {
        DataWithin(cx, es, m, acc + [r.value.0], r.value.1);
      }
    }
  }

  lemma EmptyWithin(line: seq<nat>, t: nat)
    ensures WithinPlanes([], line, t)
  {
  }

  lemma {:induction false} LineSignsKeepMagnitudes(vals: Values, acc: Values, bits: seq<bool>)
    requires |acc| <= |vals| && AllOk(vals) && AllOk(acc) && forall g | 0 <= g < |acc| :: acc[g].v == vals[g].v
    ensures var r := ReadLineSigns(vals, acc, bits); r.Ok? ==> forall g | 0 <= g < |vals| :: r.value.0[g].v == vals[g].v
    decreases |vals| - |acc|
  {
    hide ReadGroupSigns;
    if |acc| < |vals| {
      var r := ReadGroupSigns(vals[|acc|].v, [], bits);
      if r.Ok? {
        LineSignsKeepMagnitudes(vals, acc + [Group(vals[|acc|].v, r.value.0)], r.value.1);
      }
    }
  }

  lemma {:induction false} SignsWithin(cx: Context, es: seq<Entry>, vals: seq<Values>, acc: seq<Values>, m: Counts,
                                       bits: seq<bool>)
    requires cx.Ok() && cx.sh.EntriesOk(es) && ValuesOk(cx, es, vals) && |vals| == |es| && ValuesOk(cx, es, acc)
    requires AllWithin(cx, es, vals, m) && AllWithin(cx, es, acc, m)
    ensures var r := ReadSigns(cx, es, vals, acc, bits); r.Ok? ==> AllWithin(cx, es, r.value.0, m)
    decreases |vals| - |acc|
  {
    hide ReadLineSigns, Pow2;
    if |acc| < |vals| {
      LineSignsKeepMagnitudes(vals[|acc|], [], bits);
      var r := ReadLineSigns(vals[|acc|], [], bits);
      if r.Ok? {
        SignsWithin(cx, es, vals, acc + [r.value.0], m, r.value.1);
      }
    }
  }

  // ---- coefficients ----------------------------------------------------------------------------

  ghost predicate CoeffsInRange(out: Coeffs, br: nat) {
    forall e | e in out :: LineFits(out[e], br)
  }

  lemma ReconstructInRange(vals: Values, line: seq<nat>, width: nat, t: nat, uniform: bool, br: nat)
    requires |vals| == |line| && AllOk(vals) && width <= 4 * |line| && WithinPlanes(vals, line, t) && InRange(line, br)
    ensures LineFits(Reconstruct(vals, line, width, t, uniform), br)
  {
    hide Pow2, Quantise, Magnitude;
    forall x | 0 <= x < width
      ensures Abs(Reconstruct(vals, line, width, t, uniform)[x]) < Pow2(Pow2(br) - 1)
    {
      SampleInRange(vals[x / 4].v[x % 4], vals[x / 4].s[x % 4], line[x / 4], t, uniform, br);
    }
  }

  lemma SampleInRange(v: nat, negative: bool, m: nat, t: nat, uniform: bool, br: nat)
    requires v < (if m <= t then 1 else Pow2(m - t)) && m < Pow2(br)
    ensures Abs(Dequantise(v, negative, m, t, uniform)) < Pow2(m)
    ensures Abs(Dequantise(v, negative, m, t, uniform)) < Pow2(Pow2(br) - 1)
  {
    if m > t {
      MagnitudeFits(v, m, t, uniform);
    }
    Pow2Monotone(m, Pow2(br) - 1);
  }

  lemma {:induction false} PlaceInRange(cx: Context, es: seq<Entry>, vals: seq<Values>, i: nat, m: Counts, out: Coeffs)
    requires cx.Ok() && cx.sh.EntriesOk(es) && ValuesOk(cx, es, vals) && i <= |vals| == |es|
    requires AllWithin(cx, es, vals, m) && CountsInRange(m, cx.md.br) && CoeffsInRange(out, cx.md.br)
    requires CoeffsOk(cx.sh, out)
    ensures CoeffsInRange(PlaceLines(cx, es, vals, i, m, out), cx.md.br)
    ensures CoeffsOk(cx.sh, PlaceLines(cx, es, vals, i, m, out))
    decreases |es| - i
  {
    hide DequantiseLine, LineFits, WithinPlanes, InRange, LineCounts;
    if i < |es| {
      var e := es[i];
      EntryInShape(cx.sh, e);
      PlacedLine(cx, es, vals, i, m);
      var line := DequantiseLine(cx, e, vals[i], m);
      assert out[e := line].Keys == out.Keys;
      PlaceInRange(cx, es, vals, i + 1, m, out[e := line]);
    }
  }

  lemma PlacedLine(cx: Context, es: seq<Entry>, vals: seq<Values>, i: nat, m: Counts)
    requires cx.Ok() && cx.sh.EntriesOk(es) && ValuesOk(cx, es, vals) && i < |vals| == |es|
    requires AllWithin(cx, es, vals, m) && CountsInRange(m, cx.md.br)
    ensures LineFits(DequantiseLine(cx, es[i], vals[i], m), cx.md.br)
  {
    var e := es[i];
    GroupsCover(cx.sh, e.band);
    LineCountsInRange(cx.sh, m, e, cx.md.br);
    hide Reconstruct, LineFits, WithinPlanes, InRange, LineCounts;
    ReconstructInRange(vals[i], LineCounts(cx.sh, m, e), cx.sh.widths[e.band], cx.t[e.band], cx.md.uniform, cx.md.br);
  }

  // ---- packets -----------------------------------------------------------------------------------

  lemma CountsTotal(cx: Context, es: seq<Entry>, m: Counts, data: seq<byte>)
    requires cx.Ok() && cx.sh.EntriesOk(es) && CountsInRange(m, cx.md.br)
    ensures var r := DecodeCounts(cx, es, m, data);
            r.Ok? ==> CountsInRange(r.value.1, cx.md.br) && Suffix(r.value.2, data)
  {
    hide CountsInRange, ReadCounts, DecodeFlags, PacketHeaders.Parse, Bits, Suffix, EndSubpacket;
    var r := DecodeCounts(cx, es, m, data);
    if r.Ok? {
      var n := PacketHeaders.HeaderBytes(cx.md.shortHeader);
      var pk := r.value.0;
      var (z, d1) := DecodeFlags(cx, es, pk.dr, data[n..]).value;
      FlagsSuffix(cx, es, pk.dr, data[n..]);
      DropSuffix(data, n);
      SuffixOfSuffix(d1, data[n..], data);
      ReadCountsInRange(cx, es, pk.dr, z, 0, m, Bits(d1));
      SubpacketSuffix(d1, |Bits(d1)| - |ReadCounts(cx, es, pk.dr, z, 0, m, Bits(d1)).value.1|, pk.lcnt);
      SuffixOfSuffix(r.value.2, d1, data);
    }
  }

  lemma DropSuffix(data: seq<byte>, n: nat)
    requires n <= |data|
    ensures Suffix(data[n..], data)
  {
  }

  lemma FlagsSuffix(cx: Context, es: seq<Entry>, raw: bool, data: seq<byte>)
    requires cx.Ok() && cx.sh.EntriesOk(es)
    ensures DecodeFlags(cx, es, raw, data).Ok? ==> Suffix(DecodeFlags(cx, es, raw, data).value.1, data)
  {
    hide ReadFlags, Bits;
  }

  lemma ValuesTotal(cx: Context, es: seq<Entry>, pk: PacketHeaders.PacketHeader, counts: Counts, out: Coeffs,
                    data: seq<byte>)
    requires cx.Ok() && cx.sh.EntriesOk(es) && CountsInRange(counts, cx.md.br) && CoeffsInRange(out, cx.md.br)
    requires CoeffsOk(cx.sh, out)
    ensures var r := DecodeValues(cx, es, pk, counts, out, data);
            r.Ok? ==> CoeffsInRange(r.value.0, cx.md.br) && CoeffsOk(cx.sh, r.value.0) && Suffix(r.value.1, data)
  {
    hide CountsInRange, CoeffsInRange, CoeffsOk, ReadData, ReadSigns, PlaceLines, Bits, WithinPlanes, LineCounts;
    var r := DecodeValues(cx, es, pk, counts, out, data);
    if r.Ok? {
      DataWithin(cx, es, counts, [], Bits(data));
      var (vals, r1) := ReadData(cx, es, counts, [], Bits(data)).value;
      var d1 := EndSubpacket(data, |Bits(data)| - |r1|, pk.ldat).value;
      if cx.md.signPackets {
        SignsWithin(cx, es, vals, [], counts, Bits(d1));
        PlaceInRange(cx, es, ReadSigns(cx, es, vals, [], Bits(d1)).value.0, 0, counts, out);
        SuffixOfSuffix(r.value.1, d1, data);
      } else {
        PlaceInRange(cx, es, vals, 0, counts, out);
      }
    }
  }

  lemma {:induction false} PacketsTotal(cx: Context, i: nat, m: Counts, out: Coeffs, data: seq<byte>)
    requires cx.Ok() && i <= |cx.sh.packets| && CountsInRange(m, cx.md.br) && CoeffsInRange(out, cx.md.br)
    requires CoeffsOk(cx.sh, out)
    ensures var r := DecodePackets(cx, i, m, out, data);
            r.Ok? ==> CountsInRange(r.value.0, cx.md.br) && CoeffsInRange(r.value.1, cx.md.br) &&
                      CoeffsOk(cx.sh, r.value.1) && Suffix(r.value.2, data)
    decreases |cx.sh.packets| - i
  {
    hide CountsInRange, CoeffsInRange, CoeffsOk, DecodeCounts, DecodeValues, Suffix;
    assert Suffix(data, data) by {
      SuffixOfItself(data);
    }
    if i < |cx.sh.packets| {
      var es := cx.sh.packets[i];
      var r := DecodePacket(cx, es, m, out, data);
      if r.Ok? {
        var (pk, counts, d1) := DecodeCounts(cx, es, m, data).value;
        CountsTotal(cx, es, m, data);
        ValuesTotal(cx, es, pk, counts, out, d1);
        SuffixOfSuffix(r.value.2, d1, data);
        PacketsTotal(cx, i + 1, r.value.0, r.value.1, r.value.2);
        var s := DecodePackets(cx, i + 1, r.value.0, r.value.1, r.value.2);
        if s.Ok? {
          SuffixOfSuffix(s.value.2, r.value.2, data);
        }
      }
    }
  }

  lemma SuffixOfItself(data: seq<byte>)
    ensures Suffix(data, data)
  {
  }

  /** The counts of all lines, as the decoder has them behind the last packet. */
  function DecodedCounts(cx: Context, buffer: Coeffs, body: seq<byte>): Counts
    requires cx.Ok() && Decode(cx, buffer, body).Ok?
  {
    DecodePackets(cx, 0, map[], if CoeffsOk(cx.sh, buffer) then buffer else ZeroCoeffs(cx.sh), body).value.0
  }

  /**
   * Any body, any predictor state: on success the position lies in the body, every count of every line is in
   * 0..2^Br-1, the coefficients fill the precinct with magnitudes below 2^(2^Br - 1), and the new state is one an
   * encoder could start from.
   */
  lemma DecoderIsTotal(cx: Context, buffer: Coeffs, body: seq<byte>)
    requires cx.Ok() && InRange(cx.t, cx.md.br) && (CoeffsOk(cx.sh, buffer) ==> CoeffsInRange(buffer, cx.md.br))
    ensures var r := Decode(cx, buffer, body);
            r.Ok? ==> Suffix(r.value.rest, body) && CoeffsOk(cx.sh, r.value.out) && CoeffsInRange(r.value.out, cx.md.br) &&
                      StateInRange(r.value.state, cx.md.br) && r.value.state.valid &&
                      CountsInRange(DecodedCounts(cx, buffer, body), cx.md.br)
  {
    var out := if CoeffsOk(cx.sh, buffer) then buffer else ZeroCoeffs(cx.sh);
    ZerosInRange(cx.sh, cx.md.br);
    hide CoeffsInRange, CoeffsOk, DecodePackets, Suffix, InRange, StateInRange, LineCounts, NextState;
    EmptyCounts(cx.md.br);
    PacketsTotal(cx, 0, map[], out, body);
    var r := DecodePackets(cx, 0, map[], out, body);
    if r.Ok? {
      forall e | cx.sh.EntryOk(e)
        ensures InRange(LineCounts(cx.sh, r.value.0, e), cx.md.br)
      {
        LineCountsInRange(cx.sh, r.value.0, e, cx.md.br);
      }
      NextStateInRange(cx.sh, r.value.0, cx.t, cx.md.br);
    }
  }

  lemma EmptyCounts(br: nat)
    ensures CountsInRange(map[], br)
  {
  }

  lemma ZerosInRange(sh: Shape, br: nat)
    requires sh.Ok()
    ensures CoeffsInRange(ZeroCoeffs(sh), br)
  {
  }

  lemma LineCountsInRange(sh: Shape, m: Counts, e: Entry, br: nat)
    requires sh.Ok() && sh.EntryOk(e) && CountsInRange(m, br)
    ensures InRange(LineCounts(sh, m, e), br)
  {
  }

  /** With Br at most 5, as every header allows, magnitudes fit a signed 32-bit integer. */
  lemma CoefficientsFitInt32(out: Coeffs, br: nat, e: Entry, x: nat)
    requires CoeffsInRange(out, br) && br <= 5 && e in out && x < |out[e]|
    ensures -0x8000_0000 < out[e][x] < 0x8000_0000
  {
    Pow2Monotone(br, 5);
    assert Pow2(5) == 32;
    Pow2Monotone(Pow2(br) - 1, 31);
    assert Pow2(31) == 0x8000_0000 by {
      Pow2Add(16, 15);
      assert Pow2(8) == 256;
      Pow2Add(8, 8);
      Pow2Add(8, 7);
    }
    assert LineFits(out[e], br);
  }
}
