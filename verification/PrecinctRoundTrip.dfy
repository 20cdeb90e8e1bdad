// Decoding an encoded precinct: the decoder meets every count after the line it is predicted from,
// so it rebuilds the encoder's counts, values and predictor state, whatever the coding choices were.
module PrecinctRoundTrip {
  import opened Wrappers
  import opened Arith
  import opened BitIO
  import opened Precinct
  import opened PrecinctLines
  import PacketHeaders

  // ---- the order of lines ------------------------------------------------------------------------

  /** Lines of band b in order of appearance. */
  function LinesOf(es: seq<Entry>, b: nat): seq<nat> {
    if es == [] then [] else (if es[0].band == b then [es[0].line] else []) + LinesOf(es[1..], b)
  }

  function Flatten(packets: seq<Packet>): seq<Entry> {
    if packets == [] then [] else packets[0] + Flatten(packets[1..])
  }

  function Range(from: nat, n: nat): seq<nat> {
    seq(n, i requires 0 <= i < n => from + i)
  }

  /** Every line of every band once, each band's lines in increasing order. */
  ghost predicate Complete(sh: Shape)
    requires sh.Ok()
  {
    forall b: nat | b < sh.Bands() :: LinesOf(Flatten(sh.packets), b) == Range(sh.starts[b], sh.lines[b])
  }

  /** What is left to code: the last lines of every band, in increasing order. */
  ghost predicate Pending(sh: Shape, rem: seq<Entry>)
    requires sh.Ok()
  {
    && sh.EntriesOk(rem)
    && forall b: nat | b < sh.Bands() ::
         var k := |LinesOf(rem, b)|;
         k <= sh.lines[b] && LinesOf(rem, b) == Range(sh.starts[b] + sh.lines[b] - k, k)
  }

  /** First line of band b still to code. */
  function Next(sh: Shape, rem: seq<Entry>, b: nat): int
    requires sh.Ok() && b < sh.Bands()
  {
    sh.starts[b] + sh.lines[b] - |LinesOf(rem, b)|
  }

  lemma LinesStep(rem: seq<Entry>, b: nat, end: int)
    requires rem != [] && |LinesOf(rem, b)| <= end && LinesOf(rem, b) == Range(end - |LinesOf(rem, b)|, |LinesOf(rem, b)|)
    ensures var k := |LinesOf(rem[1..], b)|;
            && k <= end && LinesOf(rem[1..], b) == Range(end - k, k)
            && |LinesOf(rem, b)| == k + (if rem[0].band == b then 1 else 0)
            && (rem[0].band == b ==> rem[0].line == end - |LinesOf(rem, b)|)
  {
    if rem[0].band == b {
      assert LinesOf(rem, b)[1..] == LinesOf(rem[1..], b);
      assert LinesOf(rem, b)[0] == rem[0].line;
    }
  }

  lemma PendingStep(sh: Shape, rem: seq<Entry>)
    requires sh.Ok() && Pending(sh, rem) && rem != []
    ensures Pending(sh, rem[1..]) && sh.EntryOk(rem[0])
    ensures rem[0].line == Next(sh, rem, rem[0].band)
    ensures forall b: nat | b < sh.Bands() ::
              Next(sh, rem[1..], b) == Next(sh, rem, b) + if b == rem[0].band then 1 else 0
  {
    hide LinesOf, Range;
    forall b: nat | b < sh.Bands()
      ensures var k := |LinesOf(rem[1..], b)|;
              && k <= sh.lines[b] && LinesOf(rem[1..], b) == Range(sh.starts[b] + sh.lines[b] - k, k)
              && Next(sh, rem[1..], b) == Next(sh, rem, b) + (if b == rem[0].band then 1 else 0)
              && (b == rem[0].band ==> rem[0].line == Next(sh, rem, b))
    {
      LinesStep(rem, b, sh.starts[b] + sh.lines[b]);
    }
    assert sh.EntryOk(rem[0]);
  }

  /** Entry e has been coded already when rem is what is left. */
  predicate Coded(sh: Shape, rem: seq<Entry>, e: Entry)
    requires sh.Ok() && sh.EntryOk(e)
  {
    e.line < Next(sh, rem, e.band)
  }

  /** Dropping a prefix of what is left only adds to what is coded: at least the prefix itself. */
  lemma {:induction false} PendingDrop(sh: Shape, x: seq<Entry>, y: seq<Entry>)
    requires sh.Ok() && Pending(sh, x + y)
    ensures Pending(sh, y)
    ensures forall e | sh.EntryOk(e) && Coded(sh, x + y, e) :: Coded(sh, y, e)
    ensures forall j | 0 <= j < |x| :: sh.EntryOk(x[j]) && Coded(sh, y, x[j])
    decreases |x|
  {
    hide Pending, LinesOf, Next;
    if x == [] {
      assert x + y == y;
    } else {
      PendingStep(sh, x + y);
      assert (x + y)[1..] == x[1..] + y;
      PendingDrop(sh, x[1..], y);
      assert (x + y)[0] == x[0];
      forall j | 0 <= j < |x|
        ensures sh.EntryOk(x[j]) && Coded(sh, y, x[j])
      {
        if j > 0 {
          assert x[j] == x[1..][j - 1];
        }
      }
    }
  }

  /** At the end every line has been coded. */
  lemma NothingLeft(sh: Shape, e: Entry)
    requires sh.Ok() && sh.EntryOk(e)
    ensures Coded(sh, [], e)
  {
  }

  // ---- counts ------------------------------------------------------------------------------------

  /** Predictor state within the range of counts, as every update leaves it. */
  ghost predicate StateInRange(st: State, br: nat) {
    && (forall b | 0 <= b < |st.lastLine| :: InRange(st.lastLine[b], br))
    && InRange(st.tAbove, br)
  }

  /** Counts, truncations and state all below 2^Br. */
  ghost predicate InBounds(cx: Context, m: Counts)
    requires cx.Ok()
  {
    && InRange(cx.t, cx.md.br)
    && StateInRange(cx.st, cx.md.br)
    && forall e | cx.sh.EntryOk(e) :: InRange(LineCounts(cx.sh, m, e), cx.md.br)
  }

  /** The decoder's counts m agree with the encoder's on every line already coded. */
  ghost predicate Agree(sh: Shape, rem: seq<Entry>, m: Counts, full: Counts)
    requires sh.Ok()
  {
    forall e | sh.EntryOk(e) && Coded(sh, rem, e) :: LineCounts(sh, m, e) == LineCounts(sh, full, e)
  }

  lemma AgreeStep(sh: Shape, rem: seq<Entry>, m: Counts, full: Counts)
    requires sh.Ok() && Pending(sh, rem) && rem != [] && Agree(sh, rem, m, full)
    ensures Pending(sh, rem[1..])
    ensures Agree(sh, rem[1..], m[rem[0] := LineCounts(sh, full, rem[0])], full)
  {
    hide Pending, LinesOf, Next;
    PendingStep(sh, rem);
    var line := LineCounts(sh, full, rem[0]);
    forall e | sh.EntryOk(e) && Coded(sh, rem[1..], e)
      ensures LineCounts(sh, m[rem[0] := line], e) == LineCounts(sh, full, e)
    {
      if e != rem[0] {
        assert Coded(sh, rem, e);
      }
    }
  }

  lemma PredictedSame(cx: Context, rem: seq<Entry>, m: Counts, full: Counts)
    requires cx.Ok() && Pending(cx.sh, rem) && rem != [] && Agree(cx.sh, rem, m, full)
    ensures Predicted(cx, rem[0], m) == Predicted(cx, rem[0], full)
  {
    PendingStep(cx.sh, rem);
    var e := rem[0];
    if e.line != cx.sh.starts[e.band] {
      assert Coded(cx.sh, rem, Entry(e.band, e.line - 1));
    }
  }

  lemma PredictedInRange(cx: Context, e: Entry, m: Counts)
    requires cx.Ok() && cx.sh.EntryOk(e) && InBounds(cx, m)
    requires Predicted(cx, e, m).Ok?
    ensures InRange(Predicted(cx, e, m).value, cx.md.br)
  {
    hide Pow2;
    var b, n := e.band, cx.sh.Groups(e.band);
    if cx.Vertical(b) {
      var (above, tAbove) := Above(cx, e, m).value;
      assert InRange(above, cx.md.br) by {
        if e.line != cx.sh.starts[b] {
          assert cx.sh.EntryOk(Entry(b, e.line - 1));
        }
      }
      forall g | 0 <= g < n
        ensures 0 <= Predicted(cx, e, m).value[g] < Pow2(cx.md.br)
      {
        assert 0 <= above[g] < Pow2(cx.md.br);
      }
    }
  }

  lemma LineRoundTrip(cx: Context, rem: seq<Entry>, raw: bool, z: seq<bool>, m: Counts, full: Counts, tail: seq<bool>)
    requires cx.Ok() && Pending(cx.sh, rem) && rem != [] && Agree(cx.sh, rem, m, full) && InBounds(cx, full)
    requires LineBits(cx, rem[0], raw, full).Ok?
    requires raw || z == LineBits(cx, rem[0], raw, full).value.0
    ensures ReadLine(cx, rem[0], raw, z, m, LineBits(cx, rem[0], raw, full).value.1 + tail)
         == Ok((LineCounts(cx.sh, full, rem[0]), tail))
  {
    var e := rem[0];
    var line := LineCounts(cx.sh, full, e);
    assert cx.sh.EntryOk(e) && InRange(line, cx.md.br);
    assert line[..0] == [] && line[0..] == line;
    if raw {
      RawLineRoundTrip(cx.md.br, line, 0, tail);
    } else {
      PredictedSame(cx, rem, m, full);
      PredictedInRange(cx, e, full);
      hide Pow2, CodedLineBits, ReadCodedLine, Predicted, Pending, Agree, InBounds;
      var predicted := Predicted(cx, e, full).value;
      FlagsSound(cx, e.band, line, predicted);
      CodedLineRoundTrip(cx, e.band, line, predicted, z, 0, tail);
    }
  }

  /** The flags of all entries, as the decoder keeps them. */
  function FlagLists(cx: Context, es: seq<Entry>, raw: bool, m: Counts): (r: seq<seq<bool>>)
    requires cx.Ok() && cx.sh.EntriesOk(es)
    ensures |r| == |es|
  {
    if es == [] then [] else
    var r := LineBits(cx, es[0], raw, m);
    [if r.Ok? then r.value.0 else []] + FlagLists(cx, es[1..], raw, m)
  }

  lemma LineFlagCount(cx: Context, e: Entry, m: Counts)
    requires cx.Ok() && cx.sh.EntryOk(e) && LineBits(cx, e, false, m).Ok?
    ensures |LineBits(cx, e, false, m).value.0| == FlagCount(cx, e.band)
  {
    GroupsCover(cx.sh, e.band);
  }

  lemma ReadFlagsStep(cx: Context, es: seq<Entry>, acc: seq<seq<bool>>, z: seq<bool>, more: seq<bool>)
    requires cx.Ok() && cx.sh.EntriesOk(es) && FlagsOk(cx, es, acc) && |acc| < |es|
    requires |z| == FlagCount(cx, es[|acc|].band)
    ensures FlagsOk(cx, es, acc + [z])
    ensures ReadFlags(cx, es, acc, z + more) == ReadFlags(cx, es, acc + [z], more)
  {
    FlagsGrow(cx, es, acc, z);
    hide FlagsOk;
    var bits := z + more;
    if !cx.Significance(es[|acc|].band) {
      assert z == [] && bits == more;
    } else {
      assert bits[..|z|] == z && bits[|z|..] == more;
    }
  }

  lemma FlagsGrow(cx: Context, es: seq<Entry>, acc: seq<seq<bool>>, z: seq<bool>)
    requires cx.Ok() && cx.sh.EntriesOk(es) && FlagsOk(cx, es, acc) && |acc| < |es|
    requires |z| == FlagCount(cx, es[|acc|].band)
    ensures FlagsOk(cx, es, acc + [z])
  {
  }

  lemma FlagsDone(cx: Context, es: seq<Entry>, acc: seq<seq<bool>>, bits: seq<bool>)
    requires cx.Ok() && cx.sh.EntriesOk(es) && FlagsOk(cx, es, acc) && |acc| == |es|
    ensures ReadFlags(cx, es, acc, bits) == Ok((acc, bits))
  {
  }

  lemma {:induction false} FlagsRoundTrip(cx: Context, es: seq<Entry>, acc: seq<seq<bool>>, m: Counts, tail: seq<bool>)
    requires cx.Ok() && cx.sh.EntriesOk(es) && |acc| <= |es| && FlagsOk(cx, es, acc)
    requires CountBits(cx, es[|acc|..], false, m).Ok?
    ensures ReadFlags(cx, es, acc, CountBits(cx, es[|acc|..], false, m).value.0 + tail)
         == Ok((acc + FlagLists(cx, es[|acc|..], false, m), tail))
    decreases |es| - |acc|
  {
    hide LineBits, ReadFlags, FlagsOk, FlagCount;
    var rest := es[|acc|..];
    var bits := CountBits(cx, rest, false, m).value.0 + tail;
    if rest == [] {
      FlagsDone(cx, es, acc, tail);
      assert bits == tail;
      assert acc + FlagLists(cx, rest, false, m) == acc;
    } else {
      LineFlagCount(cx, rest[0], m);
      var z := LineBits(cx, rest[0], false, m).value.0;
      var more := CountBits(cx, rest[1..], false, m).value.0 + tail;
      assert bits == z + more;
      ReadFlagsStep(cx, es, acc, z, more);
      assert rest[1..] == es[|acc + [z]|..];
      FlagsRoundTrip(cx, es, acc + [z], m, tail);
      assert FlagLists(cx, rest, false, m) == [z] + FlagLists(cx, rest[1..], false, m);
      assert acc + [z] + FlagLists(cx, rest[1..], false, m) == acc + ([z] + FlagLists(cx, rest[1..], false, m));
    }
  }

  /** Counts of a packet read back; afterwards its lines agree with the encoder's. */
  lemma {:induction false} CountsRoundTrip(cx: Context, es: seq<Entry>, later: seq<Entry>, raw: bool, z: seq<seq<bool>>,
                                           i: nat, m: Counts, full: Counts, tail: seq<bool>)
    requires cx.Ok() && i <= |es| == |z| && cx.sh.EntriesOk(es) && Pending(cx.sh, es[i..] + later)
    requires Agree(cx.sh, es[i..] + later, m, full) && InBounds(cx, full)
    requires CountBits(cx, es[i..], raw, full).Ok?
    requires raw || z[i..] == FlagLists(cx, es[i..], raw, full)
    ensures var r := ReadCounts(cx, es, raw, z, i, m, CountBits(cx, es[i..], raw, full).value.1 + tail);
            r.Ok? && r.value.1 == tail && Agree(cx.sh, later, r.value.0, full)
    decreases |es| - i
  {
    hide LineBits, ReadLine, Pending, Agree, InBounds;
    var rest := es[i..];
    var bits := CountBits(cx, rest, raw, full).value.1 + tail;
    if i == |es| {
      assert rest + later == later;
      assert bits == tail;
    } else {
      var e, rem := es[i], rest + later;
      var c := LineBits(cx, e, raw, full).value.1;
      var more := CountBits(cx, rest[1..], raw, full).value.1 + tail;
      assert bits == c + more;
      assert rem[0] == e && rem[1..] == rest[1..] + later;
      assert raw || z[i..][0] == z[i];
      LineRoundTrip(cx, rem, raw, z[i], m, full, more);
      AgreeStep(cx.sh, rem, m, full);
      assert rest[1..] == es[i + 1..] && z[i..][1..] == z[i + 1..];
      CountsRoundTrip(cx, es, later, raw, z, i + 1, m[e := LineCounts(cx.sh, full, e)], full, tail);
    }
  }

  // ---- data and signs --------------------------------------------------------------------------

  /** The decoder's counts are the encoder's for these entries. */
  ghost predicate SameCounts(cx: Context, es: seq<Entry>, m: Counts, q: Quantised)
    requires cx.Ok() && cx.sh.EntriesOk(es) && QuantisedOk(cx, q)
  {
    forall i | 0 <= i < |es| :: es[i] in q && LineCounts(cx.sh, m, es[i]) == q[es[i]].m
  }

  lemma EntryInShape(sh: Shape, e: Entry)
    requires sh.Ok() && sh.EntryOk(e)
    ensures e in sh.Entries()
  {
  }

  lemma CountsOfLine(cx: Context, q: Quantised, e: Entry)
    requires cx.Ok() && QuantisedOk(cx, q) && cx.sh.EntryOk(e)
    ensures e in q && LineCounts(cx.sh, CountsOf(q), e) == q[e].m
    ensures QLineOk(q[e], cx.sh.Groups(e.band), cx.t[e.band], cx.md.br)
  {
    EntryInShape(cx.sh, e);
  }

  function DataLists(es: seq<Entry>, q: Quantised, signsHere: bool): (r: seq<Values>)
    requires Covers(q, es)
    ensures |r| == |es|
  {
    seq(|es|, i requires 0 <= i < |es| => DataPart(q[es[i]].vals, signsHere))
  }

  lemma DataListsOk(cx: Context, es: seq<Entry>, q: Quantised, signsHere: bool)
    requires cx.Ok() && QuantisedOk(cx, q) && cx.sh.EntriesOk(es) && Covers(q, es)
    ensures ValuesOk(cx, es, DataLists(es, q, signsHere))
  {
    forall i | 0 <= i < |es|
      ensures |q[es[i]].vals| == cx.sh.Groups(es[i].band)
    {
      CountsOfLine(cx, q, es[i]);
    }
  }

  lemma {:induction false} DataRoundTrip(cx: Context, es: seq<Entry>, m: Counts, acc: seq<Values>, q: Quantised,
                                         tail: seq<bool>)
    requires cx.Ok() && cx.sh.EntriesOk(es) && QuantisedOk(cx, q) && Covers(q, es) && SameCounts(cx, es, m, q)
    requires |acc| <= |es| && acc == DataLists(es, q, !cx.md.signPackets)[..|acc|] && ValuesOk(cx, es, acc)
    requires Covers(q, es[|acc|..])
    ensures ReadData(cx, es, m, acc, DataBits(cx, es[|acc|..], q) + tail)
         == Ok((DataLists(es, q, !cx.md.signPackets), tail))
    decreases |es| - |acc|
  {
    hide ReadValues, ValueBits, QuantisedOk, DataPart, QLineOk;
    var here := !cx.md.signPackets;
    var all, rest := DataLists(es, q, here), es[|acc|..];
    var bits := DataBits(cx, rest, q) + tail;
    DataListsOk(cx, es, q, here);
    if |acc| == |es| {
      assert all[..|acc|] == all;
      assert bits == tail;
    } else {
      var e := rest[0];
      CountsOfLine(cx, q, e);
      var more := DataBits(cx, rest[1..], q) + tail;
      assert bits == ValueBits(q[e], cx.t[e.band], here, 0) + more;
      assert DataPart(q[e].vals, here)[..0] == [];
      ValuesRoundTrip(q[e], cx.sh.Groups(e.band), cx.t[e.band], cx.md.br, here, 0, more);
      var acc' := acc + [all[|acc|]];
      assert acc' == all[..|acc'|];
      assert rest[1..] == es[|acc'|..];
      DataRoundTrip(cx, es, m, acc', q, tail);
    }
  }

  function FullLists(es: seq<Entry>, q: Quantised): (r: seq<Values>)
    requires Covers(q, es)
    ensures |r| == |es|
  {
    seq(|es|, i requires 0 <= i < |es| => q[es[i]].vals)
  }

  lemma FullListsOk(cx: Context, es: seq<Entry>, q: Quantised)
    requires cx.Ok() && QuantisedOk(cx, q) && cx.sh.EntriesOk(es) && Covers(q, es)
    ensures ValuesOk(cx, es, FullLists(es, q))
    ensures DataLists(es, q, true) == FullLists(es, q)
  {
    forall i | 0 <= i < |es|
      ensures |q[es[i]].vals| == cx.sh.Groups(es[i].band) && DataPart(q[es[i]].vals, true) == q[es[i]].vals
    {
      CountsOfLine(cx, q, es[i]);
    }
  }

  lemma {:induction false} SignsRoundTrip(cx: Context, es: seq<Entry>, acc: seq<Values>, q: Quantised, tail: seq<bool>)
    requires cx.Ok() && cx.sh.EntriesOk(es) && QuantisedOk(cx, q) && Covers(q, es)
    requires |acc| <= |es| && Covers(q, es[|acc|..]) && acc == FullLists(es, q)[..|acc|]
    requires ValuesOk(cx, es, acc) && ValuesOk(cx, es, DataLists(es, q, false))
    ensures ReadSigns(cx, es, DataLists(es, q, false), acc, SignBits(cx, es[|acc|..], q) + tail)
         == Ok((FullLists(es, q), tail))
    decreases |es| - |acc|
  {
    hide ReadLineSigns, LineSignBits;
    var all, rest := FullLists(es, q), es[|acc|..];
    var bits := SignBits(cx, rest, q) + tail;
    FullListsOk(cx, es, q);
    if |acc| == |es| {
      assert all[..|acc|] == all;
      assert bits == tail;
    } else {
      var e := rest[0];
      CountsOfLine(cx, q, e);
      var more := SignBits(cx, rest[1..], q) + tail;
      assert bits == LineSignBits(q[e].vals, 0) + more;
      assert q[e].vals[..0] == [];
      LineSignsRoundTrip(q[e].vals, 0, more);
      var acc' := acc + [all[|acc|]];
      assert acc' == all[..|acc'|];
      assert rest[1..] == es[|acc'|..];
      SignsRoundTrip(cx, es, acc', q, tail);
    }
  }

  // ---- reconstruction --------------------------------------------------------------------------

  /** The line every decoder must produce. */
  function Recovered(cx: Context, q: Quantised, e: Entry): seq<int>
    requires cx.Ok() && QuantisedOk(cx, q) && cx.sh.EntryOk(e)
  {
    CountsOfLine(cx, q, e);
    GroupsCover(cx.sh, e.band);
    Reconstruct(q[e].vals, q[e].m, cx.sh.widths[e.band], cx.t[e.band], cx.md.uniform)
  }

  ghost predicate OutAgrees(cx: Context, rem: seq<Entry>, out: Coeffs, q: Quantised)
    requires cx.Ok() && QuantisedOk(cx, q)
  {
    && CoeffsOk(cx.sh, out)
    && forall e | cx.sh.EntryOk(e) && Coded(cx.sh, rem, e) :: e in out && out[e] == Recovered(cx, q, e)
  }

  lemma OutStep(cx: Context, rem: seq<Entry>, out: Coeffs, q: Quantised)
    requires cx.Ok() && QuantisedOk(cx, q) && Pending(cx.sh, rem) && rem != [] && OutAgrees(cx, rem, out, q)
    ensures Pending(cx.sh, rem[1..]) && cx.sh.EntryOk(rem[0])
    ensures OutAgrees(cx, rem[1..], out[rem[0] := Recovered(cx, q, rem[0])], q)
  {
    hide Pending, LinesOf, Recovered, Next, QuantisedOk;
    PendingStep(cx.sh, rem);
    EntryInShape(cx.sh, rem[0]);
    var out' := out[rem[0] := Recovered(cx, q, rem[0])];
    assert out'.Keys == out.Keys;
    RecoveredWidth(cx, q, rem[0]);
    forall e | cx.sh.EntryOk(e) && Coded(cx.sh, rem[1..], e)
      ensures e in out' && out'[e] == Recovered(cx, q, e)
    {
      if e != rem[0] {
        assert Coded(cx.sh, rem, e);
      }
    }
  }

  lemma RecoveredWidth(cx: Context, q: Quantised, e: Entry)
    requires cx.Ok() && QuantisedOk(cx, q) && cx.sh.EntryOk(e)
    ensures |Recovered(cx, q, e)| == cx.sh.widths[e.band]
  {
  }

  lemma {:induction false} PlaceRoundTrip(cx: Context, es: seq<Entry>, later: seq<Entry>, i: nat, m: Counts, out: Coeffs,
                                          q: Quantised)
    requires cx.Ok() && QuantisedOk(cx, q) && i <= |es| && cx.sh.EntriesOk(es) && Covers(q, es)
    requires Pending(cx.sh, es[i..] + later) && OutAgrees(cx, es[i..] + later, out, q) && SameCounts(cx, es, m, q)
    requires ValuesOk(cx, es, FullLists(es, q))
    ensures OutAgrees(cx, later, PlaceLines(cx, es, FullLists(es, q), i, m, out), q)
    decreases |es| - i
  {
    hide Reconstruct, Pending, OutAgrees;
    if i == |es| {
      assert es[i..] + later == later;
    } else {
      var rem := es[i..] + later;
      assert rem[0] == es[i] && rem[1..] == es[i + 1..] + later;
      OutStep(cx, rem, out, q);
      PlaceRoundTrip(cx, es, later, i + 1, m, out[es[i] := Recovered(cx, q, es[i])], q);
    }
  }

  // ---- packets -----------------------------------------------------------------------------------

  /** What follows the bits of a subpacket: its zero padding and the bytes after it. */
  function Padded(bits: seq<bool>, tail: seq<byte>): seq<bool> {
    seq(8 * BytesFor(|bits|) - |bits|, _ => false) + Bits(tail)
  }

  /** A subpacket starts on its own bits and ends where the next one starts. */
  lemma SubpacketBounds(bits: seq<bool>, tail: seq<byte>)
    ensures Bits(Pack(bits) + tail) == bits + Padded(bits, tail)
    ensures EndSubpacket(Pack(bits) + tail, |Bits(Pack(bits) + tail)| - |Padded(bits, tail)|, BytesFor(|bits|)) == Ok(tail)
    ensures |Bits(Pack(bits) + tail)| - |Padded(bits, tail)| == |bits|
  {
    var pad := seq(8 * BytesFor(|bits|) - |bits|, _ => false);
    PackBits(bits);
    BitsAppend(Pack(bits), tail);
    assert bits + pad + Bits(tail) == bits + (pad + Bits(tail));
    assert (Pack(bits) + tail)[BytesFor(|bits|)..] == tail;
  }

  lemma FlagsPart(cx: Context, es: seq<Entry>, raw: bool, full: Counts, tail: seq<byte>)
    requires cx.Ok() && cx.sh.EntriesOk(es) && CountBits(cx, es, raw, full).Ok?
    ensures var r := DecodeFlags(cx, es, raw, Pack(CountBits(cx, es, raw, full).value.0) + tail);
            r.Ok? && r.value.1 == tail && (raw || r.value.0 == FlagLists(cx, es, raw, full))
  {
    if raw {
      RawNoFlags(cx, es, full);
      assert Pack([]) + tail == tail;
    } else {
      CodedFlagsPart(cx, es, full, tail);
    }
  }

  lemma CodedFlagsPart(cx: Context, es: seq<Entry>, full: Counts, tail: seq<byte>)
    requires cx.Ok() && cx.sh.EntriesOk(es) && CountBits(cx, es, false, full).Ok?
    ensures DecodeFlags(cx, es, false, Pack(CountBits(cx, es, false, full).value.0) + tail)
         == Ok((FlagLists(cx, es, false, full), tail))
  {
    var sig := CountBits(cx, es, false, full).value.0;
    hide CountBits, FlagLists, Pack, Bits, ReadFlags, EndSubpacket, Padded;
    SubpacketBounds(sig, tail);
    assert es[0..] == es;
    FlagsRoundTrip(cx, es, [], full, Padded(sig, tail));
    assert [] + FlagLists(cx, es, false, full) == FlagLists(cx, es, false, full);
  }

  lemma {:induction false} RawNoFlags(cx: Context, es: seq<Entry>, m: Counts)
    requires cx.Ok() && cx.sh.EntriesOk(es) && CountBits(cx, es, true, m).Ok?
    ensures CountBits(cx, es, true, m).value.0 == []
  {
    if es != [] {
      RawNoFlags(cx, es[1..], m);
    }
  }

  lemma CountsPart(cx: Context, es: seq<Entry>, later: seq<Entry>, raw: bool, z: seq<seq<bool>>, m: Counts, full: Counts,
                   tail: seq<byte>)
    requires cx.Ok() && |es| == |z| && cx.sh.EntriesOk(es) && Pending(cx.sh, es + later)
    requires Agree(cx.sh, es + later, m, full) && InBounds(cx, full)
    requires CountBits(cx, es, raw, full).Ok? && (raw || z == FlagLists(cx, es, raw, full))
    ensures var cnt := CountBits(cx, es, raw, full).value.1;
            var data := Pack(cnt) + tail;
            var r := ReadCounts(cx, es, raw, z, 0, m, Bits(data));
            && r.Ok? && Agree(cx.sh, later, r.value.0, full)
            && EndSubpacket(data, |Bits(data)| - |r.value.1|, BytesFor(|cnt|)) == Ok(tail)
  {
    var cnt := CountBits(cx, es, raw, full).value.1;
    hide ReadCounts, CountBits, FlagLists, Pending, Agree, InBounds, Pack, Bits, EndSubpacket, Padded;
    SubpacketBounds(cnt, tail);
    assert es[0..] == es && z[0..] == z;
    CountsRoundTrip(cx, es, later, raw, z, 0, m, full, Padded(cnt, tail));
  }

  lemma DataPartRead(cx: Context, es: seq<Entry>, m: Counts, q: Quantised, tail: seq<byte>)
    requires cx.Ok() && cx.sh.EntriesOk(es) && QuantisedOk(cx, q) && Covers(q, es) && SameCounts(cx, es, m, q)
    ensures var dat := DataBits(cx, es, q);
            var data := Pack(dat) + tail;
            var r := ReadData(cx, es, m, [], Bits(data));
            && r.Ok? && r.value.0 == DataLists(es, q, !cx.md.signPackets)
            && EndSubpacket(data, |Bits(data)| - |r.value.1|, BytesFor(|dat|)) == Ok(tail)
  {
    var dat := DataBits(cx, es, q);
    hide ReadData, DataBits, DataLists, Pack, Bits, EndSubpacket, Padded;
    SubpacketBounds(dat, tail);
    assert es[0..] == es && DataLists(es, q, !cx.md.signPackets)[..0] == [];
    DataRoundTrip(cx, es, m, [], q, Padded(dat, tail));
  }

  lemma ValuesOkEmpty(cx: Context, es: seq<Entry>)
    requires cx.Ok() && cx.sh.EntriesOk(es)
    ensures ValuesOk(cx, es, [])
  {
  }

  lemma SignsPartRead(cx: Context, es: seq<Entry>, q: Quantised, tail: seq<byte>)
    requires cx.Ok() && cx.sh.EntriesOk(es) && QuantisedOk(cx, q) && Covers(q, es)
    requires ValuesOk(cx, es, DataLists(es, q, false))
    ensures var sgn := SignBits(cx, es, q);
            var data := Pack(sgn) + tail;
            var r := ReadSigns(cx, es, DataLists(es, q, false), [], Bits(data));
            && r.Ok? && r.value.0 == FullLists(es, q)
            && EndSubpacket(data, |Bits(data)| - |r.value.1|, BytesFor(|sgn|)) == Ok(tail)
  {
    hide ReadSigns, SignBits, DataLists, FullLists, Pack, Bits, EndSubpacket, Padded, ValuesOk, QuantisedOk, Covers, BytesFor;
    var sgn := SignBits(cx, es, q);
    SubpacketBounds(sgn, tail);
    ValuesOkEmpty(cx, es);
    assert Covers(q, es[0..]) by { assert es[0..] == es; }
    assert es[0..] == es && FullLists(es, q)[..0] == [];
    SignsRoundTrip(cx, es, [], q, Padded(sgn, tail));
  }

  lemma CountsHalf(cx: Context, es: seq<Entry>, later: seq<Entry>, pk: PacketHeaders.PacketHeader, header: seq<byte>,
                   sig: seq<bool>, cnt: seq<bool>, m: Counts, full: Counts, tail: seq<byte>)
    requires cx.Ok() && cx.sh.EntriesOk(es) && Pending(cx.sh, es + later)
    requires Agree(cx.sh, es + later, m, full) && InBounds(cx, full)
    requires CountBits(cx, es, pk.dr, full) == Ok((sig, cnt)) && pk.lcnt == BytesFor(|cnt|)
    requires PacketHeaders.Write(pk, cx.md.shortHeader) == Ok(header)
    ensures var r := DecodeCounts(cx, es, m, header + (Pack(sig) + (Pack(cnt) + tail)));
            r.Ok? && r.value.0 == pk && r.value.2 == tail && Agree(cx.sh, later, r.value.1, full)
  {
    hide PacketHeaders.Parse, PacketHeaders.Write, CountBits, ReadCounts, DecodeFlags, EndSubpacket, Pending, Agree, InBounds,
         Pack, Bits, FlagLists, BytesFor;
    var d1 := Pack(cnt) + tail;
    var d0 := Pack(sig) + d1;
    PacketHeaders.RoundTrip(pk, cx.md.shortHeader, d0);
    assert (header + d0)[|header|..] == d0;
    FlagsPart(cx, es, pk.dr, full, d1);
    CountsPart(cx, es, later, pk.dr, DecodeFlags(cx, es, pk.dr, d0).value.0, m, full, tail);
  }

  lemma ValuesHalf(cx: Context, es: seq<Entry>, later: seq<Entry>, pk: PacketHeaders.PacketHeader, counts: Counts,
                   out: Coeffs, q: Quantised, tail: seq<byte>)
    requires cx.Ok() && cx.sh.EntriesOk(es) && QuantisedOk(cx, q) && Covers(q, es) && SameCounts(cx, es, counts, q)
    requires Pending(cx.sh, es + later) && OutAgrees(cx, es + later, out, q)
    requires pk.ldat == BytesFor(|DataBits(cx, es, q)|)
    requires cx.md.signPackets ==> pk.lsgn == BytesFor(|SignBits(cx, es, q)|)
    ensures var r := DecodeValues(cx, es, pk, counts, out, ValueBytes(cx, es, q) + tail);
            r.Ok? && r.value.1 == tail && OutAgrees(cx, later, r.value.0, q)
  {
    hide DataBits, SignBits, ReadData, ReadSigns, EndSubpacket, Pending, OutAgrees, Pack, Bits, PlaceLines, DataLists,
         FullLists, SameCounts, QuantisedOk, Covers, ValuesOk;
    DataListsOk(cx, es, q, !cx.md.signPackets);
    FullListsOk(cx, es, q);
    assert es[0..] + later == es + later;
    PlaceRoundTrip(cx, es, later, 0, counts, out, q);
    var dat, sgn := Pack(DataBits(cx, es, q)), Pack(SignBits(cx, es, q));
    if cx.md.signPackets {
      assert ValueBytes(cx, es, q) + tail == dat + (sgn + tail);
      DataPartRead(cx, es, counts, q, sgn + tail);
      SignsPartRead(cx, es, q, tail);
    } else {
      assert ValueBytes(cx, es, q) + tail == dat + tail;
      DataPartRead(cx, es, counts, q, tail);
    }
  }

  /** One packet: its lines join the ones already decoded, and exactly its bytes are consumed. */
  lemma PacketRoundTrip(cx: Context, es: seq<Entry>, later: seq<Entry>, raw: bool, m: Counts, out: Coeffs, q: Quantised,
                        tail: seq<byte>)
    requires cx.Ok() && cx.sh.EntriesOk(es) && QuantisedOk(cx, q) && Covers(q, es) && Pending(cx.sh, es + later)
    requires Agree(cx.sh, es + later, m, CountsOf(q)) && InBounds(cx, CountsOf(q)) && OutAgrees(cx, es + later, out, q)
    requires PacketBytes(cx, es, raw, q).Ok?
    ensures var r := DecodePacket(cx, es, m, out, PacketBytes(cx, es, raw, q).value + tail);
            && r.Ok? && r.value.2 == tail && Pending(cx.sh, later)
            && Agree(cx.sh, later, r.value.0, CountsOf(q)) && OutAgrees(cx, later, r.value.1, q)
    ensures var pk := DecodeCounts(cx, es, m, PacketBytes(cx, es, raw, q).value + tail); pk.Ok? && pk.value.0.dr == raw
  {
    hide PacketHeaders.Write, CountBits, DataBits, SignBits, DecodeCounts, DecodeValues, Pending, Agree, InBounds, OutAgrees,
         Pack, ValueBytes, QuantisedOk, Covers, CountsOf;
    var full := CountsOf(q);
    var (sig, cnt) := CountBits(cx, es, raw, full).value;
    var pk := HeaderOf(cx, es, raw, cnt, q);
    var header := PacketHeaders.Write(pk, cx.md.shortHeader).value;
    var rest := ValueBytes(cx, es, q) + tail;
    var data := PacketBytes(cx, es, raw, q).value + tail;
    assert data == header + (Pack(sig) + (Pack(cnt) + rest));
    CountsHalf(cx, es, later, pk, header, sig, cnt, m, full, rest);
    var counts := DecodeCounts(cx, es, m, data).value.1;
    PendingDrop(cx.sh, es, later);
    SameAfter(cx, es, later, counts, q);
    ValuesHalf(cx, es, later, pk, counts, out, q, tail);
  }

  lemma SameAfter(cx: Context, es: seq<Entry>, later: seq<Entry>, counts: Counts, q: Quantised)
    requires cx.Ok() && cx.sh.EntriesOk(es) && QuantisedOk(cx, q)
    requires Agree(cx.sh, later, counts, CountsOf(q))
    requires forall j | 0 <= j < |es| :: cx.sh.EntryOk(es[j]) && Coded(cx.sh, later, es[j])
    ensures SameCounts(cx, es, counts, q)
  {
    forall i | 0 <= i < |es|
      ensures es[i] in q && LineCounts(cx.sh, counts, es[i]) == q[es[i]].m
    {
      CountsOfLine(cx, q, es[i]);
    }
  }
}
