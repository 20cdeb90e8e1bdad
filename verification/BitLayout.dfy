// Where the bits of a precinct stand (Annex C): bitplanes, signs, subpackets, packets and filler.
module BitLayout {
  import opened Wrappers
  import opened Arith
  import opened BitIO
  import opened Quantiser
  import opened Precinct
  import PacketHeaders

  // ---- one code group --------------------------------------------------------------------------------

  /** Bit i of v. */
  predicate Bit(v: nat, i: nat) {
    v / Pow2(i) % 2 == 1
  }

  /** Bitplanes go from the highest to the lowest, four magnitudes side by side in each. */
  lemma {:induction false} PlaneAt(n: nat, v: seq<nat>, i: nat, k: nat)
    requires |v| == 4 && i < n && k < 4
    ensures |PlaneBits(n, v)| == 4 * n && PlaneBits(n, v)[4 * (n - 1 - i) + k] == Bit(v[k], i)
  {
    hide Pow2, Bit;
    PlanesLength(n, v);
    FirstPlane(n, v, k);
    if i < n - 1 {
      PlaneAt(n - 1, v, i, k);
      assert PlaneBits(n, v)[4..][4 * (n - 2 - i) + k] == PlaneBits(n - 1, v)[4 * (n - 2 - i) + k];
    }
  }

  lemma FirstPlane(n: nat, v: seq<nat>, k: nat)
    requires |v| == 4 && n > 0 && k < 4
    ensures |PlaneBits(n, v)| == 4 + |PlaneBits(n - 1, v)| && PlaneBits(n, v)[4..] == PlaneBits(n - 1, v)
    ensures PlaneBits(n, v)[k] == Bit(v[k], n - 1)
  {
    hide Pow2;
    var plane := [Digit(v[0], n - 1), Digit(v[1], n - 1), Digit(v[2], n - 1), Digit(v[3], n - 1)];
    assert PlaneBits(n, v) == plane + PlaneBits(n - 1, v);
    assert PlaneBits(n, v)[k] == plane[k];
  }

  lemma {:induction false} PlanesLength(n: nat, v: seq<nat>)
    requires |v| == 4
    ensures |PlaneBits(n, v)| == 4 * n
  {
    if n > 0 {
      PlanesLength(n - 1, v);
    }
  }

  /** Bits of a code group with `planes` bitplanes. */
  function GroupSize(planes: nat, signsHere: bool): nat {
    4 * planes + if signsHere then 4 else 0
  }

  // ---- one line --------------------------------------------------------------------------------------

  /** Bits of the code groups before group g: a group with no bitplanes above T takes none. */
  function BitsBefore(m: seq<nat>, t: nat, signsHere: bool, g: nat): nat
    requires g <= |m|
  {
    if g == 0 then 0
    else BitsBefore(m, t, signsHere, g - 1) + if m[g - 1] <= t then 0 else GroupSize(m[g - 1] - t, signsHere)
  }

  lemma Dropped(bits: seq<bool>, at: nat, here: seq<bool>, more: seq<bool>)
    requires at <= |bits| && bits[at..] == here + more
    ensures at + |here| <= |bits| && bits[at + |here|..] == more
  {
    assert bits[at + |here|..] == bits[at..][|here|..];
  }

  lemma {:induction false} GroupStarts(q: QLine, t: nat, signsHere: bool, g: nat)
    requires g <= |q.m| == |q.vals| && AllOk(q.vals)
    ensures var bits, at := ValueBits(q, t, signsHere, 0), BitsBefore(q.m, t, signsHere, g);
            at <= |bits| && bits[at..] == ValueBits(q, t, signsHere, g)
  {
    hide GroupBits;
    var bits := ValueBits(q, t, signsHere, 0);
    if g == 0 {
      assert bits[0..] == bits;
    } else {
      GroupStarts(q, t, signsHere, g - 1);
      var at := BitsBefore(q.m, t, signsHere, g - 1);
      if q.m[g - 1] <= t {
        assert ValueBits(q, t, signsHere, g - 1) == [] + ValueBits(q, t, signsHere, g);
        Dropped(bits, at, [], ValueBits(q, t, signsHere, g));
      } else {
        var group := GroupBits(q.m[g - 1] - t, signsHere, q.vals[g - 1]);
        GroupLength(q.m[g - 1] - t, signsHere, q.vals[g - 1]);
        Dropped(bits, at, group, ValueBits(q, t, signsHere, g));
      }
    }
  }

  lemma GroupLength(planes: nat, signsHere: bool, group: Group)
    requires group.Ok()
    ensures |GroupBits(planes, signsHere, group)| == GroupSize(planes, signsHere)
  {
    PlanesLength(planes, group.v);
  }

  /** The magnitude coded for sample x of a line. */
  function IndexOf(line: seq<int>, t: nat, uniform: bool, x: nat): nat
    requires x < |line|
  {
    Quantise(Abs(line[x]), CountFor(line, t, x / 4), t, uniform)
  }

  /** The bitplane count coded for group g. */
  function CountFor(line: seq<int>, t: nat, g: nat): nat
    requires 4 * g <= |line|
  {
    CodedCount(GroupOf(line, g), t)
  }

  lemma SampleOfLine(line: seq<int>, t: nat, uniform: bool, x: nat)
    requires x < |line|
    ensures var q := QuantiseLine(line, t, uniform);
            && x / 4 < |q.m| && q.m[x / 4] == CountFor(line, t, x / 4)
            && q.vals[x / 4].v[x % 4] == IndexOf(line, t, uniform, x)
            && (q.vals[x / 4].s[x % 4] <==> line[x] < 0 && IndexOf(line, t, uniform, x) != 0)
  {
    var g, k := x / 4, x % 4;
    InGroup(x, |line|);
    assert GroupOf(line, g)[k] == line[4 * g + k];
    hide Quantise, CodedCount;
  }

  lemma InGroup(x: nat, n: nat)
    requires x < n
    ensures x == 4 * (x / 4) + x % 4 && x / 4 < CeilDiv(n, 4)
  {
  }

  /** Where bit p of coded group g stands. */
  lemma BitOfGroup(q: QLine, t: nat, signsHere: bool, g: nat, p: nat)
    requires |q.m| == |q.vals| && AllOk(q.vals) && g < |q.m| && t < q.m[g]
    requires p < |GroupBits(q.m[g] - t, signsHere, q.vals[g])|
    ensures var bits, at := ValueBits(q, t, signsHere, 0), BitsBefore(q.m, t, signsHere, g) + p;
            at < |bits| && bits[at] == GroupBits(q.m[g] - t, signsHere, q.vals[g])[p]
  {
    hide BitsBefore, GroupBits;
    GroupStarts(q, t, signsHere, g);
    var bits, at := ValueBits(q, t, signsHere, 0), BitsBefore(q.m, t, signsHere, g);
    assert bits[at..][p] == GroupBits(q.m[g] - t, signsHere, q.vals[g])[p];
  }

  lemma PlaneOfGroup(n: nat, signsHere: bool, group: Group, i: nat, k: nat)
    requires group.Ok() && i < n && k < 4
    ensures var p := (if signsHere then 4 else 0) + 4 * (n - 1 - i) + k;
            p < |GroupBits(n, signsHere, group)| && GroupBits(n, signsHere, group)[p] == Bit(group.v[k], i)
  {
    hide PlaneBits, Bit;
    PlaneAt(n, group.v, i, k);
    PlanesLength(n, group.v);
  }

  /**
   * Bit i of the index of sample x, in a group with bitplanes above T: it stands behind the groups before it, their signs
   * and its own when signs travel with the data, and the planes above i.
   */
  lemma MagnitudeBit(line: seq<int>, t: nat, uniform: bool, signsHere: bool, x: nat, i: nat)
    requires x < |line| && t + i < CountFor(line, t, x / 4)
    ensures var q := QuantiseLine(line, t, uniform);
            var bits := ValueBits(q, t, signsHere, 0);
            && x / 4 < |q.m|
            && var at := BitsBefore(q.m, t, signsHere, x / 4)
                         + ((if signsHere then 4 else 0) + 4 * (CountFor(line, t, x / 4) - t - 1 - i) + x % 4);
               at < |bits| && bits[at] == Bit(IndexOf(line, t, uniform, x), i)
  {
    hide QuantiseLine, IndexOf, CountFor, BitsBefore, ValueBits, GroupBits, Bit;
    var q := QuantiseLine(line, t, uniform);
    SampleOfLine(line, t, uniform, x);
    PlaneOfGroup(q.m[x / 4] - t, signsHere, q.vals[x / 4], i, x % 4);
    BitOfGroup(q, t, signsHere, x / 4, (if signsHere then 4 else 0) + 4 * (q.m[x / 4] - t - 1 - i) + x % 4);
  }

  /** Signs that travel with the data stand before the bitplanes of their group: set for a negative, non-zero sample. */
  lemma InlineSign(line: seq<int>, t: nat, uniform: bool, x: nat)
    requires x < |line| && t < CountFor(line, t, x / 4)
    ensures var q := QuantiseLine(line, t, uniform);
            var bits := ValueBits(q, t, true, 0);
            && x / 4 < |q.m|
            && var at := BitsBefore(q.m, t, true, x / 4) + x % 4;
               at < |bits| && (bits[at] <==> line[x] < 0 && IndexOf(line, t, uniform, x) != 0)
  {
    hide QuantiseLine, IndexOf, CountFor, BitsBefore, ValueBits, PlaneBits;
    var q := QuantiseLine(line, t, uniform);
    SampleOfLine(line, t, uniform, x);
    BitOfGroup(q, t, true, x / 4, x % 4);
  }

  // ---- signs of their own ----------------------------------------------------------------------------

  /** Samples among the first x of a line that are coded as anything but zero. */
  function NonZero(line: seq<int>, t: nat, uniform: bool, x: nat): nat
    requires x <= |line|
  {
    if x == 0 then 0 else NonZero(line, t, uniform, x - 1) + if IndexOf(line, t, uniform, x - 1) != 0 then 1 else 0
  }

  /** The signs from sample x on. */
  function SignsFrom(vals: Values, x: nat): seq<bool>
    requires AllOk(vals) && x <= 4 * |vals|
  {
    if x == 4 * |vals| then [] else GroupSignBits(vals[x / 4], x % 4) + LineSignBits(vals, x / 4 + 1)
  }

  lemma NextSign(vals: Values, x: nat)
    requires AllOk(vals) && x < 4 * |vals|
    ensures SignsFrom(vals, x) ==
            (if vals[x / 4].v[x % 4] != 0 then [vals[x / 4].s[x % 4]] else []) + SignsFrom(vals, x + 1)
  {
    hide GroupSignBits, LineSignBits;
    NextPlace(x, |vals|);
    SignOfLine(vals, x / 4, x % 4);
  }

  lemma SignOfLine(vals: Values, g: nat, k: nat)
    requires AllOk(vals) && g < |vals| && k < 4
    ensures GroupSignBits(vals[g], k) + LineSignBits(vals, g + 1) ==
            (if vals[g].v[k] != 0 then [vals[g].s[k]] else [])
            + if k < 3 then GroupSignBits(vals[g], k + 1) + LineSignBits(vals, g + 1)
              else if g + 1 == |vals| then [] else GroupSignBits(vals[g + 1], 0) + LineSignBits(vals, g + 2)
  {
    hide GroupSignBits, LineSignBits;
    SignOfGroup(vals[g], k);
    var here: seq<bool> := if vals[g].v[k] != 0 then [vals[g].s[k]] else [];
    if k == 3 {
      assert here + [] == here;
      NextLine(vals, g + 1);
    } else {
      assert (here + GroupSignBits(vals[g], k + 1)) + LineSignBits(vals, g + 1)
             == here + (GroupSignBits(vals[g], k + 1) + LineSignBits(vals, g + 1));
    }
  }

  lemma SignOfGroup(group: Group, k: nat)
    requires group.Ok() && k < 4
    ensures GroupSignBits(group, k) == (if group.v[k] != 0 then [group.s[k]] else []) + GroupSignBits(group, k + 1)
    ensures GroupSignBits(group, 4) == []
  {
  }

  lemma NextLine(vals: Values, g: nat)
    requires g <= |vals| && AllOk(vals)
    ensures LineSignBits(vals, g) == if g == |vals| then [] else GroupSignBits(vals[g], 0) + LineSignBits(vals, g + 1)
  {
  }

  lemma NextPlace(x: nat, n: nat)
    requires x < 4 * n
    ensures x / 4 < n && (x + 1 == 4 * n <==> x % 4 == 3 && x / 4 + 1 == n)
    ensures if x % 4 == 3 then (x + 1) / 4 == x / 4 + 1 && (x + 1) % 4 == 0
            else (x + 1) / 4 == x / 4 && (x + 1) % 4 == x % 4 + 1
  {
  }

  lemma AllSigns(vals: Values)
    requires AllOk(vals)
    ensures SignsFrom(vals, 0) == LineSignBits(vals, 0)
  {
  }

  lemma {:induction false} SignsStart(line: seq<int>, t: nat, uniform: bool, x: nat)
    requires x <= |line| <= 4 * CeilDiv(|line|, 4)
    ensures var vals := QuantiseLine(line, t, uniform).vals;
            && AllOk(vals) && x <= 4 * |vals|
            && var bits, at := LineSignBits(vals, 0), NonZero(line, t, uniform, x);
               at <= |bits| && bits[at..] == SignsFrom(vals, x)
  {
    hide QuantiseLine, IndexOf, GroupSignBits, LineSignBits, SignsFrom;
    var vals := QuantiseLine(line, t, uniform).vals;
    var bits := LineSignBits(vals, 0);
    if x == 0 {
      assert bits[0..] == bits;
      AllSigns(vals);
    } else {
      SignsStart(line, t, uniform, x - 1);
      SampleOfLine(line, t, uniform, x - 1);
      NextSign(vals, x - 1);
      var g, k := (x - 1) / 4, (x - 1) % 4;
      var here: seq<bool> := if vals[g].v[k] != 0 then [vals[g].s[k]] else [];
      Dropped(bits, NonZero(line, t, uniform, x - 1), here, SignsFrom(vals, x));
    }
  }

  /** In a sign subpacket sample x, coded as anything but zero, has the bit behind those of the samples before it. */
  lemma OwnSign(line: seq<int>, t: nat, uniform: bool, x: nat)
    requires x < |line| && IndexOf(line, t, uniform, x) != 0
    ensures var bits, at := LineSignBits(QuantiseLine(line, t, uniform).vals, 0), NonZero(line, t, uniform, x);
            at < |bits| && bits[at] == (line[x] < 0)
  {
    hide QuantiseLine, IndexOf, GroupSignBits, NonZero, LineSignBits, SignsFrom;
    var vals, bits := QuantiseLine(line, t, uniform).vals, LineSignBits(QuantiseLine(line, t, uniform).vals, 0);
    CeilDivLeast(|line|, 4, CeilDiv(|line|, 4));
    SignsStart(line, t, uniform, x);
    SampleOfLine(line, t, uniform, x);
    NextSign(vals, x);
    assert bits[NonZero(line, t, uniform, x)..][0] == vals[x / 4].s[x % 4];
  }

  // ---- one packet ------------------------------------------------------------------------------------

  /** Quantised lines for all entries of x. */
  predicate Packable(cx: Context, x: seq<Entry>, q: Quantised)
    requires cx.Ok()
  {
    cx.sh.EntriesOk(x) && Covers(q, x)
  }

  lemma PackableParts(cx: Context, x: seq<Entry>, y: seq<Entry>, q: Quantised)
    requires cx.Ok() && Packable(cx, x, q) && Packable(cx, y, q)
    ensures Packable(cx, x + y, q) && (x != [] ==> Packable(cx, x[1..], q))
  {
  }

  lemma ValuesOfFirst(cx: Context, es: seq<Entry>, q: Quantised)
    requires cx.Ok() && Packable(cx, es, q) && es != []
    ensures Packable(cx, es[1..], q)
    ensures cx.sh.EntryOk(es[0]) && es[0] in q && |q[es[0]].m| == |q[es[0]].vals| && AllOk(q[es[0]].vals)
    ensures DataBits(cx, es, q) == ValueBits(q[es[0]], cx.t[es[0].band], !cx.md.signPackets, 0) + DataBits(cx, es[1..], q)
    ensures SignBits(cx, es, q) == LineSignBits(q[es[0]].vals, 0) + SignBits(cx, es[1..], q)
  {
    hide ValueBits, LineSignBits;
  }

  lemma NoValues(cx: Context, q: Quantised)
    requires cx.Ok()
    ensures DataBits(cx, [], q) == [] && SignBits(cx, [], q) == []
  {
  }

  /** The lines of a packet follow one another in every subpacket. */
  lemma {:induction false} ValuesInTurn(cx: Context, x: seq<Entry>, y: seq<Entry>, q: Quantised)
    requires cx.Ok() && Packable(cx, x, q) && Packable(cx, y, q)
    ensures Packable(cx, x + y, q)
    ensures DataBits(cx, x + y, q) == DataBits(cx, x, q) + DataBits(cx, y, q)
    ensures SignBits(cx, x + y, q) == SignBits(cx, x, q) + SignBits(cx, y, q)
  {
    hide DataBits, SignBits, ValueBits, LineSignBits;
    PackableParts(cx, x, y, q);
    if x == [] {
      assert x + y == y;
      NoValues(cx, q);
    } else {
      assert (x + y)[0] == x[0] && (x + y)[1..] == x[1..] + y;
      ValuesInTurn(cx, x[1..], y, q);
      ValuesOfFirst(cx, x, q);
      ValuesOfFirst(cx, x + y, q);
    }
  }

  /** Flags and counts of two runs of lines, one behind the other. */
  function Joined(a: (seq<bool>, seq<bool>), b: (seq<bool>, seq<bool>)): (seq<bool>, seq<bool>) {
    (a.0 + b.0, a.1 + b.1)
  }

  lemma JoinedThrice(a: (seq<bool>, seq<bool>), b: (seq<bool>, seq<bool>), c: (seq<bool>, seq<bool>))
    ensures Joined(a, Joined(b, c)) == Joined(Joined(a, b), c)
    ensures Joined(([], []), c) == c
  {
    assert a.0 + (b.0 + c.0) == (a.0 + b.0) + c.0 && a.1 + (b.1 + c.1) == (a.1 + b.1) + c.1;
    assert [] + c.0 == c.0 && [] + c.1 == c.1;
  }

  lemma CountsOfFirst(cx: Context, es: seq<Entry>, raw: bool, m: Counts)
    requires cx.Ok() && cx.sh.EntriesOk(es) && es != []
    requires LineBits(cx, es[0], raw, m).Ok? && CountBits(cx, es[1..], raw, m).Ok?
    ensures CountBits(cx, es, raw, m) == Ok(Joined(LineBits(cx, es[0], raw, m).value, CountBits(cx, es[1..], raw, m).value))
  {
    hide LineBits;
  }

  lemma {:induction false} CountsInTurn(cx: Context, x: seq<Entry>, y: seq<Entry>, raw: bool, m: Counts)
    requires cx.Ok() && cx.sh.EntriesOk(x) && cx.sh.EntriesOk(y)
    requires CountBits(cx, x, raw, m).Ok? && CountBits(cx, y, raw, m).Ok?
    ensures cx.sh.EntriesOk(x + y)
    ensures CountBits(cx, x + y, raw, m) == Ok(Joined(CountBits(cx, x, raw, m).value, CountBits(cx, y, raw, m).value))
  {
    hide LineBits, Joined;
    if x == [] {
      assert x + y == y;
      JoinedThrice(([], []), ([], []), CountBits(cx, y, raw, m).value);
    } else {
      assert (x + y)[0] == x[0] && (x + y)[1..] == x[1..] + y;
      CountsInTurn(cx, x[1..], y, raw, m);
      CountsOfFirst(cx, x, raw, m);
      CountsOfFirst(cx, x + y, raw, m);
      JoinedThrice(LineBits(cx, x[0], raw, m).value, CountBits(cx, x[1..], raw, m).value, CountBits(cx, y, raw, m).value);
    }
  }

  /**
   * Behind its header a packet holds significance flags, counts, data and signs in this order, the last three as long as
   * the header says.
   */
  lemma PacketLayout(cx: Context, es: seq<Entry>, raw: bool, q: Quantised)
    requires cx.Ok() && cx.sh.EntriesOk(es) && Covers(q, es) && PacketBytes(cx, es, raw, q).Ok?
    ensures CountBits(cx, es, raw, CountsOf(q)).Ok?
    ensures var bytes, (sig, cnt) := PacketBytes(cx, es, raw, q).value, CountBits(cx, es, raw, CountsOf(q)).value;
            var n, parsed := PacketHeaders.HeaderBytes(cx.md.shortHeader), PacketHeaders.Parse(cx.md.shortHeader, bytes);
            && parsed.Ok?
            && var pk, a := parsed.value, n + BytesFor(|sig|);
            var b := a + pk.lcnt;
            var c := b + pk.ldat;
            && pk.dr == raw && |bytes| == c + pk.lsgn
            && bytes[n..a] == Pack(sig) && bytes[a..b] == Pack(cnt) && bytes[b..c] == Pack(DataBits(cx, es, q))
            && bytes[c..] == if cx.md.signPackets then Pack(SignBits(cx, es, q)) else []
  {
    hide PacketHeaders.Write, PacketHeaders.Parse, CountBits, DataBits, SignBits, Pack, BytesFor, Covers, CountsOf,
         PacketBytes;
    PacketIs(cx, es, raw, q);
    var (sig, cnt) := CountBits(cx, es, raw, CountsOf(q)).value;
    var pk := HeaderOf(cx, es, raw, cnt, q);
    var signs := if cx.md.signPackets then Pack(SignBits(cx, es, q)) else [];
    var tail := Pack(sig) + Pack(cnt) + (Pack(DataBits(cx, es, q)) + signs);
    PacketHeaders.RoundTrip(pk, cx.md.shortHeader, tail);
    PackLength(sig);
    PackLength(cnt);
    PackLength(DataBits(cx, es, q));
    PackLength(SignBits(cx, es, q));
    FourParts(PacketHeaders.Write(pk, cx.md.shortHeader).value, Pack(sig), Pack(cnt), Pack(DataBits(cx, es, q)), signs);
  }

  lemma PacketIs(cx: Context, es: seq<Entry>, raw: bool, q: Quantised)
    requires cx.Ok() && cx.sh.EntriesOk(es) && Covers(q, es) && PacketBytes(cx, es, raw, q).Ok?
    ensures CountBits(cx, es, raw, CountsOf(q)).Ok?
    ensures var (sig, cnt) := CountBits(cx, es, raw, CountsOf(q)).value;
            var header := PacketHeaders.Write(HeaderOf(cx, es, raw, cnt, q), cx.md.shortHeader);
            && header.Ok?
            && PacketBytes(cx, es, raw, q).value ==
               header.value + (Pack(sig) + Pack(cnt)
                               + (Pack(DataBits(cx, es, q)) + if cx.md.signPackets then Pack(SignBits(cx, es, q)) else []))
  {
    hide PacketHeaders.Write, CountBits, DataBits, SignBits, Pack, BytesFor, Covers, CountsOf;
  }

  lemma PackLength(bits: seq<bool>)
    ensures |Pack(bits)| == BytesFor(|bits|)
  {
  }

  lemma FourParts(h: seq<byte>, s: seq<byte>, c: seq<byte>, d: seq<byte>, g: seq<byte>)
    ensures var all, n := h + (s + c + (d + g)), |h|;
            && |all| == n + |s| + |c| + |d| + |g| && all[n..n + |s|] == s && all[n + |s|..n + |s| + |c|] == c
            && all[n + |s| + |c|..n + |s| + |c| + |d|] == d && all[n + |s| + |c| + |d|..] == g
  {
  }
}
