// Entropy coding of one precinct (Annex C): what the packets of a precinct mean.
//
// Everything here is a function: `Decode` from the bytes of a precinct body to coefficients, `Encode`
// from coefficients to packet bytes. PrecinctDecoder and PrecinctEncoder hold the methods that compute them.
module Precinct {
  import opened Wrappers
  import opened Arith
  import opened BitIO
  import opened Vlc
  import opened Quantiser
  import PacketHeaders

  // ---- the picture as the entropy layer sees it ------------------------------------------------

  // Code groups hold four coefficients (Ng), significance groups eight code groups (Ss): Table A.7 allows no others.

  /** One line of one band; lines are numbered from starts[band]. */
  datatype Entry = Entry(band: nat, line: nat)

  type Packet = seq<Entry>

  /** Geometry of one precinct: lines and width of every band in it, and its packets. */
  datatype Shape = Shape(starts: seq<nat>, lines: seq<nat>, widths: seq<nat>, packets: seq<Packet>) {
    function Bands(): nat {
      |starts|
    }

    predicate Ok() {
      && |lines| == |widths| == |starts|
      && forall i | 0 <= i < |packets| :: EntriesOk(packets[i])
    }

    predicate EntryOk(e: Entry)
      requires |lines| == |starts|
    {
      e.band < |starts| && starts[e.band] <= e.line < starts[e.band] + lines[e.band]
    }

    predicate EntriesOk(es: seq<Entry>)
      requires |lines| == |starts|
    {
      forall j | 0 <= j < |es| :: EntryOk(es[j])
    }

    /** All lines of the precinct. */
    function Entries(): set<Entry>
      requires |lines| == |starts|
    {
      set b: nat, l: nat | b < |starts| && starts[b] <= l < starts[b] + lines[b] :: Entry(b, l)
    }

    function Groups(b: nat): nat
      requires b < |widths|
    {
      CeilDiv(widths[b], 4)
    }

    function SigGroups(b: nat): nat
      requires b < |widths|
    {
      CeilDiv(widths[b], 32)
    }
  }

  /** Picture header fields the entropy layer depends on. */
  datatype Mode = Mode(br: nat, uniform: bool, signPackets: bool, runToT: bool, rawPerPacket: bool, shortHeader: bool)

  datatype Weight = Weight(gain: nat, priority: nat)

  /** What the vertical predictor carries to the next precinct of the column. */
  datatype State = State(lastLine: seq<seq<nat>>, tAbove: seq<nat>, valid: bool)

  type Counts = map<Entry, seq<nat>>   // M of every group of a line; lines not coded yet are absent
  type Coeffs = map<Entry, seq<int>>   // c' of every sample of a line

  /** Table C.12. */
  function Truncation(w: Weight, q: nat, r: nat, br: nat): (t: nat)
    ensures t < Pow2(br)
  {
    Clamp(q - w.gain - (if w.priority < r then 1 else 0), 0, Pow2(br) - 1)
  }

  function Truncations(weights: seq<Weight>, q: nat, r: nat, br: nat): (t: seq<nat>)
    ensures |t| == |weights| && forall b | 0 <= b < |t| :: t[b] < Pow2(br)
  {
    seq(|weights|, b requires 0 <= b < |weights| => Truncation(weights[b], q, r, br))
  }

  /** Everything fixed while one precinct is coded: T and D per band and the predictor state on entry. */
  datatype Context = Context(sh: Shape, md: Mode, t: seq<nat>, d: seq<nat>, st: State) {
    predicate Ok() {
      sh.Ok() && |t| == |d| == sh.Bands()
    }

    predicate Vertical(b: nat)
      requires b < |d|
    {
      d[b] % 2 == 1
    }

    predicate Significance(b: nat)
      requires b < |d|
    {
      (d[b] / 2) % 2 == 1
    }
  }

  /** Counts of one line; the buffers start out as zeros. */
  function LineCounts(sh: Shape, m: Counts, e: Entry): (r: seq<nat>)
    requires sh.Ok() && sh.EntryOk(e)
    ensures |r| == sh.Groups(e.band)
  {
    if e in m && |m[e]| == sh.Groups(e.band) then m[e] else seq(sh.Groups(e.band), _ => 0)
  }

  /** A buffer with exactly the lines of the precinct, each of its band's width. */
  predicate CoeffsOk(sh: Shape, c: Coeffs)
    requires sh.Ok()
  {
    && c.Keys == sh.Entries()
    && forall e | e in c :: |c[e]| == sh.widths[e.band]
  }

  function ZeroCoeffs(sh: Shape): (c: Coeffs)
    requires sh.Ok()
    ensures CoeffsOk(sh, c)
  {
    map e | e in sh.Entries() :: seq(sh.widths[e.band], _ => 0)
  }

  // ---- vertical prediction ---------------------------------------------------------------------

  /** Table C.13: counts and truncation position of the line above. */
  function Above(cx: Context, e: Entry, m: Counts): (r: Result<(seq<nat>, nat)>)
    requires cx.Ok() && cx.sh.EntryOk(e)
    ensures r.Ok? ==> |r.value.0| == cx.sh.Groups(e.band)
  {
    var b := e.band;
    if e.line == cx.sh.starts[b] then
      if !cx.st.valid then Err(NoPredictor)
      else if |cx.st.lastLine| <= b || |cx.st.tAbove| <= b || |cx.st.lastLine[b]| != cx.sh.Groups(b)
      then Err(PredictorMismatch)
      else Ok((cx.st.lastLine[b], cx.st.tAbove[b]))
    else
      Ok((LineCounts(cx.sh, m, Entry(b, e.line - 1)), cx.t[b]))
  }

  /** Predicted count of every code group of a line. */
  function Predicted(cx: Context, e: Entry, m: Counts): (r: Result<seq<nat>>)
    requires cx.Ok() && cx.sh.EntryOk(e)
    ensures r.Ok? ==> |r.value| == cx.sh.Groups(e.band)
  {
    var b, n := e.band, cx.sh.Groups(e.band);
    if !cx.Vertical(b) then Ok(seq(n, _ => cx.t[b])) else
    var (above, tAbove) :- Above(cx, e, m);
    Ok(seq(n, g requires 0 <= g < n => Max(above[g], Max(cx.t[b], tAbove))))
  }

  /** The count a group has when its significance flag says nothing is coded for it. */
  function Silent(cx: Context, b: nat, predicted: nat): nat
    requires b < |cx.t|
  {
    if cx.md.runToT then cx.t[b] else predicted
  }

  // ---- decoder: subpackets of one packet ---------------------------------------------------------

  /** Past a subpacket of `length` bytes of which `used` bits were read. */
  function EndSubpacket(data: seq<byte>, used: int, length: nat): Result<seq<byte>> {
    if used > 8 * length then Err(SubpacketTooLong)
    else if length > |data| then Err(BeyondBody)
    else Ok(data[length..])
  }

  /** Significance flags of every entry that uses them (Table C.6); acc holds those of the first entries. */
  function ReadFlags(cx: Context, es: seq<Entry>, acc: seq<seq<bool>>, bits: seq<bool>)
    : (r: Result<(seq<seq<bool>>, seq<bool>)>)
    requires cx.Ok() && cx.sh.EntriesOk(es) && FlagsOk(cx, es, acc)
    ensures r.Ok? ==> FlagsOk(cx, es, r.value.0) && |r.value.0| == |es|
    decreases |es| - |acc|
  {
    if |acc| == |es| then Ok((acc, bits)) else
    var b := es[|acc|].band;
    if !cx.Significance(b) then ReadFlags(cx, es, acc + [[]], bits)
    else if |bits| < cx.sh.SigGroups(b) then Err(EndOfData)
    else ReadFlags(cx, es, acc + [bits[..cx.sh.SigGroups(b)]], bits[cx.sh.SigGroups(b)..])
  }

  predicate FlagsOk(cx: Context, es: seq<Entry>, z: seq<seq<bool>>)
    requires cx.Ok() && cx.sh.EntriesOk(es)
  {
    && |z| <= |es|
    && forall i | 0 <= i < |z| :: |z[i]| == FlagCount(cx, es[i].band)
  }

  function FlagCount(cx: Context, b: nat): nat
    requires cx.Ok() && b < cx.sh.Bands()
  {
    if cx.Significance(b) then cx.sh.SigGroups(b) else 0
  }

  predicate Flagged(z: seq<bool>, g: nat) {
    g / 8 < |z| && z[g / 8]
  }

  /** Counts of one line in raw mode (Table C.14). */
  function ReadRawLine(br: nat, n: nat, acc: seq<nat>, bits: seq<bool>): (r: Result<(seq<nat>, seq<bool>)>)
    requires |acc| <= n
    ensures r.Ok? ==> |r.value.0| == n
    decreases n - |acc|
  {
    if |acc| == n then Ok((acc, bits)) else
    var (v, rest) :- ReadField(br, bits);
    ReadRawLine(br, n, acc + [v], rest)
  }

  /** Counts of one line, residual by residual (Tables C.15 and C.16), before the range check. */
  function ReadCodedLine(cx: Context, b: nat, predicted: seq<nat>, z: seq<bool>, acc: seq<int>, bits: seq<bool>)
    : (r: Result<(seq<int>, seq<bool>)>)
    requires b < |cx.t| && |acc| <= |predicted|
    ensures r.Ok? ==> |r.value.0| == |predicted|
    decreases |predicted| - |acc|
  {
    if |acc| == |predicted| then Ok((acc, bits)) else
    var top := predicted[|acc|];
    if Flagged(z, |acc|) then ReadCodedLine(cx, b, predicted, z, acc + [Silent(cx, b, top)], bits) else
    var (x, rest) :- ReadCode(top, cx.t[b], cx.md.br, bits);
    ReadCodedLine(cx, b, predicted, z, acc + [top + x], rest)
  }

  predicate InRange(line: seq<int>, br: nat) {
    forall g | 0 <= g < |line| :: 0 <= line[g] < Pow2(br)
  }

  function ReadLine(cx: Context, e: Entry, raw: bool, z: seq<bool>, m: Counts, bits: seq<bool>)
    : (r: Result<(seq<nat>, seq<bool>)>)
    requires cx.Ok() && cx.sh.EntryOk(e)
    ensures r.Ok? ==> |r.value.0| == cx.sh.Groups(e.band)
  {
    if raw then ReadRawLine(cx.md.br, cx.sh.Groups(e.band), [], bits) else
    var predicted :- Predicted(cx, e, m);
    var (line, rest) :- ReadCodedLine(cx, e.band, predicted, z, [], bits);
    if InRange(line, cx.md.br) then Ok((line, rest)) else Err(CountOutOfRange)
  }

  /** Counts of all entries from the i-th on (Table C.8). */
  function ReadCounts(cx: Context, es: seq<Entry>, raw: bool, z: seq<seq<bool>>, i: nat, m: Counts, bits: seq<bool>)
    : Result<(Counts, seq<bool>)>
    requires cx.Ok() && cx.sh.EntriesOk(es) && i <= |es| == |z|
    decreases |es| - i
  {
    if i == |es| then Ok((m, bits)) else
    var (line, rest) :- ReadLine(cx, es[i], raw, z[i], m, bits);
    ReadCounts(cx, es, raw, z, i + 1, m[es[i] := line], rest)
  }

  /** Bit i of v. */
  predicate Digit(v: nat, i: nat) {
    Shr(v, i) % 2 == 1
  }

  /** v | (bit << i). */
  function OrBit(v: nat, i: nat, bit: bool): nat {
    if !bit || Digit(v, i) then v else v + Pow2(i)
  }

  /** Magnitudes and signs of one code group. */
  datatype Group = Group(v: seq<nat>, s: seq<bool>) {
    predicate Ok() {
      |v| == |s| == 4
    }
  }

  /** The code groups of one line, padding included. */
  type Values = seq<Group>

  predicate AllOk(vals: Values) {
    forall g | 0 <= g < |vals| :: vals[g].Ok()
  }

  /** One bit of each of four magnitudes. */
  function OrPlane(v: seq<nat>, i: nat, plane: seq<bool>): (r: seq<nat>)
    requires |v| == |plane| == 4
    ensures |r| == 4
  {
    seq(4, k requires 0 <= k < 4 => OrBit(v[k], i, plane[k]))
  }

  /** Bitplanes n-1 .. 0 of the four magnitudes of a code group. */
  function ReadPlanes(n: nat, v: seq<nat>, bits: seq<bool>): (r: Result<(seq<nat>, seq<bool>)>)
    requires |v| == 4
    ensures r.Ok? ==> |r.value.0| == 4
  {
    if n == 0 then Ok((v, bits))
    else if |bits| < 4 then Err(EndOfData)
    else ReadPlanes(n - 1, OrPlane(v, n - 1, bits[..4]), bits[4..])
  }

  const ZERO_GROUP := Group([0, 0, 0, 0], [false, false, false, false])

  function ReadGroup(planes: nat, signsHere: bool, bits: seq<bool>): (r: Result<(Group, seq<bool>)>)
    ensures r.Ok? ==> r.value.0.Ok()
  {
    if !signsHere then
      var (v, rest) :- ReadPlanes(planes, ZERO_GROUP.v, bits); Ok((Group(v, ZERO_GROUP.s), rest))
    else if |bits| < 4 then Err(EndOfData)
    else
      var (v, rest) :- ReadPlanes(planes, ZERO_GROUP.v, bits[4..]); Ok((Group(v, bits[..4]), rest))
  }

  /** Data of one line from code group |acc| on (Table C.9). */
  function ReadValues(line: seq<nat>, t: nat, signsHere: bool, acc: Values, bits: seq<bool>)
    : (r: Result<(Values, seq<bool>)>)
    requires |acc| <= |line| && AllOk(acc)
    ensures r.Ok? ==> |r.value.0| == |line| && AllOk(r.value.0)
    decreases |line| - |acc|
  {
    var g := |acc|;
    if g == |line| then Ok((acc, bits))
    else if line[g] <= t then ReadValues(line, t, signsHere, acc + [ZERO_GROUP], bits)
    else
      var (group, rest) :- ReadGroup(line[g] - t, signsHere, bits);
      ReadValues(line, t, signsHere, acc + [group], rest)
  }

  predicate ValuesOk(cx: Context, es: seq<Entry>, vals: seq<Values>)
    requires cx.Ok() && cx.sh.EntriesOk(es)
  {
    && |vals| <= |es|
    && forall i | 0 <= i < |vals| :: |vals[i]| == cx.sh.Groups(es[i].band) && AllOk(vals[i])
  }

  function ReadData(cx: Context, es: seq<Entry>, m: Counts, acc: seq<Values>, bits: seq<bool>)
    : (r: Result<(seq<Values>, seq<bool>)>)
    requires cx.Ok() && cx.sh.EntriesOk(es) && ValuesOk(cx, es, acc)
    ensures r.Ok? ==> ValuesOk(cx, es, r.value.0) && |r.value.0| == |es|
    decreases |es| - |acc|
  {
    if |acc| == |es| then Ok((acc, bits)) else
    var e := es[|acc|];
    var (vals, rest) :- ReadValues(LineCounts(cx.sh, m, e), cx.t[e.band], !cx.md.signPackets, [], bits);
    ReadData(cx, es, m, acc + [vals], rest)
  }

  /** One sign per non-zero magnitude (Table C.10). */
  function ReadGroupSigns(v: seq<nat>, acc: seq<bool>, bits: seq<bool>): (r: Result<(seq<bool>, seq<bool>)>)
    requires |acc| <= |v|
    ensures r.Ok? ==> |r.value.0| == |v|
    decreases |v| - |acc|
  {
    if |acc| == |v| then Ok((acc, bits))
    else if v[|acc|] == 0 then ReadGroupSigns(v, acc + [false], bits)
    else if bits == [] then Err(EndOfData)
    else ReadGroupSigns(v, acc + [bits[0]], bits[1..])
  }

  function ReadLineSigns(vals: Values, acc: Values, bits: seq<bool>): (r: Result<(Values, seq<bool>)>)
    requires |acc| <= |vals| && AllOk(vals) && AllOk(acc)
    ensures r.Ok? ==> |r.value.0| == |vals| && AllOk(r.value.0)
    decreases |vals| - |acc|
  {
    if |acc| == |vals| then Ok((acc, bits)) else
    var v := vals[|acc|].v;
    var (s, rest) :- ReadGroupSigns(v, [], bits);
    ReadLineSigns(vals, acc + [Group(v, s)], rest)
  }

  function ReadSigns(cx: Context, es: seq<Entry>, vals: seq<Values>, acc: seq<Values>, bits: seq<bool>)
    : (r: Result<(seq<Values>, seq<bool>)>)
    requires cx.Ok() && cx.sh.EntriesOk(es) && ValuesOk(cx, es, vals) && |vals| == |es| && ValuesOk(cx, es, acc)
    ensures r.Ok? ==> ValuesOk(cx, es, r.value.0) && |r.value.0| == |es|
    decreases |vals| - |acc|
  {
    if |acc| == |vals| then Ok((acc, bits)) else
    var (line, rest) :- ReadLineSigns(vals[|acc|], [], bits);
    ReadSigns(cx, es, vals, acc + [line], rest)
  }

  /** Dequantised line; the padding beyond the band's width is dropped. */
  function Reconstruct(vals: Values, line: seq<nat>, width: nat, t: nat, uniform: bool): (r: seq<int>)
    requires |vals| == |line| && AllOk(vals) && width <= 4 * |line|
    ensures |r| == width
  {
    seq(width, x requires 0 <= x < width =>
      Dequantise(vals[x / 4].v[x % 4], vals[x / 4].s[x % 4], line[x / 4], t, uniform))
  }

  lemma GroupsCover(sh: Shape, b: nat)
    requires b < |sh.widths|
    ensures sh.widths[b] <= 4 * sh.Groups(b)
    ensures CeilDiv(sh.Groups(b), 8) == sh.SigGroups(b)
  {
    CeilDivLeast(sh.widths[b], 4, sh.Groups(b));
    CeilDivCeilDiv(sh.widths[b], 4, 8);
  }

  function DequantiseLine(cx: Context, e: Entry, vals: Values, m: Counts): (r: seq<int>)
    requires cx.Ok() && cx.sh.EntryOk(e) && |vals| == cx.sh.Groups(e.band) && AllOk(vals)
    ensures |r| == cx.sh.widths[e.band]
  {
    GroupsCover(cx.sh, e.band);
    Reconstruct(vals, LineCounts(cx.sh, m, e), cx.sh.widths[e.band], cx.t[e.band], cx.md.uniform)
  }

  /** Dequantised lines of the entries from the i-th on. */
  function PlaceLines(cx: Context, es: seq<Entry>, vals: seq<Values>, i: nat, m: Counts, out: Coeffs): (r: Coeffs)
    requires cx.Ok() && cx.sh.EntriesOk(es)
    requires ValuesOk(cx, es, vals) && i <= |vals| == |es|
    decreases |es| - i
  {
    if i == |es| then out
    else PlaceLines(cx, es, vals, i + 1, m, out[es[i] := DequantiseLine(cx, es[i], vals[i], m)])
  }

  // ---- decoder: packets --------------------------------------------------------------------------

  /** Significance subpacket: absent in raw mode, otherwise sized by its content. */
  function DecodeFlags(cx: Context, es: seq<Entry>, raw: bool, data: seq<byte>)
    : (r: Result<(seq<seq<bool>>, seq<byte>)>)
    requires cx.Ok() && cx.sh.EntriesOk(es)
    ensures r.Ok? ==> |r.value.0| == |es|
    ensures r.Ok? && !raw ==> FlagsOk(cx, es, r.value.0)
  {
    if raw then Ok((seq(|es|, _ => []), data)) else
    var (z, rest) :- ReadFlags(cx, es, [], Bits(data));
    var used := |Bits(data)| - |rest|;
    var after :- EndSubpacket(data, used, BytesFor(Max(used, 0)));
    Ok((z, after))
  }

  /** Header, significance and bitplane-count subpackets. */
  function DecodeCounts(cx: Context, es: seq<Entry>, m: Counts, data: seq<byte>)
    : Result<(PacketHeaders.PacketHeader, Counts, seq<byte>)>
    requires cx.Ok() && cx.sh.EntriesOk(es)
  {
    var n := PacketHeaders.HeaderBytes(cx.md.shortHeader);
    if n > |data| then Err(BeyondBody) else
    var pk :- PacketHeaders.Parse(cx.md.shortHeader, data);
    var (z, d1) :- DecodeFlags(cx, es, pk.dr, data[n..]);
    var (counts, r1) :- ReadCounts(cx, es, pk.dr, z, 0, m, Bits(d1));
    var d2 :- EndSubpacket(d1, |Bits(d1)| - |r1|, pk.lcnt);
    Ok((pk, counts, d2))
  }

  /** Data and sign subpackets, and the dequantised lines. */
  function DecodeValues(cx: Context, es: seq<Entry>, pk: PacketHeaders.PacketHeader, counts: Counts, out: Coeffs,
                        data: seq<byte>)
    : Result<(Coeffs, seq<byte>)>
    requires cx.Ok() && cx.sh.EntriesOk(es)
  {
    var (vals, r1) :- ReadData(cx, es, counts, [], Bits(data));
    var d1 :- EndSubpacket(data, |Bits(data)| - |r1|, pk.ldat);
    if !cx.md.signPackets then
      Ok((PlaceLines(cx, es, vals, 0, counts, out), d1))
    else
      var (signed, r2) :- ReadSigns(cx, es, vals, [], Bits(d1));
      var d2 :- EndSubpacket(d1, |Bits(d1)| - |r2|, pk.lsgn);
      Ok((PlaceLines(cx, es, signed, 0, counts, out), d2))
  }

  function DecodePacket(cx: Context, es: seq<Entry>, m: Counts, out: Coeffs, data: seq<byte>)
    : Result<(Counts, Coeffs, seq<byte>)>
    requires cx.Ok() && cx.sh.EntriesOk(es)
  {
    var (pk, counts, d1) :- DecodeCounts(cx, es, m, data);
    var (out', d2) :- DecodeValues(cx, es, pk, counts, out, d1);
    Ok((counts, out', d2))
  }

  function DecodePackets(cx: Context, i: nat, m: Counts, out: Coeffs, data: seq<byte>)
    : Result<(Counts, Coeffs, seq<byte>)>
    requires cx.Ok() && i <= |cx.sh.packets|
    decreases |cx.sh.packets| - i
  {
    if i == |cx.sh.packets| then Ok((m, out, data)) else
    var (m', out', rest) :- DecodePacket(cx, cx.sh.packets[i], m, out, data);
    DecodePackets(cx, i + 1, m', out', rest)
  }

  /** What the next precinct row of this column needs: the last coded line of every band. */
  function NextState(sh: Shape, m: Counts, t: seq<nat>): State
    requires sh.Ok()
  {
    State(seq(sh.Bands(), b requires 0 <= b < sh.Bands() =>
                if sh.lines[b] == 0 then [] else LineCounts(sh, m, Entry(b, sh.starts[b] + sh.lines[b] - 1))),
          t, true)
  }

  datatype Decoded = Decoded(rest: seq<byte>, out: Coeffs, state: State)

  /** One precinct body: coefficients, the state left behind, and the bytes after the last packet. */
  function Decode(cx: Context, buffer: Coeffs, body: seq<byte>): Result<Decoded>
    requires cx.Ok()
  {
    var out := if CoeffsOk(cx.sh, buffer) then buffer else ZeroCoeffs(cx.sh);
    var (m, out', rest) :- DecodePackets(cx, 0, map[], out, body);
    Ok(Decoded(rest, out', NextState(cx.sh, m, cx.t)))
  }

  // ---- encoder -------------------------------------------------------------------------------------

  /** Quantised data of one line: coded counts, magnitudes and signs. */
  datatype QLine = QLine(m: seq<nat>, vals: Values)

  type Quantised = map<Entry, QLine>

  /** Magnitudes within the coded bitplanes, signs only on non-zero values. */
  predicate GroupFits(group: Group, m: nat, t: nat) {
    && group.Ok()
    && t <= m
    && forall k | 0 <= k < 4 :: group.v[k] < Pow2(m - t) && (group.s[k] ==> group.v[k] > 0)
  }

  predicate QLineOk(q: QLine, groups: nat, t: nat, br: nat) {
    && |q.m| == |q.vals| == groups
    && forall g | 0 <= g < groups :: q.m[g] < Pow2(br) && GroupFits(q.vals[g], q.m[g], t)
  }

  ghost predicate QuantisedOk(cx: Context, q: Quantised)
    requires cx.Ok()
  {
    && q.Keys == cx.sh.Entries()
    && forall e | e in q :: QLineOk(q[e], cx.sh.Groups(e.band), cx.t[e.band], cx.md.br)
  }

  function CountsOf(q: Quantised): Counts {
    map e | e in q :: q[e].m
  }

  /** The coefficients of code group g: four, or fewer at the end of the line. */
  function GroupOf(line: seq<int>, g: nat): seq<int>
    requires 4 * g <= |line|
  {
    line[4 * g..Min(|line|, 4 * g + 4)]
  }

  /** Quantised code group; positions beyond the line hold zero. */
  function QuantiseGroup(group: seq<int>, m: nat, t: nat, uniform: bool): (r: Group)
    ensures r.Ok()
  {
    var v := seq(4, k requires 0 <= k < 4 => if k < |group| then Quantise(Abs(group[k]), m, t, uniform) else 0);
    Group(v, seq(4, k requires 0 <= k < 4 => k < |group| && group[k] < 0 && v[k] != 0))
  }

  /** The count coded for a group is never below the truncation position. */
  function CodedCount(group: seq<int>, t: nat): nat {
    Max(BitplaneCountOf(group), t)
  }

  function QuantiseLine(line: seq<int>, t: nat, uniform: bool): (q: QLine)
    ensures |q.m| == |q.vals| == CeilDiv(|line|, 4) && AllOk(q.vals)
  {
    var n := CeilDiv(|line|, 4);
    QLine(seq(n, g requires 0 <= g < n => CodedCount(GroupOf(line, g), t)),
          seq(n, g requires 0 <= g < n =>
            QuantiseGroup(GroupOf(line, g), CodedCount(GroupOf(line, g), t), t, uniform)))
  }

  predicate LineFits(line: seq<int>, br: nat) {
    forall x | 0 <= x < |line| :: Abs(line[x]) < Pow2(Pow2(br) - 1)
  }

  predicate CoeffsFit(c: Coeffs, br: nat) {
    forall e | e in c :: LineFits(c[e], br)
  }

  function QuantiseAll(cx: Context, c: Coeffs): Quantised
    requires cx.Ok() && forall e | e in c :: e.band < cx.sh.Bands()
  {
    map e | e in c :: QuantiseLine(c[e], cx.t[e.band], cx.md.uniform)
  }

  function QuantisePrecinct(cx: Context, c: Coeffs): Result<Quantised>
    requires cx.Ok()
  {
    if !CoeffsOk(cx.sh, c) then Err(BadShape)
    else if !CoeffsFit(c, cx.md.br) then Err(TooManyBitplanes)
    else Ok(QuantiseAll(cx, c))
  }

  /** A significance group stays silent when the decoder would infer every count in it. */
  function Flags(cx: Context, b: nat, line: seq<nat>, predicted: seq<nat>): seq<bool>
    requires b < |cx.t| && |line| == |predicted|
  {
    seq(CeilDiv(|line|, 8), j requires 0 <= j < CeilDiv(|line|, 8) =>
          forall g | 8 * j <= g < Min(|line|, 8 * j + 8) :: line[g] == Silent(cx, b, predicted[g]))
  }

  function FlagsOf(cx: Context, b: nat, line: seq<nat>, predicted: seq<nat>): seq<bool>
    requires b < |cx.t| == |cx.d| && |line| == |predicted|
  {
    if cx.Significance(b) then Flags(cx, b, line, predicted) else []
  }

  function RawLineBits(br: nat, line: seq<nat>): seq<bool> {
    if line == [] then [] else FieldBits(line[0], br) + RawLineBits(br, line[1..])
  }

  /** Codewords of the residuals from group g on. */
  function CodedLineBits(t: nat, line: seq<nat>, predicted: seq<nat>, z: seq<bool>, g: nat): Result<seq<bool>>
    requires g <= |line| == |predicted|
    decreases |line| - g
  {
    if g == |line| then Ok([]) else
    var x := line[g] as int - predicted[g];
    if Flagged(z, g) then CodedLineBits(t, line, predicted, z, g + 1)
    else if x + Theta(predicted[g], t) < 0 then Err(ResidualTooSmall)
    else
      var rest :- CodedLineBits(t, line, predicted, z, g + 1);
      Ok(Code(x, predicted[g], t) + rest)
  }

  /** Significance and bitplane-count bits of one line. */
  function LineBits(cx: Context, e: Entry, raw: bool, m: Counts): Result<(seq<bool>, seq<bool>)>
    requires cx.Ok() && cx.sh.EntryOk(e)
  {
    var line := LineCounts(cx.sh, m, e);
    if raw then Ok(([], RawLineBits(cx.md.br, line))) else
    var predicted :- Predicted(cx, e, m);
    var z := FlagsOf(cx, e.band, line, predicted);
    var coded :- CodedLineBits(cx.t[e.band], line, predicted, z, 0);
    Ok((z, coded))
  }

  /** Significance and bitplane-count bits of a packet. */
  function CountBits(cx: Context, es: seq<Entry>, raw: bool, m: Counts): Result<(seq<bool>, seq<bool>)>
    requires cx.Ok() && cx.sh.EntriesOk(es)
  {
    if es == [] then Ok(([], [])) else
    var (z, c) :- LineBits(cx, es[0], raw, m);
    var (sig, cnt) :- CountBits(cx, es[1..], raw, m);
    Ok((z + sig, c + cnt))
  }

  function PlaneBits(n: nat, v: seq<nat>): seq<bool>
    requires |v| == 4
  {
    if n == 0 then []
    else [Digit(v[0], n - 1), Digit(v[1], n - 1), Digit(v[2], n - 1), Digit(v[3], n - 1)] + PlaneBits(n - 1, v)
  }

  function GroupBits(planes: nat, signsHere: bool, group: Group): seq<bool>
    requires group.Ok()
  {
    (if signsHere then group.s else []) + PlaneBits(planes, group.v)
  }

  function ValueBits(q: QLine, t: nat, signsHere: bool, g: nat): seq<bool>
    requires g <= |q.m| == |q.vals| && AllOk(q.vals)
    decreases |q.m| - g
  {
    if g == |q.m| then []
    else (if q.m[g] <= t then [] else GroupBits(q.m[g] - t, signsHere, q.vals[g])) + ValueBits(q, t, signsHere, g + 1)
  }

  /** q has well-formed lines for these entries. */
  predicate Covers(q: Quantised, es: seq<Entry>) {
    forall i | 0 <= i < |es| :: es[i] in q && |q[es[i]].m| == |q[es[i]].vals| && AllOk(q[es[i]].vals)
  }

  function DataBits(cx: Context, es: seq<Entry>, q: Quantised): seq<bool>
    requires cx.Ok() && cx.sh.EntriesOk(es) && Covers(q, es)
  {
    if es == [] then []
    else ValueBits(q[es[0]], cx.t[es[0].band], !cx.md.signPackets, 0) + DataBits(cx, es[1..], q)
  }

  function GroupSignBits(group: Group, k: nat): seq<bool>
    requires group.Ok() && k <= 4
    decreases 4 - k
  {
    if k == 4 then [] else (if group.v[k] != 0 then [group.s[k]] else []) + GroupSignBits(group, k + 1)
  }

  function LineSignBits(vals: Values, g: nat): seq<bool>
    requires g <= |vals| && AllOk(vals)
    decreases |vals| - g
  {
    if g == |vals| then [] else GroupSignBits(vals[g], 0) + LineSignBits(vals, g + 1)
  }

  function SignBits(cx: Context, es: seq<Entry>, q: Quantised): seq<bool>
    requires cx.Ok() && cx.sh.EntriesOk(es) && Covers(q, es)
  {
    if es == [] then [] else LineSignBits(q[es[0]].vals, 0) + SignBits(cx, es[1..], q)
  }

  function ValueBytes(cx: Context, es: seq<Entry>, q: Quantised): seq<byte>
    requires cx.Ok() && cx.sh.EntriesOk(es) && Covers(q, es)
  {
    Pack(DataBits(cx, es, q)) + if cx.md.signPackets then Pack(SignBits(cx, es, q)) else []
  }

  function HeaderOf(cx: Context, es: seq<Entry>, raw: bool, cnt: seq<bool>, q: Quantised): PacketHeaders.PacketHeader
    requires cx.Ok() && cx.sh.EntriesOk(es) && Covers(q, es)
  {
    PacketHeaders.PacketHeader(raw, BytesFor(|DataBits(cx, es, q)|), BytesFor(|cnt|),
                               if cx.md.signPackets then BytesFor(|SignBits(cx, es, q)|) else 0)
  }

  /** Header and subpackets of one packet, with raw or coded counts. */
  function PacketBytes(cx: Context, es: seq<Entry>, raw: bool, q: Quantised): Result<seq<byte>>
    requires cx.Ok() && cx.sh.EntriesOk(es) && Covers(q, es)
  {
    var (sig, cnt) :- CountBits(cx, es, raw, CountsOf(q));
    var header :- PacketHeaders.Write(HeaderOf(cx, es, raw, cnt, q), cx.md.shortHeader);
    Ok(header + Pack(sig) + Pack(cnt) + ValueBytes(cx, es, q))
  }

  function PacketsBytes(cx: Context, raw: seq<bool>, q: Quantised, i: nat): Result<seq<byte>>
    requires cx.Ok() && i <= |raw| == |cx.sh.packets|
    requires forall j | 0 <= j < |raw| :: Covers(q, cx.sh.packets[j])
    decreases |raw| - i
  {
    if i == |raw| then Ok([]) else
    var bytes :- PacketBytes(cx, cx.sh.packets[i], raw[i], q);
    var rest :- PacketsBytes(cx, raw, q, i + 1);
    Ok(bytes + rest)
  }

  // ---- raw-mode fallback (clause C.5.3) ----------------------------------------------------------

  predicate HasBand(es: seq<Entry>, b: nat) {
    exists j | 0 <= j < |es| :: es[j].band == b
  }

  /** Indices from i on of exactly the packets that include band b, in order and each once. */
  function PacketsWith(packets: seq<Packet>, b: nat, i: nat): (r: seq<nat>)
    requires i <= |packets|
    ensures forall k | 0 <= k < |r| :: i <= r[k] < |packets| && HasBand(packets[r[k]], b)
    ensures forall p | i <= p < |packets| && HasBand(packets[p], b) :: p in r
    ensures forall j, k | 0 <= j < k < |r| :: r[j] < r[k]
    decreases |packets| - i
  {
    if i == |packets| then []
    else (if HasBand(packets[i], b) then [i] else []) + PacketsWith(packets, b, i + 1)
  }

  /** Significance plus count bytes of a packet. */
  function CodedBytes(cx: Context, es: seq<Entry>, raw: bool, m: Counts): nat
    requires cx.Ok() && cx.sh.EntriesOk(es)
  {
    match CountBits(cx, es, raw, m)
    case Ok((sig, cnt)) => BytesFor(|sig|) + BytesFor(|cnt|)
    case Err(_) => 0
  }

  function RawBits(cx: Context, es: seq<Entry>): nat
    requires cx.Ok() && cx.sh.EntriesOk(es)
  {
    if es == [] then 0 else cx.sh.Groups(es[0].band) * cx.md.br + RawBits(cx, es[1..])
  }

  /** Cost of a packet's counts in raw mode. */
  function RawBytes(cx: Context, es: seq<Entry>): nat
    requires cx.Ok() && cx.sh.EntriesOk(es)
  {
    BytesFor(RawBits(cx, es))
  }

  predicate Indices(cx: Context, ps: seq<nat>) {
    forall k | 0 <= k < |ps| :: ps[k] < |cx.sh.packets|
  }

  function SumCoded(cx: Context, ps: seq<nat>, raw: seq<bool>, m: Counts): nat
    requires cx.Ok() && Indices(cx, ps) && |raw| == |cx.sh.packets|
  {
    if ps == [] then 0
    else CodedBytes(cx, cx.sh.packets[ps[0]], raw[ps[0]], m) + SumCoded(cx, ps[1..], raw, m)
  }

  function SumRaw(cx: Context, ps: seq<nat>): nat
    requires cx.Ok() && Indices(cx, ps)
  {
    if ps == [] then 0 else RawBytes(cx, cx.sh.packets[ps[0]]) + SumRaw(cx, ps[1..])
  }

  function SetRaw(raw: seq<bool>, ps: seq<nat>): (r: seq<bool>)
    ensures |r| == |raw|
  {
    seq(|raw|, i requires 0 <= i < |raw| => raw[i] || i in ps)
  }

  /** One pass over the bands: a band above its raw cost turns all its packets raw. */
  function FallbackPass(cx: Context, raw: seq<bool>, m: Counts, b: nat): (r: seq<bool>)
    requires cx.Ok() && |raw| == |cx.sh.packets| && b <= cx.sh.Bands()
    ensures |r| == |raw| && forall i | 0 <= i < |raw| && raw[i] :: r[i]
    decreases cx.sh.Bands() - b
  {
    if b == cx.sh.Bands() then raw else
    var ps := PacketsWith(cx.sh.packets, b, 0);
    var raw' := if SumCoded(cx, ps, raw, m) > SumRaw(cx, ps) then SetRaw(raw, ps) else raw;
    FallbackPass(cx, raw', m, b + 1)
  }

  function CodedCountOf(raw: seq<bool>): nat {
    if raw == [] then 0 else (if raw[0] then 0 else 1) + CodedCountOf(raw[1..])
  }

  /** Every pass that changes something makes another packet raw. */
  lemma {:induction false} FewerCoded(raw: seq<bool>, raw': seq<bool>)
    requires |raw'| == |raw| && forall i | 0 <= i < |raw| && raw[i] :: raw'[i]
    ensures CodedCountOf(raw') <= CodedCountOf(raw)
    ensures raw' != raw ==> CodedCountOf(raw') < CodedCountOf(raw)
  {
    if raw != [] {
      forall i | 0 <= i < |raw[1..]| && raw[1..][i]
        ensures raw'[1..][i]
      {
        assert raw[i + 1];
      }
      FewerCoded(raw[1..], raw'[1..]);
      if raw' != raw && raw'[1..] == raw[1..] {
        assert raw == [raw[0]] + raw[1..];
        assert raw' == [raw'[0]] + raw'[1..];
      }
    }
  }

  /** Passes until nothing changes. */
  function Fallback(cx: Context, raw: seq<bool>, m: Counts): (r: seq<bool>)
    requires cx.Ok() && |raw| == |cx.sh.packets|
    ensures |r| == |raw|
    decreases CodedCountOf(raw)
  {
    var raw' := FallbackPass(cx, raw, m, 0);
    if raw' == raw then raw else
    FewerCoded(raw, raw');
    Fallback(cx, raw', m)
  }

  function FinalRaw(cx: Context, raw: seq<bool>, m: Counts): (r: seq<bool>)
    requires cx.Ok() && |raw| == |cx.sh.packets|
    ensures |r| == |raw|
  {
    if cx.md.rawPerPacket then
      seq(|raw|, i requires 0 <= i < |raw| =>
        raw[i] || CodedBytes(cx, cx.sh.packets[i], false, m) > RawBytes(cx, cx.sh.packets[i]))
    else Fallback(cx, raw, m)
  }

  // ---- encoder: precinct ---------------------------------------------------------------------------

  /** Encoder choices: Q, R, D per band and the packets asked to be raw (empty: none). */
  datatype Coding = Coding(q: nat, r: nat, d: seq<nat>, raw: seq<bool>)

  datatype Encoded = Encoded(bytes: seq<byte>, state: State)

  predicate SameRawPerBand(sh: Shape, raw: seq<bool>)
    requires sh.Ok() && |raw| == |sh.packets|
  {
    forall b | 0 <= b < sh.Bands() ::
      var ps := PacketsWith(sh.packets, b, 0);
      forall k | 0 <= k < |ps| :: raw[ps[k]] == raw[ps[0]]
  }

  predicate AsksVertical(cx: Context, raw: seq<bool>)
    requires cx.Ok() && |raw| == |cx.sh.packets|
  {
    exists i | 0 <= i < |raw| :: !raw[i] && exists j | 0 <= j < |cx.sh.packets[i]| :: cx.Vertical(cx.sh.packets[i][j].band)
  }

  /** The first error among the count subpackets, if any. */
  function CheckCounts(cx: Context, raw: seq<bool>, m: Counts, i: nat): Result<()>
    requires cx.Ok() && i <= |raw| == |cx.sh.packets|
    decreases |raw| - i
  {
    if i == |raw| then Ok(()) else
    var _ :- CountBits(cx, cx.sh.packets[i], raw[i], m);
    CheckCounts(cx, raw, m, i + 1)
  }

  function ContextOf(sh: Shape, md: Mode, weights: seq<Weight>, q: nat, r: nat, d: seq<nat>, st: State): Context {
    Context(sh, md, Truncations(weights, q, r, md.br), d, st)
  }

  /** Raw flags of every packet once the encoder's own request has been checked. */
  function RequestedRaw(cx: Context, coding: Coding): (r: Result<seq<bool>>)
    requires cx.Ok()
    ensures r.Ok? ==> |r.value| == |cx.sh.packets|
  {
    var raw := if coding.raw == [] then seq(|cx.sh.packets|, _ => false) else coding.raw;
    if |raw| != |cx.sh.packets| then Err(BadCoding)
    else if !cx.md.rawPerPacket && !SameRawPerBand(cx.sh, raw) then Err(BadCoding)
    else if !cx.st.valid && AsksVertical(cx, raw) then Err(NoPredictor)
    else Ok(raw)
  }

  /** Packets of a quantised precinct. */
  function EncodeQuantised(cx: Context, raw: seq<bool>, q: Quantised): Result<Encoded>
    requires cx.Ok() && |raw| == |cx.sh.packets|
    requires forall j | 0 <= j < |raw| :: Covers(q, cx.sh.packets[j])
  {
    var m := CountsOf(q);
    var _ :- CheckCounts(cx, raw, m, 0);
    var bytes :- PacketsBytes(cx, FinalRaw(cx, raw, m), q, 0);
    if |bytes| == 0 || |bytes| >= 0x10_0000 then Err(LengthOutOfRange)
    else Ok(Encoded(bytes, NextState(cx.sh, m, cx.t)))
  }

  lemma LineCovered(cx: Context, c: Coeffs)
    requires cx.Ok() && CoeffsOk(cx.sh, c)
    ensures forall j | 0 <= j < |cx.sh.packets| :: Covers(QuantiseAll(cx, c), cx.sh.packets[j])
  {
    forall j, i | 0 <= j < |cx.sh.packets| && 0 <= i < |cx.sh.packets[j]|
      ensures cx.sh.packets[j][i] in c
    {
      assert cx.sh.EntriesOk(cx.sh.packets[j]);
      assert cx.sh.packets[j][i] in cx.sh.Entries();
    }
  }

  /** One precinct: packet bytes and the predictor state left behind. */
  function Encode(sh: Shape, md: Mode, weights: seq<Weight>, coding: Coding, c: Coeffs, st: State): Result<Encoded>
    requires sh.Ok() && |weights| == sh.Bands()
  {
    if |coding.d| != sh.Bands() || coding.q > 31 || coding.r >= 2 * sh.Bands() then Err(BadCoding) else
    var cx := ContextOf(sh, md, weights, coding.q, coding.r, coding.d, st);
    var raw :- RequestedRaw(cx, coding);
    var q :- QuantisePrecinct(cx, c);
    LineCovered(cx, c);
    EncodeQuantised(cx, raw, q)
  }
}
