// PrecinctDecoder::Decode: the loops over packets, entries and code groups, each proved to compute
// the function of the same name in Precinct.
module PrecinctDecoder {
  import opened Wrappers
  import opened BitIO
  import opened Vlc
  import opened Quantiser
  import opened Precinct
  import PacketHeaders

  /** Vertical predictor state of one precinct column, updated as its precincts are coded. */
  class PredictorState {
    var lastLine: seq<seq<nat>>
    var tAbove: seq<nat>
    var valid: bool

    function Value(): State
      reads this
    {
      State(lastLine, tAbove, valid)
    }

    constructor ()
      ensures Value() == State([], [], false)
    {
      lastLine, tAbove, valid := [], [], false;
    }

    /** A copy for a trial that must not touch the original. */
    constructor Copy(other: PredictorState)
      ensures Value() == other.Value()
    {
      lastLine, tAbove, valid := other.lastLine, other.tAbove, other.valid;
    }

    /** Top of a slice: what was learnt above is no longer used. */
    method Invalidate()
      modifies this
      ensures Value() == old(Value()).(valid := false)
    {
      valid := false;
    }
  }

  /** Stores the last coded line of every band (clause C.6.3). */
  method UpdateState(sh: Shape, m: Counts, t: seq<nat>, state: PredictorState)
    requires sh.Ok()
    modifies state
    ensures state.Value() == NextState(sh, m, t)
  {
    var last: seq<seq<nat>> := [];
    for b := 0 to sh.Bands()
      invariant |last| == b
      invariant forall c | 0 <= c < b :: last[c] == NextState(sh, m, t).lastLine[c]
    {
      last := last + [if sh.lines[b] == 0 then [] else LineCounts(sh, m, Entry(b, sh.starts[b] + sh.lines[b] - 1))];
    }
    state.lastLine := last;
    state.tAbove := t;
    state.valid := true;
  }

  /** Position after a subpacket of `length` bytes that started at byte `start`. */
  method FinishSubpacket(reader: BitReader, start: nat, length: nat) returns (r: Result<nat>)
    requires reader.Valid() && start <= |reader.data| && reader.pos >= 8 * start
    ensures var data := reader.data[start..];
            match EndSubpacket(data, |Bits(data)| - |reader.Rest()|, length)
            case Ok(rest) => r.Ok? && r.value <= |reader.data| && reader.data[r.value..] == rest
            case Err(e) => r == Err(e)
  {
    var used := BytesFor(reader.pos) - start;
    assert |Bits(reader.data[start..])| - |reader.Rest()| == reader.pos - 8 * start;
    if used > length {
      return Err(SubpacketTooLong);
    }
    if start + length > |reader.data| {
      return Err(BeyondBody);
    }
    assert reader.data[start..][length..] == reader.data[start + length..];
    return Ok(start + length);
  }

  method ReadFlagBits(reader: BitReader, n: nat) returns (r: Result<seq<bool>>)
    requires reader.Valid()
    modifies reader
    ensures reader.Valid() && reader.pos >= old(reader.pos)
    ensures var bits := old(reader.Rest());
            if |bits| < n then r == Err(EndOfData) else r == Ok(bits[..n]) && reader.Rest() == bits[n..]
  {
    ghost var bits := reader.Rest();
    var z: seq<bool> := [];
    for j := 0 to n
      invariant reader.Valid() && reader.pos >= old(reader.pos)
      invariant j <= |bits| && z == bits[..j] && reader.Rest() == bits[j..]
    {
      var bit :- reader.Bit();
      z := z + [bit];
    }
    return Ok(z);
  }

  /** Significance subpacket (clause C.5.2). */
  method DecodeFlagsAt(cx: Context, es: seq<Entry>, raw: bool, body: seq<byte>, pos: nat)
    returns (r: Result<(seq<seq<bool>>, nat)>)
    requires cx.Ok() && cx.sh.EntriesOk(es) && pos <= |body|
    ensures match DecodeFlags(cx, es, raw, body[pos..])
            case Ok((z, rest)) => r.Ok? && r.value.0 == z && r.value.1 <= |body| && body[r.value.1..] == rest
            case Err(e) => r == Err(e)
  {
    if raw {
      return Ok((seq(|es|, _ => []), pos));
    }
    var reader := new BitReader(body, pos);
    ghost var whole := ReadFlags(cx, es, [], reader.Rest());
    var z: seq<seq<bool>> := [];
    while |z| < |es|
      invariant reader.Valid() && reader.data == body && reader.pos >= 8 * pos
      invariant |z| <= |es| && FlagsOk(cx, es, z)
      invariant whole == ReadFlags(cx, es, z, reader.Rest())
      decreases |es| - |z|
    {
      var b := es[|z|].band;
      if !cx.Significance(b) {
        z := z + [[]];
      } else {
        var flags :- ReadFlagBits(reader, cx.sh.SigGroups(b));
        z := z + [flags];
      }
    }
    var end := FinishSubpacket(reader, pos, BytesFor(reader.pos - 8 * pos));
    return Ok((z, end.value));
  }

  method ReadRawCounts(reader: BitReader, br: nat, n: nat) returns (r: Result<seq<nat>>)
    requires reader.Valid() && br <= 32
    modifies reader
    ensures reader.Valid() && reader.pos >= old(reader.pos)
    ensures match ReadRawLine(br, n, [], old(reader.Rest()))
            case Ok((line, rest)) => r == Ok(line) && reader.Rest() == rest
            case Err(e) => r == Err(e)
  {
    ghost var whole := ReadRawLine(br, n, [], reader.Rest());
    var line: seq<nat> := [];
    while |line| < n
      invariant reader.Valid() && reader.pos >= old(reader.pos) && |line| <= n
      invariant whole == ReadRawLine(br, n, line, reader.Rest())
      decreases n - |line|
    {
      var v :- reader.Read(br);
      line := line + [v];
    }
    return Ok(line);
  }

  method ReadCodedCounts(reader: BitReader, cx: Context, b: nat, predicted: seq<nat>, z: seq<bool>)
    returns (r: Result<seq<int>>)
    requires reader.Valid() && b < |cx.t|
    modifies reader
    ensures reader.Valid() && reader.pos >= old(reader.pos)
    ensures match ReadCodedLine(cx, b, predicted, z, [], old(reader.Rest()))
            case Ok((line, rest)) => r == Ok(line) && reader.Rest() == rest
            case Err(e) => r == Err(e)
  {
    hide ReadCode;
    ghost var whole := ReadCodedLine(cx, b, predicted, z, [], reader.Rest());
    var line: seq<int> := [];
    while |line| < |predicted|
      invariant reader.Valid() && reader.pos >= old(reader.pos) && |line| <= |predicted|
      invariant whole == ReadCodedLine(cx, b, predicted, z, line, reader.Rest())
      decreases |predicted| - |line|
    {
      var top := predicted[|line|];
      if Flagged(z, |line|) {
        line := line + [if cx.md.runToT then cx.t[b] else top];
      } else {
        ghost var before := reader.Rest();
        var x := VlcDecode(reader, top, cx.t[b], cx.md.br);
        if x.Err? {
          return Err(x.error);
        }
        line := line + [top + x.value];
      }
    }
    return Ok(line);
  }

  /** Bitplane counts of a packet (clause C.5.3.5); lines are stored as soon as they are complete. */
  method DecodeCountsAt(cx: Context, es: seq<Entry>, raw: bool, z: seq<seq<bool>>, m: Counts, body: seq<byte>, pos: nat,
                        length: nat)
    returns (r: Result<(Counts, nat)>)
    requires cx.Ok() && cx.sh.EntriesOk(es) && |z| == |es| && pos <= |body| && cx.md.br <= 32
    ensures match ReadCounts(cx, es, raw, z, 0, m, Bits(body[pos..]))
            case Err(e) => r == Err(e)
            case Ok((counts, rest)) =>
              match EndSubpacket(body[pos..], |Bits(body[pos..])| - |rest|, length)
              case Err(e) => r == Err(e)
              case Ok(after) => r.Ok? && r.value.0 == counts && r.value.1 <= |body| && body[r.value.1..] == after
  {
    hide ReadRawLine, ReadCodedLine, Predicted, EndSubpacket, Bits;
    var reader := new BitReader(body, pos);
    ghost var whole := ReadCounts(cx, es, raw, z, 0, m, reader.Rest());
    var counts: Counts := m;
    for i := 0 to |es|
      invariant reader.Valid() && reader.data == body && reader.pos >= 8 * pos
      invariant whole == ReadCounts(cx, es, raw, z, i, counts, reader.Rest())
    {
      var e := es[i];
      if raw {
        var line :- ReadRawCounts(reader, cx.md.br, cx.sh.Groups(e.band));
        counts := counts[e := line];
      } else {
        var predicted :- Predicted(cx, e, counts);
        var line :- ReadCodedCounts(reader, cx, e.band, predicted, z[i]);
        if !InRange(line, cx.md.br) {
          return Err(CountOutOfRange);
        }
        counts := counts[e := line];
      }
    }
    var end :- FinishSubpacket(reader, pos, length);
    return Ok((counts, end));
  }

  method ReadPlanesOf(reader: BitReader, planes: nat) returns (r: Result<seq<nat>>)
    requires reader.Valid()
    modifies reader
    ensures reader.Valid() && reader.pos >= old(reader.pos)
    ensures match ReadPlanes(planes, ZERO_GROUP.v, old(reader.Rest()))
            case Ok((v, rest)) => r == Ok(v) && reader.Rest() == rest
            case Err(e) => r == Err(e)
  {
    hide OrPlane;
    ghost var whole := ReadPlanes(planes, ZERO_GROUP.v, reader.Rest());
    var v: seq<nat> := ZERO_GROUP.v;
    var i: nat := planes;
    while i > 0
      invariant reader.Valid() && reader.pos >= old(reader.pos) && 0 <= i && |v| == 4
      invariant whole == ReadPlanes(i, v, reader.Rest())
    {
      i := i - 1;
      var plane :- ReadFlagBits(reader, 4);
      v := OrPlane(v, i, plane);
    }
    return Ok(v);
  }

  method ReadLineValues(reader: BitReader, line: seq<nat>, t: nat, signsHere: bool) returns (r: Result<Values>)
    requires reader.Valid()
    modifies reader
    ensures reader.Valid() && reader.pos >= old(reader.pos)
    ensures match ReadValues(line, t, signsHere, [], old(reader.Rest()))
            case Ok((vals, rest)) => r == Ok(vals) && reader.Rest() == rest
            case Err(e) => r == Err(e)
  {
    hide ReadPlanes;
    ghost var whole := ReadValues(line, t, signsHere, [], reader.Rest());
    var vals: Values := [];
    while |vals| < |line|
      invariant reader.Valid() && reader.pos >= old(reader.pos) && |vals| <= |line| && AllOk(vals)
      invariant whole == ReadValues(line, t, signsHere, vals, reader.Rest())
      decreases |line| - |vals|
    {
      var g := |vals|;
      if line[g] <= t {
        vals := vals + [ZERO_GROUP];
      } else {
        var s := ZERO_GROUP.s;
        if signsHere {
          s :- ReadFlagBits(reader, 4);
        }
        var v :- ReadPlanesOf(reader, line[g] - t);
        vals := vals + [Group(v, s)];
      }
    }
    return Ok(vals);
  }

  /** Data subpacket (clause C.5.4). */
  method DecodeDataAt(cx: Context, es: seq<Entry>, m: Counts, body: seq<byte>, pos: nat, length: nat)
    returns (r: Result<(seq<Values>, nat)>)
    requires cx.Ok() && cx.sh.EntriesOk(es) && pos <= |body|
    ensures r.Ok? ==> ValuesOk(cx, es, r.value.0) && |r.value.0| == |es|
    ensures match ReadData(cx, es, m, [], Bits(body[pos..]))
            case Err(e) => r == Err(e)
            case Ok((vals, rest)) =>
              match EndSubpacket(body[pos..], |Bits(body[pos..])| - |rest|, length)
              case Err(e) => r == Err(e)
              case Ok(after) => r.Ok? && r.value.0 == vals && r.value.1 <= |body| && body[r.value.1..] == after
  {
    hide ReadValues, EndSubpacket, Bits, LineCounts;
    var reader := new BitReader(body, pos);
    ghost var whole := ReadData(cx, es, m, [], reader.Rest());
    var vals: seq<Values> := [];
    while |vals| < |es|
      invariant reader.Valid() && reader.data == body && reader.pos >= 8 * pos
      invariant ValuesOk(cx, es, vals)
      invariant whole == ReadData(cx, es, m, vals, reader.Rest())
      decreases |es| - |vals|
    {
      var e := es[|vals|];
      var line :- ReadLineValues(reader, LineCounts(cx.sh, m, e), cx.t[e.band], !cx.md.signPackets);
      vals := vals + [line];
    }
    var end :- FinishSubpacket(reader, pos, length);
    return Ok((vals, end));
  }

  method ReadSignsOfLine(reader: BitReader, vals: Values) returns (r: Result<Values>)
    requires reader.Valid() && AllOk(vals)
    modifies reader
    ensures reader.Valid() && reader.pos >= old(reader.pos)
    ensures match ReadLineSigns(vals, [], old(reader.Rest()))
            case Ok((line, rest)) => r == Ok(line) && reader.Rest() == rest
            case Err(e) => r == Err(e)
  {
    ghost var whole := ReadLineSigns(vals, [], reader.Rest());
    var line: Values := [];
    while |line| < |vals|
      invariant reader.Valid() && reader.pos >= old(reader.pos) && |line| <= |vals| && AllOk(line)
      invariant whole == ReadLineSigns(vals, line, reader.Rest())
      decreases |vals| - |line|
    {
      var v := vals[|line|].v;
      var s: seq<bool> := [];
      ghost var group := ReadGroupSigns(v, [], reader.Rest());
      while |s| < |v|
        invariant reader.Valid() && reader.pos >= old(reader.pos) && |s| <= |v|
        invariant group == ReadGroupSigns(v, s, reader.Rest())
        decreases |v| - |s|
      {
        if v[|s|] == 0 {
          s := s + [false];
        } else {
          var bit :- reader.Bit();
          s := s + [bit];
        }
      }
      line := line + [Group(v, s)];
    }
    return Ok(line);
  }

  /** Sign subpacket (clause C.5.5). */
  method DecodeSignsAt(cx: Context, es: seq<Entry>, vals: seq<Values>, body: seq<byte>, pos: nat, length: nat)
    returns (r: Result<(seq<Values>, nat)>)
    requires cx.Ok() && cx.sh.EntriesOk(es) && pos <= |body| && ValuesOk(cx, es, vals) && |vals| == |es|
    ensures r.Ok? ==> ValuesOk(cx, es, r.value.0) && |r.value.0| == |es|
    ensures match ReadSigns(cx, es, vals, [], Bits(body[pos..]))
            case Err(e) => r == Err(e)
            case Ok((signed, rest)) =>
              match EndSubpacket(body[pos..], |Bits(body[pos..])| - |rest|, length)
              case Err(e) => r == Err(e)
              case Ok(after) => r.Ok? && r.value.0 == signed && r.value.1 <= |body| && body[r.value.1..] == after
  {
    hide ReadLineSigns, EndSubpacket, Bits;
    var reader := new BitReader(body, pos);
    ghost var whole := ReadSigns(cx, es, vals, [], reader.Rest());
    var signed: seq<Values> := [];
    while |signed| < |vals|
      invariant reader.Valid() && reader.data == body && reader.pos >= 8 * pos
      invariant ValuesOk(cx, es, signed)
      invariant whole == ReadSigns(cx, es, vals, signed, reader.Rest())
      decreases |vals| - |signed|
    {
      var line :- ReadSignsOfLine(reader, vals[|signed|]);
      signed := signed + [line];
    }
    var end :- FinishSubpacket(reader, pos, length);
    return Ok((signed, end));
  }

  /** Output buffer of one precinct. */
  class CoefficientBuffer {
    var lines: Coeffs

    constructor (lines: Coeffs)
      ensures this.lines == lines
    {
      this.lines := lines;
    }
  }

  /** Dequantises one line; the code-group padding is dropped. */
  method DequantizeLine(cx: Context, e: Entry, vals: Values, m: Counts) returns (dst: seq<int>)
    requires cx.Ok() && cx.sh.EntryOk(e) && |vals| == cx.sh.Groups(e.band) && AllOk(vals)
    ensures dst == DequantiseLine(cx, e, vals, m)
  {
    var line := LineCounts(cx.sh, m, e);
    var width := cx.sh.widths[e.band];
    GroupsCover(cx.sh, e.band);
    hide Dequantise, LineCounts;
    ghost var whole := DequantiseLine(cx, e, vals, m);
    dst := [];
    for x := 0 to width
      invariant |dst| == x && forall k | 0 <= k < x :: dst[k] == whole[k]
    {
      var c := DequantizeValue(vals[x / 4].v[x % 4], vals[x / 4].s[x % 4], line[x / 4], cx.t[e.band], cx.md.uniform);
      dst := dst + [c];
    }
  }

  /** Stores the lines of a packet. */
  method StoreLines(cx: Context, es: seq<Entry>, vals: seq<Values>, m: Counts, out: CoefficientBuffer)
    requires cx.Ok() && cx.sh.EntriesOk(es) && ValuesOk(cx, es, vals) && |vals| == |es|
    modifies out
    ensures out.lines == PlaceLines(cx, es, vals, 0, m, old(out.lines))
  {
    hide DequantiseLine;
    for i := 0 to |es|
      invariant PlaceLines(cx, es, vals, 0, m, old(out.lines)) == PlaceLines(cx, es, vals, i, m, out.lines)
    {
      var dst := DequantizeLine(cx, es[i], vals[i], m);
      out.lines := out.lines[es[i] := dst];
    }
  }

  /** Header, flags and counts of a packet from byte `pos` of the body. */
  method DecodeHeadAt(cx: Context, es: seq<Entry>, m: Counts, body: seq<byte>, pos: nat)
    returns (r: Result<(PacketHeaders.PacketHeader, Counts, nat)>)
    requires cx.Ok() && cx.sh.EntriesOk(es) && pos <= |body| && cx.md.br <= 32
    ensures match DecodeCounts(cx, es, m, body[pos..])
            case Ok((pk, counts, rest)) =>
              r.Ok? && r.value.0 == pk && r.value.1 == counts && r.value.2 <= |body| && body[r.value.2..] == rest
            case Err(e) => r == Err(e)
  {
    hide ReadCounts, DecodeFlags, EndSubpacket, Bits, PacketHeaders.Parse;
    var n := PacketHeaders.HeaderBytes(cx.md.shortHeader);
    if pos + n > |body| {
      return Err(BeyondBody);
    }
    var pk :- PacketHeaders.ParsePacketHeader(body, pos, cx.md.shortHeader);
    assert body[pos..][n..] == body[pos + n..];
    var flags :- DecodeFlagsAt(cx, es, pk.dr, body, pos + n);
    var counted :- DecodeCountsAt(cx, es, pk.dr, flags.0, m, body, flags.1, pk.lcnt);
    return Ok((pk, counted.0, counted.1));
  }

  /** Data and signs from byte `pos` of the body; the dequantised lines are stored. */
  method DecodeValuesAt(cx: Context, es: seq<Entry>, pk: PacketHeaders.PacketHeader, counts: Counts, body: seq<byte>, pos: nat,
                        out: CoefficientBuffer)
    returns (r: Result<nat>)
    requires cx.Ok() && cx.sh.EntriesOk(es) && pos <= |body|
    modifies out
    ensures match DecodeValues(cx, es, pk, counts, old(out.lines), body[pos..])
            case Ok((coeffs, rest)) => r.Ok? && r.value <= |body| && body[r.value..] == rest && out.lines == coeffs
            case Err(e) => r == Err(e)
  {
    hide ReadData, ReadSigns, EndSubpacket, Bits, PlaceLines;
    var data :- DecodeDataAt(cx, es, counts, body, pos, pk.ldat);
    if cx.md.signPackets {
      var signs :- DecodeSignsAt(cx, es, data.0, body, data.1, pk.lsgn);
      StoreLines(cx, es, signs.0, counts, out);
      return Ok(signs.1);
    }
    StoreLines(cx, es, data.0, counts, out);
    return Ok(data.1);
  }

  /** One packet from byte `pos` of the body. */
  method DecodePacketAt(cx: Context, es: seq<Entry>, m: Counts, body: seq<byte>, pos: nat, out: CoefficientBuffer)
    returns (r: Result<(Counts, nat)>)
    requires cx.Ok() && cx.sh.EntriesOk(es) && pos <= |body| && cx.md.br <= 32
    modifies out
    ensures match DecodePacket(cx, es, m, old(out.lines), body[pos..])
            case Ok((counts, coeffs, rest)) =>
              && r.Ok? && r.value.0 == counts && r.value.1 <= |body| && body[r.value.1..] == rest && out.lines == coeffs
            case Err(e) => r == Err(e)
  {
    hide DecodeCounts, DecodeValues;
    var head :- DecodeHeadAt(cx, es, m, body, pos);
    var end :- DecodeValuesAt(cx, es, head.0, head.1, body, head.2, out);
    return Ok((head.1, end));
  }

  /**
   * Decodes one precinct body into the buffer and advances the predictor state. Returns the number of
   * bytes the packets used; on an error the state is untouched.
   */
  method DecodePrecinct(cx: Context, body: seq<byte>, state: PredictorState, out: CoefficientBuffer)
    returns (r: Result<nat>)
    requires cx.Ok() && cx.md.br <= 32 && cx.st == state.Value()
    modifies state, out
    ensures match Decode(cx, old(out.lines), body)
            case Ok(d) => r.Ok? && r.value <= |body| && body[r.value..] == d.rest && out.lines == d.out && state.Value() == d.state
            case Err(e) => r == Err(e) && state.Value() == old(state.Value())
  {
    hide DecodePacket, CoeffsOk, ZeroCoeffs;
    if !CoeffsOk(cx.sh, out.lines) {
      out.lines := ZeroCoeffs(cx.sh);
    }
    ghost var start := out.lines;
    var m: Counts := map[];
    var pos: nat := 0;
    assert body[0..] == body;
    for i := 0 to |cx.sh.packets|
      invariant pos <= |body| && state.Value() == old(state.Value())
      invariant DecodePackets(cx, 0, map[], start, body) == DecodePackets(cx, i, m, out.lines, body[pos..])
    {
      var packet :- DecodePacketAt(cx, cx.sh.packets[i], m, body, pos, out);
      m, pos := packet.0, packet.1;
    }
    UpdateState(cx.sh, m, cx.t, state);
    return Ok(pos);
  }
}
