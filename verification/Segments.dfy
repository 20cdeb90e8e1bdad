// Marker segments (A.3): marker, length and payload, up to the first slice.
module Segments {
  import opened Wrappers
  import opened BitIO

  const SOC: nat := 0xFF10
  const EOC: nat := 0xFF11
  const PIH: nat := 0xFF12
  const CDT: nat := 0xFF13
  const WGT: nat := 0xFF14
  const COM: nat := 0xFF15
  const NLT: nat := 0xFF16
  const CWD: nat := 0xFF17
  const CTS: nat := 0xFF18
  const CRG: nat := 0xFF19
  const TPC: nat := 0xFF1A
  const WGR: nat := 0xFF1B
  const SLH: nat := 0xFF20
  const SLI: nat := 0xFF21
  const CAP: nat := 0xFF50

  datatype Segment = Segment(marker: nat, payload: seq<byte>)

  /** A 16-bit number, high byte first. */
  function U16Bytes(v: nat): (r: seq<byte>)
    requires v < 0x1_0000
    ensures |r| == 2
  {
    [v / 256, v % 256]
  }

  function ReadU16(data: seq<byte>, offset: nat): (r: Result<nat>)
    ensures r.Ok? ==> r.value < 0x1_0000
  {
    if offset + 2 > |data| then Err(EndOfData) else
    var high: nat, low: nat := data[offset], data[offset + 1];
    Ok(256 * high + low)
  }

  lemma U16RoundTrip(v: nat, before: seq<byte>, after: seq<byte>)
    requires v < 0x1_0000
    ensures ReadU16(before + U16Bytes(v) + after, |before|) == Ok(v)
  {
  }

  predicate IsMarker(code: nat) {
    code / 256 == 0xFF && code % 256 != 0 && code % 256 != 0xFF
  }

  /** Markers that end the header segments. */
  predicate Terminal(marker: nat) {
    marker == SLH || marker == SLI || marker == EOC
  }

  /** Length covers itself and the payload. */
  function SegmentBytes(s: Segment): (r: Result<seq<byte>>)
    requires s.marker < 0x1_0000
    ensures r.Ok? ==> |s.payload| + 2 < 0x1_0000 && r.value == U16Bytes(s.marker) + U16Bytes(|s.payload| + 2) + s.payload
  {
    if |s.payload| + 2 > 0xFFFF then Err(LengthOutOfRange)
    else Ok(U16Bytes(s.marker) + U16Bytes(|s.payload| + 2) + s.payload)
  }

  predicate MarkersOk(segments: seq<Segment>) {
    forall i | 0 <= i < |segments| :: segments[i].marker < 0x1_0000
  }

  function SegmentsBytes(segments: seq<Segment>): Result<seq<byte>>
    requires MarkersOk(segments)
  {
    if segments == [] then Ok([]) else
    var first :- SegmentBytes(segments[0]);
    var rest :- SegmentsBytes(segments[1..]);
    Ok(first + rest)
  }

  /** All segments ahead of the first slice or end marker, and the bytes from that marker on. */
  function ReadSegments(data: seq<byte>): Result<(seq<Segment>, seq<byte>)>
    decreases |data|
  {
    var marker :- ReadU16(data, 0);
    if !IsMarker(marker) then Err(BadMarker)
    else if Terminal(marker) then Ok(([], data))
    else
      var length :- ReadU16(data, 2);
      if length < 2 || 2 + length > |data| then Err(BadHeader) else
      BehindFirst([Segment(marker, data[4..2 + length])], ReadSegments(data[2 + length..]))
  }

  ghost predicate Readable(segments: seq<Segment>) {
    forall i | 0 <= i < |segments| ::
      segments[i].marker < 0x1_0000 && IsMarker(segments[i].marker) && !Terminal(segments[i].marker)
  }

  /** The bytes start with a marker that ends the header segments. */
  predicate EndsHeaders(tail: seq<byte>) {
    ReadU16(tail, 0).Ok? && Terminal(ReadU16(tail, 0).value)
  }

  lemma OneSegment(s: Segment, more: seq<byte>)
    requires s.marker < 0x1_0000 && IsMarker(s.marker) && !Terminal(s.marker) && SegmentBytes(s).Ok?
    ensures var data := SegmentBytes(s).value + more;
            ReadSegments(data) ==
              match ReadSegments(more)
              case Ok((segments, rest)) => Ok(([s] + segments, rest))
              case Err(e) => Err(e)
  {
    hide IsMarker, Terminal;
    var data := SegmentBytes(s).value + more;
    var n := |s.payload| + 2;
    assert data == [] + U16Bytes(s.marker) + (U16Bytes(n) + s.payload + more);
    U16RoundTrip(s.marker, [], U16Bytes(n) + s.payload + more);
    assert data == U16Bytes(s.marker) + U16Bytes(n) + (s.payload + more);
    U16RoundTrip(n, U16Bytes(s.marker), s.payload + more);
    assert data[4..2 + n] == s.payload && data[2 + n..] == more;
  }

  /** Written segments read back one by one, and reading stops at the marker behind them. */
  lemma {:induction false} SegmentsRoundTrip(segments: seq<Segment>, tail: seq<byte>)
    requires Readable(segments) && EndsHeaders(tail) && SegmentsBytes(segments).Ok?
    ensures ReadSegments(SegmentsBytes(segments).value + tail) == Ok((segments, tail))
  {
    if segments == [] {
      assert [] + tail == tail;
    } else {
      hide ReadSegments, SegmentBytes, IsMarker, Terminal;
      var first, rest := SegmentBytes(segments[0]).value, SegmentsBytes(segments[1..]).value;
      assert first + rest + tail == first + (rest + tail);
      SegmentsRoundTrip(segments[1..], tail);
      OneSegment(segments[0], rest + tail);
      assert [segments[0]] + segments[1..] == segments;
    }
  }

  // ---- looking segments up ---------------------------------------------------------------------------

  /** Payloads of all segments with a marker, in order. */
  function Payloads(segments: seq<Segment>, marker: nat): seq<seq<byte>> {
    if segments == [] then []
    else (if segments[0].marker == marker then [segments[0].payload] else []) + Payloads(segments[1..], marker)
  }

  /** The payload of the only segment with a marker, if there is one. */
  function FindOne(segments: seq<Segment>, marker: nat): Result<Option<seq<byte>>> {
    var found := Payloads(segments, marker);
    if |found| > 1 then Err(BadHeader) else if |found| == 1 then Ok(Some(found[0])) else Ok(None)
  }

  lemma {:induction false} PayloadsConcat(a: seq<Segment>, b: seq<Segment>, marker: nat)
    ensures Payloads(a + b, marker) == Payloads(a, marker) + Payloads(b, marker)
  {
    if a == [] {
      assert a + b == b;
    } else {
      assert (a + b)[0] == a[0] && (a + b)[1..] == a[1..] + b;
      PayloadsConcat(a[1..], b, marker);
    }
  }

  lemma PayloadsOfOne(s: Segment, marker: nat)
    ensures Payloads([s], marker) == if s.marker == marker then [s.payload] else []
  {
    assert [s][1..] == [];
  }

  // ---- loops -----------------------------------------------------------------------------------------

  method PutSegment(marker: nat, payload: seq<byte>, out0: seq<byte>) returns (r: Result<seq<byte>>)
    requires marker < 0x1_0000
    ensures r == match SegmentBytes(Segment(marker, payload))
                 case Ok(bytes) => Ok(out0 + bytes)
                 case Err(e) => Err(e)
  {
    var length := |payload| + 2;
    if length > 0xFFFF {
      return Err(LengthOutOfRange);
    }
    var out := out0 + [marker / 256] + [marker % 256];
    out := out + [length / 256] + [length % 256] + payload;
    assert out == out0 + (U16Bytes(marker) + U16Bytes(length) + payload);
    return Ok(out);
  }

  /** One turn of the reader at an absolute position. */
  lemma ReadAt(data: seq<byte>, pos: nat, done: seq<Segment>)
    requires pos <= |data|
    ensures var r := BehindFirst(done, ReadSegments(data[pos..]));
            match ReadU16(data, pos)
            case Err(e) => r == Err(e)
            case Ok(marker) =>
              if !IsMarker(marker) then r == Err(BadMarker)
              else if Terminal(marker) then r == Ok((done, data[pos..]))
              else match ReadU16(data, pos + 2)
                   case Err(e) => r == Err(e)
                   case Ok(length) =>
                     if length < 2 || pos + 2 + length > |data| then r == Err(BadHeader)
                     else r == BehindFirst(done + [Segment(marker, data[pos + 4..pos + 2 + length])],
                                      ReadSegments(data[pos + 2 + length..]))
  {
    hide IsMarker, Terminal, ReadU16, ReadSegments;
    var here := data[pos..];
    assert done + [] == done;
    ShiftedU16(data, pos, 0);
    ShiftedU16(data, pos, 2);
    ReadTurn(here);
    if ReadU16(data, pos).Ok? && ReadU16(data, pos + 2).Ok? {
      var length := ReadU16(data, pos + 2).value;
      if 2 <= length && pos + 2 + length <= |data| {
        assert here[4..2 + length] == data[pos + 4..pos + 2 + length] && here[2 + length..] == data[pos + 2 + length..];
        BehindOne(done, Segment(ReadU16(data, pos).value, data[pos + 4..pos + 2 + length]), ReadSegments(data[pos + 2 + length..]));
      }
    }
  }

  lemma BehindOne(done: seq<Segment>, segment: Segment, r: Result<(seq<Segment>, seq<byte>)>)
    ensures BehindFirst(done, BehindFirst([segment], r)) == BehindFirst(done + [segment], r)
  {
    if r.Ok? {
      assert done + ([segment] + r.value.0) == done + [segment] + r.value.0;
    }
  }

  lemma ReadTurn(data: seq<byte>)
    ensures ReadSegments(data) ==
            match ReadU16(data, 0)
            case Err(e) => Err(e)
            case Ok(marker) =>
              if !IsMarker(marker) then Err(BadMarker)
              else if Terminal(marker) then Ok(([], data))
              else match ReadU16(data, 2)
                   case Err(e) => Err(e)
                   case Ok(length) =>
                     if length < 2 || 2 + length > |data| then Err(BadHeader)
                     else BehindFirst([Segment(marker, data[4..2 + length])], ReadSegments(data[2 + length..]))
  {
    hide IsMarker, Terminal, ReadU16;
  }

  /** Collects header segments from byte `start` on; returns them and the offset of the marker behind them. */
  method CollectSegments(data: seq<byte>, start: nat) returns (r: Result<(seq<Segment>, nat)>)
    requires start <= |data|
    ensures match ReadSegments(data[start..])
            case Ok((segments, rest)) =>
              r.Ok? && r.value.0 == segments && start <= r.value.1 <= |data| && data[r.value.1..] == rest
            case Err(e) => r == Err(e)
  {
    hide IsMarker, Terminal, ReadSegments, ReadU16;
    ghost var whole := ReadSegments(data[start..]);
    var segments: seq<Segment> := [];
    var pos := start;
    assert whole.Ok? ==> [] + whole.value.0 == whole.value.0;
    while true
      invariant start <= pos <= |data|
      invariant whole == BehindFirst(segments, ReadSegments(data[pos..]))
      decreases |data| - pos
    {
      ReadAt(data, pos, segments);
      var marker :- ReadU16(data, pos);
      if !IsMarker(marker) {
        return Err(BadMarker);
      }
      if Terminal(marker) {
        return Ok((segments, pos));
      }
      var length :- ReadU16(data, pos + 2);
      if length < 2 || pos + 2 + length > |data| {
        return Err(BadHeader);
      }
      segments := segments + [Segment(marker, data[pos + 4..pos + 2 + length])];
      pos := pos + 2 + length;
    }
  }

  lemma ShiftedU16(data: seq<byte>, pos: nat, offset: nat)
    requires pos <= |data|
    ensures ReadU16(data, pos + offset) == ReadU16(data[pos..], offset)
  {
  }

  /** Scans for a segment that may occur once at most. */
  method FindSegment(segments: seq<Segment>, marker: nat) returns (r: Result<Option<seq<byte>>>)
    ensures r == FindOne(segments, marker)
  {
    var found: Option<seq<byte>> := None;
    assert segments[..0] == [];
    for i := 0 to |segments|
      invariant Payloads(segments[..i], marker) == if found.Some? then [found.value] else []
    {
      assert segments[..i + 1] == segments[..i] + [segments[i]];
      PayloadsConcat(segments[..i], [segments[i]], marker);
      PayloadsOfOne(segments[i], marker);
      if segments[i].marker == marker {
        if found.Some? {
          assert segments == segments[..i + 1] + segments[i + 1..];
          PayloadsConcat(segments[..i + 1], segments[i + 1..], marker);
          return Err(BadHeader);
        }
        found := Some(segments[i].payload);
      }
    }
    assert segments[..|segments|] == segments;
    return Ok(found);
  }
}
