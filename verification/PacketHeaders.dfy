// Packet headers (clause C.3, Table C.4): raw-mode flag and subpacket lengths, 5 or 7 bytes.
module PacketHeaders {
  import opened Wrappers
  import opened Arith
  import opened BitIO

  datatype PacketHeader = PacketHeader(dr: bool, ldat: nat, lcnt: nat, lsgn: nat)

  /** Field widths of the lengths: data, bitplane counts, signs. */
  function LengthWidths(short: bool): (w: seq<nat>)
    ensures |w| == 3
  {
    if short then [15, 13, 11] else [20, 20, 15]
  }

  function HeaderBytes(short: bool): nat {
    if short then 5 else 7
  }

  function HeaderFields(h: PacketHeader, short: bool): seq<Fixed> {
    var w := LengthWidths(short);
    [Fixed(if h.dr then 1 else 0, 1), Fixed(h.ldat, w[0]), Fixed(h.lcnt, w[1]), Fixed(h.lsgn, w[2])]
  }

  function Write(h: PacketHeader, short: bool): Result<seq<byte>> {
    var w := LengthWidths(short);
    if h.ldat >= Pow2(w[0]) || h.lcnt >= Pow2(w[1]) || h.lsgn >= Pow2(w[2]) then Err(LengthOutOfRange)
    else Ok(Pack(FieldsBits(HeaderFields(h, short))))
  }

  function Parse(short: bool, data: seq<byte>): (r: Result<PacketHeader>)
  {
    var (v, _) :- ReadFields([1] + LengthWidths(short), Bits(data));
    Ok(PacketHeader(v[0] != 0, v[1], v[2], v[3]))
  }

  lemma FieldsShape(h: PacketHeader, short: bool)
    requires Write(h, short).Ok?
    ensures Fit(HeaderFields(h, short))
    ensures WidthsOf(HeaderFields(h, short)) == [1] + LengthWidths(short)
    ensures ValuesOf(HeaderFields(h, short)) == [if h.dr then 1 else 0, h.ldat, h.lcnt, h.lsgn]
  {
    assert Pow2(1) == 2;
  }

  /** A written header occupies exactly the bytes the decoder skips and reads back unchanged. */
  lemma RoundTrip(h: PacketHeader, short: bool, tail: seq<byte>)
    requires Write(h, short).Ok?
    ensures |Write(h, short).value| == HeaderBytes(short)
    ensures Parse(short, Write(h, short).value + tail) == Ok(h)
  {
    var fields := HeaderFields(h, short);
    var bits, bytes := FieldsBits(fields), Write(h, short).value;
    FieldsShape(h, short);
    FieldsBitsLength(fields);
    HeaderWidth(short);
    assert bytes == Pack(bits);
    hide Write, FieldsBits, ReadFields, Pow2, Pack, Bits, Sum, WidthsOf, ValuesOf;
    PackBits(bits);
    assert Bits(bytes) == bits;
    BitsAppend(bytes, tail);
    FieldsRoundTrip(fields, Bits(tail));
    assert ReadFields(WidthsOf(fields), Bits(bytes + tail)) == Ok((ValuesOf(fields), Bits(tail)));
  }

  lemma HeaderWidth(short: bool)
    ensures Sum([1] + LengthWidths(short)) == 8 * HeaderBytes(short)
  {
    var w := [1] + LengthWidths(short);
    var l := LengthWidths(short);
    assert w[1..] == l && l[1..] == [l[1], l[2]] && [l[1], l[2]][1..] == [l[2]] && [l[2]][1..] == [];
    assert Sum([l[2]]) == l[2] + Sum([]);
    assert Sum([l[1], l[2]]) == l[1] + l[2];
    assert Sum(l) == l[0] + l[1] + l[2];
  }

  method WritePacketHeader(h: PacketHeader, short: bool) returns (r: Result<seq<byte>>)
    ensures r == Write(h, short)
  {
    var widths := if short then [15, 13, 11] else [20, 20, 15];
    if h.ldat >= Pow2(widths[0]) || h.lcnt >= Pow2(widths[1]) || h.lsgn >= Pow2(widths[2]) {
      return Err(LengthOutOfRange);
    }
    FieldsShape(h, short);
    assert Write(h, short) == Ok(Pack(FieldsBits(HeaderFields(h, short))));
    hide Pow2, FieldsBits, Pack, Write;
    var w := new BitWriter();
    var put := PutFields(w, HeaderFields(h, short));
    assert [] + FieldsBits(HeaderFields(h, short)) == FieldsBits(HeaderFields(h, short));
    var bytes := w.Take();
    return Ok(bytes);
  }

  method ParsePacketHeader(data: seq<byte>, offset: nat, short: bool) returns (r: Result<PacketHeader>)
    requires offset <= |data|
    ensures r == Parse(short, data[offset..])
  {
    var reader := new BitReader(data, offset);
    var v :- ReadAll(reader, [1] + LengthWidths(short));
    return Ok(PacketHeader(v[0] != 0, v[1], v[2], v[3]));
  }
}
