// Bit strings of a codestream: bits are consumed left bit first, numeric fields MSB first.
// `Bits` and `Pack` translate between bytes and bit sequences; BitWriter and BitReader are the
// cursors of the codec, specified by those two functions.
module BitIO {
  import opened Wrappers
  import opened Arith

  type byte = x: int | 0 <= x < 256

  // ---- fixed-width fields --------------------------------------------------------------------

  /** The n-bit field of v, MSB first. */
  function FieldBits(v: nat, n: nat): (r: seq<bool>)
    ensures |r| == n
  {
    if n == 0 then [] else FieldBits(v / 2, n - 1) + [v % 2 == 1]
  }

  function Value(bits: seq<bool>): (v: nat)
  {
    if bits == [] then 0
    else 2 * Value(bits[..|bits| - 1]) + if bits[|bits| - 1] then 1 else 0
  }

  lemma {:induction false} ValueBound(bits: seq<bool>)
    ensures Value(bits) < Pow2(|bits|)
  {
    if bits != [] {
      ValueBound(bits[..|bits| - 1]);
    }
  }

  lemma {:induction false} FieldValue(v: nat, n: nat)
    requires v < Pow2(n)
    ensures Value(FieldBits(v, n)) == v
  {
    if n > 0 {
      FieldValue(v / 2, n - 1);
      assert FieldBits(v, n)[..n - 1] == FieldBits(v / 2, n - 1);
    }
  }

  lemma {:induction false} ValueField(bits: seq<bool>)
    ensures FieldBits(Value(bits), |bits|) == bits
  {
    if bits != [] {
      ValueField(bits[..|bits| - 1]);
      assert Value(bits) / 2 == Value(bits[..|bits| - 1]);
    }
  }

  lemma {:induction false} FieldBit(v: nat, n: nat, k: nat)
    requires k < n
    ensures FieldBits(v, n)[k] <==> (v / Pow2(n - 1 - k)) % 2 == 1
  {
    if k < n - 1 {
      FieldBit(v / 2, n - 1, k);
      DivDiv(v, 2, Pow2(n - 2 - k));
      assert 2 * Pow2(n - 2 - k) == Pow2(n - 1 - k);
    }
  }

  /** Raising a zero bit adds its weight. */
  lemma {:induction false} ValueSet(bits: seq<bool>, k: nat)
    requires k < |bits| && !bits[k]
    ensures Value(bits[k := true]) == Value(bits) + Pow2(|bits| - 1 - k)
  {
    var n := |bits|;
    var set_ := bits[k := true];
    if k == n - 1 {
      assert set_[..n - 1] == bits[..n - 1];
    } else {
      ValueSet(bits[..n - 1], k);
      assert set_[..n - 1] == bits[..n - 1][k := true];
    }
  }

  lemma {:induction false} ValueZeros(bits: seq<bool>)
    requires forall i | 0 <= i < |bits| :: !bits[i]
    ensures Value(bits) == 0
  {
    if bits != [] {
      ValueZeros(bits[..|bits| - 1]);
    }
  }

  function ReadField(n: nat, bits: seq<bool>): Result<(nat, seq<bool>)> {
    if |bits| < n then Err(EndOfData) else Ok((Value(bits[..n]), bits[n..]))
  }

  lemma ReadFieldBits(v: nat, n: nat, tail: seq<bool>)
    requires v < Pow2(n)
    ensures ReadField(n, FieldBits(v, n) + tail) == Ok((v, tail))
  {
    FieldValue(v, n);
    var s := FieldBits(v, n) + tail;
    assert s[..n] == FieldBits(v, n) && s[n..] == tail;
  }

  /** A fixed-width numeric field of a header. */
  datatype Fixed = Fixed(value: nat, width: nat)

  predicate Fit(fields: seq<Fixed>) {
    forall i | 0 <= i < |fields| :: fields[i].value < Pow2(fields[i].width)
  }

  function FieldsBits(fields: seq<Fixed>): seq<bool> {
    if fields == [] then [] else FieldBits(fields[0].value, fields[0].width) + FieldsBits(fields[1..])
  }

  function ValuesOf(fields: seq<Fixed>): (r: seq<nat>)
    ensures |r| == |fields|
  {
    seq(|fields|, i requires 0 <= i < |fields| => fields[i].value)
  }

  function WidthsOf(fields: seq<Fixed>): (r: seq<nat>)
    ensures |r| == |fields|
  {
    seq(|fields|, i requires 0 <= i < |fields| => fields[i].width)
  }

  function ReadFields(widths: seq<nat>, bits: seq<bool>): (r: Result<(seq<nat>, seq<bool>)>)
    ensures r.Ok? ==> |r.value.0| == |widths|
    ensures r.Ok? ==> forall i | 0 <= i < |widths| :: r.value.0[i] < Pow2(widths[i])
  {
    if widths == [] then Ok(([], bits)) else
    var (v, rest) :- ReadField(widths[0], bits);
    ValueBound(bits[..widths[0]]);
    var (vs, end) :- ReadFields(widths[1..], rest);
    Ok(([v] + vs, end))
  }

  /** A header written field by field reads back field by field. */
  lemma {:induction false} FieldsRoundTrip(fields: seq<Fixed>, tail: seq<bool>)
    requires Fit(fields)
    ensures ReadFields(WidthsOf(fields), FieldsBits(fields) + tail) == Ok((ValuesOf(fields), tail))
  {
    hide FieldBits, ReadField, ReadFields, Pow2;
    if fields == [] {
      NoPrefix(tail);
      NothingRead(tail);
    } else {
      var rest := fields[1..];
      Concat3(FieldBits(fields[0].value, fields[0].width), FieldsBits(rest), tail);
      ReadFieldBits(fields[0].value, fields[0].width, FieldsBits(rest) + tail);
      ReadFieldsStep(WidthsOf(fields), FieldsBits(fields) + tail);
      FieldsRoundTrip(rest, tail);
      assert WidthsOf(fields)[1..] == WidthsOf(rest);
      assert ValuesOf(fields) == [fields[0].value] + ValuesOf(rest);
    }
  }

  lemma Concat3<T>(a: seq<T>, b: seq<T>, c: seq<T>)
    ensures (a + b) + c == a + (b + c)
  {
  }

  lemma NoPrefix(tail: seq<bool>)
    ensures [] + tail == tail
  {
  }

  lemma NothingRead(bits: seq<bool>)
    ensures ReadFields([], bits) == Ok(([], bits))
  {
  }

  lemma {:induction false} FieldsAppend(a: seq<Fixed>, b: seq<Fixed>)
    ensures FieldsBits(a + b) == FieldsBits(a) + FieldsBits(b)
  {
    if a == [] {
      assert a + b == b;
    } else {
      assert (a + b)[1..] == a[1..] + b;
      FieldsAppend(a[1..], b);
    }
  }

  function Sum(widths: seq<nat>): nat {
    if widths == [] then 0 else widths[0] + Sum(widths[1..])
  }

  lemma {:induction false} FieldsBitsLength(fields: seq<Fixed>)
    ensures |FieldsBits(fields)| == Sum(WidthsOf(fields))
  {
    if fields != [] {
      FieldsBitsLength(fields[1..]);
      assert WidthsOf(fields)[1..] == WidthsOf(fields[1..]);
    }
  }

  // ---- bytes as bit sequences ----------------------------------------------------------------

  /** Bit k of a byte, bit 0 being the leftmost: (b >> (7 - k)) & 1. */
  predicate BitAt(b: byte, k: nat)
    requires k < 8
  {
    (b / Pow2(7 - k)) % 2 == 1
  }

  function Bits(bytes: seq<byte>): (r: seq<bool>)
  {
    seq(8 * |bytes|, i requires 0 <= i < 8 * |bytes| => BitAt(bytes[i / 8], i % 8))
  }

  /** Eight bits from offset o, zeros beyond the end. */
  function Octet(bits: seq<bool>, o: nat): (r: seq<bool>)
    ensures |r| == 8
  {
    seq(8, k requires 0 <= k < 8 => o + k < |bits| && bits[o + k])
  }

  function ByteOf(bits: seq<bool>, o: nat): byte {
    ValueBound(Octet(bits, o));
    assert Pow2(8) == 256;
    Value(Octet(bits, o))
  }

  function BytesFor(bits: nat): nat {
    (bits + 7) / 8
  }

  /** Bits packed into bytes, the last byte zero-padded. */
  function Pack(bits: seq<bool>): (r: seq<byte>) {
    seq(BytesFor(|bits|), i requires 0 <= i < BytesFor(|bits|) => ByteOf(bits, 8 * i))
  }

  lemma ByteOfBit(bits: seq<bool>, o: nat, k: nat)
    requires k < 8
    ensures BitAt(ByteOf(bits, o), k) <==> o + k < |bits| && bits[o + k]
  {
    ValueField(Octet(bits, o));
    FieldBit(ByteOf(bits, o), 8, k);
  }

  /** Packing loses nothing: the bits come back, followed by the zero padding of the last byte. */
  lemma PackBits(bits: seq<bool>)
    ensures |Bits(Pack(bits))| == 8 * BytesFor(|bits|)
    ensures Bits(Pack(bits)) == bits + seq(8 * BytesFor(|bits|) - |bits|, _ => false)
  {
    forall i: nat | i < 8 * BytesFor(|bits|)
      ensures Bits(Pack(bits))[i] == (i < |bits| && bits[i])
    {
      ByteOfBit(bits, 8 * (i / 8), i % 8);
      assert 8 * (i / 8) + i % 8 == i;
    }
  }

  lemma BitsAppend(a: seq<byte>, b: seq<byte>)
    ensures Bits(a + b) == Bits(a) + Bits(b)
  {
    forall i | 0 <= i < 8 * |a + b|
      ensures Bits(a + b)[i] == (Bits(a) + Bits(b))[i]
    {
      if i >= 8 * |a| {
        assert i / 8 == |a| + (i - 8 * |a|) / 8;
      }
    }
  }

  lemma BitsDrop(bytes: seq<byte>, n: nat)
    requires n <= |bytes|
    ensures 8 * n <= |Bits(bytes)|
    ensures Bits(bytes)[8 * n..] == Bits(bytes[n..])
  {
    BitsAppend(bytes[..n], bytes[n..]);
    assert bytes == bytes[..n] + bytes[n..];
  }

  lemma OctetIndex(i: nat, k: nat)
    requires k < 8
    ensures (8 * i + k) / 8 == i && (8 * i + k) % 8 == k
  {
  }

  lemma OctetBit(bytes: seq<byte>, i: nat, k: nat)
    requires i < |bytes| && k < 8
    ensures Octet(Bits(bytes), 8 * i)[k] == BitAt(bytes[i], k)
  {
    hide BitAt;
    OctetIndex(i, k);
    assert Bits(bytes)[8 * i + k] == BitAt(bytes[i], k);
  }

  lemma OctetOfBits(bytes: seq<byte>, i: nat)
    requires i < |bytes|
    ensures Octet(Bits(bytes), 8 * i) == FieldBits(bytes[i], 8)
  {
    hide FieldBits, Pow2, Octet, Bits;
    forall k: nat | k < 8
      ensures Octet(Bits(bytes), 8 * i)[k] == FieldBits(bytes[i], 8)[k]
    {
      FieldBit(bytes[i], 8, k);
      OctetBit(bytes, i, k);
    }
  }

  /** A byte sequence is determined by its bits. */
  lemma BitsThenPack(bytes: seq<byte>)
    ensures Pack(Bits(bytes)) == bytes
  {
    assert Pow2(8) == 256;
    forall i: nat | i < |bytes|
      ensures ByteOf(Bits(bytes), 8 * i) == bytes[i]
    {
      OctetOfBits(bytes, i);
      FieldValue(bytes[i], 8);
    }
  }

  // ---- writer --------------------------------------------------------------------------------

  /** `b | (0x80 >> k)`. */
  function SetBit(b: byte, k: nat): int
    requires k < 8
  {
    if BitAt(b, k) then b else b + Pow2(7 - k)
  }

  /** Appending one bit changes at most the last byte. */
  lemma PackSnoc(bits: seq<bool>, bit: bool)
    ensures var o, k := 8 * (|bits| / 8), |bits| % 8;
            var last := ByteOf(bits, o);
            && Pack(bits + [bit]) == Pack(bits)[..|bits| / 8] + [ByteOf(bits + [bit], o)]
            && ByteOf(bits + [bit], o) == if bit then SetBit(last, k) else last
    ensures |bits| % 8 == 0 ==> ByteOf(bits, |bits|) == 0 && Pack(bits)[..|bits| / 8] == Pack(bits)
  {
    var o, k := 8 * (|bits| / 8), |bits| % 8;
    var x, y := Octet(bits, o), Octet(bits + [bit], o);
    assert o + k == |bits|;
    assert y == x[k := bit];
    ByteOfBit(bits, o, k);
    if bit {
      ValueSet(x, k);
    } else {
      assert y == x;
    }
    forall i: nat | i < |bits| / 8
      ensures ByteOf(bits + [bit], 8 * i) == ByteOf(bits, 8 * i)
    {
      assert Octet(bits + [bit], 8 * i) == Octet(bits, 8 * i);
    }
    if k == 0 {
      ValueZeros(x);
    }
  }

  lemma PackPadding(bits: seq<bool>, n: nat)
    requires BytesFor(|bits| + n) == BytesFor(|bits|)
    ensures Pack(bits + seq(n, _ => false)) == Pack(bits)
  {
    var padded := bits + seq(n, _ => false);
    forall i: nat | i < BytesFor(|bits|)
      ensures ByteOf(padded, 8 * i) == ByteOf(bits, 8 * i)
    {
      assert Octet(padded, 8 * i) == Octet(bits, 8 * i);
    }
  }

  class BitWriter {
    var bytes: seq<byte>
    var bitCount: nat
    ghost var Contents: seq<bool>

    ghost predicate Valid()
      reads this
    {
      bitCount == |Contents| && bytes == Pack(Contents)
    }

    constructor ()
      ensures Valid() && Contents == []
    {
      bytes, bitCount, Contents := [], 0, [];
    }

    method PutBit(bit: bool)
      requires Valid()
      modifies this
      ensures Valid() && Contents == old(Contents) + [bit]
    {
      PackSnoc(Contents, bit);
      if bitCount % 8 == 0 {
        bytes := bytes + [0];
      }
      if bit {
        var last := SetBit(bytes[|bytes| - 1], bitCount % 8);
        bytes := bytes[|bytes| - 1 := last];
      }
      bitCount := bitCount + 1;
      Contents := Contents + [bit];
    }

    /** Rejects a value that needs more than n bits; otherwise appends the n-bit field. */
    method Put(value: nat, n: nat) returns (r: Result<()>)
      requires Valid()
      requires n <= 64
      modifies this
      ensures Valid()
      ensures r == if value < Pow2(n) then Ok(()) else Err(FieldTooWide)
      ensures Contents == if r.Ok? then old(Contents) + FieldBits(value, n) else old(Contents)
    {
      DivNonNegative(value, Pow2(n));
      DivBounds(value, Pow2(n));
      if Shr(value, n) != 0 {
        MulMonotone(1, Shr(value, n), Pow2(n));
        return Err(FieldTooWide);
      }
      var i := n;
      while i > 0
        invariant 0 <= i <= n && Valid()
        invariant Contents == old(Contents) + FieldBits(Shr(value, i), n - i)
      {
        i := i - 1;
        ShrNext(value, i);
        PutBit(Shr(value, i) % 2 == 1);
      }
      assert Shr(value, 0) == value;
      return Ok(());
    }

    method AlignToByte()
      requires Valid()
      modifies this
      ensures Valid() && bitCount % 8 == 0 && bytes == old(bytes)
      ensures Contents == old(Contents) + seq(8 * BytesFor(old(bitCount)) - old(bitCount), _ => false)
    {
      ghost var n := 8 * BytesFor(bitCount) - bitCount;
      PackPadding(Contents, n);
      bitCount := (bitCount + 7) / 8 * 8;
      Contents := Contents + seq(n, _ => false);
    }

    /** Hands over the bytes and leaves the writer empty. */
    method Take() returns (r: seq<byte>)
      requires Valid()
      modifies this
      ensures r == Pack(old(Contents))
      ensures Valid() && Contents == []
    {
      r := bytes;
      bytes, bitCount, Contents := [], 0, [];
    }
  }

  // ---- reader --------------------------------------------------------------------------------

  class BitReader {
    const data: seq<byte>
    var pos: nat

    ghost predicate Valid()
      reads this
    {
      pos <= 8 * |data|
    }

    /** The bits not read yet. */
    ghost function Rest(): seq<bool>
      requires Valid()
      reads this
    {
      Bits(data)[pos..]
    }

    constructor (data: seq<byte>, byteOffset: nat)
      requires byteOffset <= |data|
      ensures Valid() && this.data == data && pos == 8 * byteOffset
      ensures Rest() == Bits(data[byteOffset..])
    {
      this.data := data;
      pos := byteOffset * 8;
      new;
      BitsDrop(data, byteOffset);
    }

    method Bit() returns (r: Result<bool>)
      requires Valid()
      modifies this
      ensures Valid()
      ensures if old(Rest()) == [] then r == Err(EndOfData) && pos == old(pos)
              else r == Ok(old(Rest())[0]) && Rest() == old(Rest())[1..] && pos == old(pos) + 1
    {
      if pos >= 8 * |data| {
        return Err(EndOfData);
      }
      var bit := BitAt(data[pos / 8], pos % 8);
      pos := pos + 1;
      return Ok(bit);
    }

    /** Reads an n-bit field, MSB first; nothing is consumed when the data is too short. */
    method Read(n: nat) returns (r: Result<nat>)
      requires Valid() && n <= 32
      modifies this
      ensures Valid()
      ensures var f := ReadField(n, old(Rest()));
              if f.Ok? then r == Ok(f.value.0) && Rest() == f.value.1 && pos == old(pos) + n
              else r == Err(f.error) && pos == old(pos)
    {
      if pos + n > 8 * |data| {
        return Err(EndOfData);
      }
      ghost var start := Rest();
      var value, i := 0, 0;
      while i < n
        invariant i <= n && pos == old(pos) + i
        invariant pos + n - i <= 8 * |data|
        invariant Rest() == start[i..]
        invariant value == Value(start[..i])
      {
        assert start[..i + 1][..i] == start[..i];
        var bit := Bit();
        value := 2 * value + if bit.value then 1 else 0;
        i := i + 1;
      }
      return Ok(value);
    }
  }

  // ---- field tables ----------------------------------------------------------------------------

  /** Puts fields in order; stops at the first value that does not fit. */
  method PutFields(w: BitWriter, fields: seq<Fixed>) returns (r: Result<()>)
    requires w.Valid()
    requires forall i | 0 <= i < |fields| :: fields[i].width <= 64
    modifies w
    ensures w.Valid()
    ensures r == if Fit(fields) then Ok(()) else Err(FieldTooWide)
    ensures r.Ok? ==> w.Contents == old(w.Contents) + FieldsBits(fields)
  {
    hide Pow2, FieldBits, FieldsBits, Pack;
    assert fields[..0] == [] && FieldsBits([]) == [] by { NoFields(); }
    for i := 0 to |fields|
      invariant w.Valid() && Fit(fields[..i])
      invariant w.Contents == old(w.Contents) + FieldsBits(fields[..i])
    {
      var f := fields[i];
      FieldsAppend(fields[..i], [f]);
      OneField(f);
      assert fields[..i + 1] == fields[..i] + [f];
      var _ :- w.Put(f.value, f.width);
    }
    assert fields[..|fields|] == fields;
    return Ok(());
  }

  lemma NoFields()
    ensures FieldsBits([]) == []
  {
  }

  lemma OneField(f: Fixed)
    ensures FieldsBits([f]) == FieldBits(f.value, f.width)
  {
    assert [f][1..] == [];
    assert FieldBits(f.value, f.width) + [] == FieldBits(f.value, f.width);
  }

  lemma PrependField(values: seq<nat>, widths: seq<nat>, bits: seq<bool>)
    requires widths != []
    ensures BehindFirst(values, ReadFields(widths, bits)) ==
              match ReadField(widths[0], bits)
              case Ok((v, rest)) => BehindFirst(values + [v], ReadFields(widths[1..], rest))
              case Err(e) => Err(e)
  {
    hide Pow2, Value, ReadField, ReadFields, BehindFirst;
    ReadFieldsStep(widths, bits);
    if ReadField(widths[0], bits).Ok? {
      var (v, rest) := ReadField(widths[0], bits).value;
      BehindTwice(values, [v], ReadFields(widths[1..], rest));
    } else {
      BehindError(values, ReadFields(widths, bits));
    }
  }

  lemma ReadFieldsStep(widths: seq<nat>, bits: seq<bool>)
    requires widths != []
    ensures ReadFields(widths, bits) ==
              match ReadField(widths[0], bits)
              case Ok((v, rest)) => BehindFirst([v], ReadFields(widths[1..], rest))
              case Err(e) => Err(e)
  {
    hide Pow2, Value, ReadField;
  }

  method ReadAll(reader: BitReader, widths: seq<nat>) returns (r: Result<seq<nat>>)
    requires reader.Valid()
    requires forall i | 0 <= i < |widths| :: widths[i] <= 32
    modifies reader
    ensures reader.Valid()
    ensures var f := ReadFields(widths, old(reader.Rest()));
            if f.Ok? then r == Ok(f.value.0) && reader.Rest() == f.value.1 else r == Err(f.error)
  {
    ghost var whole := ReadFields(widths, reader.Rest());
    var values: seq<nat> := [];
    assert widths[0..] == widths;
    assert whole.Ok? ==> [] + whole.value.0 == whole.value.0;
    for i := 0 to |widths|
      invariant reader.Valid()
      invariant whole == BehindFirst(values, ReadFields(widths[i..], reader.Rest()))
    {
      PrependField(values, widths[i..], reader.Rest());
      assert widths[i..][1..] == widths[i + 1..];
      var v :- reader.Read(widths[i]);
      values := values + [v];
    }
    assert values + [] == values;
    return Ok(values);
  }
}
