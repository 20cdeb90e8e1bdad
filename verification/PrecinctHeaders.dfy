// Slice headers (A.4.14, A.4.15) and precinct headers (C.2).
module PrecinctHeaders {
  import opened Wrappers
  import opened Arith
  import opened BitIO
  import opened HeaderTypes
  import opened HeaderFields
  import opened Segments

  // ---- slice headers ---------------------------------------------------------------------------------

  datatype SliceHeader = SliceHeader(tdc: bool, ysl: u16)

  const SLICE_HEADER_BYTES: nat := 6

  function WriteSlice(s: SliceHeader): (r: seq<byte>)
    ensures |r| == SLICE_HEADER_BYTES
  {
    U16Bytes(if s.tdc then SLI else SLH) + [0, 4] + U16Bytes(s.ysl)
  }

  function ParseSlice(data: seq<byte>, offset: nat): Result<SliceHeader> {
    var marker :- ReadU16(data, offset);
    if marker != SLH && marker != SLI then Err(BadMarker) else
    var length :- ReadU16(data, offset + 2);
    if length != 4 then Err(BadHeader) else
    var ysl :- ReadU16(data, offset + 4);
    Ok(SliceHeader(marker == SLI, ysl))
  }

  lemma SliceRoundTrip(s: SliceHeader, before: seq<byte>, after: seq<byte>)
    ensures ParseSlice(before + WriteSlice(s) + after, |before|) == Ok(s)
    ensures EndsHeaders(WriteSlice(s) + after)
  {
    var data := before + WriteSlice(s) + after;
    var marker := if s.tdc then SLI else SLH;
    assert data == before + U16Bytes(marker) + ([0, 4] + U16Bytes(s.ysl) + after);
    U16RoundTrip(marker, before, [0, 4] + U16Bytes(s.ysl) + after);
    assert data == (before + U16Bytes(marker)) + U16Bytes(4) + (U16Bytes(s.ysl) + after);
    U16RoundTrip(4, before + U16Bytes(marker), U16Bytes(s.ysl) + after);
    assert data == (before + U16Bytes(marker) + [0, 4]) + U16Bytes(s.ysl) + after;
    U16RoundTrip(s.ysl, before + U16Bytes(marker) + [0, 4], after);
  }

  // ---- precinct headers ------------------------------------------------------------------------------

  /** Qf, Rf and Di are carried by temporally coded slices only. */
  datatype PrecinctHeader = PrecinctHeader(lprc: nat, q: u8, r: u8, qf: u8, rf: u8, d: seq<nat>, di: seq<nat>)

  function HeaderBytes(exists_: seq<bool>, tdc: bool): nat {
    (40 + 2 * Count(exists_) + (if tdc then 16 + 2 * Count(exists_) else 0) + 7) / 8
  }

  /** Low two bits of D for every existing band. */
  function ModeValues(exists_: seq<bool>, d: seq<nat>): (v: seq<nat>)
    requires |d| == |exists_|
    ensures |v| == Count(exists_) && forall i | 0 <= i < |v| :: v[i] < 4
  {
    if d == [] then [] else (if exists_[0] then [d[0] % 4] else []) + ModeValues(exists_[1..], d[1..])
  }

  function ModesOf(exists_: seq<bool>, v: seq<nat>): (d: seq<nat>)
    requires |v| == Count(exists_)
    ensures |d| == |exists_|
  {
    if exists_ == [] then []
    else if exists_[0] then [v[0]] + ModesOf(exists_[1..], v[1..])
    else [0] + ModesOf(exists_[1..], v)
  }

  /** Two bits per existing band, zero for the others. */
  function KeptModes(exists_: seq<bool>, d: seq<nat>): (r: seq<nat>)
    requires |d| == |exists_|
    ensures |r| == |d|
  {
    seq(|d|, b requires 0 <= b < |d| => if exists_[b] then d[b] % 4 else 0)
  }

  lemma {:induction false} ModesBack(exists_: seq<bool>, d: seq<nat>)
    requires |d| == |exists_|
    ensures ModesOf(exists_, ModeValues(exists_, d)) == KeptModes(exists_, d)
  {
    if d != [] {
      ModesBack(exists_[1..], d[1..]);
      var v := ModeValues(exists_, d);
      if exists_[0] {
        assert v[0] == d[0] % 4 && v[1..] == ModeValues(exists_[1..], d[1..]);
      } else {
        assert v == ModeValues(exists_[1..], d[1..]);
      }
      KeptSplit(exists_, d);
    }
  }

  lemma KeptSplit(exists_: seq<bool>, d: seq<nat>)
    requires |d| == |exists_| > 0
    ensures KeptModes(exists_, d) == [if exists_[0] then d[0] % 4 else 0] + KeptModes(exists_[1..], d[1..])
  {
    forall b | 1 <= b < |d|
      ensures KeptModes(exists_, d)[b] == KeptModes(exists_[1..], d[1..])[b - 1]
    {
    }
  }

  function ModeWidths(n: nat): (w: seq<nat>)
    ensures |w| == n
  {
    Repeat([2], n)
  }

  /** Field widths: Lprc, Q and R, then the optional temporal fields and the modes. */
  function Widths(exists_: seq<bool>, tdc: bool): seq<nat> {
    [24, 8, 8] + (if tdc then [8, 8] else []) + ModeWidths(Count(exists_)) + if tdc then ModeWidths(Count(exists_)) else []
  }

  predicate Shaped(exists_: seq<bool>, h: PrecinctHeader, tdc: bool) {
    |h.d| == |exists_| && (tdc ==> |h.di| == |exists_|)
  }

  function Values(exists_: seq<bool>, h: PrecinctHeader, tdc: bool): (v: seq<nat>)
    requires Shaped(exists_, h, tdc)
    ensures |v| == |Widths(exists_, tdc)|
  {
    [h.lprc, h.q, h.r] + (if tdc then [h.qf, h.rf] else []) + ModeValues(exists_, h.d)
    + if tdc then ModeValues(exists_, h.di) else []
  }

  predicate LengthOk(lprc: nat) {
    0 < lprc < 0x10_0000
  }

  function Write(exists_: seq<bool>, h: PrecinctHeader, tdc: bool): Result<seq<byte>>
    requires Shaped(exists_, h, tdc)
  {
    if !LengthOk(h.lprc) then Err(LengthOutOfRange)
    else Ok(Pack(FieldsBits(Zip(Values(exists_, h, tdc), Widths(exists_, tdc)))))
  }

  /** Fields in order; modes of missing bands are zero. */
  function HeaderOf(exists_: seq<bool>, v: seq<nat>, tdc: bool): PrecinctHeader
    requires |v| == |Widths(exists_, tdc)|
  {
    var n, k := Count(exists_), if tdc then 5 else 3;
    PrecinctHeader(v[0], ToU8(v[1]), ToU8(v[2]), if tdc then ToU8(v[3]) else 32, if tdc then ToU8(v[4]) else 0,
                   ModesOf(exists_, v[k..k + n]), if tdc then ModesOf(exists_, v[k + n..]) else [])
  }

  function Parse(exists_: seq<bool>, tdc: bool, data: seq<byte>): Result<PrecinctHeader> {
    var (v, _) :- ReadFields(Widths(exists_, tdc), Bits(data));
    var h := HeaderOf(exists_, v, tdc);
    if !LengthOk(h.lprc) then Err(LengthOutOfRange)
    else if h.q > 31 || h.r >= 2 * |exists_| then Err(BadHeader)
    else Ok(h)
  }

  /** What the parser makes of a written header. */
  function Kept(exists_: seq<bool>, h: PrecinctHeader, tdc: bool): PrecinctHeader
    requires Shaped(exists_, h, tdc)
  {
    PrecinctHeader(h.lprc, h.q, h.r, if tdc then h.qf else 32, if tdc then h.rf else 0, KeptModes(exists_, h.d),
                   if tdc then KeptModes(exists_, h.di) else [])
  }

  lemma ModeSize(n: nat)
    ensures Sum(ModeWidths(n)) == 2 * n
  {
    hide Sum, Repeat;
    SumRepeat([2], n);
    SumOne(2);
    Twice(n);
  }

  lemma SumOne(a: nat)
    ensures Sum([a]) == a
  {
    assert [a][1..] == [];
  }

  lemma Twice(n: nat)
    ensures Mul(n, 2) == 2 * n
  {
  }

  lemma WidthsSum(exists_: seq<bool>, tdc: bool)
    ensures Sum(Widths(exists_, tdc)) == 40 + 2 * Count(exists_) + if tdc then 16 + 2 * Count(exists_) else 0
  {
    hide Sum, ModeWidths, Count;
    var n := Count(exists_);
    var modes := ModeWidths(n);
    ModeSize(n);
    SumThree(24, 8, 8);
    SumTwo(8, 8);
    if tdc {
      SumConcat([24, 8, 8], [8, 8]);
      SumConcat([24, 8, 8] + [8, 8], modes);
      SumConcat([24, 8, 8] + [8, 8] + modes, modes);
    } else {
      SumConcat([24, 8, 8], modes);
      assert Widths(exists_, tdc) == [24, 8, 8] + modes;
    }
  }

  lemma {:induction false} ModeWidthsAre(n: nat)
    ensures forall i | 0 <= i < n :: ModeWidths(n)[i] == 2
  {
    if n > 0 {
      ModeWidthsAre(n - 1);
      assert ModeWidths(n) == [2] + ModeWidths(n - 1);
    }
  }

  lemma FieldsFit(exists_: seq<bool>, h: PrecinctHeader, tdc: bool)
    requires Shaped(exists_, h, tdc) && LengthOk(h.lprc)
    ensures Fit(Zip(Values(exists_, h, tdc), Widths(exists_, tdc)))
  {
    hide Pow2, ModeWidths;
    SmallPowers();
    WordPowers();
    Pow2Add(16, 4);
    Pow2Monotone(20, 24);
    ModeWidthsAre(Count(exists_));
  }

  lemma ValuesBack(exists_: seq<bool>, h: PrecinctHeader, tdc: bool)
    requires Shaped(exists_, h, tdc)
    ensures HeaderOf(exists_, Values(exists_, h, tdc), tdc) == Kept(exists_, h, tdc)
  {
    hide ModeValues, ModesOf, KeptModes, ModeWidths, Count;
    var v, n, k := Values(exists_, h, tdc), Count(exists_), if tdc then 5 else 3;
    ModesBack(exists_, h.d);
    assert v[k..k + n] == ModeValues(exists_, h.d);
    if tdc {
      ModesBack(exists_, h.di);
      assert v[k + n..] == ModeValues(exists_, h.di);
    }
  }

  /**
   * A written precinct header takes the announced number of bytes and parses back, cleared where it
   * carries nothing, unless Q or R is one the parser refuses.
   */
  lemma RoundTrip(exists_: seq<bool>, h: PrecinctHeader, tdc: bool, tail: seq<byte>)
    requires Shaped(exists_, h, tdc) && Write(exists_, h, tdc).Ok?
    ensures |Write(exists_, h, tdc).value| == HeaderBytes(exists_, tdc)
    ensures Parse(exists_, tdc, Write(exists_, h, tdc).value + tail) ==
            if h.q > 31 || h.r >= 2 * |exists_| then Err(BadHeader) else Ok(Kept(exists_, h, tdc))
  {
    hide FieldsBits, ReadFields, Pow2, Pack, Bits, Sum, WidthsOf, ValuesOf, Zip, Values, Widths, HeaderOf, Fit, KeptModes;
    var widths, values := Widths(exists_, tdc), Values(exists_, h, tdc);
    var fields := Zip(values, widths);
    var bits := FieldsBits(fields);
    FieldsFit(exists_, h, tdc);
    ZipParts(values, widths);
    FieldsBitsLength(fields);
    WidthsSum(exists_, tdc);
    PackBits(bits);
    PackSize(bits);
    BitsAppend(Pack(bits), tail);
    var padding := seq(8 * BytesFor(|bits|) - |bits|, _ => false);
    assert Bits(Pack(bits) + tail) == bits + (padding + Bits(tail));
    FieldsRoundTrip(fields, padding + Bits(tail));
    ValuesBack(exists_, h, tdc);
  }

  lemma PackSize(bits: seq<bool>)
    ensures |Pack(bits)| == BytesFor(|bits|)
  {
  }

  // ---- cursors ---------------------------------------------------------------------------------------

  lemma WidthsNarrow(exists_: seq<bool>, tdc: bool)
    ensures forall i | 0 <= i < |Widths(exists_, tdc)| :: Widths(exists_, tdc)[i] <= 32
  {
    hide ModeWidths;
    ModeWidthsAre(Count(exists_));
  }

  method WritePrecinctHeader(exists_: seq<bool>, h: PrecinctHeader, tdc: bool) returns (r: Result<seq<byte>>)
    requires Shaped(exists_, h, tdc)
    ensures r == Write(exists_, h, tdc)
  {
    hide FieldsBits, Pack, Values, Widths, Fit, Zip;
    if !LengthOk(h.lprc) {
      return Err(LengthOutOfRange);
    }
    FieldsFit(exists_, h, tdc);
    WidthsNarrow(exists_, tdc);
    ZipWidths(Values(exists_, h, tdc), Widths(exists_, tdc));
    var fields := Zip(Values(exists_, h, tdc), Widths(exists_, tdc));
    var w := new BitWriter();
    var put := PutFields(w, fields);
    assert [] + FieldsBits(fields) == FieldsBits(fields);
    ghost var bits := w.Contents;
    w.AlignToByte();
    PackPadding(bits, 8 * BytesFor(|bits|) - |bits|);
    var bytes := w.Take();
    return Ok(bytes);
  }

  lemma ZipWidths(values: seq<nat>, widths: seq<nat>)
    requires |values| == |widths|
    ensures forall i | 0 <= i < |widths| :: Zip(values, widths)[i].width == widths[i]
  {
  }

  method ParsePrecinctHeader(data: seq<byte>, offset: nat, exists_: seq<bool>, tdc: bool) returns (r: Result<PrecinctHeader>)
    requires offset <= |data|
    ensures r == Parse(exists_, tdc, data[offset..])
  {
    hide ReadFields, Bits, Widths, HeaderOf;
    WidthsNarrow(exists_, tdc);
    var reader := new BitReader(data, offset);
    var v :- ReadAll(reader, Widths(exists_, tdc));
    var h := HeaderOf(exists_, v, tdc);
    if !LengthOk(h.lprc) {
      return Err(LengthOutOfRange);
    }
    if h.q > 31 || h.r >= 2 * |exists_| {
      return Err(BadHeader);
    }
    return Ok(h);
  }

  /** Slice header bytes appended to the stream. */
  method AppendSlice(s: SliceHeader, out0: seq<byte>) returns (out: seq<byte>)
    ensures out == out0 + WriteSlice(s)
  {
    var marker := if s.tdc then SLI else SLH;
    out := out0 + [marker / 256] + [marker % 256];
    out := out + [0] + [4];
    out := out + [s.ysl / 256] + [s.ysl % 256];
  }
}
