// The bytes of the headers, field by field (Annexes A and C): which field stands where, and with which bits first.
module HeaderLayout {
  import opened Wrappers
  import opened Arith
  import opened BitIO
  import opened HeaderTypes
  import opened HeaderFields
  import opened Segments
  import HeaderCodec
  import PacketHeaders
  import PrecinctHeaders

  // ---- numbers and bytes -----------------------------------------------------------------------------

  /** A byte string as a number, first byte most significant. */
  function BigEndian(bytes: seq<int>): int {
    if bytes == [] then 0 else 256 * BigEndian(bytes[..|bytes| - 1]) + bytes[|bytes| - 1]
  }

  function U24Bytes(v: nat): seq<int> {
    [v / 0x1_0000, v / 0x100 % 0x100, v % 0x100]
  }

  function U32Bytes(v: nat): seq<int> {
    [v / 0x100_0000, v / 0x1_0000 % 0x100, v / 0x100 % 0x100, v % 0x100]
  }

  lemma Appended(x: int, p: int, y: int, z: int)
    ensures 2 * (x * p + y) + z == x * (2 * p) + (2 * y + z)
  {
  }

  lemma LastBit(bits: seq<bool>)
    requires bits != []
    ensures Value(bits) == 2 * Value(bits[..|bits| - 1]) + if bits[|bits| - 1] then 1 else 0
  {
  }

  lemma {:induction false} ValueConcat(a: seq<bool>, b: seq<bool>)
    ensures Value(a + b) == Value(a) * Pow2(|b|) + Value(b)
  {
    if b == [] {
      assert a + b == a;
    } else {
      var n := |b| - 1;
      assert Pow2(|b|) == 2 * Pow2(n);
      hide Value, Pow2;
      ValueConcat(a, b[..n]);
      assert (a + b)[..|a + b| - 1] == a + b[..n];
      LastBit(a + b);
      LastBit(b);
      Appended(Value(a), Pow2(n), Value(b[..n]), if b[n] then 1 else 0);
    }
  }

  /** A wide field is its two halves. */
  lemma FieldSplit(v: nat, n: nat, k: nat)
    requires v < Pow2(n + k)
    ensures 0 <= v / Pow2(k) < Pow2(n) && 0 <= v % Pow2(k) < Pow2(k)
    ensures FieldBits(v, n + k) == FieldBits(v / Pow2(k), n) + FieldBits(v % Pow2(k), k)
  {
    Pow2Add(n, k);
    DivMod(v, Pow2(k));
    DivNonNegative(v, Pow2(k));
    MulCommute(v / Pow2(k), Pow2(k));
    QuotientBelow(v, Pow2(k), Pow2(n));
    hide Pow2;
    var a, b := FieldBits(v / Pow2(k), n), FieldBits(v % Pow2(k), k);
    FieldValue(v / Pow2(k), n);
    FieldValue(v % Pow2(k), k);
    ValueConcat(a, b);
    ValueField(a + b);
  }

  lemma QuotientBelow(v: nat, d: nat, n: nat)
    requires d > 0 && v < n * d
    ensures v / d < n
  {
    DivBounds(v, d);
    if v / d >= n {
      MulMonotone(n, v / d, d);
    }
  }

  lemma PackAppend(a: seq<bool>, b: seq<bool>)
    requires |a| % 8 == 0
    ensures Pack(a + b) == Pack(a) + Pack(b)
  {
    hide ByteOf;
    var n := |a| / 8;
    forall i | 0 <= i < BytesFor(|a + b|)
      ensures ByteOf(a + b, 8 * i) == if i < n then ByteOf(a, 8 * i) else ByteOf(b, 8 * (i - n))
    {
      if i < n {
        assert Octet(a + b, 8 * i) == Octet(a, 8 * i);
        SameOctet(a + b, 8 * i, a, 8 * i);
      } else {
        assert Octet(a + b, 8 * i) == Octet(b, 8 * (i - n));
        SameOctet(a + b, 8 * i, b, 8 * (i - n));
      }
    }
  }

  lemma SameOctet(a: seq<bool>, o: nat, b: seq<bool>, p: nat)
    requires Octet(a, o) == Octet(b, p)
    ensures ByteOf(a, o) == ByteOf(b, p)
  {
  }

  lemma PackOctet(bits: seq<bool>)
    requires |bits| == 8
    ensures Pack(bits) == [Value(bits)]
  {
    assert Octet(bits, 0) == bits;
  }

  /** A last byte is filled up with zeros. */
  lemma PackPadded(bits: seq<bool>)
    requires 0 < |bits| < 8
    ensures Pack(bits) == [Value(bits) * Pow2(8 - |bits|)]
  {
    hide Pow2, Value;
    var zeros := seq(8 - |bits|, _ => false);
    assert Octet(bits, 0) == bits + zeros;
    ValueConcat(bits, zeros);
    ValueZeros(zeros);
  }

  // ---- fields in bytes -------------------------------------------------------------------------------

  /** Fields packed one behind the other. */
  function Packed(values: seq<nat>, widths: seq<nat>): seq<int>
    requires |values| == |widths|
  {
    Pack(FieldsBits(Zip(values, widths)))
  }

  lemma ZipAppend(v: seq<nat>, w: seq<nat>, v': seq<nat>, w': seq<nat>)
    requires |v| == |w| && |v'| == |w'|
    ensures Zip(v + v', w + w') == Zip(v, w) + Zip(v', w')
  {
  }

  lemma PackedAppend(v: seq<nat>, w: seq<nat>, v': seq<nat>, w': seq<nat>)
    requires |v| == |w| && |v'| == |w'| && Sum(w) % 8 == 0
    ensures Packed(v + v', w + w') == Packed(v, w) + Packed(v', w')
  {
    hide FieldsBits, Pack, Sum, Zip;
    ZipAppend(v, w, v', w');
    FieldsAppend(Zip(v, w), Zip(v', w'));
    FieldsBitsLength(Zip(v, w));
    ZipParts(v, w);
    PackAppend(FieldsBits(Zip(v, w)), FieldsBits(Zip(v', w')));
  }

  lemma OneField(v: nat, n: nat)
    ensures FieldsBits(Zip([v], [n])) == FieldBits(v, n)
  {
    hide FieldBits;
    assert Zip([v], [n])[1..] == [];
    assert FieldBits(v, n) + [] == FieldBits(v, n);
  }

  lemma PackedByte(v: nat)
    requires v < 0x100
    ensures Packed([v], [8]) == [v] && Sum([8]) == 8
  {
    hide FieldBits, Pow2;
    WordPowers();
    OneField(v, 8);
    FieldValue(v, 8);
    PackOctet(FieldBits(v, 8));
  }

  lemma PackedWord(v: nat)
    requires v < 0x1_0000
    ensures Packed([v], [16]) == U16Bytes(v) && Sum([16]) == 16
  {
    hide FieldBits, Pow2, Pack;
    WordPowers();
    FieldSplit(v, 8, 8);
    PackedByte(v / 0x100);
    PackedByte(v % 0x100);
    OneField(v, 16);
    OneField(v / 0x100, 8);
    OneField(v % 0x100, 8);
    PackAppend(FieldBits(v / 0x100, 8), FieldBits(v % 0x100, 8));
  }

  /** The second byte from the right belongs to the lower half. */
  lemma LowerHalf(h: int, c: int, d: int)
    requires 0 <= c < 0x100 && 0 <= d < 0x100
    ensures var v := 0x1_0000 * h + (0x100 * c + d); v / 0x100 % 0x100 == c && v % 0x100 == d
  {
    var v := 0x1_0000 * h + (0x100 * c + d);
    DivUnique(v, 0x100, 0x100 * h + c);
  }

  lemma DoubleBytes(v: nat)
    requires v < 0x1_0000_0000
    ensures U32Bytes(v) == U16Bytes(v / 0x1_0000) + U16Bytes(v % 0x1_0000)
  {
    DivDiv(v, 0x1_0000, 0x100);
    var l := v % 0x1_0000;
    DivMod(v, 0x1_0000);
    DivMod(l, 0x100);
    DivUnique(v / 0x1_0000, 0x1_0000, 0);
    LowerHalf(v / 0x1_0000, l / 0x100, l % 0x100);
  }

  lemma PackedDouble(v: nat)
    requires v < 0x1_0000_0000
    ensures Packed([v], [32]) == U32Bytes(v) && Sum([32]) == 32
  {
    hide FieldBits, Pow2, Pack, U16Bytes, U32Bytes;
    WordPowers();
    FieldSplit(v, 16, 16);
    PackedWord(v / 0x1_0000);
    PackedWord(v % 0x1_0000);
    OneField(v, 32);
    OneField(v / 0x1_0000, 16);
    OneField(v % 0x1_0000, 16);
    PackAppend(FieldBits(v / 0x1_0000, 16), FieldBits(v % 0x1_0000, 16));
    DoubleBytes(v);
  }

  lemma TripleBytes(v: nat)
    requires v < 0x100_0000
    ensures U24Bytes(v) == [v / 0x1_0000] + U16Bytes(v % 0x1_0000)
  {
    var l := v % 0x1_0000;
    DivMod(v, 0x1_0000);
    DivMod(l, 0x100);
    LowerHalf(v / 0x1_0000, l / 0x100, l % 0x100);
  }

  lemma PackedTriple(v: nat)
    requires v < 0x100_0000
    ensures Packed([v], [24]) == U24Bytes(v) && Sum([24]) == 24
  {
    hide FieldBits, Pow2, Pack, U16Bytes, U24Bytes;
    WordPowers();
    Pow2Add(8, 16);
    FieldSplit(v, 8, 16);
    PackedByte(v / 0x1_0000);
    PackedWord(v % 0x1_0000);
    OneField(v, 24);
    OneField(v / 0x1_0000, 8);
    OneField(v % 0x1_0000, 16);
    PackAppend(FieldBits(v / 0x1_0000, 8), FieldBits(v % 0x1_0000, 16));
    TripleBytes(v);
  }

  /** Fields sharing a byte, first one leftmost. */
  lemma TwoFields(a: nat, m: nat, b: nat, n: nat)
    requires a < Pow2(m) && b < Pow2(n)
    ensures var bits := FieldsBits(Zip([a, b], [m, n])); |bits| == m + n && Value(bits) == a * Pow2(n) + b
  {
    hide FieldBits, Pow2;
    FieldValue(a, m);
    FieldValue(b, n);
    ValueConcat(FieldBits(a, m), FieldBits(b, n));
    OneField(b, n);
    assert Zip([a, b], [m, n])[1..] == Zip([b], [n]);
  }

  lemma PrependField(a: nat, m: nat, v: seq<nat>, w: seq<nat>)
    requires a < Pow2(m) && |v| == |w|
    ensures var bits := FieldsBits(Zip(v, w));
            FieldsBits(Zip([a] + v, [m] + w)) == FieldBits(a, m) + bits
            && Value(FieldBits(a, m) + bits) == a * Pow2(|bits|) + Value(bits)
  {
    hide FieldBits, Pow2;
    FieldValue(a, m);
    ValueConcat(FieldBits(a, m), FieldsBits(Zip(v, w)));
    assert Zip([a] + v, [m] + w)[1..] == Zip(v, w);
  }

  lemma PackedNibbles(a: nat, b: nat)
    requires a < 16 && b < 16
    ensures Packed([a, b], [4, 4]) == [16 * a + b] && Sum([4, 4]) == 8
  {
    hide FieldsBits, Pow2;
    SmallPowers();
    TwoFields(a, 4, b, 4);
    PackOctet(FieldsBits(Zip([a, b], [4, 4])));
    SumTwo(4, 4);
  }

  lemma PackedOneThreeFour(a: nat, b: nat, c: nat)
    requires a < 2 && b < 8 && c < 16
    ensures Packed([a, b, c], [1, 3, 4]) == [128 * a + 16 * b + c] && Sum([1, 3, 4]) == 8
  {
    hide FieldsBits, Pow2, Sum;
    SmallPowers();
    assert Pow2(3) == 8 && Pow2(7) == 128 by { SevenBits(); }
    TwoFields(b, 3, c, 4);
    PrependField(a, 1, [b, c], [3, 4]);
    assert [a] + [b, c] == [a, b, c] && [1] + [3, 4] == [1, 3, 4];
    PackOctet(FieldsBits(Zip([a, b, c], [1, 3, 4])));
    SumThree(1, 3, 4);
  }

  lemma SevenBits()
    ensures Pow2(3) == 8 && Pow2(6) == 64 && Pow2(7) == 128 && Pow2(11) == 2048 && Pow2(13) == 8192 && Pow2(15) == 32768
    ensures Pow2(20) == 0x10_0000
  {
    SmallPowers();
    Pow2Add(4, 2);
    WordPowers();
    Pow2Add(8, 2);
    Pow2Add(8, 4);
    Pow2Add(16, 4);
    assert Pow2(7) == 2 * Pow2(6);
    assert Pow2(3) == 2 * Pow2(2);
    assert Pow2(11) == 2 * Pow2(10);
    assert Pow2(13) == 2 * Pow2(12);
    assert Pow2(16) == 2 * Pow2(15);
  }

  lemma PackedModes(a: nat, b: nat, c: nat, d: nat, e: nat)
    requires a < 2 && b < 2 && c < 4 && d < 4 && e < 4
    ensures Packed([a, b, c, d, e], [1, 1, 2, 2, 2]) == [128 * a + 64 * b + 16 * c + 4 * d + e]
  {
    hide FieldsBits, Pow2;
    SmallPowers();
    SevenBits();
    TwoFields(d, 2, e, 2);
    PrependField(c, 2, [d, e], [2, 2]);
    assert [c] + [d, e] == [c, d, e] && [2] + [2, 2] == [2, 2, 2];
    PrependField(b, 1, [c, d, e], [2, 2, 2]);
    assert [b] + [c, d, e] == [b, c, d, e] && [1] + [2, 2, 2] == [1, 2, 2, 2];
    PrependField(a, 1, [b, c, d, e], [1, 2, 2, 2]);
    assert [a] + [b, c, d, e] == [a, b, c, d, e] && [1] + [1, 2, 2, 2] == [1, 1, 2, 2, 2];
    PackOctet(FieldsBits(Zip([a, b, c, d, e], [1, 1, 2, 2, 2])));
  }

  lemma {:induction false} PackedBytes(v: seq<nat>)
    requires forall i | 0 <= i < |v| :: v[i] < 0x100
    ensures Packed(v, seq(|v|, _ => 8)) == v && Sum(seq(|v|, _ => 8)) == 8 * |v|
  {
    hide FieldsBits, Pack;
    var w: seq<nat> := seq(|v|, _ => 8);
    if v != [] {
      PackedByte(v[0]);
      PackedBytes(v[1..]);
      PackedAppend([v[0]], [8], v[1..], seq(|v| - 1, _ => 8));
      assert [v[0]] + v[1..] == v && [8] + seq(|v| - 1, _ => 8) == w;
      SumConcat([8], seq(|v| - 1, _ => 8));
    } else {
      NothingPacked();
    }
  }

  lemma NothingPacked()
    ensures Packed([], []) == []
  {
  }

  function Words(v: seq<nat>): seq<int>
    requires forall i | 0 <= i < |v| :: v[i] < 0x1_0000
  {
    if v == [] then [] else U16Bytes(v[0]) + Words(v[1..])
  }

  lemma {:induction false} PackedWords(v: seq<nat>)
    requires forall i | 0 <= i < |v| :: v[i] < 0x1_0000
    ensures Packed(v, seq(|v|, _ => 16)) == Words(v) && Sum(seq(|v|, _ => 16)) == 16 * |v|
  {
    hide FieldsBits, Pack;
    var w: seq<nat> := seq(|v|, _ => 16);
    if v != [] {
      PackedWord(v[0]);
      PackedWords(v[1..]);
      PackedAppend([v[0]], [16], v[1..], seq(|v| - 1, _ => 16));
      assert [v[0]] + v[1..] == v && [16] + seq(|v| - 1, _ => 16) == w;
      SumConcat([16], seq(|v| - 1, _ => 16));
    } else {
      NothingPacked();
    }
  }

  // ---- picture header --------------------------------------------------------------------------------

  /** Table A.7, byte by byte. */
  function PihBytes(p: PictureHeader): seq<int> {
    U32Bytes(p.lcod) + Words([p.ppih, p.plev, p.wf, p.hf, p.cw, p.hsl])
    + ([p.nc, p.ng, p.ss, p.bw]
       + [16 * p.fq + p.br, 128 * p.fslc + 16 * p.ppoc + p.cpih, 16 * p.nlx + p.nly,
          128 * p.lh + 64 * p.rl + 16 * p.qpih + 4 * p.fs + p.rm])
  }

  lemma PihNibbles(p: PictureHeader)
    requires Payload(PihValues(p), PIH_WIDTHS).Ok?
    ensures p.fq < 16 && p.br < 16 && p.fslc < 2 && p.ppoc < 8 && p.cpih < 16 && p.nlx < 16 && p.nly < 16
    ensures p.lh < 2 && p.rl < 2 && p.qpih < 4 && p.fs < 4 && p.rm < 4
  {
    hide Pow2, FieldsBits, Pack;
    SmallPowers();
    SevenBits();
    var v, w := PihValues(p), PIH_WIDTHS;
    var f := Zip(v, w);
    assert forall i | 11 <= i < 23 :: f[i].value < Pow2(f[i].width);
    assert w[11] == w[12] == w[15] == w[16] == w[17] == 4 && w[13] == w[18] == w[19] == 1 && w[14] == 3;
    assert w[20] == w[21] == w[22] == 2;
    assert f[11].value == v[11] && f[12].value == v[12] && f[13].value == v[13] && f[14].value == v[14] && f[15].value == v[15];
    assert f[16].value == v[16] && f[17].value == v[17] && f[18].value == v[18] && f[19].value == v[19];
    assert f[20].value == v[20] && f[21].value == v[21] && f[22].value == v[22];
  }

  lemma PihTail(p: PictureHeader)
    requires Payload(PihValues(p), PIH_WIDTHS).Ok?
    ensures Packed([p.fq, p.br, p.fslc, p.ppoc, p.cpih, p.nlx, p.nly, p.lh, p.rl, p.qpih, p.fs, p.rm],
                   [4, 4, 1, 3, 4, 4, 4, 1, 1, 2, 2, 2]) ==
            [16 * p.fq + p.br, 128 * p.fslc + 16 * p.ppoc + p.cpih, 16 * p.nlx + p.nly,
             128 * p.lh + 64 * p.rl + 16 * p.qpih + 4 * p.fs + p.rm]
  {
    hide Packed, Sum, Payload, PihValues;
    PihNibbles(p);
    PackedModes(p.lh, p.rl, p.qpih, p.fs, p.rm);
    PackedNibbles(p.nlx, p.nly);
    PackedOneThreeFour(p.fslc, p.ppoc, p.cpih);
    PackedNibbles(p.fq, p.br);
    var v3, w3 := [p.lh, p.rl, p.qpih, p.fs, p.rm], [1, 1, 2, 2, 2];
    PackedAppend([p.nlx, p.nly], [4, 4], v3, w3);
    var v2, w2 := [p.nlx, p.nly] + v3, [4, 4] + w3;
    PackedAppend([p.fslc, p.ppoc, p.cpih], [1, 3, 4], v2, w2);
    var v1, w1 := [p.fslc, p.ppoc, p.cpih] + v2, [1, 3, 4] + w2;
    PackedAppend([p.fq, p.br], [4, 4], v1, w1);
    assert [p.fq, p.br] + v1 == [p.fq, p.br, p.fslc, p.ppoc, p.cpih, p.nlx, p.nly, p.lh, p.rl, p.qpih, p.fs, p.rm];
    assert [4, 4] + w1 == [4, 4, 1, 3, 4, 4, 4, 1, 1, 2, 2, 2];
  }

  /** The picture header by the widths of its fields. */
  lemma PihGroups(p: PictureHeader)
    ensures PihValues(p) ==
            [p.lcod] + ([p.ppih, p.plev, p.wf, p.hf, p.cw, p.hsl] + ([p.nc, p.ng, p.ss, p.bw]
            + [p.fq, p.br, p.fslc, p.ppoc, p.cpih, p.nlx, p.nly, p.lh, p.rl, p.qpih, p.fs, p.rm]))
  {
  }

  lemma PihWidthGroups()
    ensures PIH_WIDTHS == [32] + (seq(6, _ => 16) + (seq(4, _ => 8) + [4, 4, 1, 3, 4, 4, 4, 1, 1, 2, 2, 2]))
  {
  }

  lemma PihPacked(p: PictureHeader, bytes: seq<nat>, words: seq<nat>, rest: seq<nat>, bits: seq<nat>)
    requires bytes == [p.nc, p.ng, p.ss, p.bw] && words == [p.ppih, p.plev, p.wf, p.hf, p.cw, p.hsl]
    requires |rest| == |bits|
    ensures Packed([p.lcod] + (words + (bytes + rest)), [32] + (seq(6, _ => 16) + (seq(4, _ => 8) + bits))) ==
            U32Bytes(p.lcod) + (Words(words) + (bytes + Packed(rest, bits)))
  {
    hide Packed, Sum, U32Bytes, Words;
    PackedBytes(bytes);
    PackedWords(words);
    PackedDouble(p.lcod);
    var w8: seq<nat>, w16: seq<nat> := seq(4, _ => 8), seq(6, _ => 16);
    PackedAppend(bytes, w8, rest, bits);
    PackedAppend(words, w16, bytes + rest, w8 + bits);
    PackedAppend([p.lcod], [32], words + (bytes + rest), w16 + (w8 + bits));
  }

  /** PIH is these 24 bytes. */
  lemma PihLayout(p: PictureHeader)
    requires Payload(PihValues(p), PIH_WIDTHS).Ok?
    ensures Payload(PihValues(p), PIH_WIDTHS).value == PihBytes(p)
  {
    hide FieldsBits, Pack, Sum, Words, Zip, U32Bytes, PihValues;
    PihTail(p);
    PihGroups(p);
    PihWidthGroups();
    PihPacked(p, [p.nc, p.ng, p.ss, p.bw], [p.ppih, p.plev, p.wf, p.hf, p.cw, p.hsl],
              [p.fq, p.br, p.fslc, p.ppoc, p.cpih, p.nlx, p.nly, p.lh, p.rl, p.qpih, p.fs, p.rm],
              [4, 4, 1, 3, 4, 4, 4, 1, 1, 2, 2, 2]);
  }

  // ---- tables ----------------------------------------------------------------------------------------

  /** Per component: bit depth, then both sampling factors in one byte. */
  function CdtBytes(cs: seq<Component>): seq<int> {
    if cs == [] then [] else [cs[0].bitDepth, 16 * cs[0].sx + cs[0].sy] + CdtBytes(cs[1..])
  }

  lemma CdtBytesStep(cs: seq<Component>)
    requires cs != []
    ensures CdtBytes(cs) == [cs[0].bitDepth] + ([16 * cs[0].sx + cs[0].sy] + CdtBytes(cs[1..]))
  {
  }

  lemma CdtValuesStep(cs: seq<Component>)
    requires cs != []
    ensures CdtValues(cs) == [cs[0].bitDepth] + ([cs[0].sx, cs[0].sy] + CdtValues(cs[1..]))
  {
    hide CdtBytes;
    assert [cs[0].bitDepth, cs[0].sx, cs[0].sy] + CdtValues(cs[1..]) ==
           [cs[0].bitDepth] + ([cs[0].sx, cs[0].sy] + CdtValues(cs[1..]));
  }

  lemma CdtWidthsStep(n: nat)
    requires n > 0
    ensures CdtWidths(n) == [8] + ([4, 4] + CdtWidths(n - 1))
  {
    assert [8, 4, 4] + CdtWidths(n - 1) == [8] + ([4, 4] + CdtWidths(n - 1));
  }

  lemma {:induction false} CdtPacked(cs: seq<Component>)
    requires forall i | 0 <= i < |cs| :: cs[i].sx < 16 && cs[i].sy < 16
    ensures Packed(CdtValues(cs), CdtWidths(|cs|)) == CdtBytes(cs)
  {
    hide Packed, Sum, CdtValues, CdtWidths, CdtBytes;
    if cs != [] {
      CdtPacked(cs[1..]);
      PackedByte(cs[0].bitDepth);
      PackedNibbles(cs[0].sx, cs[0].sy);
      CdtBytesStep(cs);
      CdtValuesStep(cs);
      CdtWidthsStep(|cs|);
      var v, w := CdtValues(cs[1..]), CdtWidths(|cs| - 1);
      PackedAppend([cs[0].sx, cs[0].sy], [4, 4], v, w);
      PackedAppend([cs[0].bitDepth], [8], [cs[0].sx, cs[0].sy] + v, [4, 4] + w);
    } else {
      NoComponents();
    }
  }

  lemma NoComponents()
    ensures Packed(CdtValues([]), CdtWidths(0)) == CdtBytes([])
  {
    hide Pack, Zip, FieldsBits;
    NothingPacked();
  }

  /** Gain, then priority of every band that exists. */
  function WeightBytes(exists_: seq<bool>, w: seq<BandWeights>): seq<int>
    requires |w| == |exists_|
  {
    if w == [] then []
    else (if exists_[0] then [w[0].gain, w[0].priority] else []) + WeightBytes(exists_[1..], w[1..])
  }

  lemma {:induction false} ListedWeights(exists_: seq<bool>, w: seq<BandWeights>)
    requires |w| == |exists_|
    ensures WeightValues(exists_, w) == WeightBytes(exists_, w)
  {
    if w != [] {
      ListedWeights(exists_[1..], w[1..]);
    }
  }

  /** Bands that exist have their gain and priority, one byte each. */
  lemma WeightsLayout(exists_: seq<bool>, w: seq<BandWeights>)
    requires |w| == |exists_| && WeightsPayload(exists_, w).Ok?
    ensures WeightsPayload(exists_, w).value == WeightBytes(exists_, w)
  {
    hide FieldsBits, Pack, Zip, Fit;
    WeightBytesSmall(exists_, w);
    PackedBytes(WeightValues(exists_, w));
    PairsOfEights(Count(exists_));
    ListedWeights(exists_, w);
  }

  lemma {:induction false} WeightBytesSmall(exists_: seq<bool>, w: seq<BandWeights>)
    requires |w| == |exists_|
    ensures forall i | 0 <= i < |WeightValues(exists_, w)| :: WeightValues(exists_, w)[i] < 0x100
  {
    if w != [] {
      WeightBytesSmall(exists_[1..], w[1..]);
    }
  }

  lemma {:induction false} PairsOfEights(n: nat)
    ensures WeightWidths(n) == seq(2 * n, _ => 8)
  {
    if n > 0 {
      PairsOfEights(n - 1);
      assert WeightWidths(n) == [8, 8] + WeightWidths(n - 1);
    }
  }

  lemma CtsLayout(c: Cts)
    requires CtsPayload(c).Ok?
    ensures CtsPayload(c).value == [c.cf, 16 * c.e1 + c.e2]
  {
    hide FieldsBits, Pack, Sum, Pow2;
    SmallPowers();
    var f := Zip([0, c.cf, c.e1, c.e2], [4, 4, 4, 4]);
    assert f[1].value < Pow2(4) && f[2].value < Pow2(4) && f[3].value < Pow2(4);
    PackedNibbles(0, c.cf);
    PackedNibbles(c.e1, c.e2);
    PackedAppend([0, c.cf], [4, 4], [c.e1, c.e2], [4, 4]);
    assert [0, c.cf] + [c.e1, c.e2] == [0, c.cf, c.e1, c.e2] && [4, 4] + [4, 4] == [4, 4, 4, 4];
  }

  /** The quadratic curve has its type and DCO in two's complement, the extended one its thresholds and slope. */
  lemma NltLayout(n: Nlt)
    requires NltPayload(n).Ok? && (n.kind == 1 || n.kind == 2)
    ensures NltPayload(n).value ==
            if n.kind == 1 then [1] + U16Bytes(if n.dco < 0 then 0x1_0000 + n.dco else n.dco)
            else [2] + U32Bytes(n.t1) + U32Bytes(n.t2) + [n.e]
  {
    hide FieldsBits, Pack, Sum, Zip, Pow2;
    PackedByte(n.kind);
    if n.kind == 1 {
      var sign, alpha := if n.dco < 0 then 1 else 0, n.dco + if n.dco < 0 then 0x8000 else 0;
      SignedWord(sign, alpha);
      PackedAppend([1], [8], [sign, alpha], [1, 15]);
      assert [1] + [sign, alpha] == [1, sign, alpha] && [8] + [1, 15] == [8, 1, 15];
    } else {
      PackedDouble(n.t1);
      PackedDouble(n.t2);
      PackedByte(n.e);
      PackedAppend([n.t2], [32], [n.e], [8]);
      PackedAppend([n.t1], [32], [n.t2] + [n.e], [32] + [8]);
      PackedAppend([2], [8], [n.t1] + ([n.t2] + [n.e]), [32] + ([32] + [8]));
      assert [2] + ([n.t1] + ([n.t2] + [n.e])) == [2, n.t1, n.t2, n.e] && [8] + ([32] + ([32] + [8])) == [8, 32, 32, 8];
      assert U32Bytes(n.t1) + (U32Bytes(n.t2) + [n.e]) == U32Bytes(n.t1) + U32Bytes(n.t2) + [n.e];
    }
  }

  lemma SignedWord(sign: nat, alpha: nat)
    requires sign < 2 && alpha < 0x8000
    ensures Packed([sign, alpha], [1, 15]) == U16Bytes(0x8000 * sign + alpha)
  {
    hide FieldsBits, Pow2, Pack;
    SmallPowers();
    SevenBits();
    WordPowers();
    TwoFields(sign, 1, alpha, 15);
    var bits := FieldsBits(Zip([sign, alpha], [1, 15]));
    ValueField(bits);
    PackedWord(0x8000 * sign + alpha);
    OneField(0x8000 * sign + alpha, 16);
  }

  /** Per component: both offsets, two bytes each. */
  function CrgWords(x: seq<u16>, y: seq<u16>): seq<int>
    requires |x| == |y|
  {
    if x == [] then [] else U16Bytes(x[0]) + U16Bytes(y[0]) + CrgWords(x[1..], y[1..])
  }

  lemma {:induction false} CrgLayout(c: Crg)
    requires |c.x| == |c.y|
    ensures Packed(CrgValues(c), CrgWidths(|c.x|)) == CrgWords(c.x, c.y)
    decreases |c.x|
  {
    hide FieldsBits, Pack, Sum, Zip;
    if c.x != [] {
      var rest := Crg(c.x[1..], c.y[1..]);
      CrgLayout(rest);
      PackedWord(c.x[0]);
      PackedWord(c.y[0]);
      var v, w := CrgValues(rest), CrgWidths(|c.x| - 1);
      PackedAppend([c.y[0]], [16], v, w);
      PackedAppend([c.x[0]], [16], [c.y[0]] + v, [16] + w);
      assert [c.x[0]] + ([c.y[0]] + v) == CrgValues(c);
      assert [16] + ([16] + w) == CrgWidths(|c.x|);
    } else {
      NothingPacked();
    }
  }

  // ---- the stream up to its tables -------------------------------------------------------------------

  /** A marker segment: marker, length of the rest, payload. */
  function SegmentOf(marker: nat, payload: seq<int>): seq<int> {
    [marker / 0x100, marker % 0x100, (|payload| + 2) / 0x100, (|payload| + 2) % 0x100] + payload
  }

  /** Capability i is bit i of CAP, counted from the left. */
  lemma CapLayout(cap: u32, i: nat)
    requires i < 8 * |HeaderCodec.CapPayload(cap)|
    ensures Bits(HeaderCodec.CapPayload(cap))[i] <==> HeaderTypes.Has(cap, i)
  {
    hide ByteOf, Bits, Has;
    var bits := HeaderCodec.CapBits(cap, 8 * HeaderCodec.CapBytes(cap));
    PackBits(bits);
    assert Bits(Pack(bits))[i] == bits[i];
  }

  lemma SegmentLayout(s: Segment)
    requires s.marker < 0x1_0000 && SegmentBytes(s).Ok?
    ensures SegmentBytes(s).value == SegmentOf(s.marker, s.payload)
  {
  }

  lemma FirstSegment(s: Segment, rest: seq<Segment>)
    requires MarkersOk([s] + rest) && SegmentsBytes([s] + rest).Ok?
    ensures s.marker < 0x1_0000 && MarkersOk(rest) && SegmentsBytes(rest).Ok?
    ensures SegmentsBytes([s] + rest).value == SegmentOf(s.marker, s.payload) + SegmentsBytes(rest).value
  {
    assert ([s] + rest)[1..] == rest;
    assert ([s] + rest)[0] == s;
    forall i | 0 <= i < |rest|
      ensures rest[i].marker < 0x1_0000
    {
      assert ([s] + rest)[i + 1] == rest[i];
    }
    SegmentLayout(s);
  }

  lemma CdtLayout(h: Headers)
    requires Valid(h) && Payload(CdtValues(h.components), CdtWidths(|h.components|)).Ok?
    ensures Payload(CdtValues(h.components), CdtWidths(|h.components|)).value == CdtBytes(h.components)
  {
    hide ComputeBandLayout, BandTablesOk, SizesOk, FieldsBits, Pack, Fit;
    CdtPacked(h.components);
  }

  // ---- slices, precincts and packets -----------------------------------------------------------------

  lemma SliceLayout(s: PrecinctHeaders.SliceHeader)
    ensures PrecinctHeaders.WriteSlice(s) == [0xFF, if s.tdc then 0x21 else 0x20, 0, 4, s.ysl / 0x100, s.ysl % 0x100]
  {
  }

  /** Modes four to a byte, two bits each, first one leftmost. */
  function ModeBytes(v: seq<nat>): seq<int> {
    if v == [] then []
    else [ModeByte(v)] + if |v| <= 4 then [] else ModeBytes(v[4..])
  }

  /** The first four modes. */
  function ModeByte(v: seq<nat>): int {
    64 * ModeAt(v, 0) + 16 * ModeAt(v, 1) + 4 * ModeAt(v, 2) + ModeAt(v, 3)
  }

  function ModeAt(v: seq<nat>, i: nat): nat {
    if i < |v| then v[i] else 0
  }

  function Twos(n: nat): (r: seq<nat>)
    ensures |r| == n
  {
    seq(n, _ => 2)
  }

  lemma TwosSum(n: nat)
    requires n <= 4
    ensures Sum(Twos(n)) == 2 * n
  {
    if n > 0 {
      assert Twos(n) == [2] + Twos(n - 1);
      TwosSum(n - 1);
    }
  }

  lemma TwosSplit(v: seq<nat>)
    requires |v| >= 4
    ensures Packed(v, Twos(|v|)) == Packed(v[..4], Twos(4)) + Packed(v[4..], Twos(|v| - 4))
  {
    hide Packed, Sum;
    TwosSum(4);
    PackedAppend(v[..4], Twos(4), v[4..], Twos(|v| - 4));
    assert v[..4] + v[4..] == v && Twos(4) + Twos(|v| - 4) == Twos(|v|);
  }

  lemma ThreeTwos(a: nat, b: nat, c: nat)
    requires a < 4 && b < 4 && c < 4
    ensures var bits := FieldsBits(Zip([a, b, c], [2, 2, 2])); |bits| == 6 && Value(bits) == 16 * a + 4 * b + c
  {
    hide FieldsBits, Pow2;
    SmallPowers();
    TwoFields(b, 2, c, 2);
    PrependField(a, 2, [b, c], [2, 2]);
    assert [a] + [b, c] == [a, b, c] && [2] + [2, 2] == [2, 2, 2];
  }

  predicate Modes(v: seq<nat>) {
    forall i | 0 <= i < |v| :: v[i] < 4
  }

  lemma FourTwos(v: seq<nat>)
    requires |v| == 4 && Modes(v)
    ensures Packed(v, Twos(4)) == [ModeByte(v)]
  {
    hide FieldsBits, Pow2, FieldBits, Pack, Value;
    SmallPowers();
    SevenBits();
    ThreeTwos(v[1], v[2], v[3]);
    var w := [v[0], v[1], v[2], v[3]];
    PrependField(v[0], 2, [v[1], v[2], v[3]], [2, 2, 2]);
    assert [v[0]] + [v[1], v[2], v[3]] == w && [2] + [2, 2, 2] == [2, 2, 2, 2];
    assert v == w && Twos(4) == [2, 2, 2, 2];
    PackOctet(FieldsBits(Zip(v, Twos(4))));
  }

  lemma FewTwos(v: seq<nat>)
    requires 0 < |v| < 4 && Modes(v)
    ensures Packed(v, Twos(|v|)) == [ModeByte(v)]
  {
    hide FieldsBits, Pow2, FieldBits, Pack, Value;
    SmallPowers();
    SevenBits();
    var bits := FieldsBits(Zip(v, Twos(|v|)));
    if |v| == 1 {
      assert v == [v[0]] && Twos(1) == [2];
      OneField(v[0], 2);
      FieldValue(v[0], 2);
    } else if |v| == 2 {
      assert v == [v[0], v[1]] && Twos(2) == [2, 2];
      TwoFields(v[0], 2, v[1], 2);
    } else {
      assert v == [v[0], v[1], v[2]] && Twos(3) == [2, 2, 2];
      ThreeTwos(v[0], v[1], v[2]);
    }
    PackPadded(bits);
  }

  lemma {:induction false} ModesPacked(v: seq<nat>)
    requires Modes(v)
    ensures Packed(v, Twos(|v|)) == ModeBytes(v)
  {
    hide Packed, Twos, ModeByte;
    if v == [] {
      NothingPacked();
      assert Twos(0) == [];
    } else if |v| < 4 {
      FewTwos(v);
    } else if |v| == 4 {
      FourTwos(v);
    } else {
      TwosSplit(v);
      FourTwos(v[..4]);
      FirstFour(v);
      ModesPacked(v[4..]);
    }
  }

  lemma FirstFour(v: seq<nat>)
    requires |v| >= 4
    ensures ModeByte(v[..4]) == ModeByte(v)
  {
  }

  /** A precinct header of an intra slice: Lprc, Q, R, and D of every existing band. */
  lemma PrecinctHeaderLayout(exists_: seq<bool>, h: PrecinctHeaders.PrecinctHeader)
    requires PrecinctHeaders.Shaped(exists_, h, false) && PrecinctHeaders.Write(exists_, h, false).Ok?
    ensures PrecinctHeaders.Write(exists_, h, false).value ==
            U24Bytes(h.lprc) + [h.q, h.r] + ModeBytes(PrecinctHeaders.ModeValues(exists_, h.d))
  {
    hide FieldsBits, Pack, Sum, Zip, ModeBytes;
    var v := PrecinctHeaders.ModeValues(exists_, h.d);
    ModesPacked(v);
    TwosAreWidths(|v|);
    PackedTriple(h.lprc);
    PackedByte(h.q);
    PackedByte(h.r);
    PackedAppend([h.r], [8], v, Twos(|v|));
    PackedAppend([h.q], [8], [h.r] + v, [8] + Twos(|v|));
    PackedAppend([h.lprc], [24], [h.q] + ([h.r] + v), [8] + ([8] + Twos(|v|)));
    assert [h.lprc] + ([h.q] + ([h.r] + v)) == PrecinctHeaders.Values(exists_, h, false);
    assert [24] + ([8] + ([8] + Twos(|v|))) == PrecinctHeaders.Widths(exists_, false);
    assert U24Bytes(h.lprc) + ([h.q] + ([h.r] + ModeBytes(v))) == U24Bytes(h.lprc) + [h.q, h.r] + ModeBytes(v);
  }

  lemma {:induction false} TwosAreWidths(n: nat)
    ensures PrecinctHeaders.ModeWidths(n) == Twos(n)
  {
    if n > 0 {
      TwosAreWidths(n - 1);
      assert PrecinctHeaders.ModeWidths(n) == [2] + PrecinctHeaders.ModeWidths(n - 1);
      assert Twos(n) == [2] + Twos(n - 1);
    }
  }

  lemma {:induction false} NumberOfBytes(bits: seq<bool>)
    requires |bits| % 8 == 0
    ensures BigEndian(Pack(bits)) == Value(bits)
  {
    hide Pack, Value;
    if bits == [] {
      EmptyNumber();
    } else {
      var n := |bits| - 8;
      var a, b := bits[..n], bits[n..];
      assert bits == a + b;
      NumberOfBytes(a);
      PackAppend(a, b);
      PackOctet(b);
      ValueConcat(a, b);
      WordPowers();
      assert (Pack(a) + [Value(b)])[..|Pack(a)|] == Pack(a);
    }
  }

  lemma EmptyNumber()
    ensures BigEndian(Pack([])) == Value([])
  {
  }

  /** Table C.4: one number of 40 or 56 bits with Dr on top, then Ldat, Lcnt and Lsgn. */
  lemma PacketHeaderLayout(h: PacketHeaders.PacketHeader, short: bool)
    requires PacketHeaders.Write(h, short).Ok?
    ensures var n := BigEndian(PacketHeaders.Write(h, short).value);
            var dr := if h.dr then 1 else 0;
            if short then n == ((dr * 0x8000 + h.ldat) * 0x2000 + h.lcnt) * 0x800 + h.lsgn
            else n == ((dr * 0x10_0000 + h.ldat) * 0x10_0000 + h.lcnt) * 0x8000 + h.lsgn
  {
    hide FieldsBits, FieldBits, Pow2, Value, Pack, BigEndian;
    SmallPowers();
    SevenBits();
    var w := PacketHeaders.LengthWidths(short);
    var dr: nat := if h.dr then 1 else 0;
    TwoFields(h.lcnt, w[1], h.lsgn, w[2]);
    PrependField(h.ldat, w[0], [h.lcnt, h.lsgn], [w[1], w[2]]);
    assert [h.ldat] + [h.lcnt, h.lsgn] == [h.ldat, h.lcnt, h.lsgn] && [w[0]] + [w[1], w[2]] == [w[0], w[1], w[2]];
    PrependField(dr, 1, [h.ldat, h.lcnt, h.lsgn], [w[0], w[1], w[2]]);
    assert [dr] + [h.ldat, h.lcnt, h.lsgn] == [dr, h.ldat, h.lcnt, h.lsgn] && [1] + [w[0], w[1], w[2]] == [1, w[0], w[1], w[2]];
    assert PacketHeaders.HeaderFields(h, short) == Zip([dr, h.ldat, h.lcnt, h.lsgn], [1, w[0], w[1], w[2]]);
    Pow2Add(w[1], w[2]);
    Pow2Add(w[0], w[1] + w[2]);
    NumberOfBytes(FieldsBits(Zip([dr, h.ldat, h.lcnt, h.lsgn], [1, w[0], w[1], w[2]])));
  }
}
