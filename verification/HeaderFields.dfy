// Payloads of the header segments (A.4): fields out, fields back in.
module HeaderFields {
  import opened Wrappers
  import opened Arith
  import opened BitIO
  import opened HeaderTypes

  // ---- payloads made of fixed fields -----------------------------------------------------------------

  function Zip(values: seq<nat>, widths: seq<nat>): (r: seq<Fixed>)
    requires |values| == |widths|
    ensures |r| == |values|
  {
    seq(|values|, i requires 0 <= i < |values| => Fixed(values[i], widths[i]))
  }

  /** Fields written MSB first; a value wider than its field is refused. */
  function Payload(values: seq<nat>, widths: seq<nat>): Result<seq<byte>>
    requires |values| == |widths|
  {
    if Fit(Zip(values, widths)) then Ok(Pack(FieldsBits(Zip(values, widths)))) else Err(FieldTooWide)
  }

  /** The fields of a payload of exactly their size. */
  function ParsePayload(widths: seq<nat>, payload: seq<byte>): (r: Result<seq<nat>>)
    ensures r.Ok? ==> |r.value| == |widths|
  {
    if 8 * |payload| != Sum(widths) then Err(BadHeader) else
    var (values, _) :- ReadFields(widths, Bits(payload));
    Ok(values)
  }

  lemma ZipParts(values: seq<nat>, widths: seq<nat>)
    requires |values| == |widths|
    ensures WidthsOf(Zip(values, widths)) == widths && ValuesOf(Zip(values, widths)) == values
  {
  }

  /** A written payload has the size its fields add up to and reads back. */
  lemma PayloadRoundTrip(values: seq<nat>, widths: seq<nat>)
    requires |values| == |widths| && Sum(widths) % 8 == 0 && Payload(values, widths).Ok?
    ensures 8 * |Payload(values, widths).value| == Sum(widths)
    ensures ParsePayload(widths, Payload(values, widths).value) == Ok(values)
  {
    hide FieldsBits, ReadFields, Bits, Fit, Sum, Zip, WidthsOf, ValuesOf, ByteOf;
    var fields := Zip(values, widths);
    var bits := FieldsBits(fields);
    ZipParts(values, widths);
    FieldsBitsLength(fields);
    PackBits(bits);
    assert Bits(Pack(bits)) == bits + [];
    FieldsRoundTrip(fields, []);
  }

  lemma {:induction false} SumConcat(a: seq<nat>, b: seq<nat>)
    ensures Sum(a + b) == Sum(a) + Sum(b)
  {
    if a == [] {
      assert a + b == b;
    } else {
      assert (a + b)[0] == a[0] && (a + b)[1..] == a[1..] + b;
      SumConcat(a[1..], b);
    }
  }

  /** n records of the same widths. */
  function Repeat(widths: seq<nat>, n: nat): (r: seq<nat>)
    ensures |r| == Mul(n, |widths|)
  {
    if n == 0 then [] else
    MulOneMore(n, |widths|);
    widths + Repeat(widths, n - 1)
  }

  lemma {:induction false} SumRepeat(widths: seq<nat>, n: nat)
    ensures Sum(Repeat(widths, n)) == Mul(n, Sum(widths))
  {
    if n > 0 {
      MulOneMore(n, Sum(widths));
      SumConcat(widths, Repeat(widths, n - 1));
      SumRepeat(widths, n - 1);
    }
  }

  /** Casts of what was read. */
  function ToU8(v: nat): u8 {
    v % 0x100
  }

  function ToU16(v: nat): u16 {
    v % 0x1_0000
  }

  function ToU32(v: nat): u32 {
    v % 0x1_0000_0000
  }

  // ---- PIH -------------------------------------------------------------------------------------------

  const PIH_SIZES: seq<nat> := [32, 16, 16, 16, 16, 16, 16, 8]
  const PIH_DEPTHS: seq<nat> := [8, 8, 8, 4, 4, 1, 3, 4]
  const PIH_MODES: seq<nat> := [4, 4, 1, 1, 2, 2, 2]

  const PIH_WIDTHS: seq<nat> := PIH_SIZES + (PIH_DEPTHS + PIH_MODES)

  function PihValues(p: PictureHeader): (v: seq<nat>)
    ensures |v| == |PIH_WIDTHS|
  {
    [p.lcod, p.ppih, p.plev, p.wf, p.hf, p.cw, p.hsl, p.nc, p.ng, p.ss, p.bw, p.fq, p.br, p.fslc, p.ppoc, p.cpih,
     p.nlx, p.nly, p.lh, p.rl, p.qpih, p.fs, p.rm]
  }

  function PihOf(v: seq<nat>): PictureHeader
    requires |v| == |PIH_WIDTHS|
  {
    PictureHeader(ToU32(v[0]), ToU16(v[1]), ToU16(v[2]), ToU16(v[3]), ToU16(v[4]), ToU16(v[5]), ToU16(v[6]),
                  ToU8(v[7]), ToU8(v[8]), ToU8(v[9]), ToU8(v[10]), ToU8(v[11]), ToU8(v[12]), ToU8(v[13]), ToU8(v[14]),
                  ToU8(v[15]), ToU8(v[16]), ToU8(v[17]), ToU8(v[18]), ToU8(v[19]), ToU8(v[20]), ToU8(v[21]), ToU8(v[22]))
  }

  lemma PihBack(p: PictureHeader)
    ensures PihOf(PihValues(p)) == p
  {
  }

  lemma PihSize()
    ensures Sum(PIH_WIDTHS) == 192
  {
    hide Sum;
    SumConcat(PIH_SIZES, PIH_DEPTHS + PIH_MODES);
    SumConcat(PIH_DEPTHS, PIH_MODES);
    SumEight([32, 16, 16, 16], [16, 16, 16, 8]);
    SumEight([8, 8, 8, 4], [4, 1, 3, 4]);
    SumConcat([4, 4, 1, 1], [2, 2, 2]);
    SumFour(4, 4, 1, 1);
    SumThree(2, 2, 2);
    assert PIH_MODES == [4, 4, 1, 1] + [2, 2, 2];
  }

  lemma SumEight(a: seq<nat>, b: seq<nat>)
    requires |a| == |b| == 4
    ensures Sum([a[0], a[1], a[2], a[3], b[0], b[1], b[2], b[3]]) == a[0] + a[1] + a[2] + a[3] + b[0] + b[1] + b[2] + b[3]
  {
    hide Sum;
    SumConcat(a, b);
    SumFour(a[0], a[1], a[2], a[3]);
    SumFour(b[0], b[1], b[2], b[3]);
    assert a == [a[0], a[1], a[2], a[3]] && b == [b[0], b[1], b[2], b[3]];
    assert a + b == [a[0], a[1], a[2], a[3], b[0], b[1], b[2], b[3]];
  }

  lemma SumThree(a: nat, b: nat, c: nat)
    ensures Sum([a, b, c]) == a + b + c
  {
    assert [a, b, c][1..] == [b, c] && [b, c][1..] == [c] && [c][1..] == [];
    assert Sum([c]) == c;
    assert Sum([b, c]) == b + c;
  }

  lemma SumFour(a: nat, b: nat, c: nat, d: nat)
    ensures Sum([a, b, c, d]) == a + b + c + d
  {
    assert [a, b, c, d][1..] == [b, c, d];
    SumThree(b, c, d);
  }

  lemma SumTwo(a: nat, b: nat)
    ensures Sum([a, b]) == a + b
  {
    assert [a, b][1..] == [b] && [b][1..] == [];
    assert Sum([b]) == b;
  }

  function ParsePih(payload: seq<byte>): Result<PictureHeader> {
    var v :- ParsePayload(PIH_WIDTHS, payload);
    Ok(PihOf(v))
  }

  lemma PihRoundTrip(p: PictureHeader)
    requires Payload(PihValues(p), PIH_WIDTHS).Ok?
    ensures ParsePih(Payload(PihValues(p), PIH_WIDTHS).value) == Ok(p)
  {
    hide Payload, ParsePayload, PihValues, PihOf, Sum;
    PihSize();
    PayloadRoundTrip(PihValues(p), PIH_WIDTHS);
    PihBack(p);
  }

  // ---- CDT -------------------------------------------------------------------------------------------

  function CdtValues(cs: seq<Component>): (v: seq<nat>)
    ensures |v| == 3 * |cs|
  {
    if cs == [] then [] else [cs[0].bitDepth, cs[0].sx, cs[0].sy] + CdtValues(cs[1..])
  }

  function CdtOf(n: nat, v: seq<nat>): (cs: seq<Component>)
    requires |v| == 3 * n
    ensures |cs| == n
  {
    if n == 0 then [] else [Component(ToU8(v[0]), ToU8(v[1]), ToU8(v[2]))] + CdtOf(n - 1, v[3..])
  }

  lemma {:induction false} CdtBack(cs: seq<Component>)
    ensures CdtOf(|cs|, CdtValues(cs)) == cs
  {
    if cs != [] {
      CdtBack(cs[1..]);
      assert CdtValues(cs)[3..] == CdtValues(cs[1..]);
    }
  }

  function CdtWidths(n: nat): (w: seq<nat>)
    ensures |w| == 3 * n
  {
    Repeat([8, 4, 4], n)
  }

  lemma CdtSize(n: nat)
    ensures Sum(CdtWidths(n)) == 16 * n && Sum(CdtWidths(n)) % 8 == 0
  {
    hide Sum, Repeat;
    SumRepeat([8, 4, 4], n);
    SumThree(8, 4, 4);
    WholeBytes(n);
  }

  lemma WholeBytes(n: nat)
    ensures Mul(n, 16) == 16 * n && Mul(n, 32) == 32 * n && (16 * n) % 8 == 0 && (32 * n) % 8 == 0
  {
    assert 16 * n == 8 * (2 * n) && 32 * n == 8 * (4 * n);
  }

  function ParseCdt(nc: nat, payload: seq<byte>): (r: Result<seq<Component>>)
    ensures r.Ok? ==> |r.value| == nc
  {
    var v :- ParsePayload(CdtWidths(nc), payload);
    Ok(CdtOf(nc, v))
  }

  lemma CdtRoundTrip(cs: seq<Component>)
    requires Payload(CdtValues(cs), CdtWidths(|cs|)).Ok?
    ensures ParseCdt(|cs|, Payload(CdtValues(cs), CdtWidths(|cs|)).value) == Ok(cs)
  {
    hide Payload, ParsePayload, CdtValues, CdtOf, Sum, CdtWidths, Mul, Repeat;
    var values, widths := CdtValues(cs), CdtWidths(|cs|);
    CdtSize(|cs|);
    PayloadRoundTrip(values, widths);
    CdtBack(cs);
    assert ParsePayload(widths, Payload(values, widths).value) == Ok(values);
  }

  // ---- WGT and WGR -----------------------------------------------------------------------------------

  function Count(exists_: seq<bool>): nat {
    if exists_ == [] then 0 else (if exists_[0] then 1 else 0) + Count(exists_[1..])
  }

  /** Gain and priority of every existing band. */
  function WeightValues(exists_: seq<bool>, w: seq<BandWeights>): (v: seq<nat>)
    requires |w| == |exists_|
    ensures |v| == 2 * Count(exists_)
  {
    if w == [] then [] else
    (if exists_[0] then [w[0].gain, w[0].priority] else []) + WeightValues(exists_[1..], w[1..])
  }

  const NO_WEIGHTS := BandWeights(0, 0)

  function WeightsOf(exists_: seq<bool>, v: seq<nat>): (w: seq<BandWeights>)
    requires |v| == 2 * Count(exists_)
    ensures |w| == |exists_|
  {
    if exists_ == [] then []
    else if exists_[0] then [BandWeights(ToU8(v[0]), ToU8(v[1]))] + WeightsOf(exists_[1..], v[2..])
    else [NO_WEIGHTS] + WeightsOf(exists_[1..], v)
  }

  /** The table with the entries of missing bands cleared. */
  function Present(exists_: seq<bool>, w: seq<BandWeights>): (r: seq<BandWeights>)
    requires |w| == |exists_|
    ensures |r| == |w|
  {
    seq(|w|, b requires 0 <= b < |w| => if exists_[b] then w[b] else NO_WEIGHTS)
  }

  lemma {:induction false} WeightsBack(exists_: seq<bool>, w: seq<BandWeights>)
    requires |w| == |exists_|
    ensures WeightsOf(exists_, WeightValues(exists_, w)) == Present(exists_, w)
  {
    if w != [] {
      WeightsBack(exists_[1..], w[1..]);
      var v := WeightValues(exists_, w);
      if exists_[0] {
        assert v[2..] == WeightValues(exists_[1..], w[1..]);
      } else {
        assert v == WeightValues(exists_[1..], w[1..]);
      }
      assert Present(exists_, w)[1..] == Present(exists_[1..], w[1..]);
    }
  }

  function WeightWidths(n: nat): (w: seq<nat>)
    ensures |w| == 2 * n
  {
    Repeat([8, 8], n)
  }

  lemma WeightSize(n: nat)
    ensures Sum(WeightWidths(n)) == 16 * n && Sum(WeightWidths(n)) % 8 == 0
  {
    hide Sum, Repeat;
    SumRepeat([8, 8], n);
    SumTwo(8, 8);
    WholeBytes(n);
  }

  predicate GainsOk(w: seq<BandWeights>) {
    forall b | 0 <= b < |w| :: w[b].gain <= 15
  }

  function WeightsPayload(exists_: seq<bool>, w: seq<BandWeights>): Result<seq<byte>>
    requires |w| == |exists_|
  {
    Payload(WeightValues(exists_, w), WeightWidths(Count(exists_)))
  }

  function ParseWeights(exists_: seq<bool>, payload: seq<byte>): (r: Result<seq<BandWeights>>)
    ensures r.Ok? ==> |r.value| == |exists_|
  {
    var v :- ParsePayload(WeightWidths(Count(exists_)), payload);
    var w := WeightsOf(exists_, v);
    if GainsOk(w) then Ok(w) else Err(BadHeader)
  }

  lemma WeightsRoundTrip(exists_: seq<bool>, w: seq<BandWeights>)
    requires |w| == |exists_| && WeightsPayload(exists_, w).Ok?
    ensures ParseWeights(exists_, WeightsPayload(exists_, w).value) ==
            if GainsOk(Present(exists_, w)) then Ok(Present(exists_, w)) else Err(BadHeader)
  {
    hide Payload, ParsePayload, WeightValues, WeightsOf, Sum, WeightWidths, Present, GainsOk;
    WeightSize(Count(exists_));
    PayloadRoundTrip(WeightValues(exists_, w), WeightWidths(Count(exists_)));
    WeightsBack(exists_, w);
  }

  /** Magnitude bits and a sign bit of the given weight. */
  function Signed(alpha: int, sigma: int, weight: int): int {
    alpha - sigma * weight
  }

  // ---- NLT -------------------------------------------------------------------------------------------

  /** Quadratic: sign and 15 bits of DCO. Extended: thresholds and slope. */
  function NltPayload(n: Nlt): Result<seq<byte>> {
    if n.kind == 1 then
      var alpha := n.dco + if n.dco < 0 then 0x8000 else 0;
      if 0 <= alpha < 0x8000 then Payload([n.kind, if n.dco < 0 then 1 else 0, alpha], [8, 1, 15]) else Err(BadHeader)
    else Payload([n.kind, n.t1, n.t2, n.e], [8, 32, 32, 8])
  }

  function ParseNlt(payload: seq<byte>): Result<Nlt> {
    if |payload| == 3 then
      var v :- ParsePayload([8, 1, 15], payload);
      if v[0] != 1 then Err(BadHeader) else Ok(Nlt(1, Signed(v[2], v[1], 0x8000), 0, 0, 1))
    else if |payload| == 10 then
      var v :- ParsePayload([8, 32, 32, 8], payload);
      if v[0] != 2 || v[3] < 1 || v[3] > 4 then Err(BadHeader) else Ok(Nlt(2, 0, ToU32(v[1]), ToU32(v[2]), ToU8(v[3])))
    else Err(BadHeader)
  }

  /** Fields of the other type take their defaults. */
  function NltKept(n: Nlt): Nlt {
    if n.kind == 1 then Nlt(1, n.dco, 0, 0, 1) else Nlt(2, 0, n.t1, n.t2, n.e)
  }

  lemma NltRoundTrip(n: Nlt)
    requires (n.kind == 1 || n.kind == 2) && NltPayload(n).Ok?
    ensures ParseNlt(NltPayload(n).value) == if n.kind == 1 || 1 <= n.e <= 4 then Ok(NltKept(n)) else Err(BadHeader)
  {
    hide Payload, ParsePayload, Sum;
    SumThree(8, 1, 15);
    SumFour(8, 32, 32, 8);
    if n.kind == 1 {
      var alpha := n.dco + if n.dco < 0 then 0x8000 else 0;
      PayloadRoundTrip([n.kind, if n.dco < 0 then 1 else 0, alpha], [8, 1, 15]);
    } else {
      PayloadRoundTrip([n.kind, n.t1, n.t2, n.e], [8, 32, 32, 8]);
    }
  }

  // ---- CTS, CRG, TPC, COM ----------------------------------------------------------------------------

  function CtsPayload(c: Cts): Result<seq<byte>> {
    Payload([0, c.cf, c.e1, c.e2], [4, 4, 4, 4])
  }

  function ParseCts(payload: seq<byte>): Result<Cts> {
    var v :- ParsePayload([4, 4, 4, 4], payload);
    if v[0] != 0 then Err(BadHeader) else Ok(Cts(ToU8(v[1]), ToU8(v[2]), ToU8(v[3])))
  }

  lemma CtsRoundTrip(c: Cts)
    requires CtsPayload(c).Ok?
    ensures ParseCts(CtsPayload(c).value) == Ok(c)
  {
    hide Payload, ParsePayload, Sum;
    SumFour(4, 4, 4, 4);
    PayloadRoundTrip([0, c.cf, c.e1, c.e2], [4, 4, 4, 4]);
  }

  function CrgValues(c: Crg): (v: seq<nat>)
    requires |c.x| == |c.y|
    ensures |v| == 2 * |c.x|
    decreases |c.x|
  {
    if c.x == [] then [] else [c.x[0], c.y[0]] + CrgValues(Crg(c.x[1..], c.y[1..]))
  }

  function CrgOf(n: nat, v: seq<nat>): (c: Crg)
    requires |v| == 2 * n
    ensures |c.x| == |c.y| == n
  {
    if n == 0 then Crg([], []) else
    var rest := CrgOf(n - 1, v[2..]);
    Crg([ToU16(v[0])] + rest.x, [ToU16(v[1])] + rest.y)
  }

  lemma {:induction false} CrgBack(c: Crg)
    requires |c.x| == |c.y|
    ensures CrgOf(|c.x|, CrgValues(c)) == c
    decreases |c.x|
  {
    if c.x != [] {
      var rest := Crg(c.x[1..], c.y[1..]);
      CrgBack(rest);
      assert CrgValues(c)[2..] == CrgValues(rest);
      assert c.x == [c.x[0]] + rest.x && c.y == [c.y[0]] + rest.y;
    } else {
      assert c == Crg([], []);
    }
  }

  function CrgWidths(n: nat): (w: seq<nat>)
    ensures |w| == 2 * n
  {
    Repeat([16, 16], n)
  }

  lemma CrgSize(n: nat)
    ensures Sum(CrgWidths(n)) == 32 * n && Sum(CrgWidths(n)) % 8 == 0
  {
    hide Sum, Repeat;
    SumRepeat([16, 16], n);
    SumTwo(16, 16);
    WholeBytes(n);
  }

  function ParseCrg(nc: nat, payload: seq<byte>): Result<Crg> {
    var v :- ParsePayload(CrgWidths(nc), payload);
    Ok(CrgOf(nc, v))
  }

  lemma CrgRoundTrip(c: Crg)
    requires |c.x| == |c.y| && Payload(CrgValues(c), CrgWidths(|c.x|)).Ok?
    ensures ParseCrg(|c.x|, Payload(CrgValues(c), CrgWidths(|c.x|)).value) == Ok(c)
  {
    hide Payload, ParsePayload, CrgValues, CrgOf, Sum, CrgWidths;
    CrgSize(|c.x|);
    PayloadRoundTrip(CrgValues(c), CrgWidths(|c.x|));
    CrgBack(c);
  }

  /** Per-band pairs of TPC, all bands. */
  function PairValues(a: seq<u8>, b: seq<u8>): (v: seq<nat>)
    requires |a| == |b|
    ensures |v| == 2 * |a|
  {
    if a == [] then [] else [a[0], b[0]] + PairValues(a[1..], b[1..])
  }

  function PairsOf(n: nat, v: seq<nat>): (r: (seq<u8>, seq<u8>))
    requires |v| == 2 * n
    ensures |r.0| == |r.1| == n
  {
    if n == 0 then ([], []) else
    var rest := PairsOf(n - 1, v[2..]);
    ([ToU8(v[0])] + rest.0, [ToU8(v[1])] + rest.1)
  }

  lemma {:induction false} PairsBack(a: seq<u8>, b: seq<u8>)
    requires |a| == |b|
    ensures PairsOf(|a|, PairValues(a, b)) == (a, b)
  {
    if a != [] {
      PairsBack(a[1..], b[1..]);
      assert PairValues(a, b)[2..] == PairValues(a[1..], b[1..]);
      assert a == [a[0]] + a[1..] && b == [b[0]] + b[1..];
    }
  }

  /** Sign and low three bits of a value in -8..7. */
  function SignBit(q: int): nat {
    if q < 0 then 1 else 0
  }

  function LowBits(q: int): (r: nat)
    requires -8 <= q <= 7
  {
    q + if q < 0 then 8 else 0
  }

  const TPC_HEAD: seq<nat> := [8, 1, 3, 1, 3]

  function TpcPayload(t: Tpc): Result<seq<byte>>
    requires -8 <= t.qbi <= 7 && -8 <= t.qbr <= 7 && |t.yh| == |t.sh|
  {
    Payload([t.si, SignBit(t.qbi), LowBits(t.qbi), SignBit(t.qbr), LowBits(t.qbr)] + PairValues(t.yh, t.sh),
            TPC_HEAD + WeightWidths(|t.yh|))
  }

  function ParseTpc(numBands: nat, payload: seq<byte>): Result<Tpc> {
    var v :- ParsePayload(TPC_HEAD + WeightWidths(numBands), payload);
    var pairs := PairsOf(numBands, v[5..]);
    Ok(Tpc(ToU8(v[0]), Signed(v[2], v[1], 8), Signed(v[4], v[3], 8), pairs.0, pairs.1))
  }

  lemma TpcSize(n: nat)
    ensures Sum(TPC_HEAD + WeightWidths(n)) == 16 + 16 * n
  {
    hide Sum, Repeat;
    SumConcat(TPC_HEAD, WeightWidths(n));
    WeightSize(n);
    assert TPC_HEAD == [8, 1, 3] + [1, 3];
    SumConcat([8, 1, 3], [1, 3]);
    SumThree(8, 1, 3);
    SumTwo(1, 3);
  }

  lemma TpcRoundTrip(t: Tpc)
    requires -8 <= t.qbi <= 7 && -8 <= t.qbr <= 7 && |t.yh| == |t.sh| && TpcPayload(t).Ok?
    ensures ParseTpc(|t.yh|, TpcPayload(t).value) == Ok(t)
  {
    hide Payload, ParsePayload, PairValues, PairsOf, Sum, Repeat;
    var values := [t.si, SignBit(t.qbi), LowBits(t.qbi), SignBit(t.qbr), LowBits(t.qbr)] + PairValues(t.yh, t.sh);
    TpcSize(|t.yh|);
    PayloadRoundTrip(values, TPC_HEAD + WeightWidths(|t.yh|));
    PairsBack(t.yh, t.sh);
    assert values[5..] == PairValues(t.yh, t.sh);
  }

  function ComPayload(c: Com): seq<byte> {
    [c.kind / 256, c.kind % 256] + c.data
  }

  function ParseCom(payload: seq<byte>): Result<Com> {
    if |payload| < 2 then Err(BadHeader) else
    var high: nat, low: nat := payload[0], payload[1];
    Ok(Com(256 * high + low, payload[2..]))
  }

  lemma ComRoundTrip(c: Com)
    ensures ParseCom(ComPayload(c)) == Ok(c)
  {
    assert ComPayload(c)[2..] == c.data;
  }
}
