// Round trips of the pieces of a packet: bitplanes, signs, counts and significance flags of a line.
module PrecinctLines {
  import opened Wrappers
  import opened Arith
  import opened BitIO
  import opened Vlc
  import opened Precinct

  // ---- bitplanes -------------------------------------------------------------------------------

  /** v with its n lowest bits cleared. */
  function Top(v: nat, n: nat): nat {
    Shr(v, n) * Pow2(n)
  }

  lemma ShrStep(v: nat, n: nat)
    ensures Shr(v, n) == 2 * Shr(v, n + 1) + if Digit(v, n) then 1 else 0
  {
    ShrNext(v, n);
  }

  /** Reading bit n on top of the higher bits completes one more bit: the OR never meets a set bit. */
  lemma TopStep(v: nat, n: nat)
    ensures !Digit(Top(v, n + 1), n)
    ensures OrBit(Top(v, n + 1), n, Digit(v, n)) == Top(v, n)
  {
    ShrStep(v, n);
    var h, p, x := Shr(v, n + 1), Pow2(n), Top(v, n + 1);
    assert x == (2 * h) * p by {
      assert Pow2(n + 1) == 2 * p;
      TwiceProduct(h, p);
    }
    assert Shr(x, n) == 2 * h by {
      DivUnique(x, p, 2 * h);
    }
    hide Shr, Pow2;
    MulAdd(p, 2 * h, 1);
  }

  lemma TwiceProduct(a: int, b: int)
    ensures a * (2 * b) == (2 * a) * b
  {
  }

  function Tops(v: seq<nat>, n: nat): (r: seq<nat>)
    ensures |r| == |v|
  {
    seq(|v|, k requires 0 <= k < |v| => Top(v[k], n))
  }

  lemma {:induction false} PlanesRoundTrip(n: nat, v: seq<nat>, tail: seq<bool>)
    requires |v| == 4
    ensures ReadPlanes(n, Tops(v, n), PlaneBits(n, v) + tail) == Ok((v, tail))
  {
    var bits := PlaneBits(n, v) + tail;
    if n == 0 {
      assert Tops(v, 0) == v;
      assert bits == tail;
    } else {
      var more := PlaneBits(n - 1, v) + tail;
      var plane := [Digit(v[0], n - 1), Digit(v[1], n - 1), Digit(v[2], n - 1), Digit(v[3], n - 1)];
      assert bits == plane + more;
      assert bits[..4] == plane && bits[4..] == more;
      forall k | 0 <= k < 4
        ensures OrBit(Tops(v, n)[k], n - 1, plane[k]) == Tops(v, n - 1)[k]
      {
        TopStep(v[k], n - 1);
      }
      assert OrPlane(Tops(v, n), n - 1, plane) == Tops(v, n - 1);
      PlanesRoundTrip(n - 1, v, tail);
    }
  }

  /** What the data subpacket alone tells of a group: signs only when they travel with the data. */
  function DataGroup(group: Group, signsHere: bool): (r: Group)
    requires group.Ok()
    ensures r.Ok()
  {
    if signsHere then group else Group(group.v, ZERO_GROUP.s)
  }

  function DataPart(vals: Values, signsHere: bool): (r: Values)
    requires AllOk(vals)
    ensures |r| == |vals| && AllOk(r)
  {
    seq(|vals|, g requires 0 <= g < |vals| => DataGroup(vals[g], signsHere))
  }

  lemma NothingOnTop(v: seq<nat>, planes: nat)
    requires |v| == 4 && forall k | 0 <= k < 4 :: v[k] < Pow2(planes)
    ensures Tops(v, planes) == ZERO_GROUP.v
  {
    forall k | 0 <= k < 4
      ensures Top(v[k], planes) == 0
    {
      DivUnique(v[k], Pow2(planes), 0);
    }
  }

  lemma GroupRoundTrip(planes: nat, signsHere: bool, group: Group, tail: seq<bool>)
    requires group.Ok()
    requires forall k | 0 <= k < 4 :: group.v[k] < Pow2(planes)
    ensures ReadGroup(planes, signsHere, GroupBits(planes, signsHere, group) + tail)
         == Ok((DataGroup(group, signsHere), tail))
  {
    hide ReadPlanes, PlaneBits, Tops, Pow2;
    var v := group.v;
    NothingOnTop(v, planes);
    PlanesRoundTrip(planes, v, tail);
    var bits := GroupBits(planes, signsHere, group) + tail;
    if signsHere {
      assert bits == group.s + (PlaneBits(planes, v) + tail);
      assert bits[..4] == group.s && bits[4..] == PlaneBits(planes, v) + tail;
    } else {
      assert bits == PlaneBits(planes, v) + tail;
    }
  }

  /** A group without bitplanes holds nothing but zeros. */
  lemma EmptyGroup(group: Group, m: nat, t: nat)
    requires GroupFits(group, m, t) && m <= t
    ensures group == ZERO_GROUP
  {
    assert Pow2(0) == 1;
    assert group.v == ZERO_GROUP.v;
    assert group.s == ZERO_GROUP.s;
  }

  lemma {:induction false} ValuesRoundTrip(q: QLine, n: nat, t: nat, br: nat, signsHere: bool, g: nat, tail: seq<bool>)
    requires QLineOk(q, n, t, br) && g <= n
    ensures ReadValues(q.m, t, signsHere, DataPart(q.vals, signsHere)[..g], ValueBits(q, t, signsHere, g) + tail)
         == Ok((DataPart(q.vals, signsHere), tail))
    decreases n - g
  {
    hide Pow2, ReadGroup, GroupBits;
    var part := DataPart(q.vals, signsHere);
    var bits := ValueBits(q, t, signsHere, g) + tail;
    if g == n {
      assert part[..g] == part;
      assert bits == tail;
    } else {
      var more := ValueBits(q, t, signsHere, g + 1) + tail;
      assert part[..g + 1] == part[..g] + [part[g]];
      if q.m[g] <= t {
        EmptyGroup(q.vals[g], q.m[g], t);
        assert bits == more;
      } else {
        assert bits == GroupBits(q.m[g] - t, signsHere, q.vals[g]) + more;
        GroupRoundTrip(q.m[g] - t, signsHere, q.vals[g], more);
      }
      ValuesRoundTrip(q, n, t, br, signsHere, g + 1, tail);
    }
  }

  lemma {:induction false} GroupSignsRoundTrip(group: Group, k: nat, tail: seq<bool>)
    requires group.Ok() && k <= 4
    requires forall i | 0 <= i < 4 :: group.s[i] ==> group.v[i] > 0
    ensures ReadGroupSigns(group.v, group.s[..k], GroupSignBits(group, k) + tail) == Ok((group.s, tail))
    decreases 4 - k
  {
    var bits := GroupSignBits(group, k) + tail;
    if k == 4 {
      assert group.s[..k] == group.s;
      assert bits == tail;
    } else {
      var more := GroupSignBits(group, k + 1) + tail;
      assert group.s[..k + 1] == group.s[..k] + [group.s[k]];
      if group.v[k] != 0 {
        assert bits == [group.s[k]] + more;
      } else {
        assert bits == more;
      }
      GroupSignsRoundTrip(group, k + 1, tail);
    }
  }

  lemma {:induction false} LineSignsRoundTrip(vals: Values, g: nat, tail: seq<bool>)
    requires g <= |vals| && AllOk(vals)
    requires forall h, i | 0 <= h < |vals| && 0 <= i < 4 :: vals[h].s[i] ==> vals[h].v[i] > 0
    ensures ReadLineSigns(DataPart(vals, false), vals[..g], LineSignBits(vals, g) + tail) == Ok((vals, tail))
    decreases |vals| - g
  {
    hide GroupSignBits, ReadGroupSigns;
    var bits := LineSignBits(vals, g) + tail;
    if g == |vals| {
      assert vals[..g] == vals;
      assert bits == tail;
    } else {
      var more := LineSignBits(vals, g + 1) + tail;
      assert vals[..g + 1] == vals[..g] + [vals[g]];
      assert bits == GroupSignBits(vals[g], 0) + more;
      assert vals[g].s[..0] == [];
      GroupSignsRoundTrip(vals[g], 0, more);
      LineSignsRoundTrip(vals, g + 1, tail);
    }
  }

  // ---- counts ------------------------------------------------------------------------------------

  lemma {:induction false} RawLineRoundTrip(br: nat, line: seq<nat>, k: nat, tail: seq<bool>)
    requires k <= |line| && forall g | 0 <= g < |line| :: line[g] < Pow2(br)
    ensures ReadRawLine(br, |line|, line[..k], RawLineBits(br, line[k..]) + tail) == Ok((line, tail))
    decreases |line| - k
  {
    var bits := RawLineBits(br, line[k..]) + tail;
    if k == |line| {
      assert line[..k] == line;
      assert bits == tail;
    } else {
      var more := RawLineBits(br, line[k + 1..]) + tail;
      assert line[k..][1..] == line[k + 1..];
      assert bits == FieldBits(line[k], br) + more;
      ReadFieldBits(line[k], br, more);
      assert line[..k + 1] == line[..k] + [line[k]];
      RawLineRoundTrip(br, line, k + 1, tail);
    }
  }

  /** A silent group really has the count the decoder infers. */
  predicate SilentSound(cx: Context, b: nat, line: seq<nat>, predicted: seq<nat>, z: seq<bool>)
    requires b < |cx.t| && |line| == |predicted|
  {
    forall g | 0 <= g < |line| && Flagged(z, g) :: line[g] == Silent(cx, b, predicted[g])
  }

  lemma FlagsSound(cx: Context, b: nat, line: seq<nat>, predicted: seq<nat>)
    requires b < |cx.t| == |cx.d| && |line| == |predicted|
    ensures SilentSound(cx, b, line, predicted, FlagsOf(cx, b, line, predicted))
  {
    forall g | 0 <= g < |line| && Flagged(FlagsOf(cx, b, line, predicted), g)
      ensures line[g] == Silent(cx, b, predicted[g])
    {
      var j := g / 8;
      assert 8 * j <= g < 8 * j + 8;
    }
  }

  lemma {:induction false} CodedLineRoundTrip(cx: Context, b: nat, line: seq<nat>, predicted: seq<nat>, z: seq<bool>,
                                              g: nat, tail: seq<bool>)
    requires b < |cx.t| && g <= |line| == |predicted|
    requires CodedLineBits(cx.t[b], line, predicted, z, g).Ok?
    requires InRange(line, cx.md.br) && InRange(predicted, cx.md.br)
    requires SilentSound(cx, b, line, predicted, z)
    ensures ReadCodedLine(cx, b, predicted, z, line[..g], CodedLineBits(cx.t[b], line, predicted, z, g).value + tail)
         == Ok((line, tail))
    decreases |line| - g
  {
    hide Pow2, ReadUnary, ReadCode, Code;
    var bits := CodedLineBits(cx.t[b], line, predicted, z, g).value + tail;
    if g == |line| {
      assert line[..g] == line;
      assert bits == tail;
    } else {
      var more := CodedLineBits(cx.t[b], line, predicted, z, g + 1).value + tail;
      var x := line[g] as int - predicted[g];
      assert line[..g + 1] == line[..g] + [line[g]];
      if Flagged(z, g) {
        assert bits == more;
      } else {
        assert bits == Code(x, predicted[g], cx.t[b]) + more;
        CountResidual(line[g], predicted[g], cx.t[b], cx.md.br);
        CodeRoundTrip(x, predicted[g], cx.t[b], cx.md.br, more);
      }
      CodedLineRoundTrip(cx, b, line, predicted, z, g + 1, tail);
    }
  }

  /** Counts clamped to the truncation position can always be coded. */
  lemma {:induction false} CodedLineSucceeds(t: nat, line: seq<nat>, predicted: seq<nat>, z: seq<bool>, g: nat)
    requires g <= |line| == |predicted|
    requires forall h | 0 <= h < |line| :: t <= line[h]
    ensures CodedLineBits(t, line, predicted, z, g).Ok?
    decreases |line| - g
  {
    if g < |line| {
      Representable(line[g], predicted[g], t);
      CodedLineSucceeds(t, line, predicted, z, g + 1);
    }
  }
}
