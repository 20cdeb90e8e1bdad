// Re-encoding a decoded precinct reproduces its bytes: bitplane counts survive dequantisation,
// indices survive requantisation, and zero values carry no sign.
module Reencoding {
  import opened Wrappers
  import opened Arith
  import opened Quantiser
  import opened Precinct
  import opened PrecinctTheorems

  function GroupSample(group: seq<int>, k: nat, t: nat, uniform: bool): int
    requires k < |group|
  {
    var m := CodedCount(group, t);
    Dequantise(Quantise(Abs(group[k]), m, t, uniform), group[k] < 0, m, t, uniform)
  }

  function ReconstructedGroup(group: seq<int>, t: nat, uniform: bool): (r: seq<int>)
    ensures |r| == |group|
  {
    seq(|group|, k requires 0 <= k < |group| => GroupSample(group, k, t, uniform))
  }

  lemma SampleFits(group: seq<int>, k: nat, t: nat, uniform: bool)
    requires k < |group|
    ensures Abs(group[k]) < Pow2(CodedCount(group, t))
    ensures Quantise(Abs(group[k]), CodedCount(group, t), t, uniform) < Pow2(CodedCount(group, t) - t)
    ensures Abs(GroupSample(group, k, t, uniform))
         == Magnitude(Quantise(Abs(group[k]), CodedCount(group, t), t, uniform), CodedCount(group, t), t, uniform)
    ensures Abs(GroupSample(group, k, t, uniform)) < Pow2(CodedCount(group, t))
  {
    var m := CodedCount(group, t);
    BitplaneCountLeast(group, m);
    hide BitplaneCountOf, Pow2, Quantise, Magnitude;
    QuantiseFits(Abs(group[k]), m, t, uniform);
    MagnitudeFits(Quantise(Abs(group[k]), m, t, uniform), m, t, uniform);
  }

  /** The bitplane count of a code group survives dequantisation. */
  lemma CountSurvives(group: seq<int>, t: nat, uniform: bool)
    ensures CodedCount(ReconstructedGroup(group, t, uniform), t) == CodedCount(group, t)
  {
    var m, after := CodedCount(group, t), ReconstructedGroup(group, t, uniform);
    forall k | 0 <= k < |after|
      ensures Abs(after[k]) < Pow2(m)
    {
      SampleFits(group, k, t, uniform);
    }
    BitplaneCountLeast(after, m);
    if m > t {
      BitplaneCountLeast(group, m - 1);
      var k :| 0 <= k < |group| && Abs(group[k]) >= Pow2(m - 1);
      SampleFits(group, k, t, uniform);
      TopBitSurvives(Abs(group[k]), m, t, uniform);
      assert Abs(after[k]) >= Pow2(m - 1);
      BitplaneCountLeast(after, m - 1);
    }
  }

  lemma ZeroQuantises(m: nat, t: nat, uniform: bool)
    requires t <= m
    ensures Quantise(0, m, t, uniform) == 0
  {
    DivUnique(0, Pow2(t), 0);
    DivUnique(Pow2(m), 2 * Pow2(m), 0);
  }

  /** Magnitude and sign of one value quantise as before. */
  lemma SampleRequantises(group: seq<int>, k: nat, t: nat, uniform: bool)
    requires k < |group|
    ensures var m, y := CodedCount(group, t), GroupSample(group, k, t, uniform);
            var v := Quantise(Abs(group[k]), m, t, uniform);
            Quantise(Abs(y), m, t, uniform) == v && (v != 0 ==> (y < 0 <==> group[k] < 0))
  {
    hide BitplaneCountOf, Pow2, Quantise, Magnitude, CodedCount;
    assert t <= CodedCount(group, t) by {
      CountAtLeast(group, t);
    }
    var m, y := CodedCount(group, t), GroupSample(group, k, t, uniform);
    SampleFits(group, k, t, uniform);
    Requantise(Quantise(Abs(group[k]), m, t, uniform), m, t, uniform);
    ZeroQuantises(m, t, uniform);
  }

  lemma CountAtLeast(group: seq<int>, t: nat)
    ensures t <= CodedCount(group, t)
  {
  }

  lemma GroupRequantises(group: seq<int>, t: nat, uniform: bool)
    ensures QuantiseGroup(ReconstructedGroup(group, t, uniform), CodedCount(group, t), t, uniform)
         == QuantiseGroup(group, CodedCount(group, t), t, uniform)
  {
    hide CodedCount, Quantise, GroupSample;
    var m, after := CodedCount(group, t), ReconstructedGroup(group, t, uniform);
    var x, y := QuantiseGroup(after, m, t, uniform), QuantiseGroup(group, m, t, uniform);
    forall k: nat | k < 4
      ensures x.v[k] == y.v[k] && x.s[k] == y.s[k]
    {
      if k < |group| {
        SampleRequantises(group, k, t, uniform);
      }
    }
    assert x.v == y.v && x.s == y.s;
  }

  lemma GroupsReconstruct(line: seq<int>, g: nat, t: nat, uniform: bool)
    requires g < CeilDiv(|line|, 4)
    ensures GroupOf(ReconstructedLine(line, t, uniform), g) == ReconstructedGroup(GroupOf(line, g), t, uniform)
  {
    hide CodedCount, Quantise, Dequantise;
    var after := ReconstructedLine(line, t, uniform);
    forall k: nat | k < |GroupOf(line, g)|
      ensures GroupOf(after, g)[k] == GroupSample(GroupOf(line, g), k, t, uniform)
    {
      assert (4 * g + k) / 4 == g;
    }
  }

  lemma LineRequantises(line: seq<int>, t: nat, uniform: bool)
    ensures QuantiseLine(ReconstructedLine(line, t, uniform), t, uniform) == QuantiseLine(line, t, uniform)
  {
    hide QuantiseGroup, CodedCount, ReconstructedLine, GroupOf, ReconstructedGroup;
    var after := ReconstructedLine(line, t, uniform);
    forall g: nat | g < CeilDiv(|line|, 4)
      ensures 4 * g <= |line|
      ensures CodedCount(GroupOf(after, g), t) == CodedCount(GroupOf(line, g), t)
      ensures QuantiseGroup(GroupOf(after, g), CodedCount(GroupOf(line, g), t), t, uniform)
           == QuantiseGroup(GroupOf(line, g), CodedCount(GroupOf(line, g), t), t, uniform)
    {
      GroupsReconstruct(line, g, t, uniform);
      CountSurvives(GroupOf(line, g), t, uniform);
      GroupRequantises(GroupOf(line, g), t, uniform);
    }
  }

  lemma GroupStillFits(group: seq<int>, k: nat, t: nat, uniform: bool, br: nat)
    requires k < |group| <= 4 && t < Pow2(br)
    requires forall i | 0 <= i < |group| :: Abs(group[i]) < Pow2(Pow2(br) - 1)
    ensures Abs(GroupSample(group, k, t, uniform)) < Pow2(Pow2(br) - 1)
  {
    hide Pow2, GroupSample, CodedCount;
    GroupQuantised(group, t, uniform, br);
    SampleFits(group, k, t, uniform);
    Pow2Monotone(CodedCount(group, t), Pow2(br) - 1);
  }

  lemma SampleOfGroup(line: seq<int>, x: nat, t: nat, uniform: bool)
    requires x < |line|
    ensures x % 4 < |GroupOf(line, x / 4)| <= 4
    ensures ReconstructedSample(line, x, t, uniform) == GroupSample(GroupOf(line, x / 4), x % 4, t, uniform)
  {
    hide CodedCount, Quantise, Dequantise;
    assert GroupOf(line, x / 4)[x % 4] == line[x];
  }

  lemma LineStillFits(line: seq<int>, t: nat, uniform: bool, br: nat)
    requires LineFits(line, br) && t < Pow2(br)
    ensures LineFits(ReconstructedLine(line, t, uniform), br)
  {
    hide Pow2, ReconstructedSample, GroupSample, GroupOf;
    forall x: nat | x < |line|
      ensures Abs(ReconstructedSample(line, x, t, uniform)) < Pow2(Pow2(br) - 1)
    {
      GroupWithin(line, x / 4, br);
      SampleOfGroup(line, x, t, uniform);
      GroupStillFits(GroupOf(line, x / 4), x % 4, t, uniform, br);
    }
  }

  /** Quantising the reconstruction gives the same counts, indices and signs. */
  lemma PrecinctRequantises(cx: Context, c: Coeffs)
    requires cx.Ok() && QuantisePrecinct(cx, c).Ok? && forall b | 0 <= b < |cx.t| :: cx.t[b] < Pow2(cx.md.br)
    ensures forall e | e in c :: e.band < |cx.t|
    ensures QuantisePrecinct(cx, Reconstructed(c, cx.t, cx.md.uniform)) == QuantisePrecinct(cx, c)
  {
    hide LineFits, QuantiseLine, Pow2, ReconstructedSample;
    var after := Reconstructed(c, cx.t, cx.md.uniform);
    assert after.Keys == c.Keys;
    forall e | e in c
      ensures |after[e]| == |c[e]| && LineFits(after[e], cx.md.br)
      ensures QuantiseLine(after[e], cx.t[e.band], cx.md.uniform) == QuantiseLine(c[e], cx.t[e.band], cx.md.uniform)
    {
      LineStillFits(c[e], cx.t[e.band], cx.md.uniform, cx.md.br);
      LineRequantises(c[e], cx.t[e.band], cx.md.uniform);
    }
    assert QuantiseAll(cx, after) == QuantiseAll(cx, c);
  }

  /**
   * Encoding what the decoder reconstructs from an encoded precinct, with the same choices and entry
   * state, gives the same bytes and the same state again.
   */
  lemma ReencodingIsExact(sh: Shape, md: Mode, weights: seq<Weight>, coding: Coding, c: Coeffs, st: State)
    requires sh.Ok() && |weights| == sh.Bands()
    requires Encode(sh, md, weights, coding, c, st).Ok?
    ensures forall e | e in c :: e.band < |weights|
    ensures var t := Truncations(weights, coding.q, coding.r, md.br);
            Encode(sh, md, weights, coding, Reconstructed(c, t, md.uniform), st) == Encode(sh, md, weights, coding, c, st)
  {
    hide QuantisePrecinct, Truncations, EncodeQuantised, RequestedRaw, Pow2;
    PrecinctRequantises(ContextOf(sh, md, weights, coding.q, coding.r, coding.d, st), c);
  }
}
