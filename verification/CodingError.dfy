// How far decoded coefficients are from the coded ones, by Q, R and the gain and priority of their band.
module CodingError {
  import opened Wrappers
  import opened Arith
  import opened BitIO
  import opened Quantiser
  import opened Precinct
  import opened PrecinctRoundTrip
  import opened PrecinctTheorems

  // ---- Table C.12 ------------------------------------------------------------------------------------

  /** One more gain is one less Q. */
  lemma GainCountsSteps(g: nat, p: nat, q: nat, r: nat, br: nat)
    ensures Truncation(Weight(g + 1, p), q + 1, r, br) == Truncation(Weight(g, p), q, r, br)
  {
    hide Pow2;
  }

  /** A band without gain that R does not refine is truncated at Q, as far as bitplane counts go; at Q = 0 none is. */
  lemma PlainTruncation(w: Weight, q: nat, r: nat, br: nat)
    ensures w.gain == 0 && w.priority >= r ==> Truncation(w, q, r, br) == Min(q, Pow2(br) - 1)
    ensures Truncation(w, 0, r, br) == 0
  {
    hide Pow2;
  }

  /** R refines the bands of smaller priority by one step of Q and no others. */
  lemma PriorityRefines(w: Weight, q: nat, r: nat, br: nat)
    ensures w.priority < r ==> Truncation(w, q + 1, r, br) == Truncation(w, q, 0, br)
    ensures w.priority >= r ==> Truncation(w, q, r, br) == Truncation(w, q, 0, br)
  {
    hide Pow2;
  }

  /** Steps of Q left to a band. */
  function StepsLeft(w: Weight, q: nat, r: nat): nat {
    Max(0, q - w.gain - if w.priority < r then 1 else 0)
  }

  lemma TruncationAtMost(w: Weight, q: nat, r: nat, br: nat)
    ensures Truncation(w, q, r, br) <= StepsLeft(w, q, r)
    ensures Pow2(Truncation(w, q, r, br)) <= Pow2(StepsLeft(w, q, r))
  {
    Pow2Monotone(Truncation(w, q, r, br), StepsLeft(w, q, r));
  }

  // ---- samples ---------------------------------------------------------------------------------------

  /** The bitplane count coded for a group is the least one not below T that holds all its coefficients. */
  lemma CountIsLeast(line: seq<int>, t: nat, uniform: bool, g: nat, k: nat)
    requires g < CeilDiv(|line|, 4)
    ensures QuantiseLine(line, t, uniform).m[g] <= k <==>
            t <= k && forall x | 4 * g <= x < Min(|line|, 4 * g + 4) :: Abs(line[x]) < Pow2(k)
  {
    hide Pow2, QuantiseGroup, BitplaneCountOf;
    var group := GroupOf(line, g);
    BitplaneCountLeast(group, k);
    assert forall i | 0 <= i < |group| :: group[i] == line[4 * g + i];
    if forall i | 0 <= i < |group| :: Abs(group[i]) < Pow2(k) {
      forall x | 4 * g <= x < Min(|line|, 4 * g + 4)
        ensures Abs(line[x]) < Pow2(k)
      {
        assert group[x - 4 * g] == line[x];
      }
    }
  }

  /** y is a decoded c: a dead-zone value within half a step, or zero below one step; a uniform one within a step and M. */
  predicate Near(c: int, y: int, t: nat, m: nat, uniform: bool) {
    if uniform then Abs(y - c) <= Pow2(t) + m
    else if Abs(c) < Pow2(t) then y == 0
    else (y < 0 <==> c < 0) && 2 * Abs(y - c) <= Pow2(t)
  }

  lemma SampleNear(line: seq<int>, x: nat, t: nat, uniform: bool)
    requires x < |line|
    ensures Near(line[x], ReconstructedSample(line, x, t, uniform), t, CodedCount(GroupOf(line, x / 4), t), uniform)
  {
    var group := GroupOf(line, x / 4);
    var m, d := CodedCount(group, t), Abs(line[x]);
    BitplaneCountLeast(group, m);
    assert group[x % 4] == line[x];
    hide Pow2, Quantise, Magnitude, BitplaneCountOf;
    if m == t {
      NoPlanes(Quantise(d, m, t, uniform), m, t, uniform);
    } else if uniform {
      ErrorBound(d, m, t, true);
    } else {
      DeadZoneHalfStep(d, m, t);
    }
  }

  lemma NoPlanes(v: nat, m: nat, t: nat, uniform: bool)
    requires m <= t
    ensures Magnitude(v, m, t, uniform) == 0
  {
  }

  /** Errors of a band at Q and R: coarser or equal steps, as many as its gain and priority leave. */
  predicate WithinSteps(c: int, y: int, w: Weight, q: nat, r: nat, m: nat, uniform: bool) {
    var step := Pow2(StepsLeft(w, q, r));
    && (if uniform then Abs(y - c) <= step + m else Abs(y - c) < step)
    && (!uniform && Abs(c) >= step ==> (y < 0 <==> c < 0) && 2 * Abs(y - c) <= step)
  }

  lemma NearIsWithin(c: int, y: int, w: Weight, q: nat, r: nat, br: nat, m: nat, uniform: bool)
    requires Near(c, y, Truncation(w, q, r, br), m, uniform)
    ensures WithinSteps(c, y, w, q, r, m, uniform)
  {
    TruncationAtMost(w, q, r, br);
    hide Pow2, Truncation, StepsLeft;
  }

  /** Decoded coefficients stay within the steps of their bands. */
  ghost predicate AllWithin(c: Coeffs, out: Coeffs, weights: seq<Weight>, q: nat, r: nat, br: nat, uniform: bool)
    requires forall e | e in c :: e.band < |weights|
  {
    && out.Keys == c.Keys
    && forall e, x: nat | e in c && x < |c[e]| ::
         && |out[e]| == |c[e]|
         && WithinSteps(c[e][x], out[e][x], weights[e.band], q, r,
                        CodedCount(GroupOf(c[e], x / 4), Truncation(weights[e.band], q, r, br)), uniform)
  }

  lemma ReconstructedWithin(c: Coeffs, weights: seq<Weight>, q: nat, r: nat, br: nat, uniform: bool)
    requires forall e | e in c :: e.band < |weights|
    ensures AllWithin(c, Reconstructed(c, Truncations(weights, q, r, br), uniform), weights, q, r, br, uniform)
  {
    hide Truncation, ReconstructedSample, WithinSteps, GroupOf, CodedCount;
    forall e, x: nat | e in c && x < |c[e]|
      ensures WithinSteps(c[e][x], ReconstructedSample(c[e], x, Truncation(weights[e.band], q, r, br), uniform), weights[e.band],
                          q, r, CodedCount(GroupOf(c[e], x / 4), Truncation(weights[e.band], q, r, br)), uniform)
    {
      SampleNear(c[e], x, Truncation(weights[e.band], q, r, br), uniform);
      NearIsWithin(c[e][x], ReconstructedSample(c[e], x, Truncation(weights[e.band], q, r, br), uniform), weights[e.band], q, r, br,
                   CodedCount(GroupOf(c[e], x / 4), Truncation(weights[e.band], q, r, br)), uniform);
    }
  }

  /**
   * What a decoder makes of an encoded precinct: with the dead-zone quantiser a coefficient of a band is off by no more
   * than the steps of Q its gain leaves, halved once it reaches one step; with the uniform one by its bitplane count more.
   */
  lemma DecodedWithin(sh: Shape, md: Mode, weights: seq<Weight>, coding: Coding, c: Coeffs, st: State, filler: seq<byte>)
    requires sh.Ok() && |weights| == sh.Bands() && Complete(sh) && StateInRange(st, md.br)
    requires Encode(sh, md, weights, coding, c, st).Ok?
    ensures |coding.d| == sh.Bands() && forall e | e in c :: e.band < |weights|
    ensures var cx := ContextOf(sh, md, weights, coding.q, coding.r, coding.d, st);
            var r := Decode(cx, ZeroCoeffs(sh), Encode(sh, md, weights, coding, c, st).value.bytes + filler);
            r.Ok? && AllWithin(c, r.value.out, weights, coding.q, coding.r, md.br, md.uniform)
  {
    hide Encode, Decode, Truncation, AllWithin, Complete, StateInRange, ReconstructedLine;
    PrecinctRoundTrips(sh, md, weights, coding, c, st, ZeroCoeffs(sh), filler);
    ReconstructedWithin(c, weights, coding.q, coding.r, md.br, md.uniform);
  }
}
