// What the bitplane counts of a line cost, and what they are predicted from: the line above in the same precinct, the
// last line of the precinct above, or the truncation position.
module CountCosts {
  import opened Wrappers
  import opened Arith
  import opened BitIO
  import opened Vlc
  import opened Precinct

  function Falses(n: nat): (r: seq<bool>)
    ensures |r| == n
  {
    seq(n, _ => false)
  }

  function Trues(n: nat): (r: seq<bool>)
    ensures |r| == n
  {
    seq(n, _ => true)
  }

  // ---- the line above --------------------------------------------------------------------------------

  /** The counts above a line and the truncation position they were coded at. */
  ghost predicate LiesBelow(cx: Context, e: Entry, m: Counts, above: seq<nat>, top: nat)
    requires cx.Ok() && cx.sh.EntryOk(e)
  {
    var b := e.band;
    && |above| == cx.sh.Groups(b)
    && if e.line > cx.sh.starts[b] then above == LineCounts(cx.sh, m, Entry(b, e.line - 1)) && top == cx.t[b]
       else cx.st.valid && b < |cx.st.lastLine| && b < |cx.st.tAbove| && above == cx.st.lastLine[b] && top == cx.st.tAbove[b]
  }

  /** What is left of the line above at this precinct's truncation. */
  function Kept(above: seq<nat>, t: nat, top: nat): (r: seq<nat>)
    ensures |r| == |above|
  {
    seq(|above|, g requires 0 <= g < |above| => Max(above[g], Max(t, top)))
  }

  /** Codewords of residuals, each in the context of its prediction, first group first. */
  function Codewords(line: seq<nat>, predicted: seq<nat>, t: nat): seq<bool>
    requires |line| == |predicted| && forall g | 0 <= g < |line| :: t <= line[g]
  {
    if line == [] then [] else
    Representable(line[0], predicted[0], t);
    Code(line[0] as int - predicted[0], predicted[0], t) + Codewords(line[1..], predicted[1..], t)
  }

  lemma {:induction false} CodewordsFrom(t: nat, line: seq<nat>, predicted: seq<nat>, g: nat)
    requires g <= |line| == |predicted| && forall i | 0 <= i < |line| :: t <= line[i]
    ensures CodedLineBits(t, line, predicted, [], g) == Ok(Codewords(line[g..], predicted[g..], t))
    decreases |line| - g
  {
    hide Code, Theta;
    if g < |line| {
      Representable(line[g], predicted[g], t);
      CodewordsFrom(t, line, predicted, g + 1);
      assert line[g..][1..] == line[g + 1..] && predicted[g..][1..] == predicted[g + 1..];
    }
  }

  /** D = 0: every group is predicted from T. */
  lemma PlainLine(cx: Context, e: Entry, m: Counts)
    requires cx.Ok() && cx.sh.EntryOk(e) && cx.d[e.band] == 0
    requires var line := LineCounts(cx.sh, m, e); forall g | 0 <= g < |line| :: cx.t[e.band] <= line[g]
    ensures var line := LineCounts(cx.sh, m, e);
            LineBits(cx, e, false, m) == Ok(([], Codewords(line, seq(|line|, _ => cx.t[e.band]), cx.t[e.band])))
  {
    hide LineCounts, CodedLineBits, Codewords;
    var line := LineCounts(cx.sh, m, e);
    var predicted := seq(|line|, _ => cx.t[e.band]);
    CodewordsFrom(cx.t[e.band], line, predicted, 0);
    assert line[0..] == line && predicted[0..] == predicted;
  }

  /** D = 1: group g is predicted from group g of the line above, clipped at both truncation positions. */
  lemma VerticalLine(cx: Context, e: Entry, m: Counts, above: seq<nat>, top: nat)
    requires cx.Ok() && cx.sh.EntryOk(e) && cx.d[e.band] == 1 && LiesBelow(cx, e, m, above, top)
    requires var line := LineCounts(cx.sh, m, e); forall g | 0 <= g < |line| :: cx.t[e.band] <= line[g]
    ensures var line := LineCounts(cx.sh, m, e);
            LineBits(cx, e, false, m) == Ok(([], Codewords(line, Kept(above, cx.t[e.band], top), cx.t[e.band])))
  {
    hide LineCounts, CodedLineBits, Codewords;
    var line, t := LineCounts(cx.sh, m, e), cx.t[e.band];
    var predicted := Kept(above, t, top);
    assert Predicted(cx, e, m) == Ok(predicted);
    CodewordsFrom(t, line, predicted, 0);
    assert line[0..] == line && predicted[0..] == predicted;
  }

  lemma {:induction false} EqualCostsNothing(line: seq<nat>, t: nat)
    requires forall g | 0 <= g < |line| :: t <= line[g]
    ensures Codewords(line, line, t) == Falses(|line|)
  {
    if line != [] {
      EqualCostsNothing(line[1..], t);
      assert Code(0, line[0], t) == [false];
    }
  }

  lemma KeptWhole(above: seq<nat>, t: nat, top: nat)
    requires forall g | 0 <= g < |above| :: Max(t, top) <= above[g]
    ensures Kept(above, t, top) == above
  {
  }

  /** A line equal to the line above costs one zero bit per code group. */
  lemma SameAsAbove(cx: Context, e: Entry, m: Counts, above: seq<nat>, top: nat)
    requires cx.Ok() && cx.sh.EntryOk(e) && cx.d[e.band] == 1 && LiesBelow(cx, e, m, above, top)
    requires LineCounts(cx.sh, m, e) == above && forall g | 0 <= g < |above| :: Max(cx.t[e.band], top) <= above[g]
    ensures LineBits(cx, e, false, m) == Ok(([], Falses(|above|)))
  {
    hide LineCounts, LineBits, Codewords, Kept;
    KeptWhole(above, cx.t[e.band], top);
    VerticalLine(cx, e, m, above, top);
    EqualCostsNothing(above, cx.t[e.band]);
  }

  lemma {:induction false} ReadFalses(cx: Context, b: nat, predicted: seq<nat>, acc: seq<int>, tail: seq<bool>)
    requires b < |cx.t| && |acc| <= |predicted| && acc == predicted[..|acc|]
    ensures ReadCodedLine(cx, b, predicted, [], acc, Falses(|predicted| - |acc|) + tail) == Ok((predicted, tail))
    decreases |predicted| - |acc|
  {
    hide Theta;
    var g := |acc|;
    var bits := Falses(|predicted| - g) + tail;
    if g < |predicted| {
      assert bits[0] == false && bits[1..] == Falses(|predicted| - (g + 1)) + tail;
      assert ReadUnary(0, Pow2(cx.md.br + 1), bits) == Ok((0, bits[1..]));
      assert ReadCode(predicted[g], cx.t[b], cx.md.br, bits) == Ok((0, bits[1..]));
      ReadFalses(cx, b, predicted, acc + [predicted[g]], tail);
    } else {
      assert bits == tail && predicted == acc;
    }
  }

  /** One zero bit per code group repeats the line above, as far as truncation keeps it. */
  lemma ZerosRepeatAbove(cx: Context, e: Entry, m: Counts, above: seq<nat>, top: nat, tail: seq<bool>)
    requires cx.Ok() && cx.sh.EntryOk(e) && cx.d[e.band] == 1 && LiesBelow(cx, e, m, above, top)
    requires InRange(Kept(above, cx.t[e.band], top), cx.md.br)
    ensures ReadLine(cx, e, false, [], m, Falses(|above|) + tail) == Ok((Kept(above, cx.t[e.band], top), tail))
  {
    hide LineCounts, ReadCodedLine, InRange;
    assert Predicted(cx, e, m) == Ok(Kept(above, cx.t[e.band], top));
    ReadFalses(cx, e.band, Kept(above, cx.t[e.band], top), [], tail);
  }

  /** D = 0: one zero bit per code group sets every count to T. */
  lemma ZerosMeanT(cx: Context, e: Entry, m: Counts, tail: seq<bool>)
    requires cx.Ok() && cx.sh.EntryOk(e) && cx.d[e.band] == 0 && cx.t[e.band] < Pow2(cx.md.br)
    ensures var n := cx.sh.Groups(e.band); ReadLine(cx, e, false, [], m, Falses(n) + tail) == Ok((seq(n, _ => cx.t[e.band]), tail))
  {
    hide LineCounts, ReadCodedLine;
    ReadFalses(cx, e.band, seq(cx.sh.Groups(e.band), _ => cx.t[e.band]), [], tail);
  }

  /** The first line of a precinct lies below the last line of the precinct above, and below its truncation position. */
  lemma BelowPrecinct(cx: Context, e: Entry, m: Counts, sh: Shape, m0: Counts, t0: seq<nat>)
    requires cx.Ok() && cx.sh.EntryOk(e) && e.line == cx.sh.starts[e.band]
    requires sh.Ok() && sh.Bands() == cx.sh.Bands() == |t0| && sh.lines[e.band] > 0 && sh.Groups(e.band) == cx.sh.Groups(e.band)
    requires cx.st == NextState(sh, m0, t0)
    ensures var last := Entry(e.band, sh.starts[e.band] + sh.lines[e.band] - 1);
            sh.EntryOk(last) && LiesBelow(cx, e, m, LineCounts(sh, m0, last), t0[e.band])
  {
    hide LineCounts;
  }

  /** A first line equal to the last line of the precinct above costs one zero bit per code group. */
  lemma SameAsPrecinctAbove(cx: Context, e: Entry, m: Counts, sh: Shape, m0: Counts, t0: seq<nat>)
    requires cx.Ok() && cx.sh.EntryOk(e) && e.line == cx.sh.starts[e.band] && cx.d[e.band] == 1
    requires sh.Ok() && sh.Bands() == cx.sh.Bands() == |t0| && sh.lines[e.band] > 0 && sh.Groups(e.band) == cx.sh.Groups(e.band)
    requires cx.st == NextState(sh, m0, t0)
    requires var above := LineCounts(sh, m0, Entry(e.band, sh.starts[e.band] + sh.lines[e.band] - 1));
             LineCounts(cx.sh, m, e) == above && forall g | 0 <= g < |above| :: Max(cx.t[e.band], t0[e.band]) <= above[g]
    ensures LineBits(cx, e, false, m) == Ok(([], Falses(cx.sh.Groups(e.band))))
  {
    hide LineCounts, LineBits, LiesBelow, NextState;
    BelowPrecinct(cx, e, m, sh, m0, t0);
    SameAsAbove(cx, e, m, LineCounts(sh, m0, Entry(e.band, sh.starts[e.band] + sh.lines[e.band] - 1)), t0[e.band]);
  }

  /** Clause C.2: in the first precinct row of a slice there is nothing to predict vertically from. */
  lemma NothingAbove(cx: Context, e: Entry, m: Counts, z: seq<bool>, bits: seq<bool>)
    requires cx.Ok() && cx.sh.EntryOk(e) && e.line == cx.sh.starts[e.band] && !cx.st.valid && cx.d[e.band] in {1, 3}
    ensures LineBits(cx, e, false, m) == Err(NoPredictor) && ReadLine(cx, e, false, z, m, bits) == Err(NoPredictor)
  {
  }

  // ---- significance ----------------------------------------------------------------------------------

  /** What a silent group is taken to hold (Tables C.15 and C.16). */
  function Inferred(cx: Context, b: nat, predicted: seq<nat>): (r: seq<nat>)
    requires b < |cx.t|
    ensures |r| == |predicted|
  {
    if cx.md.runToT then seq(|predicted|, _ => cx.t[b]) else predicted
  }

  /** Prediction of a line with or without a line above. */
  ghost predicate PredictedBy(cx: Context, e: Entry, m: Counts, predicted: seq<nat>)
    requires cx.Ok() && cx.sh.EntryOk(e)
  {
    || (cx.d[e.band] == 2 && predicted == seq(cx.sh.Groups(e.band), _ => cx.t[e.band]))
    || (cx.d[e.band] == 3 && exists above, top :: LiesBelow(cx, e, m, above, top) && predicted == Kept(above, cx.t[e.band], top))
  }

  lemma PredictionIs(cx: Context, e: Entry, m: Counts, predicted: seq<nat>)
    requires cx.Ok() && cx.sh.EntryOk(e) && PredictedBy(cx, e, m, predicted)
    ensures Predicted(cx, e, m) == Ok(predicted) && cx.Significance(e.band) && |predicted| == cx.sh.Groups(e.band)
  {
    hide LineCounts;
    if cx.d[e.band] == 3 {
      var above, top :| LiesBelow(cx, e, m, above, top) && predicted == Kept(above, cx.t[e.band], top);
      assert predicted == Kept(above, cx.t[e.band], top);
    }
  }

  /** One flag per eight groups, set exactly when the decoder would infer all of them. */
  lemma FlagMeaning(cx: Context, e: Entry, m: Counts, predicted: seq<nat>)
    requires cx.Ok() && cx.sh.EntryOk(e) && PredictedBy(cx, e, m, predicted) && LineBits(cx, e, false, m).Ok?
    ensures var line, z := LineCounts(cx.sh, m, e), LineBits(cx, e, false, m).value.0;
            && |z| == CeilDiv(|line|, 8)
            && forall j | 0 <= j < |z| :: z[j] <==>
                 forall g | 8 * j <= g < Min(|line|, 8 * j + 8) :: line[g] == Inferred(cx, e.band, predicted)[g]
  {
    hide LineCounts, CodedLineBits, Predicted, PredictedBy;
    PredictionIs(cx, e, m, predicted);
  }

  lemma {:induction false} SilentBits(t: nat, line: seq<nat>, predicted: seq<nat>, z: seq<bool>, g: nat)
    requires g <= |line| == |predicted| && forall i: nat | i < |line| :: Flagged(z, i)
    ensures CodedLineBits(t, line, predicted, z, g) == Ok([])
    decreases |line| - g
  {
    hide Flagged;
    if g < |line| {
      SilentBits(t, line, predicted, z, g + 1);
    }
  }

  lemma AllFlagged(n: nat)
    ensures forall g: nat | g < n :: Flagged(Trues(CeilDiv(n, 8)), g)
  {
  }

  /** A line that can be inferred costs its flags, all set, and nothing else. */
  lemma SilentLine(cx: Context, e: Entry, m: Counts, predicted: seq<nat>)
    requires cx.Ok() && cx.sh.EntryOk(e) && PredictedBy(cx, e, m, predicted)
    requires LineCounts(cx.sh, m, e) == Inferred(cx, e.band, predicted)
    ensures LineBits(cx, e, false, m) == Ok((Trues(CeilDiv(|predicted|, 8)), []))
  {
    hide LineCounts, CodedLineBits, Predicted, PredictedBy, Flagged;
    PredictionIs(cx, e, m, predicted);
    var line := LineCounts(cx.sh, m, e);
    var z := FlagsOf(cx, e.band, line, predicted);
    assert z == Trues(CeilDiv(|line|, 8));
    AllFlagged(|line|);
    SilentBits(cx.t[e.band], line, predicted, z, 0);
  }

  lemma {:induction false} ReadSilent(cx: Context, b: nat, predicted: seq<nat>, z: seq<bool>, acc: seq<int>, bits: seq<bool>)
    requires b < |cx.t| && |acc| <= |predicted| && acc == Inferred(cx, b, predicted)[..|acc|]
    requires forall g: nat | g < |predicted| :: Flagged(z, g)
    ensures ReadCodedLine(cx, b, predicted, z, acc, bits) == Ok((Inferred(cx, b, predicted), bits))
    decreases |predicted| - |acc|
  {
    hide Flagged;
    var g := |acc|;
    if g < |predicted| {
      assert Silent(cx, b, predicted[g]) == Inferred(cx, b, predicted)[g];
      assert acc + [Silent(cx, b, predicted[g])] == Inferred(cx, b, predicted)[..g + 1];
      ReadSilent(cx, b, predicted, z, acc + [Silent(cx, b, predicted[g])], bits);
    } else {
      assert acc == Inferred(cx, b, predicted);
    }
  }

  /** Set flags alone bring back the inferred line, and no other bit is consumed. */
  lemma SilentLineRead(cx: Context, e: Entry, m: Counts, predicted: seq<nat>, bits: seq<bool>)
    requires cx.Ok() && cx.sh.EntryOk(e) && PredictedBy(cx, e, m, predicted)
    requires InRange(Inferred(cx, e.band, predicted), cx.md.br)
    ensures ReadLine(cx, e, false, Trues(CeilDiv(|predicted|, 8)), m, bits) == Ok((Inferred(cx, e.band, predicted), bits))
  {
    hide LineCounts, ReadCodedLine, Predicted, PredictedBy, Flagged, InRange;
    PredictionIs(cx, e, m, predicted);
    AllFlagged(|predicted|);
    ReadSilent(cx, e.band, predicted, Trues(CeilDiv(|predicted|, 8)), [], bits);
  }

  // ---- raw mode --------------------------------------------------------------------------------------

  lemma SliceBehind(a: seq<bool>, b: seq<bool>, at: nat, n: nat)
    requires at + n <= |b|
    ensures (a + b)[|a| + at..|a| + at + n] == b[at..at + n]
  {
  }

  lemma NextRaw(br: nat, line: seq<nat>)
    requires line != []
    ensures RawLineBits(br, line) == FieldBits(line[0], br) + RawLineBits(br, line[1..])
  {
  }

  /** Raw mode: the count of group g is the g-th field of Br bits. */
  lemma {:induction false} RawFieldAt(br: nat, line: seq<nat>, g: nat)
    requires g < |line|
    ensures var bits := RawLineBits(br, line);
            Mul(g, br) + br <= |bits| && bits[Mul(g, br)..Mul(g, br) + br] == FieldBits(line[g], br)
  {
    hide RawLineBits, FieldBits, Mul;
    NextRaw(br, line);
    var first, rest := FieldBits(line[0], br), RawLineBits(br, line[1..]);
    if g == 0 {
      MulZero(0, br);
      assert (first + rest)[0..br] == first;
    } else {
      MulOneMore(g, br);
      RawFieldAt(br, line[1..], g - 1);
      SliceBehind(first, rest, Mul(g - 1, br), br);
    }
  }

  lemma RawCountAt(br: nat, line: seq<nat>, g: nat)
    requires g < |line| && InRange(line, br)
    ensures var bits := RawLineBits(br, line);
            Mul(g, br) + br <= |bits| && Value(bits[Mul(g, br)..Mul(g, br) + br]) == line[g]
  {
    hide RawLineBits, FieldBits, Mul, Value, Pow2;
    RawFieldAt(br, line, g);
    FieldValue(line[g], br);
  }
}
