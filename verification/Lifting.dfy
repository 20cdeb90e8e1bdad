// The reversible 5/3 filter on one line (Annex E): the two-array form with mirrored borders, and the
// in-place loops over a buffer with extension slots that compute it.
module Lifting {

  /** Whole-sample symmetric extension by one sample on each side. */
  function Mirror(i: int, z: nat): (j: nat)
    requires z >= 2 && -1 <= i <= z
    ensures j < z && j % 2 == i % 2
  {
    if i < 0 then -i else if i >= z then 2 * (z - 1) - i else i
  }

  /** Half the sum of both neighbours, rounded down. */
  function Predict(x: seq<int>, i: nat): int
    requires i < |x| && |x| >= 2
  {
    (x[Mirror(i - 1, |x|)] + x[Mirror(i + 1, |x|)]) / 2
  }

  /** A quarter of the sum of both neighbours, rounded to nearest. */
  function Update(x: seq<int>, i: nat): int
    requires i < |x| && |x| >= 2
  {
    (x[Mirror(i - 1, |x|)] + x[Mirror(i + 1, |x|)] + 2) / 4
  }

  /** Odd samples less (or plus) their prediction. */
  function LiftOdd(x: seq<int>, add: bool): (y: seq<int>)
    requires |x| >= 2
    ensures |y| == |x|
  {
    seq(|x|, i requires 0 <= i < |x| =>
      if i % 2 == 0 then x[i] else if add then x[i] + Predict(x, i) else x[i] - Predict(x, i))
  }

  function LiftEven(x: seq<int>, add: bool): (y: seq<int>)
    requires |x| >= 2
    ensures |y| == |x|
  {
    seq(|x|, i requires 0 <= i < |x| =>
      if i % 2 == 1 then x[i] else if add then x[i] + Update(x, i) else x[i] - Update(x, i))
  }

  function ForwardLine(x: seq<int>): (y: seq<int>)
    requires |x| >= 2
    ensures |y| == |x|
  {
    LiftEven(LiftOdd(x, false), true)
  }

  function InverseLine(y: seq<int>): (x: seq<int>)
    requires |y| >= 2
    ensures |x| == |y|
  {
    LiftOdd(LiftEven(y, false), true)
  }

  /** The prediction of an odd sample reads even samples only. */
  lemma SamePrediction(x: seq<int>, y: seq<int>, i: nat)
    requires |x| == |y| >= 2 && i < |x| && i % 2 == 1
    requires forall j | 0 <= j < |x| && j % 2 == 0 :: y[j] == x[j]
    ensures Predict(y, i) == Predict(x, i)
  {
    hide Mirror;
    assert Mirror(i - 1, |x|) % 2 == 0 && Mirror(i + 1, |x|) % 2 == 0;
  }

  lemma SameUpdate(x: seq<int>, y: seq<int>, i: nat)
    requires |x| == |y| >= 2 && i < |x| && i % 2 == 0
    requires forall j | 0 <= j < |x| && j % 2 == 1 :: y[j] == x[j]
    ensures Update(y, i) == Update(x, i)
  {
    hide Mirror;
    assert Mirror(i - 1, |x|) % 2 == 1 && Mirror(i + 1, |x|) % 2 == 1;
  }

  lemma LiftOddUndone(x: seq<int>, add: bool)
    requires |x| >= 2
    ensures LiftOdd(LiftOdd(x, add), !add) == x
  {
    hide Predict;
    var y := LiftOdd(x, add);
    forall i: nat | i < |x| && i % 2 == 1
      ensures Predict(y, i) == Predict(x, i)
    {
      SamePrediction(x, y, i);
    }
  }

  lemma LiftEvenUndone(x: seq<int>, add: bool)
    requires |x| >= 2
    ensures LiftEven(LiftEven(x, add), !add) == x
  {
    hide Update;
    var y := LiftEven(x, add);
    forall i: nat | i < |x| && i % 2 == 0
      ensures Update(y, i) == Update(x, i)
    {
      SameUpdate(x, y, i);
    }
  }

  /** The filter pair is perfectly reversible, both ways round. */
  lemma LineReversible(x: seq<int>)
    requires |x| >= 2
    ensures InverseLine(ForwardLine(x)) == x
    ensures ForwardLine(InverseLine(x)) == x
  {
    hide LiftOdd, LiftEven;
    LiftEvenUndone(LiftOdd(x, false), true);
    LiftOddUndone(x, false);
    LiftOddUndone(LiftEven(x, false), true);
    LiftEvenUndone(x, false);
  }

  // ---- the filters as weighted sums ------------------------------------------------------------------

  /** Of the two samples beside a neighbour of i, one is i. */
  lemma Beside(x: seq<int>, l: int, i: nat)
    requires |x| >= 2 && i < |x| && i % 2 == 0 && (l == i - 1 || l == i + 1)
    ensures var j := Mirror(l, |x|);
            && (Mirror(j - 1, |x|) == i || Mirror(j + 1, |x|) == i)
            && j % 2 == 1 && Predict(x, j) == (x[i] + x[Mirror(j - 1, |x|) + Mirror(j + 1, |x|) - i]) / 2
  {
  }

  lemma OddSample(x: seq<int>, j: nat)
    requires |x| >= 2 && j < |x|
    ensures LiftOdd(x, false)[j] == if j % 2 == 0 then x[j] else x[j] - Predict(x, j)
  {
    hide Predict;
  }

  lemma EvenSample(x: seq<int>, i: nat)
    requires |x| >= 2 && i < |x| && i % 2 == 0
    ensures var y := LiftOdd(x, false);
            ForwardLine(x)[i] == y[i] + (y[Mirror(i - 1, |x|)] + y[Mirror(i + 1, |x|)] + 2) / 4
  {
    hide LiftOdd, Mirror;
  }

  /** Arithmetic of the low-pass sample between odd samples o1 and o2, whose other neighbours are a and b. */
  lemma LowSum(e: int, o1: int, o2: int, a: int, b: int)
    ensures -2 <= 8 * (e + (o1 - (a + e) / 2 + (o2 - (e + b) / 2) + 2) / 4) - (6 * e + 2 * o1 + 2 * o2 - a - b) <= 6
  {
  }

  /** The sample behind neighbour l of i, seen from i; beyond the border the line is mirrored. */
  function Beyond(i: nat, l: nat, z: nat): (j: int)
    requires z >= 2 && l < z
  {
    Mirror(l - 1, z) + Mirror(l + 1, z) - i
  }

  /**
   * The 5/3 filters: an odd sample becomes (-1, 2, -1) / 2 of its neighbourhood, an even one (-1, 2, 6, 2, -1) / 8,
   * up to the rounding of the two integer steps.
   */
  lemma FilterTaps(x: seq<int>, i: nat)
    requires |x| >= 2 && i < |x|
    ensures var l, r := Mirror(i - 1, |x|), Mirror(i + 1, |x|);
            if i % 2 == 1 then 0 <= 2 * ForwardLine(x)[i] - (2 * x[i] - x[l] - x[r]) <= 1
            else 0 <= Beyond(i, l, |x|) < |x| && 0 <= Beyond(i, r, |x|) < |x|
                 && -2 <= 8 * ForwardLine(x)[i]
                          - (6 * x[i] + 2 * x[l] + 2 * x[r] - x[Beyond(i, l, |x|)] - x[Beyond(i, r, |x|)]) <= 6
  {
    hide Mirror, LiftOdd, ForwardLine;
    var l, r := Mirror(i - 1, |x|), Mirror(i + 1, |x|);
    if i % 2 == 1 {
      OddUnchanged(x, i);
      OddSample(x, i);
    } else {
      Beside(x, i - 1, i);
      Beside(x, i + 1, i);
      OddSample(x, l);
      OddSample(x, r);
      OddSample(x, i);
      EvenSample(x, i);
      LowSum(x[i], x[l], x[r], x[Beyond(i, l, |x|)], x[Beyond(i, r, |x|)]);
    }
  }

  lemma OddUnchanged(x: seq<int>, i: nat)
    requires |x| >= 2 && i < |x| && i % 2 == 1
    ensures ForwardLine(x)[i] == LiftOdd(x, false)[i]
  {
    hide LiftOdd;
  }

  // ---- in place ------------------------------------------------------------------------------------

  /** A work line of z samples at offset 2, with two extension slots on each side. */
  predicate IsLine(a: array<int>, z: nat) {
    z >= 2 && a.Length == z + 4
  }

  /** The slots mirror the samples. */
  predicate Extended(s: seq<int>, z: nat)
    requires z >= 2 && |s| == z + 4
  {
    s[1] == s[3] && s[0] == s[4] && s[z + 2] == s[z] && s[z + 3] == s[z - 1]
  }

  /** Fills the extension slots, in the order the standard lists them: with two samples a slot copies a slot. */
  method ExtendSamples(a: array<int>, z: nat)
    requires IsLine(a, z)
    modifies a
    ensures a[2..z + 2] == old(a[2..z + 2]) && Extended(a[..], z)
  {
    for i := 1 to 3
      invariant forall j | 2 <= j < z + 2 :: a[j] == old(a[j])
      invariant i >= 2 ==> a[1] == a[3] && a[z + 2] == a[z]
      invariant i >= 3 ==> a[0] == a[4] && a[z + 3] == a[z - 1]
    {
      a[2 - i] := a[2 + i];
      a[z + i + 1] := a[z - i + 1];
    }
  }

  /** A loop over every second slot, each from its two neighbours. */
  datatype Pass = Details | Sums | Smooths | Restores {
    predicate Odd() {
      Details? || Restores?
    }

    function Value(left: int, here: int, right: int): int {
      match this
      case Details => here - (left + right) / 2
      case Sums => here + (left + right + 2) / 4
      case Smooths => here - (left + right + 2) / 4
      case Restores => here + (left + right) / 2
    }
  }

  /** The slots from `from` on, up to `end`, that the pass rewrites. */
  predicate Rewrites(pass: Pass, from: nat, end: nat, j: nat) {
    from <= j < end && j % 2 == if pass.Odd() then 1 else 0
  }

  function Swept(pass: Pass, s: seq<int>, from: nat, end: nat): (t: seq<int>)
    requires 1 <= from && end < |s|
    ensures |t| == |s|
  {
    seq(|s|, j requires 0 <= j < |s| => SweptSlot(pass, s, from, end, j))
  }

  function SweptSlot(pass: Pass, s: seq<int>, from: nat, end: nat, j: nat): int
    requires 1 <= from && end < |s| && j < |s|
  {
    if Rewrites(pass, from, end, j) then pass.Value(s[j - 1], s[j], s[j + 1]) else s[j]
  }

  /** One pass in place: each slot it rewrites has neighbours it leaves alone. */
  method Sweep(pass: Pass, a: array<int>, from: nat, end: nat)
    requires 1 <= from <= end < a.Length && from % 2 == if pass.Odd() then 1 else 0
    modifies a
    ensures a[..] == Swept(pass, old(a[..]), from, end)
  {
    hide Swept, SweptSlot, Pass.Value, Pass.Odd;
    ghost var s := a[..];
    ghost var t := Swept(pass, s, from, end);
    SweptAt(pass, s, from, end);
    forall j: nat | j < from
      ensures t[j] == s[j]
    {
      OtherSlot(pass, s, from, end, j);
    }
    var i := from;
    while i < end
      invariant from <= i <= end + 1 && i % 2 == from % 2
      invariant forall j | 0 <= j < a.Length :: a[j] == if j < i then t[j] else s[j]
    {
      OtherSlot(pass, s, from, end, i + 1);
      OtherSlot(pass, s, from, end, i - 1);
      SweptHere(pass, s, from, end, i);
      a[i] := pass.Value(a[i - 1], a[i], a[i + 1]);
      i := i + 2;
    }
    forall j: nat | i <= j < |s|
      ensures t[j] == s[j]
    {
      OtherSlot(pass, s, from, end, j);
    }
  }

  lemma OtherSlot(pass: Pass, s: seq<int>, from: nat, end: nat, j: nat)
    requires 1 <= from && end < |s| && j < |s| && from % 2 == (if pass.Odd() then 1 else 0)
    requires j < from || j >= end || j % 2 != from % 2
    ensures SweptSlot(pass, s, from, end, j) == s[j]
  {
  }

  lemma SweptHere(pass: Pass, s: seq<int>, from: nat, end: nat, j: nat)
    requires 1 <= from <= j < end < |s| && from % 2 == (if pass.Odd() then 1 else 0) && j % 2 == from % 2
    ensures SweptSlot(pass, s, from, end, j) == pass.Value(s[j - 1], s[j], s[j + 1])
  {
  }

  lemma SweptAt(pass: Pass, s: seq<int>, from: nat, end: nat)
    requires 1 <= from && end < |s|
    ensures forall j | 0 <= j < |s| :: Swept(pass, s, from, end)[j] == SweptSlot(pass, s, from, end, j)
  {
  }

  /** On a mirrored line the slots around the samples hold their mirror images. */
  lemma Mirrored(s: seq<int>, z: nat, i: int)
    requires z >= 2 && |s| == z + 4 && Extended(s, z) && -1 <= i <= z
    ensures s[2..z + 2][Mirror(i, z)] == s[i + 2]
  {
  }

  lemma SameNeighbours(s: seq<int>, z: nat, i: int)
    requires z >= 2 && |s| == z + 4 && Extended(s, z) && -1 <= i <= z
    ensures s[i + 1] + s[i + 3] == s[Mirror(i, z) + 1] + s[Mirror(i, z) + 3]
  {
  }

  /** After the first pass the slots next to the samples still hold mirror images. */
  lemma DetailsMirrored(s: seq<int>, z: nat, i: int)
    requires z >= 2 && |s| == z + 4 && Extended(s, z) && -1 <= i <= z && (i % 2 == 1 || 0 <= i < z)
    ensures Swept(Details, s, 1, z + 3)[i + 2] == LiftOdd(s[2..z + 2], false)[Mirror(i, z)]
  {
    Mirrored(s, z, i);
    SameNeighbours(s, z, i);
    Mirrored(s, z, Mirror(i, z) - 1);
    Mirrored(s, z, Mirror(i, z) + 1);
    hide Extended, Mirror;
    assert Swept(Details, s, 1, z + 3)[i + 2] == SweptSlot(Details, s, 1, z + 3, i + 2);
  }

  lemma SmoothsMirrored(s: seq<int>, z: nat, i: int)
    requires z >= 2 && |s| == z + 4 && Extended(s, z) && -1 <= i <= z && 0 <= i && (i % 2 == 0 || i < z)
    ensures Swept(Smooths, s, 2, z + 3)[i + 2] == LiftEven(s[2..z + 2], false)[Mirror(i, z)]
  {
    Mirrored(s, z, i);
    SameNeighbours(s, z, i);
    Mirrored(s, z, Mirror(i, z) - 1);
    Mirrored(s, z, Mirror(i, z) + 1);
    SweptAt(Smooths, s, 2, z + 3);
    hide Extended, Mirror;
  }

  lemma InnerMirror(z: nat, i: nat)
    requires z >= 2 && i < z
    ensures Mirror(i, z) == i
  {
  }

  lemma ForwardOfLine(s: seq<int>, z: nat)
    requires z >= 2 && |s| == z + 4 && Extended(s, z)
    ensures Swept(Sums, Swept(Details, s, 1, z + 3), 2, z + 2)[2..z + 2] == ForwardLine(s[2..z + 2])
  {
    hide LiftOdd, Extended, Mirror;
    var t := Swept(Details, s, 1, z + 3);
    var y := LiftOdd(s[2..z + 2], false);
    forall i | 0 <= i < z
      ensures SweptSlot(Sums, t, 2, z + 2, i + 2) == LiftEven(y, true)[i]
    {
      InnerMirror(z, i);
      DetailsMirrored(s, z, i);
      if i % 2 == 0 {
        DetailsMirrored(s, z, i - 1);
        DetailsMirrored(s, z, i + 1);
      }
    }
  }

  lemma InverseOfLine(s: seq<int>, z: nat)
    requires z >= 2 && |s| == z + 4 && Extended(s, z)
    ensures Swept(Restores, Swept(Smooths, s, 2, z + 3), 3, z + 2)[2..z + 2] == InverseLine(s[2..z + 2])
  {
    hide LiftEven, Extended, Mirror;
    var t := Swept(Smooths, s, 2, z + 3);
    var y := LiftEven(s[2..z + 2], false);
    forall i | 0 <= i < z
      ensures SweptSlot(Restores, t, 3, z + 2, i + 2) == LiftOdd(y, true)[i]
    {
      InnerMirror(z, i);
      SmoothsMirrored(s, z, i);
      if i % 2 == 1 {
        SmoothsMirrored(s, z, i - 1);
        SmoothsMirrored(s, z, i + 1);
      }
    }
  }

  /** X[-1], X[1], ... first, slots included; the second loop reads only finished odd samples. */
  method ForwardFilter(a: array<int>, z: nat)
    requires IsLine(a, z) && Extended(a[..], z)
    modifies a
    ensures a[2..z + 2] == ForwardLine(old(a[2..z + 2]))
  {
    hide ForwardLine, Swept;
    ForwardOfLine(a[..], z);
    Sweep(Details, a, 1, z + 3);
    Sweep(Sums, a, 2, z + 2);
    assert a[..][2..z + 2] == a[2..z + 2];
    assert old(a[..])[2..z + 2] == old(a[2..z + 2]);
  }

  /** Even samples first; for even z the last odd sample needs the slot X[z]. */
  method InverseFilter(a: array<int>, z: nat)
    requires IsLine(a, z) && Extended(a[..], z)
    modifies a
    ensures a[2..z + 2] == InverseLine(old(a[2..z + 2]))
  {
    hide InverseLine, Swept;
    InverseOfLine(a[..], z);
    Sweep(Smooths, a, 2, z + 3);
    Sweep(Restores, a, 3, z + 2);
    assert a[..][2..z + 2] == a[2..z + 2];
    assert old(a[..])[2..z + 2] == old(a[2..z + 2]);
  }
}
