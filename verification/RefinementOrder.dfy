// The order in which R refines the bands under the weights of Annex I.
module RefinementOrder {
  import opened Wrappers
  import opened Arith
  import opened HeaderTypes
  import opened AnnexWeights
  import opened Precinct

  // No vertical level.
  const NO_VERTICAL_FULL_ORDER: seq<nat> :=
    [9, 3, 18, 0, 14, 13, 8, 7, 17, 16, 12, 6, 11, 10, 5, 4, 2, 1, 15]

  // One vertical level.
  const ONE_VERTICAL_FULL_ORDER: seq<nat> :=
    [6, 12, 24, 20, 17, 19, 16, 21, 11, 10, 5, 4, 3, 18, 15, 9, 2, 1, 23, 22, 0, 14, 13, 8, 7]

  // Two vertical levels.
  const TWO_VERTICAL_FULL_ORDER: seq<nat> :=
    [3, 9, 30, 26, 23, 25, 22, 2, 1, 0, 20, 19, 27, 17, 14, 16, 13, 18, 8, 7, 6, 24, 21, 15, 12, 29, 28, 11, 10, 5,
     4]

  // Two vertical levels, in line.
  const TWO_VERTICAL_INLINE_ORDER: seq<nat> :=
    [24, 23, 22, 2, 1, 0, 30, 20, 19, 18, 17, 16, 15, 14, 13, 21, 8, 7, 6, 12, 29, 28, 11, 10, 26, 25, 5, 4, 3, 27,
     9]

  /** Numbers lo .. hi - 1 are in v where order says. */
  predicate Finds(order: seq<nat>, v: seq<nat>, lo: nat, hi: nat)
    requires hi <= |order|
  {
    forall r | lo <= r < hi :: order[r] < |v| && v[order[r]] == r
  }

  /** Each of the numbers below |v| once in v, number r at place order[r]. */
  predicate Inverse(v: seq<nat>, order: seq<nat>) {
    |order| == |v| && Finds(order, v, 0, |v|) && Finds(v, order, 0, |v|)
  }

  lemma InThirds(order: seq<nat>, v: seq<nat>, a: nat, b: nat)
    requires a <= b <= |order|
    requires Finds(order, v, 0, a) && Finds(order, v, a, b) && Finds(order, v, b, |order|)
    ensures Finds(order, v, 0, |order|)
  {
  }

  function Numbers(n: nat): (s: set<nat>)
    ensures |s| == n && forall i: nat :: i in s <==> i < n
  {
    if n == 0 then {} else Numbers(n - 1) + {n - 1}
  }

  /** The places of the first n numbers. */
  function Places(order: seq<nat>, n: nat): set<nat>
    requires n <= |order|
  {
    set r | 0 <= r < n :: order[r]
  }

  lemma {:induction false} PlacesDiffer(order: seq<nat>, v: seq<nat>, n: nat)
    requires n <= |order| && Finds(order, v, 0, |order|)
    ensures |Places(order, n)| == n
  {
    if n > 0 {
      PlacesDiffer(order, v, n - 1);
      assert Places(order, n) == Places(order, n - 1) + {order[n - 1]};
    }
  }

  lemma AllThere(s: set<nat>, n: nat, b: nat)
    requires s <= Numbers(n) && |s| == n && b < n
    ensures b in s
  {
    if b !in s {
      assert s + {b} <= Numbers(n);
      SubsetSize(s + {b}, Numbers(n));
    }
  }

  lemma {:induction false} SubsetSize(s: set<nat>, t: set<nat>)
    requires s <= t
    ensures |s| <= |t|
  {
    if x :| x in s {
      SubsetSize(s - {x}, t - {x});
    }
  }

  /** As many places as numbers: each place is found from the number in it. */
  lemma FoundOnce(v: seq<nat>, order: seq<nat>)
    requires |order| == |v| && Finds(order, v, 0, |v|)
    ensures Inverse(v, order)
  {
    var n := |v|;
    PlacesDiffer(order, v, n);
    forall b | 0 <= b < n
      ensures v[b] < n && order[v[b]] == b
    {
      AllThere(Places(order, n), n, b);
      var r :| 0 <= r < n && order[r] == b;
    }
  }

  lemma NoVerticalFull()
    ensures Inverse(NO_VERTICAL_FULL_PRIORITIES, NO_VERTICAL_FULL_ORDER)
  {
    hide Finds;
    assert |NO_VERTICAL_FULL_PRIORITIES| == |NO_VERTICAL_FULL_ORDER| == 19;
    NoVerticalFullLow();
    NoVerticalFullMiddle();
    NoVerticalFullHigh();
    InThirds(NO_VERTICAL_FULL_ORDER, NO_VERTICAL_FULL_PRIORITIES, 6, 12);
    FoundOnce(NO_VERTICAL_FULL_PRIORITIES, NO_VERTICAL_FULL_ORDER);
  }

  lemma NoVerticalFullLow()
    ensures Finds(NO_VERTICAL_FULL_ORDER, NO_VERTICAL_FULL_PRIORITIES, 0, 6)
  {
  }

  lemma NoVerticalFullMiddle()
    ensures Finds(NO_VERTICAL_FULL_ORDER, NO_VERTICAL_FULL_PRIORITIES, 6, 12)
  {
  }

  lemma NoVerticalFullHigh()
    ensures Finds(NO_VERTICAL_FULL_ORDER, NO_VERTICAL_FULL_PRIORITIES, 12, 19)
  {
  }

  lemma OneVerticalFull()
    ensures Inverse(ONE_VERTICAL_FULL_PRIORITIES, ONE_VERTICAL_FULL_ORDER)
  {
    hide Finds;
    assert |ONE_VERTICAL_FULL_PRIORITIES| == |ONE_VERTICAL_FULL_ORDER| == 25;
    OneVerticalFullLow();
    OneVerticalFullMiddle();
    OneVerticalFullHigh();
    InThirds(ONE_VERTICAL_FULL_ORDER, ONE_VERTICAL_FULL_PRIORITIES, 8, 16);
    FoundOnce(ONE_VERTICAL_FULL_PRIORITIES, ONE_VERTICAL_FULL_ORDER);
  }

  lemma OneVerticalFullLow()
    ensures Finds(ONE_VERTICAL_FULL_ORDER, ONE_VERTICAL_FULL_PRIORITIES, 0, 8)
  {
  }

  lemma OneVerticalFullMiddle()
    ensures Finds(ONE_VERTICAL_FULL_ORDER, ONE_VERTICAL_FULL_PRIORITIES, 8, 16)
  {
  }

  lemma OneVerticalFullHigh()
    ensures Finds(ONE_VERTICAL_FULL_ORDER, ONE_VERTICAL_FULL_PRIORITIES, 16, 25)
  {
  }

  lemma TwoVerticalFull()
    ensures Inverse(TWO_VERTICAL_FULL_PRIORITIES, TWO_VERTICAL_FULL_ORDER)
  {
    hide Finds;
    assert |TWO_VERTICAL_FULL_PRIORITIES| == |TWO_VERTICAL_FULL_ORDER| == 31;
    TwoVerticalFullLow();
    TwoVerticalFullMiddle();
    TwoVerticalFullHigh();
    InThirds(TWO_VERTICAL_FULL_ORDER, TWO_VERTICAL_FULL_PRIORITIES, 10, 20);
    FoundOnce(TWO_VERTICAL_FULL_PRIORITIES, TWO_VERTICAL_FULL_ORDER);
  }

  lemma TwoVerticalFullLow()
    ensures Finds(TWO_VERTICAL_FULL_ORDER, TWO_VERTICAL_FULL_PRIORITIES, 0, 10)
  {
  }

  lemma TwoVerticalFullMiddle()
    ensures Finds(TWO_VERTICAL_FULL_ORDER, TWO_VERTICAL_FULL_PRIORITIES, 10, 20)
  {
  }

  lemma TwoVerticalFullHigh()
    ensures Finds(TWO_VERTICAL_FULL_ORDER, TWO_VERTICAL_FULL_PRIORITIES, 20, 31)
  {
  }

  lemma TwoVerticalInline()
    ensures Inverse(TWO_VERTICAL_INLINE_PRIORITIES, TWO_VERTICAL_INLINE_ORDER)
  {
    hide Finds;
    assert |TWO_VERTICAL_INLINE_PRIORITIES| == |TWO_VERTICAL_INLINE_ORDER| == 31;
    TwoVerticalInlineLow();
    TwoVerticalInlineMiddle();
    TwoVerticalInlineHigh();
    InThirds(TWO_VERTICAL_INLINE_ORDER, TWO_VERTICAL_INLINE_PRIORITIES, 10, 20);
    FoundOnce(TWO_VERTICAL_INLINE_PRIORITIES, TWO_VERTICAL_INLINE_ORDER);
  }

  lemma TwoVerticalInlineLow()
    ensures Finds(TWO_VERTICAL_INLINE_ORDER, TWO_VERTICAL_INLINE_PRIORITIES, 0, 10)
  {
  }

  lemma TwoVerticalInlineMiddle()
    ensures Finds(TWO_VERTICAL_INLINE_ORDER, TWO_VERTICAL_INLINE_PRIORITIES, 10, 20)
  {
  }

  lemma TwoVerticalInlineHigh()
    ensures Finds(TWO_VERTICAL_INLINE_ORDER, TWO_VERTICAL_INLINE_PRIORITIES, 20, 31)
  {
  }

  /** Every band has a priority of its own: band order[r] has priority r, and no other. */
  ghost predicate OneEach(w: seq<BandWeights>, order: seq<nat>) {
    && |order| == |w|
    && (forall r | 0 <= r < |w| :: order[r] < |w| && w[order[r]].priority == r)
    && (forall b | 0 <= b < |w| :: w[b].priority < |w| && order[w[b].priority] == b)
  }

  lemma TableOrder(gains: seq<u8>, priorities: seq<u8>, order: seq<nat>)
    requires |gains| == |priorities| && Inverse(priorities, order)
    ensures OneEach(Table(gains, priorities), order)
  {
  }

  /** Under all tables of the full transform, and the in-line one of two levels, no two bands share a priority. */
  lemma OwnPriorities(nly: nat, cf: nat) returns (order: seq<nat>)
    requires nly <= 2 && (cf == 3 ==> nly == 2)
    ensures AnnexIWeights(5, nly, cf).Ok? && OneEach(AnnexIWeights(5, nly, cf).value, order)
  {
    hide Inverse, OneEach, Table;
    if nly == 0 {
      NoVerticalFull();
      order := NO_VERTICAL_FULL_ORDER;
      TableOrder(NO_VERTICAL_FULL_GAINS, NO_VERTICAL_FULL_PRIORITIES, order);
    } else if nly == 1 {
      OneVerticalFull();
      order := ONE_VERTICAL_FULL_ORDER;
      TableOrder(ONE_VERTICAL_FULL_GAINS, ONE_VERTICAL_FULL_PRIORITIES, order);
    } else if cf == 3 {
      TwoVerticalInline();
      order := TWO_VERTICAL_INLINE_ORDER;
      TableOrder(TWO_VERTICAL_INLINE_GAINS, TWO_VERTICAL_INLINE_PRIORITIES, order);
    } else {
      TwoVerticalFull();
      order := TWO_VERTICAL_FULL_ORDER;
      TableOrder(TWO_VERTICAL_FULL_GAINS, TWO_VERTICAL_FULL_PRIORITIES, order);
    }
  }

  predicate Absent(v: seq<u8>, k: nat) {
    forall b | 0 <= b < |v| :: v[b] != k
  }

  lemma MissingPriorities()
    ensures Absent(NO_VERTICAL_INLINE_PRIORITIES, 8) && Absent(ONE_VERTICAL_INLINE_PRIORITIES, 0)
  {
  }

  /** The other in-line tables give priority 9 to two bands, and none priority 8 or 0. */
  lemma SharedPriority(nly: nat)
    requires nly <= 1
    ensures var w := AnnexIWeights(5, nly, 3);
            && w.Ok? && |w.value| > 18
            && (if nly == 0 then w.value[11].priority == w.value[16].priority == 9
                else w.value[9].priority == w.value[18].priority == 9)
            && forall b | 0 <= b < |w.value| :: w.value[b].priority != if nly == 0 then 8 else 0
  {
    MissingPriorities();
  }

  /** One more in R changes T in the bands of priority R only, there by at most one. */
  lemma NextR(w: Weight, q: nat, r: nat, br: nat)
    ensures Truncation(w, q, r + 1, br) <= Truncation(w, q, r, br) <= Truncation(w, q, r + 1, br) + 1
    ensures w.priority != r ==> Truncation(w, q, r + 1, br) == Truncation(w, q, r, br)
    ensures w.priority == r && w.gain < q < Pow2(br) ==> Truncation(w, q, r + 1, br) == Truncation(w, q, r, br) - 1
  {
  }

  /** So with a priority for each, one more in R refines a single band, and a whole round of R takes every band's turn. */
  lemma OneBandRefined(w: seq<BandWeights>, order: seq<nat>, ws: seq<Weight>, q: nat, r: nat, br: nat)
    requires OneEach(w, order) && r < |w|
    requires |ws| == |w| && forall b | 0 <= b < |w| :: ws[b] == Weight(w[b].gain, w[b].priority)
    ensures forall b | 0 <= b < |w| && b != order[r] :: Truncations(ws, q, r + 1, br)[b] == Truncations(ws, q, r, br)[b]
    ensures w[order[r]].gain < q < Pow2(br) ==>
              Truncations(ws, q, r + 1, br)[order[r]] == Truncations(ws, q, r, br)[order[r]] - 1
    ensures forall b | 0 <= b < |w| ::
              Truncation(ws[b], q, |w|, br) == Clamp(q - ws[b].gain - 1, 0, Pow2(br) - 1)
  {
    hide Truncation, Pow2;
    forall b | 0 <= b < |w| && b != order[r]
      ensures Truncation(ws[b], q, r + 1, br) == Truncation(ws[b], q, r, br)
    {
      NextR(ws[b], q, r, br);
    }
    NextR(ws[order[r]], q, r, br);
    forall b | 0 <= b < |w|
      ensures Truncation(ws[b], q, |w|, br) == Clamp(q - ws[b].gain - 1, 0, Pow2(br) - 1)
    {
      AllTurns(ws[b], q, |w|, br);
    }
  }

  lemma AllTurns(w: Weight, q: nat, r: nat, br: nat)
    requires w.priority < r
    ensures Truncation(w, q, r, br) == Clamp(q - w.gain - 1, 0, Pow2(br) - 1)
  {
  }
}
