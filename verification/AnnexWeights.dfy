// The band weights an encoder falls back to (Annex I): CFA pictures with Star-Tetrix, one plain component and five
// horizontal levels.
module AnnexWeights {
  import opened Wrappers
  import opened HeaderTypes

  // Table I.9: no vertical level, full transform.
  const NO_VERTICAL_FULL_GAINS: seq<u8> :=
    [3, 3, 3, 2, 2, 2, 2, 1, 1, 1, 1, 1, 1, 0, 0, 1, 0, 0, 0]
  const NO_VERTICAL_FULL_PRIORITIES: seq<u8> :=
    [3, 17, 16, 1, 15, 14, 11, 7, 6, 0, 13, 12, 10, 5, 4, 18, 9, 8, 2]

  // Table I.9: no vertical level, in-line transform.
  const NO_VERTICAL_INLINE_GAINS: seq<u8> :=
    [4, 3, 3, 3, 2, 2, 2, 1, 1, 2, 1, 1, 1, 0, 0, 1, 0, 0, 0]
  const NO_VERTICAL_INLINE_PRIORITIES: seq<u8> :=
    [18, 17, 16, 13, 12, 11, 5, 4, 3, 14, 10, 9, 6, 1, 0, 15, 9, 7, 2]

  // Table I.10: one vertical level, full transform.
  const ONE_VERTICAL_FULL_GAINS: seq<u8> :=
    [4, 3, 3, 3, 2, 2, 2, 2, 2, 2, 1, 1, 1, 1, 1, 1, 0, 0, 1, 0, 0, 0, 0, 0, 0]
  const ONE_VERTICAL_FULL_PRIORITIES: seq<u8> :=
    [20, 17, 16, 12, 11, 10, 0, 24, 23, 15, 9, 8, 1, 22, 21, 14, 6, 4, 13, 5, 3, 7, 19, 18, 2]

  // Table I.10: one vertical level, in-line transform.
  const ONE_VERTICAL_INLINE_GAINS: seq<u8> :=
    [4, 3, 3, 3, 2, 2, 3, 2, 2, 2, 1, 1, 2, 1, 1, 1, 0, 0, 1, 1, 1, 1, 0, 0, 0]
  const ONE_VERTICAL_INLINE_PRIORITIES: seq<u8> :=
    [13, 12, 11, 8, 7, 6, 20, 19, 18, 9, 5, 4, 21, 17, 16, 10, 2, 1, 9, 23, 22, 24, 15, 14, 3]

  // Table I.11: two vertical levels, full transform.
  const TWO_VERTICAL_FULL_GAINS: seq<u8> :=
    [4, 3, 3, 3, 3, 3, 3, 2, 2, 2, 2, 2, 2, 1, 1, 2, 1, 1, 1, 0, 0, 1, 0, 0, 1, 0, 0, 0, 0, 0, 0]
  const TWO_VERTICAL_FULL_PRIORITIES: seq<u8> :=
    [9, 8, 7, 0, 30, 29, 20, 19, 18, 1, 28, 27, 24, 16, 14, 23, 15, 13, 17, 11, 10, 22, 6, 4, 21, 5, 3, 12, 26,
     25, 2]

  // Table I.11: two vertical levels, in-line transform.
  const TWO_VERTICAL_INLINE_GAINS: seq<u8> :=
    [4, 3, 3, 4, 3, 3, 3, 2, 2, 3, 2, 2, 2, 1, 1, 2, 1, 1, 1, 0, 0, 1, 0, 0, 1, 1, 1, 1, 0, 0, 0]
  const TWO_VERTICAL_INLINE_PRIORITIES: seq<u8> :=
    [5, 4, 3, 28, 27, 26, 18, 17, 16, 30, 23, 22, 19, 14, 13, 12, 11, 10, 9, 8, 7, 15, 2, 1, 0, 25, 24, 29, 21,
     20, 6]

  function Table(gains: seq<u8>, priorities: seq<u8>): (w: seq<BandWeights>)
    requires |gains| == |priorities|
    ensures |w| == |gains|
  {
    seq(|gains|, b requires 0 <= b < |gains| => BandWeights(gains[b], priorities[b]))
  }

  function AnnexIWeights(nlx: nat, nly: nat, cf: nat): Result<seq<BandWeights>> {
    if nlx != 5 || nly > 2 then Err(BadHeader)
    else if nly == 0 then
      Ok(if cf == 3 then Table(NO_VERTICAL_INLINE_GAINS, NO_VERTICAL_INLINE_PRIORITIES)
         else Table(NO_VERTICAL_FULL_GAINS, NO_VERTICAL_FULL_PRIORITIES))
    else if nly == 1 then
      Ok(if cf == 3 then Table(ONE_VERTICAL_INLINE_GAINS, ONE_VERTICAL_INLINE_PRIORITIES)
         else Table(ONE_VERTICAL_FULL_GAINS, ONE_VERTICAL_FULL_PRIORITIES))
    else
      Ok(if cf == 3 then Table(TWO_VERTICAL_INLINE_GAINS, TWO_VERTICAL_INLINE_PRIORITIES)
         else Table(TWO_VERTICAL_FULL_GAINS, TWO_VERTICAL_FULL_PRIORITIES))
  }

  predicate Below(v: seq<u8>, k: nat) {
    forall i | 0 <= i < |v| :: v[i] < k
  }

  /** Gains the constraints admit, and priorities below the number of bands. */
  predicate Fitting(w: seq<BandWeights>, n: nat) {
    |w| == n && forall b | 0 <= b < n :: w[b].gain <= 15 && w[b].priority < n
  }

  lemma TableFits(gains: seq<u8>, priorities: seq<u8>, n: nat)
    requires |gains| == |priorities| == n && Below(gains, 16) && Below(priorities, n)
    ensures Fitting(Table(gains, priorities), n)
  {
  }

  lemma NoVerticalFull()
    ensures |NO_VERTICAL_FULL_GAINS| == |NO_VERTICAL_FULL_PRIORITIES| == 19
    ensures Below(NO_VERTICAL_FULL_GAINS, 16) && Below(NO_VERTICAL_FULL_PRIORITIES, 19)
  {
  }

  lemma NoVerticalInline()
    ensures |NO_VERTICAL_INLINE_GAINS| == |NO_VERTICAL_INLINE_PRIORITIES| == 19
    ensures Below(NO_VERTICAL_INLINE_GAINS, 16) && Below(NO_VERTICAL_INLINE_PRIORITIES, 19)
  {
  }

  lemma OneVerticalFull()
    ensures |ONE_VERTICAL_FULL_GAINS| == |ONE_VERTICAL_FULL_PRIORITIES| == 25
    ensures Below(ONE_VERTICAL_FULL_GAINS, 16) && Below(ONE_VERTICAL_FULL_PRIORITIES, 25)
  {
  }

  lemma OneVerticalInline()
    ensures |ONE_VERTICAL_INLINE_GAINS| == |ONE_VERTICAL_INLINE_PRIORITIES| == 25
    ensures Below(ONE_VERTICAL_INLINE_GAINS, 16) && Below(ONE_VERTICAL_INLINE_PRIORITIES, 25)
  {
  }

  lemma TwoVerticalFull()
    ensures |TWO_VERTICAL_FULL_GAINS| == |TWO_VERTICAL_FULL_PRIORITIES| == 31
    ensures Below(TWO_VERTICAL_FULL_GAINS, 16) && Below(TWO_VERTICAL_FULL_PRIORITIES, 31)
  {
  }

  lemma TwoVerticalInline()
    ensures |TWO_VERTICAL_INLINE_GAINS| == |TWO_VERTICAL_INLINE_PRIORITIES| == 31
    ensures Below(TWO_VERTICAL_INLINE_GAINS, 16) && Below(TWO_VERTICAL_INLINE_PRIORITIES, 31)
  {
  }

  /** A table has one entry per band of three decomposed components and a plain one. */
  lemma AnnexIFits(nly: nat, cf: nat)
    requires nly <= 2
    ensures var w := AnnexIWeights(5, nly, cf); w.Ok? && Fitting(w.value, 3 * NumFilterTypes(5, nly) + 1)
  {
    hide Below, Fitting, Table;
    if nly == 0 {
      NoVerticalFull();
      TableFits(NO_VERTICAL_FULL_GAINS, NO_VERTICAL_FULL_PRIORITIES, 19);
      NoVerticalInline();
      TableFits(NO_VERTICAL_INLINE_GAINS, NO_VERTICAL_INLINE_PRIORITIES, 19);
    } else if nly == 1 {
      OneVerticalFull();
      TableFits(ONE_VERTICAL_FULL_GAINS, ONE_VERTICAL_FULL_PRIORITIES, 25);
      OneVerticalInline();
      TableFits(ONE_VERTICAL_INLINE_GAINS, ONE_VERTICAL_INLINE_PRIORITIES, 25);
    } else {
      TwoVerticalFull();
      TableFits(TWO_VERTICAL_FULL_GAINS, TWO_VERTICAL_FULL_PRIORITIES, 31);
      TwoVerticalInline();
      TableFits(TWO_VERTICAL_INLINE_GAINS, TWO_VERTICAL_INLINE_PRIORITIES, 31);
    }
  }
}
