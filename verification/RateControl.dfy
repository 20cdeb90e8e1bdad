// Constant bit rate: per precinct the smallest Q that fits its byte budget, then the largest R that still
// fits, by binary search over actual packet sizes.
module RateControl {
  import opened Wrappers
  import opened Precinct
  import opened PrecinctDecoder
  import Arith
  import PrecinctEncoder
  import RawFallback
  import SizesMonotone

  /** One precinct to be fitted into a budget. */
  datatype Job = Job(sh: Shape, md: Mode, weights: seq<Weight>, d: seq<nat>, c: Coeffs, st: State, budget: nat) {
    predicate Ok() {
      sh.Ok() && |weights| == sh.Bands() && md.br <= 32
    }

    /** Packet bytes at (q, r). */
    function Size(q: nat, r: nat): Result<nat>
      requires Ok()
    {
      var enc :- Encode(sh, md, weights, Coding(q, r, d, []), c, st);
      Result.Ok(|enc.bytes|)
    }

    predicate Fits(q: nat, r: nat)
      requires Ok()
    {
      Size(q, r).Ok? && Size(q, r).value <= budget
    }

    predicate TooBig(q: nat, r: nat)
      requires Ok()
    {
      Size(q, r).Ok? && Size(q, r).value > budget
    }

    function MaxR(): int {
      2 * sh.Bands() - 1
    }
  }

  /** Halves lo..hi, hi always fitting. A trial that cannot be packed at all ends the search. */
  function SearchQ(j: Job, lo: nat, hi: nat): Result<nat>
    requires j.Ok() && lo <= hi
    decreases hi - lo
  {
    if lo == hi then Ok(hi) else
    var mid := (lo + hi) / 2;
    var size :- j.Size(mid, 0);
    if size <= j.budget then SearchQ(j, lo, mid) else SearchQ(j, mid + 1, hi)
  }

  /** Halves lo..hi, lo always fitting. */
  function SearchR(j: Job, q: nat, lo: nat, hi: int): Result<nat>
    requires j.Ok()
    decreases hi - lo
  {
    if lo >= hi then Ok(lo) else
    var mid := (lo + hi + 1) / 2;
    var size :- j.Size(q, mid);
    if size <= j.budget then SearchR(j, q, mid, hi) else SearchR(j, q, lo, mid - 1)
  }

  function Choose(j: Job): Result<(nat, nat)>
    requires j.Ok()
  {
    var coarsest :- j.Size(31, 0);
    if coarsest > j.budget then Err(BudgetTooSmall) else
    var q :- SearchQ(j, 0, 31);
    var r :- SearchR(j, q, 0, j.MaxR());
    Ok((q, r))
  }

  lemma {:induction false} SearchQBoundary(j: Job, lo: nat, hi: nat)
    requires j.Ok() && lo <= hi && j.Fits(hi, 0) && (lo > 0 ==> j.TooBig(lo - 1, 0)) && SearchQ(j, lo, hi).Ok?
    ensures var q := SearchQ(j, lo, hi).value; lo <= q <= hi && j.Fits(q, 0) && (q > 0 ==> j.TooBig(q - 1, 0))
    decreases hi - lo
  {
    hide Job.Size;
    if lo < hi {
      var mid := (lo + hi) / 2;
      if j.Fits(mid, 0) {
        SearchQBoundary(j, lo, mid);
      } else {
        SearchQBoundary(j, mid + 1, hi);
      }
    }
  }

  lemma {:induction false} SearchRBoundary(j: Job, q: nat, lo: nat, hi: int)
    requires j.Ok() && lo <= hi <= j.MaxR() && j.Fits(q, lo) && (hi < j.MaxR() ==> j.TooBig(q, hi + 1)) && SearchR(j, q, lo, hi).Ok?
    ensures var r := SearchR(j, q, lo, hi).value; lo <= r <= hi && j.Fits(q, r) && (r < j.MaxR() ==> j.TooBig(q, r + 1))
    decreases hi - lo
  {
    hide Job.Size;
    if lo < hi {
      var mid := (lo + hi + 1) / 2;
      if j.Fits(q, mid) {
        SearchRBoundary(j, q, mid, hi);
      } else {
        SearchRBoundary(j, q, lo, mid - 1);
      }
    }
  }

  /** The choice fits; one step finer in Q does not, nor does one step further in R. */
  lemma ChoiceIsBoundary(j: Job)
    requires j.Ok() && j.sh.Bands() > 0 && Choose(j).Ok?
    ensures var (q, r) := Choose(j).value;
            && q <= 31 && j.Fits(q, 0) && (q > 0 ==> j.TooBig(q - 1, 0))
            && r <= j.MaxR() && j.Fits(q, r) && (r < j.MaxR() ==> j.TooBig(q, r + 1))
  {
    hide Job.Size;
    SearchQBoundary(j, 0, 31);
    SearchRBoundary(j, SearchQ(j, 0, 31).value, 0, j.MaxR());
  }

  // ---- optimality ------------------------------------------------------------------------------------

  /** Raw mode is chosen per packet, or bands that meet in a packet share all packets, as in every precinct of a picture. */
  ghost predicate Regular(j: Job)
    requires j.Ok()
  {
    j.md.rawPerPacket || RawFallback.SharedPackets(j.sh)
  }

  /** The size of a precinct never rises with Q and never falls with R. */
  lemma SizeMonotone(j: Job, q: nat, r: nat, q': nat, r': nat)
    requires j.Ok() && Regular(j) && q <= q' && r' <= r && j.Size(q, r).Ok? && j.Size(q', r').Ok?
    ensures j.Size(q', r').value <= j.Size(q, r).value
  {
    hide Encode, RawFallback.SharedPackets;
    SizesMonotone.EncodedFalls(j.sh, j.md, j.weights, j.d, j.c, j.st, q, r, q', r');
  }

  /** No smaller Q fits, and with this Q no larger R. */
  ghost predicate Optimal(j: Job, q: nat, r: nat)
    requires j.Ok()
  {
    hide Job.Size;
    && q <= 31 && r <= j.MaxR() && j.Fits(q, 0) && j.Fits(q, r)
    && (forall q': nat | j.Fits(q', 0) :: q <= q')
    && (forall r': nat | j.Fits(q, r') :: r' <= r)
  }

  /** What the binary searches end at is the optimum over all Q and R, because sizes are monotone. */
  lemma BoundaryIsOptimal(j: Job, q: nat, r: nat)
    requires j.Ok() && Regular(j) && q <= 31 && r <= j.MaxR()
    requires j.Fits(q, 0) && (q > 0 ==> j.TooBig(q - 1, 0)) && j.Fits(q, r) && (r < j.MaxR() ==> j.TooBig(q, r + 1))
    ensures Optimal(j, q, r)
  {
    hide Job.Size, Regular;
    forall q': nat | j.Fits(q', 0)
      ensures q <= q'
    {
      if q' < q {
        SizeMonotone(j, q', 0, q - 1, 0);
      }
    }
    forall r': nat | j.Fits(q, r')
      ensures r' <= r
    {
      OnlyToMaxR(j, q, r');
      if r < r' {
        SizeMonotone(j, q, r', q, r + 1);
      }
    }
  }

  lemma OnlyToMaxR(j: Job, q: nat, r: nat)
    requires j.Ok() && j.Fits(q, r)
    ensures r <= j.MaxR()
  {
    hide RequestedRaw, QuantisePrecinct, EncodeQuantised, ContextOf;
  }

  /** The choice is the least Q that fits with R = 0, and the largest R that fits with this Q. */
  lemma ChoiceIsOptimal(j: Job)
    requires j.Ok() && j.sh.Bands() > 0 && Regular(j) && Choose(j).Ok?
    ensures Optimal(j, Choose(j).value.0, Choose(j).value.1)
  {
    hide Job.Size, Choose, Regular, Optimal;
    ChoiceIsBoundary(j);
    BoundaryIsOptimal(j, Choose(j).value.0, Choose(j).value.1);
  }

  // ---- failing searches ------------------------------------------------------------------------------

  /** All trials of the search fail with these errors only. */
  ghost predicate TrialsFail(j: Job, errors: set<Error>)
    requires j.Ok()
  {
    hide Job.Size;
    forall q: nat, r: nat | q <= 31 && r <= j.MaxR() && j.Size(q, r).Err? :: j.Size(q, r).error in errors
  }

  lemma {:induction false} SearchQFails(j: Job, lo: nat, hi: nat, errors: set<Error>)
    requires j.Ok() && j.sh.Bands() > 0 && lo <= hi <= 31 && TrialsFail(j, errors)
    ensures if SearchQ(j, lo, hi).Ok? then SearchQ(j, lo, hi).value <= hi else SearchQ(j, lo, hi).error in errors
    decreases hi - lo
  {
    hide Job.Size;
    if lo < hi {
      var mid := (lo + hi) / 2;
      SearchQFails(j, lo, mid, errors);
      SearchQFails(j, mid + 1, hi, errors);
    }
  }

  lemma {:induction false} SearchRFails(j: Job, q: nat, lo: nat, hi: int, errors: set<Error>)
    requires j.Ok() && q <= 31 && lo <= hi <= j.MaxR() && TrialsFail(j, errors)
    ensures SearchR(j, q, lo, hi).Err? ==> SearchR(j, q, lo, hi).error in errors
    decreases hi - lo
  {
    hide Job.Size;
    if lo < hi {
      var mid := (lo + hi + 1) / 2;
      SearchRFails(j, q, mid, hi, errors);
      SearchRFails(j, q, lo, mid - 1, errors);
    }
  }

  /** A choice fails when a trial does, or when the coarsest quantisation exceeds the budget. */
  lemma ChoiceFails(j: Job, errors: set<Error>)
    requires j.Ok() && j.sh.Bands() > 0 && TrialsFail(j, errors)
    ensures Choose(j).Err? ==> Choose(j).error in errors + {BudgetTooSmall}
  {
    hide Job.Size;
    SearchQFails(j, 0, 31, errors);
    if SearchQ(j, 0, 31).Ok? {
      SearchRFails(j, SearchQ(j, 0, 31).value, 0, j.MaxR(), errors);
    }
  }

  // ---- R in eight bits -------------------------------------------------------------------------------

  /** Q fits and Q - 1 does not; R fits and R + 1 does not; the header carries R modulo 256. */
  ghost predicate AtBoundary(j: Job, q: nat, r: nat, carried: nat)
    requires j.Ok()
  {
    hide Job.Size;
    && q <= 31 && j.Fits(q, 0) && (q > 0 ==> j.TooBig(q - 1, 0))
    && r <= j.MaxR() && j.Fits(q, r) && (r < j.MaxR() ==> j.TooBig(q, r + 1))
    && carried == r % 256
  }

  /** Priorities come from one-byte fields. */
  predicate BytePriorities(weights: seq<Weight>) {
    forall b | 0 <= b < |weights| :: weights[b].priority < 256
  }

  /** Q and R matter to the packets through the truncation positions only. */
  lemma SameTruncations(j: Job, q: nat, r: nat, q': nat, r': nat)
    requires j.Ok() && q <= 31 && q' <= 31 && r <= j.MaxR() && r' <= j.MaxR()
    requires Truncations(j.weights, q, r, j.md.br) == Truncations(j.weights, q', r', j.md.br)
    ensures Encode(j.sh, j.md, j.weights, Coding(q, r, j.d, []), j.c, j.st) ==
            Encode(j.sh, j.md, j.weights, Coding(q', r', j.d, []), j.c, j.st)
  {
    hide Truncations, QuantisePrecinct, EncodeQuantised, SameRawPerBand, AsksVertical;
  }

  /** Refining every band at Q is what R = 0 does at Q - 1. */
  lemma AllRefined(weights: seq<Weight>, q: nat, r: nat, br: nat)
    requires BytePriorities(weights) && r >= 256 && q > 0
    ensures Truncations(weights, q, r, br) == Truncations(weights, q - 1, 0, br)
  {
    hide Arith.Pow2;
    forall b | 0 <= b < |weights|
      ensures Truncation(weights[b], q, r, br) == Truncation(weights[b], q - 1, 0, br)
    {
    }
  }

  /** At Q = 0 nothing is truncated. */
  lemma NothingTruncated(weights: seq<Weight>, r: nat, r': nat, br: nat)
    ensures Truncations(weights, 0, r, br) == Truncations(weights, 0, r', br)
  {
    hide Arith.Pow2;
    forall b | 0 <= b < |weights|
      ensures Truncation(weights[b], 0, r, br) == Truncation(weights[b], 0, r', br)
    {
    }
  }

  /** An R beyond eight bits is found at Q = 0 only: at any larger Q it would be as big as Q - 1. */
  lemma WideRAtFinest(j: Job, q: nat, r: nat)
    requires j.Ok() && BytePriorities(j.weights) && q <= 31 && r <= j.MaxR() && j.Fits(q, r) && (q > 0 ==> j.TooBig(q - 1, 0))
    ensures r >= 256 ==> q == 0
  {
    hide Encode, Truncations;
    if r >= 256 && q > 0 {
      AllRefined(j.weights, q, r, j.md.br);
      SameTruncations(j, q, r, q - 1, 0);
      assert false;
    }
  }

  /** At Q = 0 all R give the same bytes, so that the search ends at the largest. */
  lemma AllSameAtFinest(j: Job, r: nat, r': nat)
    requires j.Ok() && r <= j.MaxR() && r' <= j.MaxR()
    ensures j.Size(0, r) == j.Size(0, r')
  {
    hide Encode, Truncations;
    NothingTruncated(j.weights, r, r', j.md.br);
    SameTruncations(j, 0, r, 0, r');
  }

  /** The eight bits of the header change the value of R without changing what it means. */
  lemma CarriedMeansFound(j: Job, q: nat, r: nat, carried: nat)
    requires j.Ok() && BytePriorities(j.weights) && AtBoundary(j, q, r, carried)
    ensures carried <= j.MaxR() && Truncations(j.weights, q, carried, j.md.br) == Truncations(j.weights, q, r, j.md.br)
    ensures Encode(j.sh, j.md, j.weights, Coding(q, carried, j.d, []), j.c, j.st) ==
            Encode(j.sh, j.md, j.weights, Coding(q, r, j.d, []), j.c, j.st)
    ensures j.Fits(q, carried)
  {
    hide Encode, Truncations;
    Arith.DivMod(r, 256);
    WideRAtFinest(j, q, r);
    NothingTruncated(j.weights, r, carried, j.md.br);
    SameTruncations(j, q, r, q, carried);
  }

  /**
   * The header carries the R found exactly when there are at most 128 bands or the finest quantisation does not fit,
   * which one trial decides. Otherwise Q is 0, the R found is the largest, and the header carries 2 * NL - 257.
   */
  lemma CarriedExactly(j: Job, q: nat, r: nat, carried: nat)
    requires j.Ok() && BytePriorities(j.weights) && j.sh.Bands() <= 256 && Regular(j) && AtBoundary(j, q, r, carried)
    ensures carried == r <==> j.sh.Bands() <= 128 || !j.Fits(0, 0)
    ensures carried != r ==> q == 0 && r == j.MaxR() && carried == 2 * j.sh.Bands() - 257
  {
    hide Job.Size, Regular;
    WideRAtFinest(j, q, r);
    BoundaryIsOptimal(j, q, r);
    if q == 0 && r < j.MaxR() {
      AllSameAtFinest(j, 0, r + 1);
    }
    ByteOf(r);
  }

  lemma ByteOf(r: nat)
    requires r < 512
    ensures r % 256 == if r < 256 then r else r - 256
  {
  }

  lemma {:induction false} SearchQLowest(j: Job, hi: nat)
    requires j.Ok() && forall q: nat | q <= hi :: j.Fits(q, 0)
    ensures SearchQ(j, 0, hi) == Result.Ok(0)
    decreases hi
  {
    hide Job.Size;
    if hi > 0 {
      assert j.Fits(hi / 2, 0);
      SearchQLowest(j, hi / 2);
    }
  }

  lemma {:induction false} SearchRHighest(j: Job, q: nat, lo: nat, hi: nat)
    requires j.Ok() && lo <= hi && forall r: nat | r <= hi :: j.Fits(q, r)
    ensures SearchR(j, q, lo, hi) == Result.Ok(hi)
    decreases hi - lo
  {
    hide Job.Size;
    if lo < hi {
      assert j.Fits(q, (lo + hi + 1) / 2);
      SearchRHighest(j, q, (lo + hi + 1) / 2, hi);
    }
  }

  /** A generous budget: when every trial fits the search ends at Q = 0 and the largest R. */
  lemma GenerousBudget(j: Job)
    requires j.Ok() && j.sh.Bands() > 0 && forall q: nat, r: nat | q <= 31 && r <= j.MaxR() :: j.Fits(q, r)
    ensures Choose(j) == Result.Ok((0, j.MaxR()))
  {
    hide Job.Size;
    assert j.Fits(31, 0);
    SearchQLowest(j, 31);
    SearchRHighest(j, 0, 0, j.MaxR());
  }

  // ---- the search with trial encodings ---------------------------------------------------------------

  /** One trial on a copy of the predictor state: the state itself is not touched. */
  method TrySize(j: Job, q: nat, r: nat, state: PredictorState) returns (size: Result<nat>)
    requires j.Ok() && j.st == state.Value()
    ensures size == j.Size(q, r)
  {
    hide Encode;
    var trial := new PredictorState.Copy(state);
    var bytes :- PrecinctEncoder.EncodePrecinct(j.sh, j.md, j.weights, Coding(q, r, j.d, []), j.c, trial);
    return Result.Ok(|bytes|);
  }

  /** The smallest Q that fits with R = 0. */
  method FindQ(j: Job, state: PredictorState) returns (q: Result<nat>)
    requires j.Ok() && j.st == state.Value()
    ensures q == SearchQ(j, 0, 31)
  {
    hide Job.Size;
    var lo: nat, hi: nat := 0, 31;
    while lo < hi
      invariant lo <= hi
      invariant SearchQ(j, 0, 31) == SearchQ(j, lo, hi)
    {
      var mid := (lo + hi) / 2;
      var size :- TrySize(j, mid, 0, state);
      if size <= j.budget {
        hi := mid;
      } else {
        lo := mid + 1;
      }
    }
    return Result.Ok(hi);
  }

  /** The largest R that still fits at Q. */
  method FindR(j: Job, q: nat, state: PredictorState) returns (r: Result<nat>)
    requires j.Ok() && j.st == state.Value()
    ensures r == SearchR(j, q, 0, j.MaxR())
  {
    hide Job.Size;
    var lo: nat, hi: int := 0, 2 * j.sh.Bands() - 1;
    while lo < hi
      invariant SearchR(j, q, 0, j.MaxR()) == SearchR(j, q, lo, hi)
      decreases hi - lo
    {
      var mid := (lo + hi + 1) / 2;
      var size :- TrySize(j, q, mid, state);
      if size <= j.budget {
        lo := mid;
      } else {
        hi := mid - 1;
      }
    }
    return Result.Ok(lo);
  }

  /** Q first, then R; every trial starts from the committed state. */
  method ChooseQuantisation(j: Job, state: PredictorState) returns (choice: Result<(nat, nat)>)
    requires j.Ok() && j.st == state.Value()
    ensures choice == Choose(j)
  {
    hide Job.Size, SearchQ, SearchR;
    var coarsest :- TrySize(j, 31, 0, state);
    if coarsest > j.budget {
      return Err(BudgetTooSmall);
    }
    var q :- FindQ(j, state);
    var r :- FindR(j, q, state);
    return Result.Ok((q, r));
  }
}
