// Failure values shared by every module: what the C++ code throws becomes an Err.
module Wrappers {

  datatype Error =
    | EndOfData            // BitReader ran past the data
    | FieldTooWide         // BitWriter.Put: the value needs more bits than the field has
    | LostSync             // VLC: 2^(Br+1) consecutive one bits
    | ResidualTooSmall     // VLC: residual below -theta
    | NoPredictor          // vertical prediction in the first precinct row of a slice
    | PredictorMismatch    // predictor state of another precinct geometry
    | CountOutOfRange      // decoded bitplane count outside 0..2^Br-1
    | SubpacketTooLong     // a subpacket used more bytes than its length field says
    | BeyondBody           // a length field points past the precinct body
    | TooManyBitplanes     // a coefficient needs more than 2^Br-1 bitplanes
    | BadCoding            // encoder choices outside their range
    | BadShape             // coefficient buffers of the wrong size
    | LengthOutOfRange     // a length does not fit its header field
    | BadHeader            // malformed or inconsistent headers
    | BadMarker            // unexpected marker
    | Overflow             // an intermediate value does not fit in 32 bits
    | BadBand              // a band the transform asks for is missing
    | BudgetTooSmall       // constant bit rate: the precinct does not fit
    | Unsupported          // features outside the supported subset

  datatype Result<+T> = Ok(value: T) | Err(error: Error) {
    predicate IsFailure() {
      Err?
    }

    function PropagateFailure<U>(): Result<U>
      requires Err?
    {
      Err(error)
    }

    function Extract(): T
      requires Ok?
    {
      value
    }
  }

  datatype Option<+T> = None | Some(value: T)

  /** What a loop yields in all when `done` came out of it already. */
  function Behind<T>(done: seq<T>, r: Result<seq<T>>): Result<seq<T>> {
    match r
    case Ok(more) => Ok(done + more)
    case Err(e) => Err(e)
  }

  /** The same for a loop that also hands over what it did not consume. */
  function BehindFirst<A, B>(done: seq<A>, r: Result<(seq<A>, B)>): Result<(seq<A>, B)> {
    match r
    case Ok((more, rest)) => Ok((done + more, rest))
    case Err(e) => Err(e)
  }

  lemma BehindTwice<A, B>(a: seq<A>, b: seq<A>, r: Result<(seq<A>, B)>)
    ensures BehindFirst(a, BehindFirst(b, r)) == BehindFirst(a + b, r)
  {
    if r.Ok? {
      assert a + (b + r.value.0) == (a + b) + r.value.0;
    }
  }

  lemma BehindError<A, B>(a: seq<A>, r: Result<(seq<A>, B)>)
    requires r.Err?
    ensures BehindFirst(a, r) == Err(r.error)
  {
  }
}
