/** Shared vocabulary: parcels, optional values, results carrying the
    exception kinds the planner code throws, and sequence helpers. */
module Base {

  /** A parcel of the host simulation; only its identity matters here. */
  datatype Parcel = Parcel(id: nat)

  /** The Guava `Optional` / Java `null` of the source. */
  datatype Option<+T> = None | Some(value: T)

  /** The unchecked exceptions the modelled code can raise. */
  datatype Error =
    | IllegalArgument     // Preconditions.checkArgument, or a plain `throw new IllegalArgumentException()`
    | IllegalState        // Preconditions.checkState, or Optional.get() on an absent value
    | IndexOutOfBounds    // List.get(i) with i outside the list
    | VerifyFailed        // Guava's Verify.verify / verifyNotNull

  datatype Result<+T> = Success(value: T) | Failure(error: Error) {
    predicate IsFailure() { Failure? }

    function PropagateFailure<U>(): Result<U>
      requires Failure?
    {
      Failure(error)
    }

    function Extract(): T
      requires Success?
    {
      value
    }
  }

  /** No element occurs twice. */
  ghost predicate Distinct<T>(s: seq<T>)
  {
    forall i, j :: 0 <= i < j < |s| ==> s[i] != s[j]
  }

  /** All elements of a sequence of sequences, in order. */
  function Flatten<T>(ss: seq<seq<T>>): (r: seq<T>)
  {
    if |ss| == 0 then [] else Flatten(ss[..|ss| - 1]) + ss[|ss| - 1]
  }
}
