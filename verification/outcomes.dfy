/** Failure-compatible wrappers shared by the decoder and the option helpers.

    The Go sources report one error value (goflat's ErrEmptyDelimiter) and
    otherwise abort with runtime panics; every such exit is a `Fault` here. */
module Outcomes {

  /** A Go pointer or interface that may be nil. */
  datatype Option<+T> = None | Some(value: T)

  /** The ways a call into the library ends without a result.
      - EmptyDelimiter: goflat's ErrEmptyDelimiter, returned as an error value.
      - ShapeConflict: a failed type assertion on a node that is neither a
        list nor a map (a leaf where the path wants a container).
      - IndexOutOfRange: a slice index past the end of a split key. */
  datatype Fault = EmptyDelimiter | ShapeConflict | IndexOutOfRange

  datatype Result<+T> = Success(value: T) | Failure(error: Fault) {

    predicate IsFailure() {
      Failure?
    }

    function PropagateFailure<U>(): Result<U>
      requires Failure?
    {
      Failure(error)
    }

    function Extract(): T
      requires Success?
    {
      value
    }
  }
}
