/** Failure-compatible wrappers used by the decoders and the acquisition model. */
module Wrappers {

  datatype Option<+T> = None | Some(value: T)

  /** The outcome of a decode: a value, or the reason the decode raised. */
  datatype Result<+T, +E> = Success(value: T) | Failure(error: E) {

    predicate IsFailure() {
      Failure?
    }

    function PropagateFailure<U>(): Result<U, E>
      requires Failure?
    {
      Failure(error)
    }

    function Extract(): T
      requires Success?
    {
      value
    }
  }
}
