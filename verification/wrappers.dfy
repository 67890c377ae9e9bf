/** Optional values (the source's nullable references and `decimal?`) and
    value-or-exception results (the source's thrown exceptions). */
module Wrappers {

  datatype Option<+T> = None | Some(value: T)

  /** A call that either returns a value or throws; `error` is the exception's message.
      Failure-compatible, so `:-` propagates a failure the way an exception unwinds. */
  datatype Result<+T, +E> = Success(value: T) | Failure(error: E) {

    predicate IsFailure() {
      Failure?
    }

    function PropagateFailure<U>(): Result<U, E>
      requires Failure?
    {
      Failure(error)
    }

    function Extract(): T
      requires Success?
    {
      value
    }

    /** The failure's payload, if this is a failure. */
    function ErrorOf(): Option<E> {
      match this
      case Success(_) => None
      case Failure(e) => Some(e)
    }
  }
}
