/** Failure-carrying values shared by every part of the pipeline. */
module Outcomes {

  /** A value that may be absent; stands for Python's `None`. */
  datatype Option<+T> = None | Some(value: T) {

    /** The wrapped value, or `default` when there is none. */
    function GetOr(default: T): T {
      match this
      case Some(v) => v
      case None => default
    }
  }

  /** The value a call returns, or the exception it raises instead. */
  datatype Result<+T, +E> = Success(value: T) | Failure(error: E)

  /** What a lazily consumed stream delivered: the items it produced, in order,
      and the exception that ended it early, if one did. */
  datatype Run<+T, +E> = Run(items: seq<T>, raised: Option<E>)
}
