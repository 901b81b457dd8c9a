/** Nullable values and exception-carrying results, the two shapes every
    operation of the portfolio service returns through. */
module Wrappers {

  /** `None` stands for a C# `null`. */
  datatype Option<T> = None | Some(value: T) {

    /** The value, or `default` when null (C#'s `??`). */
    function GetOr(default: T): T {
      match this
      case Some(v) => v
      case None => default
    }
  }

  /** A computed value, or the exception raised instead of it. */
  datatype Result<T, E> = Ok(value: T) | Err(error: E)

  /** The completion of a `Task` with no value: it ran to the end or threw. */
  datatype Outcome<E> = Pass | Fail(error: E)
}
