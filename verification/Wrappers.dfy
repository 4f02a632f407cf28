/** Results of operations that can fail. */
module Wrappers {

  datatype Option<+T> = None | Some(value: T)

  datatype Result<+T, +E> = Ok(value: T) | Err(error: E)

  /** A call that took the state from `before` to `after` and returned `r` did what
      `expected` says; the host discards every write of a failed call. */
  ghost predicate Performed<S, E>(expected: Result<S, E>, before: S, after: S, r: Result<(), E>) {
    match expected
    case Ok(t) => r == Ok(()) && after == t
    case Err(e) => r == Err(e) && after == before
  }
}
