/** Option and Result: the nullable values and thrown-or-returned outcomes of the
    event-log client and server, as plain datatypes. */
module Wrappers {

  /** A value that may be absent: `null` or `undefined` in the client, a nil slice in the server. */
  datatype Option<+T> = None | Some(value: T)

  /** `x || fallback` in the client, `if x == nil { x = fallback }` in the server. */
  function ValueOr<T>(o: Option<T>, fallback: T): T {
    if o.Some? then o.value else fallback
  }

  /** The outcome of a step that either returns a value or throws. */
  datatype Result<+R, +E> = Success(value: R) | Failure(error: E)
}
