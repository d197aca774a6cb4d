/**
 * What the site's handlers receive from the hosted backend, reduced to values.
 * Every backend call (select, insert, update, delete, the signed-in user) is
 * an input of the handler that issued it: the model never performs I/O.
 */
module Backend {

  /** A value that may be absent (`null`/`undefined` on the JavaScript side). */
  datatype Option<+T> = None | Some(value: T) {
    /** `x || fallback` when `x` is an optional object. */
    function GetOr(fallback: T): T {
      match this
      case Some(v) => v
      case None => fallback
    }
  }

  /** The outcome of a backend call that returns rows: `{ data, error }`. */
  datatype Reply<+T> = Ok(data: T) | Failed(error: string)

  /** The outcome of a backend call whose data the client ignores. */
  datatype Status = Success | Failure(error: string)

  /** The identity of the signed-in viewer, as `auth.getUser()` reports it. */
  type UserId = string
}
