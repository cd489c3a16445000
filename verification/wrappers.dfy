/** Option and Result types used throughout the model. */
module Wrappers {

  /** A value that may be absent. For a field of a library answer this is `undefined`, `null`
      or a missing key alike; for a request field read with a destructuring default it is
      `undefined` or a missing key only, since a `null` there keeps `null`. */
  datatype Option<+T> = None | Some(value: T) {

    /** The value, or `default` when absent. */
    function GetOr(default: T): T {
      match this
      case Some(v) => v
      case None => default
    }
  }

  /** The outcome of a collaborator call: a value, or the `message` of the error it threw. */
  datatype Result<+T> = Ok(value: T) | Err(message: string)
}
