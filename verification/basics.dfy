/** Failure-carrying wrappers used throughout the vote ledger model. */
module Basics {

  /** A value that may be absent, standing for a JavaScript `undefined`/`null` field. */
  datatype Option<+T> = None | Some(value: T) {

    /** The wrapped value, or `default` when absent. */
    function GetOr(default: T): T {
      match this
      case Some(v) => v
      case None => default
    }
  }

  /** The outcome of a request handler: a new state to persist, or a typed error and no write. */
  datatype Result<+T, +E> = Ok(value: T) | Err(error: E)
}
