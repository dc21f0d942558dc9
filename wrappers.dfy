/** Option and Result types shared by the model. */
module Wrappers {

  /** A value that may be absent: JavaScript's `undefined`/`null`, SQL's NULL. */
  datatype Option<+T> = None | Some(value: T) {
    function GetOr(default: T): T {
      match this
      case Some(v) => v
      case None => default
    }
  }

  /** The outcome of an operation that can throw: `Err` carries the error's message. */
  datatype Result<+T> = Ok(value: T) | Err(error: string)
}
