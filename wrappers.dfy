/** Option and Result values shared by every module of the model. */
module Wrappers {

  /** An optional value: `None` stands for JavaScript's `undefined`/`null`. */
  datatype Option<+T> = None | Some(value: T) {

    /** The value, or `default` when there is none (JavaScript's `x ?? default`). */
    function GetOr(default: T): T {
      match this
      case Some(v) => v
      case None => default
    }
  }

  /** The outcome of an operation that may throw: `Err` carries the error text. */
  datatype Result<+R> = Ok(value: R) | Err(error: string)

  /** JavaScript's `null` as a response payload (`data: null` is sent, not omitted). */
  datatype Null = Null
}
