/** Option and Result, the shapes the model uses for JavaScript's `undefined` and
    for the exceptions the pipeline throws. */
module Wrappers {

  datatype Option<+T> = None | Some(value: T)
  {
    function GetOr(default: T): T
    {
      match this
      case Some(v) => v
      case None => default
    }
  }

  /** A computation that either returns a value or throws an error whose message is `error`. */
  datatype Result<+T> = Success(value: T) | Failure(error: string)
}
