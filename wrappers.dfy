/** Option and Result values used throughout the model, and the HTTP reply
    that every handler produces. */
module Wrappers {

  datatype Option<+T> = None | Some(value: T) {
    function GetOr(default: T): T {
      if Some? then value else default
    }
  }

  datatype Result<+T, +E> = Ok(value: T) | Err(error: E)

  /** A JSON error or status reply: the HTTP status and its `message` field. */
  datatype Reply = Reply(status: int, message: string)
}
