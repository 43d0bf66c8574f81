/** Optional values and resolver outcomes, shared by every module of the model. */
module Wrappers {

  /** A value that may be absent: a nullable or omitted GraphQL field, a missing document. */
  datatype Option<+T> = None | Some(value: T) {

    /** The value when present, otherwise `default` (a JavaScript default parameter). */
    function GetOr(default: T): T {
      if Some? then value else default
    }
  }

  /** What a resolver produces: a value, or the message of the `Error` it throws. */
  datatype Result<+T> = Ok(value: T) | Err(message: string)
}
