/** Optional values and handler outcomes shared by every module of the model. */
module Values {

  /** A value that may be absent: JavaScript's `null`/`undefined` on one side, a value on the other. */
  datatype Option<T> = None | Some(value: T) {
    function GetOr(default: T): T {
      match this
      case Some(v) => v
      case None => default
    }
  }

  /** The outcome of a handler: the value it answers with, or the error it reports. */
  datatype Result<T, E> = Ok(value: T) | Err(error: E)

  /** A field of a JSON request body: not sent at all, sent as `null`, or sent with a value. */
  datatype Input<T> = Missing | Null | Given(value: T)
}
