/** Failure-carrying wrappers shared by the whole model. */
module Optional {

  /** A JavaScript value that may be `undefined`: `None` stands for `undefined`. */
  datatype Option<+T> = None | Some(value: T)
  {
    function GetOr(default: T): T
    {
      match this
      case Some(v) => v
      case None => default
    }
  }

  /** The outcome of a step that may throw. */
  datatype Result<+T, +E> = Ok(value: T) | Err(error: E)
}
