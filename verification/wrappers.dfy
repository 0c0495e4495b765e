/** Shared option type. */
module Options {
  datatype Option<+T> = None | Some(value: T) {
    function GetOr(default: T): T {
      match this
      case None => default
      case Some(v) => v
    }
  }
}

/** Result of an operation of the source that may throw. */
module Results {
  datatype Error = OutOfRange | RuntimeError | InvalidArgument
  datatype Result<+T> = Ok(value: T) | Err(error: Error)
}
