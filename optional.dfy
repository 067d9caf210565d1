/** Nullable values of the record types: a column that may hold `null`. */
module Optional {

  datatype Option<+T> = None | Some(value: T) {

    /** The value, or `default` when there is none (the source's `x || d` on non-strings). */
    function GetOr(default: T): T {
      match this
      case Some(v) => v
      case None => default
    }
  }

  /** A computation that can fail the way a JavaScript call throws. */
  datatype Result<+T> = Ok(value: T) | Err(message: string)
}
