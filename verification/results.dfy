/** Optional values and error-carrying results, used wherever the program
    returns "nothing found" (None, -1) or stops with an error. */
module Results {

  datatype Option<+T> = None | Some(value: T) {

    /** The value, or `default` when there is none (Python's `x or default`
        and `dict.get(key, default)` reduce to this). */
    function GetOr(default: T): T {
      match this
      case Some(v) => v
      case None => default
    }
  }

  datatype Result<+T, +E> = Ok(value: T) | Err(error: E)
}
