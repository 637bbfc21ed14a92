/** Optional values and success-or-failure results, shared by every module of the model. */
module Base {

  /** A value that may be absent: a missing JSON key, a null, a search that found nothing. */
  datatype Option<+T> = None | Some(value: T) {

    /** The value if present, otherwise the given default. */
    function GetOr(default: T): T {
      match this
      case Some(v) => v
      case None => default
    }
  }

  /** The outcome of an operation that throws or raises in the source. */
  datatype Result<+T, +E> = Ok(value: T) | Err(error: E)
}
