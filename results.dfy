/** Optional values and success/failure results, the model's stand-in for Go's
    `(value, error)` pairs. */
module Results {

  datatype Option<+T> = None | Some(value: T)

  datatype Result<+R, +E> = Success(value: R) | Failure(error: E) {

    /** The value on success, `default` on failure (Go returns the zero value
        alongside a non-nil error). */
    function GetOr(default: R): R
    {
      match this
      case Success(v) => v
      case Failure(_) => default
    }
  }
}
