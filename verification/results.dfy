/** Optional values and success/failure results, standing in for Go's
    `(value, ok)` and `(value, error)` return pairs. */
module Results {

  datatype Option<+T> = None | Some(value: T)

  datatype Result<+T, +E> = Ok(value: T) | Err(error: E)
}
