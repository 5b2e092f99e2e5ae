/** Optional values and success-or-error results, used wherever the Go code returns a value and an `error`. */
module Results {

  datatype Option<+T> = None | Some(value: T)

  datatype Result<+T, +E> = Ok(value: T) | Err(error: E)
}
