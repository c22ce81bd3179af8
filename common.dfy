/** Optional values and results with an error, for the places where the
    JavaScript code returns `null` or throws. */
module Common {

  datatype Option<+T> = None | Some(value: T)

  datatype Result<+T, +E> = Ok(value: T) | Err(error: E)
}
