/** Optional values and fallible results, the counterparts of the source's `Option` and `Result`. */
module Results {

  datatype Option<+T> = None | Some(value: T)

  datatype Result<+T, +E> = Ok(value: T) | Err(error: E)
}
