/** Option and Result values: a value that may be missing, and an operation that may fail. */
module Results {

  datatype Option<T> = None | Some(value: T)

  datatype Result<T, E> = Ok(value: T) | Err(error: E)
}
