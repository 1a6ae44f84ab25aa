/** Option and Result values for the error paths the muxer reports instead of undefined behaviour. */
module Results {

  datatype Option<T> = None | Some(value: T)

  datatype Result<T, E> = Success(value: T) | Failure(error: E)
}
