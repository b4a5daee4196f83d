/** Types shared by the whole model: Go's `byte` and the error wrappers. */
module Common {

  /** Go's `byte` (uint8). */
  newtype byte = x: int | 0 <= x < 256

  datatype Option<T> = None | Some(value: T)

  datatype Result<T, E> = Ok(value: T) | Err(error: E)
}
