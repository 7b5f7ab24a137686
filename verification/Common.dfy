/** Shared result types and byte strings. */
module Common {
  datatype Option<+T> = None | Some(value: T)

  datatype Result<+T, +E> = Ok(value: T) | Err(error: E)

  newtype byte = i: int | 0 <= i < 256

  type Bytes = seq<byte>
}
