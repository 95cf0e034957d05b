/** Types shared by every part of the model. */
module Common {
  /** One byte of a file or of a stream, by its unsigned value. */
  type Byte = b: int | 0 <= b < 256

  datatype Option<+T> = None | Some(value: T)

  function Min(a: int, b: int): int {
    if a <= b then a else b
  }
}
