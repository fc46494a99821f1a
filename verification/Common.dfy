/** Types shared by the models. */
module Common {
  /** A byte of a file or of a media buffer. */
  newtype byte = x: int | 0 <= x < 0x100

  type Bytes = seq<byte>

  datatype Option<+T> = None | Some(value: T)
}
