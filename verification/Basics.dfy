/** Types shared by the modules of this project. */
module Basics {
  newtype Byte = b: int | 0 <= b < 256

  datatype Option<T> = None | Some(value: T)
}
