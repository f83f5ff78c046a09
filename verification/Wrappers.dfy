// The option and byte types shared by every module.
module Wrappers {
  datatype Option<+T> = None | Some(value: T)

  type byte = b: int | 0 <= b < 256

  type Bytes = seq<byte>
}
