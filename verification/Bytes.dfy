/** Small vocabulary shared by the other modules. */
module Bytes {
  // One octet of a buffer or of a message on the wire.
  type byte = x: int | 0 <= x < 256

  datatype Option<+T> = None | Some(value: T)

  function Min(a: int, b: int): int { if a <= b then a else b }

  function Max(a: int, b: int): int { if a <= b then b else a }
}
