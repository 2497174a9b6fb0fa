/** Types shared by every module of the bundler model. */
module Basics {

  datatype Option<+T> = None | Some(value: T)

  datatype Result<+T, +E> = Ok(value: T) | Err(error: E)

  newtype byte = x: int | 0 <= x < 256

  type Bytes = seq<byte>

  /** An address is the byte string its lower-case hexadecimal text denotes. */
  type Address = Bytes

  /** A storage slot number or a slot value. */
  type Word = nat

  const ADDRESS_LENGTH: nat := 20

  const ADDRESS_ZERO: Address := [0, 0, 0, 0, 0, 0, 0, 0, 0, 0, 0, 0, 0, 0, 0, 0, 0, 0, 0, 0]

  predicate IsAddress(a: Address) {
    |a| == ADDRESS_LENGTH
  }

  function Max(a: int, b: int): int {
    if a < b then b else a
  }

  function Min(a: int, b: int): int {
    if a < b then a else b
  }

  /** The sequence without the element at index i. */
  function RemoveAt<T>(s: seq<T>, i: nat): seq<T>
    requires i < |s|
  {
    s[..i] + s[i + 1..]
  }
}
