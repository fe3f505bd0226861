/** What every other module shares: an optional value and raw bytes. */
module Basics {

  datatype Option<+T> = None | Some(value: T)
  {
    function Map<U>(f: T -> U): Option<U> {
      match this
      case None => None
      case Some(value) => Some(f(value))
    }
  }

  /** One byte, as the number it holds. */
  type Byte = b: int | 0 <= b < 256

  type Bytes = seq<Byte>

  // The markers a box payload begins with: continued, final, indirection.
  const MARK_C: Byte := 67
  const MARK_F: Byte := 70
  const MARK_I: Byte := 73

  /** The bytes of a read cap, as an indirection carries it. */
  const READ_CAP_SIZE := 136
}
