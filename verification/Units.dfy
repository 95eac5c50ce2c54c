/** Shared value types: outcomes, block sizes and 16-bit ring arithmetic. */
module Units {

  datatype Option<+T> = None | Some(value: T)

  /** An operation's value, or the reason the source refuses it with. */
  datatype Result<+T, +E> = Ok(value: T) | Err(error: E)

  const BLOCK: nat := 4096
  const MAX_REQUEST: nat := 1048576
  const U64_MAX: nat := 0xFFFF_FFFF_FFFF_FFFF

  /** A free-running virtqueue index. */
  type u16 = x: int | 0 <= x < 0x1_0000

  /** `wrapping_add(1)` */
  function Next16(x: u16): (r: u16) {
    if x == 0xFFFF then 0 else x + 1
  }

  /** `a.wrapping_sub(b)` */
  function Sub16(a: u16, b: u16): (r: u16) {
    if a >= b then a - b else a - b + 0x1_0000
  }

  /** The 16-bit index an unbounded counter shows through. */
  function Low16(n: nat): (r: u16) {
    n % 0x1_0000
  }
}
