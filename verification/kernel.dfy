/** Kernel-level vocabulary shared by every module: errno values, the fixed-width
    integer types of C, and the wrap-around arithmetic that u32 fields undergo. */
module Kernel {

  // Linux errno values; kernel functions report them negated.
  const ENOENT: int := 2
  const EIO: int := 5
  const EAGAIN: int := 11
  const ENOMEM: int := 12
  const EINVAL: int := 22
  const EPIPE: int := 32
  const ETIMEDOUT: int := 110

  const TWO_32: int := 0x1_0000_0000

  type U8 = x: int | 0 <= x < 0x100
  type U16 = x: int | 0 <= x < 0x1_0000
  type U32 = x: int | 0 <= x < 0x1_0000_0000
  type U64 = x: int | 0 <= x < 0x1_0000_0000_0000_0000

  datatype Option<T> = None | Some(value: T)

  /** A C return convention: a value, or a negative errno. */
  datatype Result<T> = Ok(value: T) | Err(code: int)

  function Min(a: int, b: int): (r: int)
    ensures r <= a && r <= b && (r == a || r == b)
  {
    if a <= b then a else b
  }

  /** `a + b` stored into a u32. */
  function Add32(a: U32, b: U32): (r: U32)
    ensures a + b < TWO_32 ==> r == a + b
    ensures a + b >= TWO_32 ==> r == a + b - TWO_32
  {
    if a + b < TWO_32 then a + b else a + b - TWO_32
  }

  /** `a - b` computed in u32. */
  function Sub32(a: U32, b: U32): (r: U32)
    ensures b <= a ==> r == a - b
    ensures a < b ==> r == a - b + TWO_32
  {
    if b <= a then a - b else a - b + TWO_32
  }

  /** The `(u32)` cast of a u64. */
  function Trunc32(x: U64): (r: U32)
    ensures x < TWO_32 ==> r == x
  {
    x % TWO_32
  }
}
