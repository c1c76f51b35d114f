/** The fixed-width integers of the source, and the wrap-around its `wrapping_*` operations and
    `as` casts perform.  Arithmetic is on unbounded `int`; every place where the source can wrap
    goes through one of the functions below. */
module Words {
  type u8 = x: int | 0 <= x < 0x100
  type i16 = x: int | -0x8000 <= x < 0x8000
  type u16 = x: int | 0 <= x < 0x1_0000
  type i32 = x: int | -0x8000_0000 <= x < 0x8000_0000

  /** The `i16` with the same low 16 bits as `x`. */
  function Wrap16(x: int): (r: i16)
    ensures -0x8000 <= x < 0x8000 ==> r == x
  {
    (x + 0x8000) % 0x1_0000 - 0x8000
  }

  /** The `i32` with the same low 32 bits as `x`. */
  function Wrap32(x: int): (r: i32)
    ensures -0x8000_0000 <= x < 0x8000_0000 ==> r == x
  {
    (x + 0x8000_0000) % 0x1_0000_0000 - 0x8000_0000
  }

  /** The `u16` with the same low 16 bits as `x`. */
  function WrapU16(x: int): (r: u16)
    ensures 0 <= x < 0x1_0000 ==> r == x
  {
    x % 0x1_0000
  }

  /** Wrapping keeps the low bits, whatever the operand. */
  lemma WrapsKeepLowBits(x: int)
    ensures (Wrap16(x) - x) % 0x1_0000 == 0
    ensures (Wrap32(x) - x) % 0x1_0000_0000 == 0
    ensures (WrapU16(x) - x) % 0x1_0000 == 0
  {
    Difference(x + 0x8000, 0x1_0000);
    Difference(x + 0x8000_0000, 0x1_0000_0000);
    Difference(x, 0x1_0000);
  }

  lemma Difference(y: int, m: int)
    requires m == 0x1_0000 || m == 0x1_0000_0000
    ensures (y % m - y) % m == 0
  {
  }

  /** An arithmetic right shift.  Division here is by a positive constant, so it is the floor. */
  function Asr16(x: i32): (r: i16)
  {
    x / 0x1_0000
  }

  /** `mask & v` for a mask that is all zeros or all ones, which is the only use of `&` on signed
      words in the transforms. */
  function AndMask(mask: int, v: int): (r: int)
    requires mask == 0 || mask == -1
    ensures r == if mask == 0 then 0 else v
  {
    -mask * v
  }

  /** `x >> 15` on an `i16`: all ones exactly when `x` is negative. */
  function SignMask(x: i16): (mask: int)
    ensures mask == if x < 0 then -1 else 0
  {
    x / 0x8000
  }
}
