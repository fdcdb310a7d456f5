/** The C integer facts the programs depend on. Integers are unbounded here, so every
    narrowing, remainder and overflow limit of the C code is written out. */
module CInt {
  /** The largest value of a 32-bit `int`. */
  const INT_MAX: int := 0x7fff_ffff

  /** Conversion of an `int` to a signed 8-bit `char`. */
  function NarrowChar(x: int): int {
    (x + 128) % 256 - 128
  }

  /** The remainder operator of C, which truncates towards zero, for a positive divisor. */
  function Rem(x: int, m: int): int
    requires m > 0
  {
    if x >= 0 then x % m else -((-x) % m)
  }

  /** The narrowed value is the one signed byte that differs from the int by a multiple of
      256. */
  lemma NarrowCharIsTheByte(x: int, c: int, q: int)
    requires -128 <= c < 128 && x == c + 256 * q
    ensures NarrowChar(x) == c
  {
    assert x + 128 == (c + 128) + 256 * q;
  }

  /** Exactly the ints congruent to 255 modulo 256 read as -1. */
  lemma NarrowCharIsMinusOne(x: int)
    ensures NarrowChar(x) == -1 <==> x % 256 == 255
  {
    var q, r := x / 256, x % 256;
    NarrowCharIsTheByte(x, if r < 128 then r else r - 256, if r < 128 then q else q + 1);
  }

  /** In range, the remainder only acts at the limit. */
  lemma RemInRange(x: int, m: int)
    requires 0 <= x <= m && m > 0
    ensures Rem(x, m) == if x == m then 0 else x
  {
  }
}

module Wrappers {
  datatype Option<+T> = None | Some(value: T)
}
