// The machine integers of the program and of the database columns.
module Integers {

  const MIN_INT64: int := -0x8000_0000_0000_0000
  const MAX_INT64: int := 0x7FFF_FFFF_FFFF_FFFF
  const MIN_INT32: int := -0x8000_0000
  const MAX_INT32: int := 0x7FFF_FFFF

  predicate InInt64(x: int) {
    MIN_INT64 <= x <= MAX_INT64
  }

  predicate InInt32(x: int) {
    MIN_INT32 <= x <= MAX_INT32
  }

  type Int64 = x: int | InInt64(x) witness 0

  /** Unary minus on int64: the smallest value has no positive counterpart and maps to itself. */
  function Neg64(x: Int64): Int64 {
    assert InInt64(x);
    if x == MIN_INT64 then MIN_INT64 else -x
  }

  /** The int32 a product or sum is truncated to. */
  function Wrap32(x: int): int {
    (x - MIN_INT32) % 0x1_0000_0000 + MIN_INT32
  }

  /** Truncation keeps the low 32 bits and gives the one int32 that has them. */
  lemma Wrap32Meaning(x: int)
    ensures InInt32(Wrap32(x)) && -2147483648 <= Wrap32(x) <= 2147483647
    ensures (Wrap32(x) - x) % 4294967296 == 0
    ensures Wrap32(x) == x <==> InInt32(x)
  {
    assert Wrap32(x) - x == -4294967296 * ((x - MIN_INT32) / 4294967296);
  }

  /** The bounds of bigint, and negation modulo 2 to the 64. */
  lemma Neg64Meaning(x: int)
    ensures InInt64(x) <==> -9223372036854775808 <= x <= 9223372036854775807
    ensures InInt64(x) ==> (Neg64(x) + x) % 18446744073709551616 == 0
    ensures InInt64(x) ==> (Neg64(x) == -x <==> x != -9223372036854775808)
  {
  }
}
