/**
 * C++ integer semantics that differ from Dafny's mathematical integers:
 * division truncates toward zero, and unsigned types wrap around.
 */
module CppInt {

  const UINT8_LIMIT: int := 0x100
  const UINT16_LIMIT: int := 0x1_0000
  const UINT32_LIMIT: int := 0x1_0000_0000

  type Uint8 = n: int | 0 <= n < UINT8_LIMIT
  type Uint16 = n: int | 0 <= n < UINT16_LIMIT
  type Uint32 = n: int | 0 <= n < UINT32_LIMIT

  function Abs(n: int): nat
  {
    if n < 0 then -n else n
  }

  /** C++ `a / b` on signed integers: the quotient truncated toward zero. */
  function TruncDiv(a: int, b: int): int
    requires b != 0
  {
    var q := Abs(a) / Abs(b);
    if (a < 0) == (b < 0) then q else -q
  }

  /** On a non-negative dividend and positive divisor, C++ and Dafny division agree. */
  lemma TruncDivOfNonNegative(a: int, b: int)
    requires a >= 0 && b > 0
    ensures TruncDiv(a, b) == a / b
  {
  }
}
