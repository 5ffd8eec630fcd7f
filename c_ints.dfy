/**
 * The fixed-width integer types of the scheduler's fields, and the value each
 * kind of variable keeps when a wider value is assigned to it (reduction
 * modulo 2^n, two's complement for the signed types).
 */
module CInts {

  type uint8 = x: int | 0 <= x < 0x100
  type int8 = x: int | -0x80 <= x < 0x80
  type uint16 = x: int | 0 <= x < 0x1_0000
  type int16 = x: int | -0x8000 <= x < 0x8000
  type uint32 = x: int | 0 <= x < 0x1_0000_0000
  type uint64 = x: int | 0 <= x < 0x1_0000_0000_0000_0000

  /** The value an 8-bit unsigned variable keeps when assigned x. */
  function ToUint8(x: int): (r: uint8)
    ensures (x - r) % 0x100 == 0
  {
    x % 0x100
  }

  /** The value an 8-bit signed variable keeps when assigned x. */
  function ToInt8(x: int): (r: int8)
    ensures (x - r) % 0x100 == 0
  {
    var low := x % 0x100;
    if low < 0x80 then low else low - 0x100
  }

  /** The value a 16-bit unsigned variable keeps when assigned x. */
  function ToUint16(x: int): (r: uint16)
    ensures (x - r) % 0x1_0000 == 0
  {
    x % 0x1_0000
  }

  /** The value a 16-bit signed variable keeps when assigned x. */
  function ToInt16(x: int): (r: int16)
    ensures (x - r) % 0x1_0000 == 0
    ensures -0x8000 <= x < 0x8000 ==> r == x
  {
    var low := x % 0x1_0000;
    if low < 0x8000 then low else low - 0x1_0000
  }

  /** The value a 64-bit unsigned variable keeps when assigned x. */
  function ToUint64(x: int): (r: uint64)
    ensures (x - r) % 0x1_0000_0000_0000_0000 == 0
  {
    x % 0x1_0000_0000_0000_0000
  }

  /** The 32-bit `long` that holds a 32-bit unsigned millis() reading. */
  function ToLong(x: uint32): (r: int)
    ensures -0x8000_0000 <= r < 0x8000_0000
    ensures (x - r) % 0x1_0000_0000 == 0
  {
    if x < 0x8000_0000 then x else x - 0x1_0000_0000
  }

  /**
   * C's `%` for a positive divisor: the remainder has the dividend's sign,
   * and for a dividend that is not negative it is Dafny's `%`. With C's
   * quotient, truncated toward zero, it completes the division identity.
   */
  function CRem(a: int, b: int): (r: int)
    requires b > 0
    ensures a >= 0 ==> r == a % b
    ensures a < 0 ==> -b < r <= 0
    ensures a == b * (if a >= 0 then a / b else -((-a) / b)) + r
  {
    if a >= 0 then a % b else -((-a) % b)
  }

  /**
   * Stepping one place forwards or backwards from c among the values below
   * n, as the remainder of c + n + d, wraps around at both ends.
   */
  lemma WrapStep(c: int, n: int, d: int)
    requires 0 < n
    ensures 0 <= c < n && (d == 1 || d == -1) ==>
              0 <= c + n + d &&
              (c + n + d) % n == if d == 1 then (if c + 1 == n then 0 else c + 1)
                                 else (if c == 0 then n - 1 else c - 1)
  {
    if 0 <= c < n && (d == 1 || d == -1) {
      var x := c + n + d;
      if x < n {
        assert x % n == x;
      } else if x < 2 * n {
        assert x % n == x - n;
      } else {
        assert x % n == 0;
      }
    }
  }

  /** An 8-bit value other than 255 survives a store into an int8 and back. */
  lemma Int8RoundTrip(f: uint8)
    requires f != 0xFF
    ensures ToInt8(f) != -1 && ToUint8(ToInt8(f)) == f
  {
  }

  /** Narrowing to int8 only looks at the value modulo 256. */
  lemma {:induction false} Int8OfCongruent(x: int, y: int)
    requires (x - y) % 0x100 == 0
    ensures ToInt8(x) == ToInt8(y)
  {
    assert x % 0x100 == y % 0x100 by {
      var k := (x - y) / 0x100;
      assert x == y + 0x100 * k;
    }
  }
}
