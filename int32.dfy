/**
 * C# `int` is a 32-bit two's-complement integer. Outside a `checked` context (the default, and
 * the only one the modelled code uses) `+` and `*` wrap around modulo 2^32.
 */
module Int32Arith {

  const MinValue: int := -0x8000_0000
  const MaxValue: int := 0x7FFF_FFFF
  /** 2^32, the period of the wrap-around. */
  const Modulus: int := 0x1_0000_0000

  /** The values a C# `int` can hold. */
  type Int32 = x: int | MinValue <= x <= MaxValue

  predicate InRange(x: int) {
    MinValue <= x <= MaxValue
  }

  /** How far `x` lies outside the range of `int`; it shrinks with every step of `Wrap`. */
  function Excess(x: int): nat {
    if x < MinValue then MinValue - x else if x > MaxValue then x - MaxValue else 0
  }

  /** The `int` that unchecked arithmetic leaves when the exact result is `x`. */
  function Wrap(x: int): (r: Int32)
    ensures InRange(x) ==> r == x
    decreases Excess(x)
  {
    if x < MinValue then Wrap(x + Modulus)
    else if x > MaxValue then Wrap(x - Modulus)
    else x
  }

  /** Unchecked `a + b` on two `int`s. */
  function Add(a: Int32, b: Int32): (r: Int32)
    ensures InRange(a + b) ==> r == a + b
    ensures a + b > MaxValue ==> r == a + b - Modulus
    ensures a + b < MinValue ==> r == a + b + Modulus
  {
    Wrap(a + b)
  }

  /** Wrap-around is periodic: adding 2^32 to the exact result changes nothing. */
  lemma WrapPeriodic(x: int)
    ensures Wrap(x + Modulus) == Wrap(x)
  {
  }

  /** Wrapping an intermediate result does not change the wrapped final sum. */
  lemma {:induction false} WrapAdd(x: int, y: int)
    ensures Wrap(Wrap(x) + y) == Wrap(x + y)
    decreases Excess(x)
  {
    if x < MinValue {
      WrapAdd(x + Modulus, y);
      WrapPeriodic(x + y);
    } else if x > MaxValue {
      WrapAdd(x - Modulus, y);
      WrapPeriodic(x + y - Modulus);
    }
  }
}
