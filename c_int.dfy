/** C integer semantics that the watch face relies on: the 16-bit coordinate
    type of the graphics library, the wrap-around of a conversion into it, and
    C's signed division, which truncates toward zero. */
module CInt {

  /** `int16_t`, the type of every coordinate of a point. */
  newtype int16 = x: int | -0x8000 <= x < 0x8000

  const Int16Modulus: int := 0x1_0000

  /** Converting an `int` into an `int16_t` (an assignment to a point's field,
      a cast): the value is moved by whole multiples of 2^16 into the signed
      range. */
  function Wrap16(v: int): (r: int16)
    ensures -0x8000 <= v < 0x8000 ==> r as int == v
    decreases if 2 * v + 1 >= 0 then 2 * v + 1 else -2 * v - 1
  {
    if v < -0x8000 then Wrap16(v + Int16Modulus)
    else if v >= 0x8000 then Wrap16(v - Int16Modulus)
    else v as int16
  }

  /** The wrapped value differs from the original by a multiple of 2^16. */
  lemma {:induction false} Wrap16Congruent(v: int)
    ensures (Wrap16(v) as int - v) % Int16Modulus == 0
    decreases if 2 * v + 1 >= 0 then 2 * v + 1 else -2 * v - 1
  {
    if v < -0x8000 {
      Wrap16Congruent(v + Int16Modulus);
    } else if v >= 0x8000 {
      Wrap16Congruent(v - Int16Modulus);
    }
  }

  /** C's `/` on signed integers with a positive divisor: the quotient is
      rounded toward zero, so `q * b` never lies farther from zero than `a`. */
  function CDiv(a: int, b: int): (q: int)
    requires b > 0
    ensures 0 <= a ==> 0 <= q * b <= a < q * b + b
    ensures a < 0 ==> q * b - b < a <= q * b <= 0
  {
    var n := if a >= 0 then a else -a;
    assert n == (n / b) * b + n % b && 0 <= n % b < b;
    if a >= 0 then n / b else -(n / b)
  }

  /** Truncation toward zero is symmetric about zero; Euclidean division is not. */
  lemma {:induction false} CDivOdd(a: int, b: int)
    requires b > 0
    ensures CDiv(-a, b) == -CDiv(a, b)
  {
    if a == 0 {
      assert CDiv(0, b) == 0;
    }
  }
}
