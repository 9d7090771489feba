/** The C# `int` the sensor counter is kept in: 32 bits, two's complement, and
    `++`/`--` in an unchecked context wrap around instead of failing. */
module Counter {

  const MODULUS: int := 0x1_0000_0000
  const INT_MIN: int := -0x8000_0000
  const INT_MAX: int := 0x7FFF_FFFF

  type Int32 = x: int | INT_MIN <= x <= INT_MAX

  /** The 32-bit value that `x` is congruent to. */
  function Wrap(x: int): (r: Int32)
    ensures (r - x) % MODULUS == 0
    ensures INT_MIN <= x <= INT_MAX ==> r == x
  {
    (x - INT_MIN) % MODULUS + INT_MIN
  }

  /** `x++` on a C# int. */
  function Inc(x: Int32): (r: Int32)
    ensures x < INT_MAX ==> r == x + 1
    ensures x == INT_MAX ==> r == INT_MIN
  {
    Wrap(x + 1)
  }

  /** `x--` on a C# int. */
  function Dec(x: Int32): (r: Int32)
    ensures x > INT_MIN ==> r == x - 1
    ensures x == INT_MIN ==> r == INT_MAX
  {
    Wrap(x - 1)
  }

  /** Two integers with the same remainder wrap to the same value. */
  lemma WrapCongruent(x: int, y: int)
    requires (x - y) % MODULUS == 0
    ensures Wrap(x) == Wrap(y)
  {
    var k := (x - y) / MODULUS;
    assert x - INT_MIN == (y - INT_MIN) + k * MODULUS;
    ModShift(y - INT_MIN, k);
  }

  lemma {:induction false} ModShift(a: int, k: int)
    ensures (a + k * MODULUS) % MODULUS == a % MODULUS
    decreases if k < 0 then -k else k
  {
    if k > 0 {
      ModShift(a, k - 1);
      assert a + k * MODULUS == (a + (k - 1) * MODULUS) + MODULUS;
    } else if k < 0 {
      ModShift(a, k + 1);
      assert a + k * MODULUS == (a + (k + 1) * MODULUS) - MODULUS;
    }
  }

  /** Wrapping part-way through a sum changes nothing: the counter after any
      number of `++` and `--` is the wrapped net count. */
  lemma WrapAdd(x: int, n: int)
    ensures Wrap(Wrap(x) + n) == Wrap(x + n)
  {
    WrapCongruent(Wrap(x) + n, x + n);
  }

  /** A decrement undoes an increment, across the wrap-around too. */
  lemma DecInc(x: Int32)
    ensures Dec(Inc(x)) == x
  {
  }
}
