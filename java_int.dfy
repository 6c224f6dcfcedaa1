/**
 * Java's 32-bit `int`: its range and the two's-complement wrap-around of
 * `-` and `+` on it.
 */
module JavaInt {

  /** `Integer.MIN_VALUE`. */
  const IntMin: int := -0x8000_0000
  /** `Integer.MAX_VALUE`. */
  const IntMax: int := 0x7fff_ffff
  /** Number of distinct `int` values, 2^32. */
  const Modulus: int := 0x1_0000_0000

  /** A value of Java's `int` type. */
  type Int32 = x: int | IntMin <= x <= IntMax

  /**
   * The `int` that Java's arithmetic yields for the mathematical value `x`:
   * the unique value in range congruent to `x` modulo 2^32.
   */
  function Wrap(x: int): (r: Int32)
    ensures (r - x) % Modulus == 0
    ensures IntMin <= x <= IntMax ==> r == x
  {
    (x - IntMin) % Modulus + IntMin
  }

  /** Java `a - b` on `int`. */
  function Sub(a: Int32, b: Int32): Int32 { Wrap(a - b) }

  /** Java `a + b` on `int`. */
  function Add(a: Int32, b: Int32): Int32 { Wrap(a + b) }

  /** Values congruent modulo 2^32 wrap to the same `int`. */
  lemma WrapCongruent(a: int, b: int)
    requires (a - b) % Modulus == 0
    ensures Wrap(a) == Wrap(b)
  {
    var ra, rb := Wrap(a), Wrap(b);
    var i, j, k := (ra - a) / Modulus, (a - b) / Modulus, (rb - b) / Modulus;
    assert ra - rb == Modulus * (i + j - k);
  }

  /** Java's `+` on wrapped operands is the wrapped exact sum. */
  lemma AddWrapped(a: int, b: int)
    ensures Add(Wrap(a), Wrap(b)) == Wrap(a + b)
  {
    var i, j := (Wrap(a) - a) / Modulus, (Wrap(b) - b) / Modulus;
    assert Wrap(a) + Wrap(b) - (a + b) == Modulus * (i + j);
    WrapCongruent(Wrap(a) + Wrap(b), a + b);
  }
}
