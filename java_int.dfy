/**
 * Java's 32-bit `int` arithmetic on Dafny's unbounded integers: wrap-around of `+` and `*`,
 * the remainder operator `%` that truncates toward zero, and `Math.abs(int)`, which
 * overflows on the most negative value.
 */
module JavaInt {
  const IntMin: int := -0x8000_0000
  const IntMax: int := 0x7fff_ffff
  const Modulus: int := 0x1_0000_0000

  predicate IsInt(x: int) {
    IntMin <= x <= IntMax
  }

  /** Two's-complement truncation to 32 bits: the unique int congruent to `x` modulo 2^32. */
  function Wrap(x: int): (r: int)
    ensures IsInt(r)
    ensures r == x - ((x - IntMin) / Modulus) * Modulus
    ensures IsInt(x) ==> r == x
  {
    (x - IntMin) % Modulus + IntMin
  }

  /** Adding a multiple of 2^32 does not change the wrapped value. */
  lemma WrapShift(y: int, k: int)
    ensures Wrap(y + k * Modulus) == Wrap(y)
  {
    var a := y - IntMin;
    var q, r := a / Modulus, a % Modulus;
    assert a + k * Modulus == (q + k) * Modulus + r;
  }

  /** Java `a + b` on ints. */
  function Add(a: int, b: int): int {
    Wrap(a + b)
  }

  /** Java `a * b` on ints. */
  function Mul(a: int, b: int): int {
    Wrap(a * b)
  }

  /** Java `a / b`: the quotient truncated toward zero. */
  function Quot(a: int, b: int): int
    requires b != 0
  {
    var q := Magnitude(a) / Magnitude(b);
    if (a < 0) == (b < 0) then q else -q
  }

  /** Java `a % b`: the remainder takes the sign of the dividend (truncating division). */
  function Rem(a: int, b: int): (r: int)
    requires b != 0
    ensures a == Quot(a, b) * b + r
    ensures Magnitude(r) < Magnitude(b)
    ensures a >= 0 ==> r >= 0
    ensures a <= 0 ==> r <= 0
    ensures Magnitude(r) == Magnitude(a) % Magnitude(b)
  {
    var m := Magnitude(a) % Magnitude(b);
    assert Magnitude(a) == (Magnitude(a) / Magnitude(b)) * Magnitude(b) + m;
    if a >= 0 then m else -m
  }

  /** The mathematical absolute value. */
  function Magnitude(x: int): nat {
    if x < 0 then -x else x
  }

  /** Java `Math.abs(int)`: the absolute value, except that `Integer.MIN_VALUE` is its own result. */
  function Abs(x: int): (r: int)
    requires IsInt(x)
    ensures IsInt(r)
    ensures x != IntMin ==> r == Magnitude(x)
    ensures x == IntMin ==> r == IntMin
  {
    if x < 0 then Wrap(-x) else x
  }
}
