/**
 * Fixed-width machine integers of the AVR target and the C++ conversions
 * between them. Dafny's integers are unbounded and its `/` is Euclidean, so
 * every truncating cast, every wrap-around and C++'s signed division (which
 * truncates toward zero) is written out here.
 */
module Ints {

  const TWO_8: int := 0x100
  const TWO_16: int := 0x1_0000
  const TWO_31: int := 0x8000_0000
  const TWO_32: int := 0x1_0000_0000

  type uint8 = x: int | 0 <= x < TWO_8
  type uint16 = x: int | 0 <= x < TWO_16
  type uint32 = x: int | 0 <= x < TWO_32
  type int32 = x: int | -TWO_31 <= x < TWO_31

  /** `static_cast<uint8_t>(x)`: keeps the low 8 bits. */
  function Wrap8(x: int): (r: uint8)
    ensures 0 <= x < TWO_8 ==> r == x
  {
    x % TWO_8
  }

  /** `static_cast<uint16_t>(x)`: keeps the low 16 bits. */
  function Wrap16(x: int): (r: uint16)
    ensures 0 <= x < TWO_16 ==> r == x
  {
    x % TWO_16
  }

  /** Unsigned 32-bit arithmetic and `static_cast<uint32_t>(x)`: reduction modulo 2^32. */
  function Wrap32(x: int): (r: uint32)
    ensures 0 <= x < TWO_32 ==> r == x
  {
    x % TWO_32
  }

  /** `static_cast<int32_t>(x)` of a `uint32_t`: the two's-complement reading of the same bits. */
  function AsInt32(x: uint32): (r: int32)
    ensures x < TWO_31 ==> r == x
    ensures r < 0 <==> x >= TWO_31
    ensures Wrap32(r) == x
  {
    if x < TWO_31 then x else x - TWO_32
  }

  /**
   * Signed 32-bit arithmetic. Overflow is undefined in C++; it is modelled as
   * two's-complement wrap-around, and the meter proves it never happens.
   */
  function WrapI32(x: int): (r: int32)
    ensures -TWO_31 <= x < TWO_31 ==> r == x
  {
    (x + TWO_31) % TWO_32 - TWO_31
  }

  function Abs(x: int): nat
  {
    if x < 0 then -x else x
  }

  /**
   * C++ integer division by a positive divisor: the quotient is truncated
   * toward zero, so it has the sign of the dividend and the largest magnitude
   * whose multiple does not exceed the dividend's magnitude.
   */
  function TruncDiv(a: int, b: int): (q: int)
    requires b > 0
    ensures a >= 0 ==> q >= 0
    ensures a <= 0 ==> q <= 0
    ensures Abs(q) * b <= Abs(a) < (Abs(q) + 1) * b
  {
    var n := Abs(a);
    DivBounds(n, b);
    if a >= 0 then n / b else -(n / b)
  }

  /** The Euclidean quotient of a natural number brackets it between two multiples of the divisor. */
  lemma DivBounds(n: nat, b: int)
    requires b > 0
    ensures n / b >= 0
    ensures (n / b) * b <= n < (n / b + 1) * b
  {
    var q, m := n / b, n % b;
    assert n == q * b + m;
    assert (q + 1) * b == q * b + b;
  }

  lemma MulMonotone(a: int, b: int, c: nat)
    requires a <= b
    ensures a * c <= b * c
  {
  }

  lemma MulCancel(a: int, b: int, c: int)
    requires c > 0 && a * c < b * c
    ensures a < b
  {
    if a >= b {
      MulMonotone(b, a, c);
    }
  }

  /** If k copies of the divisor fit into n, the quotient is at least k. */
  lemma QuotientAtLeast(n: nat, d: int, k: nat)
    requires d > 0 && k * d <= n
    ensures n / d >= k
  {
    DivBounds(n, d);
    if n / d < k {
      MulMonotone(n / d + 1, k, d);
    }
  }

  /** If n is below k copies of the divisor, the quotient is below k. */
  lemma QuotientBelow(n: nat, d: int, k: nat)
    requires d > 0 && n < k * d
    ensures n / d < k
  {
    DivBounds(n, d);
    if n / d >= k {
      MulMonotone(k, n / d, d);
    }
  }

  /** Unsigned 32-bit addition may be reduced before or after adding. */
  lemma Wrap32Add(x: int, y: int)
    ensures Wrap32(Wrap32(x) + y) == Wrap32(x + y)
  {
    var k := x / TWO_32;
    assert x == k * TWO_32 + Wrap32(x);
    assert (Wrap32(x) + y) % TWO_32 == (Wrap32(x) + y + k * TWO_32) % TWO_32;
  }

  /**
   * How C++ division relates to Dafny's Euclidean division: negating the
   * dividend negates the quotient, the two agree on non-negative dividends
   * and on exact divisions, and a negative dividend that is not a multiple
   * of the divisor has a truncated quotient one above the Euclidean one.
   */
  lemma TruncDivVersusEuclidean(a: int, b: int)
    requires b > 0
    ensures TruncDiv(-a, b) == -TruncDiv(a, b)
    ensures a >= 0 || a % b == 0 ==> TruncDiv(a, b) == a / b
    ensures a < 0 && a % b != 0 ==> TruncDiv(a, b) == a / b + 1
  {
    if a < 0 {
      var e, r, n := a / b, a % b, -a;
      assert n == -e * b - r;
      if r == 0 {
        assert (-e + 1) * b == n + b;
        QuotientAtLeast(n, b, -e);
        QuotientBelow(n, b, -e + 1);
      } else {
        assert (-e - 1) * b == n + r - b && -e * b == n + r;
        QuotientAtLeast(n, b, -e - 1);
        QuotientBelow(n, b, -e);
      }
    }
  }
}
