/** The 32-bit signed `int` of the original program, and the C meaning of
    its division operators.  Results are computed on unbounded integers and
    then tested against the 32-bit range, which is what the overflow helpers
    of the original program (`_private_add_overflow` and friends) decide. */
module CInt {

  const INT_MIN: int := -0x8000_0000
  const INT_MAX: int := 0x7fff_ffff
  const TWO_32: int := 0x1_0000_0000

  /** The value is representable as a 32-bit signed int. */
  predicate Fits(x: int) {
    INT_MIN <= x <= INT_MAX
  }

  /** Overflow predicates standing for the overflow helpers: the exact result
      is not representable. */
  predicate AddOverflows(a: int, b: int) { !Fits(a + b) }
  predicate SubOverflows(a: int, b: int) { !Fits(a - b) }
  predicate MulOverflows(a: int, b: int) { !Fits(a * b) }

  /** Two's-complement wrap-around of an exact result into 32 bits: what
      signed overflow does on the usual hardware (C leaves it undefined). */
  function Wrap32(x: int): (r: int)
    ensures Fits(r)
    ensures (r - x) % TWO_32 == 0
    ensures Fits(x) ==> r == x
  {
    (x - INT_MIN) % TWO_32 + INT_MIN
  }

  /** Just above the range, wrapping subtracts 2^32 once. */
  lemma WrapAbove(x: int)
    requires INT_MAX < x <= INT_MAX + TWO_32
    ensures Wrap32(x) == x - TWO_32
  {
    var y := x - INT_MIN;
    assert TWO_32 <= y < 2 * TWO_32;
    assert y % TWO_32 == y - TWO_32;
  }

  /** Just below the range, wrapping adds 2^32 once. */
  lemma WrapBelow(x: int)
    requires INT_MIN - TWO_32 <= x < INT_MIN
    ensures Wrap32(x) == x + TWO_32
  {
    var y := x - INT_MIN;
    assert -TWO_32 <= y < 0;
    assert y % TWO_32 == y + TWO_32;
  }

  function Abs(x: int): nat {
    if x < 0 then -x else x
  }

  /** C's `/`: the quotient truncated toward zero. */
  function CDiv(a: int, b: int): int
    requires b != 0
  {
    if (a >= 0) == (b > 0) then Abs(a) / Abs(b) else -(Abs(a) / Abs(b))
  }

  /** C's `%`: the remainder that goes with `CDiv`. */
  function CRem(a: int, b: int): int
    requires b != 0
  {
    a - b * CDiv(a, b)
  }

  /** The remainder is smaller than the divisor in magnitude and carries the
      sign of the dividend. */
  lemma CRemBounds(a: int, b: int)
    requires b != 0
    ensures a == b * CDiv(a, b) + CRem(a, b)
    ensures Abs(CRem(a, b)) < Abs(b)
    ensures a >= 0 ==> CRem(a, b) >= 0
    ensures a < 0 ==> CRem(a, b) <= 0
  {
    var A: int, B: int := Abs(a), Abs(b);
    var q: int, r: int := A / B, A % B;
    var p: int := B * q;
    assert A == p + r && 0 <= r < B;
    assert b * CDiv(a, b) == if a >= 0 then p else -p by {
      SignedProduct(b, B, CDiv(a, b), q);
    }
  }

  /** A product of signed copies of `x` and `y` is a signed copy of `x * y`. */
  lemma SignedProduct(x: int, X: int, y: int, Y: int)
    requires x == X || x == -X
    requires y == Y || y == -Y
    ensures x * y == if (x == X) == (y == Y) then X * Y else -(X * Y)
  {
  }

  /** Between 32-bit operands, the only quotient that overflows is
      INT_MIN / -1. */
  lemma CDivFits(a: int, b: int)
    requires Fits(a) && Fits(b) && b != 0
    ensures Fits(CDiv(a, b)) <==> !(a == INT_MIN && b == -1)
  {
    if Abs(b) >= 2 {
      QuotientSmall(Abs(a), Abs(b));
    } else if b == 1 {
      assert CDiv(a, b) == a;
    } else {
      assert CDiv(a, b) == -a;
    }
  }

  lemma QuotientSmall(A: int, B: int)
    requires 0 <= A <= 0x8000_0000 && 2 <= B
    ensures 0 <= A / B <= 0x4000_0000
  {
    var q := A / B;
    assert A == B * q + A % B;
    assert 0 <= A % B;
    assert 0 <= q;
    MulMono(2, B, q);
  }

  lemma MulMono(x: int, y: int, z: int)
    requires 0 <= x <= y && 0 <= z
    ensures x * z <= y * z
  {
  }

  /** A value reduced into the minutes of one day, as the source does it:
      the C remainder followed by a correction of a negative result. */
  function DayMinutes(x: int): (r: int)
    ensures 0 <= r < 1440
    ensures (r - x) % 1440 == 0
  {
    CRemBounds(x, 1440);
    var m := CRem(x, 1440);
    if m < 0 then m + 1440 else m
  }
}
