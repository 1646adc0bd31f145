/** C++ integer division and remainder, which truncate toward zero. */
module CInt {
  function Abs(x: int): nat {
    if x < 0 then -x else x
  }

  /** a / b as C++ computes it: the quotient rounded toward zero. */
  function CDiv(a: int, b: int): (q: int)
    requires b != 0
    ensures Abs(q) == Abs(a) / Abs(b)
    ensures (a < 0) == (b < 0) ==> q >= 0
    ensures (a < 0) != (b < 0) ==> q <= 0
  {
    DivNonNegative(Abs(a), Abs(b));
    var n := Abs(a) / Abs(b);
    if (a < 0) == (b < 0) then n else -n
  }

  lemma DivNonNegative(x: int, y: int)
    requires x >= 0 && y > 0
    ensures x / y >= 0
  {
    assert x == (x / y) * y + x % y;
  }

  /** a % b as C++ computes it: the remainder takes the sign of a. */
  function CRem(a: int, b: int): (r: int)
    requires b != 0
    ensures a == CDiv(a, b) * b + r
    ensures Abs(r) < Abs(b)
    ensures a >= 0 ==> r >= 0
    ensures a <= 0 ==> r <= 0
  {
    DivisionIdentity(a, b);
    a - CDiv(a, b) * b
  }

  lemma DivisionIdentity(a: int, b: int)
    requires b != 0
    ensures Abs(a - CDiv(a, b) * b) < Abs(b)
    ensures a >= 0 ==> a - CDiv(a, b) * b >= 0
    ensures a <= 0 ==> a - CDiv(a, b) * b <= 0
  {
    var B: int := Abs(b);
    var q: int := Abs(a) / B;
    var m := Abs(a) % B;
    var p := q * B;
    assert Abs(a) == p + m && 0 <= m < B;
    var c := CDiv(a, b);
    CDivTimesDivisor(a, b);
    assert c * b == (if a < 0 then -p else p);
  }

  /** The truncated quotient times the divisor is the magnitude's multiple, with the sign of a. */
  lemma CDivTimesDivisor(a: int, b: int)
    requires b != 0
    ensures CDiv(a, b) * b == (if a < 0 then -((Abs(a) / Abs(b)) * Abs(b)) else (Abs(a) / Abs(b)) * Abs(b))
  {
    var B: int := Abs(b);
    var q: int := Abs(a) / B;
    if b < 0 {
      SignedProduct(if a < 0 then q else -q, B);
    } else {
      SignedProduct(if a < 0 then -q else q, B);
    }
  }

  lemma SignedProduct(x: int, y: int)
    ensures (-x) * y == -(x * y) && x * (-y) == -(x * y) && (-x) * (-y) == x * y
  {
  }

  /** The float-to-int cast, which drops the fraction (rounds toward zero). */
  function Truncate(x: real): (r: int)
    ensures x >= 0.0 ==> 0 <= r && r as real <= x < r as real + 1.0
    ensures x < 0.0 ==> r <= 0 && r as real - 1.0 < x <= r as real
  {
    if x >= 0.0 then x.Floor else -((-x).Floor)
  }

  /** Conversion to a 32-bit unsigned int, which wraps modulo 2^32. */
  function ToUnsigned(v: int): (r: int)
    ensures 0 <= r < 0x1_0000_0000
    ensures 0 <= v < 0x1_0000_0000 ==> r == v
  {
    v % 0x1_0000_0000
  }
}
