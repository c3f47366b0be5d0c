/** The two C++ integer conversions the delay line relies on, stated over
    unbounded `int` and exact `real`: `static_cast<int>` of a floating value
    truncates toward zero, and `%` on `int` keeps the sign of the dividend.
    Dafny's own `%` is Euclidean, so neither can be used as is. */
module CppArith {

  /** `static_cast<int>(x)`: drop the fractional part, rounding toward zero. */
  function Trunc(x: real): (r: int)
    ensures 0.0 <= x ==> r as real <= x < r as real + 1.0
    ensures x < 0.0 ==> r as real - 1.0 < x <= r as real
  {
    if x >= 0.0 then x.Floor else -((-x).Floor)
  }

  /** `a % b` for C++ `int` with `b > 0`: the magnitude is `|a|` modulo `b`
      and the sign is that of `a`. */
  function CRem(a: int, b: int): (r: int)
    requires b > 0
    ensures -b < r < b
    ensures a >= 0 ==> r == a % b
    ensures a < 0 ==> r <= 0 && -r == (-a) % b
  {
    if a >= 0 then a % b else -((-a) % b)
  }

  /** C++ defines `a % b` through division truncated toward zero:
      `a == (a / b) * b + a % b`. */
  lemma CRemTruncates(a: int, b: int)
    requires b > 0
    ensures CRem(a, b) == a - Trunc(a as real / b as real) * b
  {
    var q := if a >= 0 then a / b else -((-a) / b);
    var r := CRem(a, b);
    TruncatedDivision(a, b, q);
    SplitQuotient(q, r, b);
    QuotientSign(a, b);
    QuotientSign(r, b);
    TruncUnique(a as real / b as real, q);
  }

  // The quotient truncated toward zero and `CRem` recombine to the dividend.
  lemma TruncatedDivision(a: int, b: int, q: int)
    requires b > 0 && q == if a >= 0 then a / b else -((-a) / b)
    ensures a == q * b + CRem(a, b)
  {
    if a < 0 {
      assert -a == ((-a) / b) * b + (-a) % b;
    }
  }

  // An integer within one unit of `x` on the side of zero is its truncation.
  lemma TruncUnique(x: real, q: int)
    requires 0.0 <= x ==> q as real <= x < q as real + 1.0
    requires x < 0.0 ==> q as real - 1.0 < x <= q as real
    ensures Trunc(x) == q
  {
    var t := Trunc(x);
    assert t - 1 < q < t + 1;
  }

  // `(q * b + r) / b` is `q` plus the fraction `r / b`.
  lemma SplitQuotient(q: int, r: int, b: int)
    requires b > 0
    ensures ((q * b + r) as real) / (b as real) == q as real + (r as real) / (b as real)
    ensures -b < r < b ==> -1.0 < (r as real) / (b as real) < 1.0
  {
    var B := b as real;
    assert ((q * b + r) as real) == (q as real) * B + (r as real);
    assert ((q as real) * B + (r as real)) / B == (q as real) * B / B + (r as real) / B;
  }

  // Dividing by a positive number keeps the sign.
  lemma QuotientSign(n: int, b: int)
    requires b > 0
    ensures n >= 0 <==> (n as real) / (b as real) >= 0.0
  {
    assert (n as real) / (b as real) * (b as real) == n as real;
  }

  // Facts about Dafny's Euclidean `%` that the index arithmetic needs.

  lemma ModUnique(x: int, L: int, q: int, r: int)
    requires L > 0 && 0 <= r < L && x == q * L + r
    ensures x % L == r
  {
    var d := q - x / L;
    assert d * L == x % L - r;
    if d >= 1 {
      NonNegProduct(d - 1, L);
    } else if d <= -1 {
      NonNegProduct(-d - 1, L);
    }
  }

  lemma NonNegProduct(a: int, b: int)
    requires a >= 0 && b >= 0
    ensures a * b >= 0
  {
  }

  /** Adding the modulus does not change the remainder. */
  lemma ModShift(x: int, L: int)
    requires L > 0
    ensures (x + L) % L == x % L
  {
    ModUnique(x + L, L, x / L + 1, x % L);
  }

  /** An index at most one lap out of range is brought back by one lap. */
  lemma ModSmall(x: int, L: int)
    requires L > 0 && -L <= x < 2 * L
    ensures x % L == if x < 0 then x + L else if x < L then x else x - L
  {
    if x < 0 {
      ModUnique(x, L, -1, x + L);
    } else if x < L {
      ModUnique(x, L, 0, x);
    } else {
      ModUnique(x, L, 1, x - L);
    }
  }
}
