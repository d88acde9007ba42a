/// Small facts about integer multiplication and division that the tiling,
/// indexing and matrix models share.
module IntArith {

  lemma MulMonotone(a: int, b: int, c: int)
    requires 0 <= a <= b && 0 <= c
    ensures a * c <= b * c
  {
  }

  lemma MulNonNegative(a: int, b: int)
    requires 0 <= a && 0 <= b
    ensures 0 <= a * b
  {
    MulMonotone(0, a, b);
  }

  lemma MulStrictMonotone(a: int, b: int, c: int)
    requires 0 <= a < b && 0 < c
    ensures a * c + c <= b * c
  {
    MulMonotone(a + 1, b, c);
    assert (a + 1) * c == a * c + c;
  }

  /// x / d is the q with q*d <= x < q*d + d.
  lemma DivIff(x: int, d: int, q: int)
    requires 0 <= x && 0 < d && 0 <= q
    ensures x / d == q <==> q * d <= x < q * d + d
  {
    var r := x / d;
    assert x == r * d + x % d;
    MulNonNegative(r, d);
    if q * d <= x < q * d + d {
      if r < q {
        MulStrictMonotone(r, q, d);
      } else if q < r {
        MulStrictMonotone(q, r, d);
      }
    }
  }

  /// x is its quotient by d times d, plus its remainder.
  lemma DivMod(x: int, d: int)
    requires 0 <= x && 0 < d
    ensures x == (x / d) * d + x % d && 0 <= x / d
  {
  }

  /// Splitting b*n + a by n, for 0 <= a < n.
  lemma DivModOfSum(b: int, n: int, a: int)
    requires 0 <= b && 0 <= a < n
    ensures (b * n + a) / n == b && (b * n + a) % n == a
  {
    MulNonNegative(b, n);
    DivIff(b * n + a, n, b);
  }

  /// (a + b) * c == a * c + b * c.
  lemma Distribute(a: int, b: int, c: int)
    ensures (a + b) * c == a * c + b * c
  {
  }
}
