/** Products and quotients of integers, one step at a time for the solver. */
module Arith {

  /** Division that rounds toward zero. */
  function TruncDiv(x: int, y: int): int
    requires y > 0
  {
    if x >= 0 then x / y else -((-x) / y)
  }

  lemma MulMono(a: int, b: int, c: int)
    requires a <= b && c >= 0
    ensures a * c <= b * c
  {
    assert b * c - a * c == (b - a) * c;
  }

  /** q is the quotient of x by d once it brackets x. */
  lemma QuotientIs(x: int, d: int, q: int)
    requires d > 0 && q * d <= x < q * d + d
    ensures x / d == q
  {
    var k := x / d;
    assert k * d <= x < k * d + d by {
      assert x == d * k + x % d;
      assert d * k == k * d;
    }
    if k < q {
      MulMono(k + 1, q, d);
    } else if k > q {
      MulMono(q + 1, k, d);
    }
  }

  lemma QuotientBracket(x: int, d: int)
    requires d > 0
    ensures x / d * d <= x < x / d * d + d
  {
    assert x == d * (x / d) + x % d;
    assert d * (x / d) == x / d * d;
  }

  /** A multiple divides exactly. */
  lemma MultipleDivides(n: int, p: int)
    requires p > 0
    ensures n * p / p == n && n * p % p == 0
  {
    QuotientIs(n * p, p, n);
    assert n * p == p * (n * p / p) + n * p % p;
    assert p * n == n * p;
  }

  lemma DivMono(a: int, b: int, d: int)
    requires a <= b && d > 0
    ensures a / d <= b / d
  {
    QuotientBracket(a, d);
    QuotientBracket(b, d);
    if a / d > b / d {
      MulMono(b / d + 1, a / d, d);
    }
  }

  /** The floor of a sum exceeds the sum of floors by at most one. */
  lemma DivSum(a: int, b: int, d: int)
    requires d > 0
    ensures a / d + b / d <= (a + b) / d <= a / d + b / d + 1
  {
    QuotientBracket(a, d);
    QuotientBracket(b, d);
    var q := a / d + b / d;
    assert q * d == a / d * d + b / d * d;
    assert (q + 1) * d == q * d + d;
    if a + b < q * d + d {
      QuotientIs(a + b, d, q);
    } else {
      QuotientIs(a + b, d, q + 1);
    }
  }
}
