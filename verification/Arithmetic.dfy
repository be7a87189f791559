/** The few facts about products and quotients that the solver should not have to search for. */
module Arithmetic {

  lemma MulDistributes(a: int, b: int, c: int)
    ensures a * (b - c) == a * b - a * c && a * (b + c) == a * b + a * c
    ensures (b + c) * a == b * a + c * a
  {
  }

  lemma MulAssoc(a: int, b: int, c: int)
    ensures a * (b * c) == (a * b) * c && a * (b * c) == b * (a * c)
  {
  }

  lemma MulMonotone(a: int, b: int, c: int)
    requires c > 0
    ensures a <= b <==> a * c <= b * c
  {
  }

  lemma MulAtLeast(p: int, k: int)
    requires p > 0
    ensures k >= 1 ==> p * k >= p
    ensures k <= -1 ==> p * k <= -p
  {
  }

  lemma DivModOf(c: int, p: int)
    requires p > 0
    ensures c == p * (c / p) + c % p && 0 <= c % p < p
    ensures c >= 0 ==> c / p >= 0
  {
  }

  lemma UniqueDivision(p: int, q: int, r: int, q': int, r': int)
    requires p > 0 && 0 <= r < p && 0 <= r' < p && p * q + r == p * q' + r'
    ensures q == q' && r == r'
  {
    MulDistributes(p, q, q');
    MulAtLeast(p, q - q');
  }

  lemma DivModIs(c: int, p: int, q: int, r: int)
    requires p > 0 && c == p * q + r && 0 <= r < p
    ensures c / p == q && c % p == r
  {
    DivModOf(c, p);
    UniqueDivision(p, q, r, c / p, c % p);
  }

  /** A number is a multiple exactly if nothing remains, and the quotient is then the factor. */
  lemma MultipleIsExact(c: int, p: int, n: int)
    requires p > 0
    ensures n * p == c <==> c % p == 0 && n == c / p
  {
    DivModOf(c, p);
    if n * p == c {
      DivModIs(c, p, n, 0);
    }
  }
}
