/** The few facts about products and quotients that the index and width arguments rest on. */
module Arithmetic {

  lemma MulMono(a: int, b: int, c: int)
    requires a <= b && c >= 0
    ensures a * c <= b * c
  {
  }

  lemma MulSucc(a: int, c: int)
    ensures (a + 1) * c == a * c + c
  {
  }

  lemma DivMod(a: int, d: int)
    requires d > 0
    ensures a == (a / d) * d + a % d && 0 <= a % d < d
  {
  }

  lemma QuotientBelow(a: int, d: int, q: int, r: int)
    requires d > 0 && r * d <= a && a < q * d
    ensures r < q
  {
    if r >= q {
      MulMono(q, r, d);
      assert false;
    }
  }

  lemma QuotientIs(a: int, d: int, q: int)
    requires d > 0
    ensures a / d == q <==> q * d <= a < q * d + d
  {
    DivMod(a, d);
    MulSucc(q, d);
    MulSucc(a / d, d);
    if q * d <= a < q * d + d {
      QuotientBelow(a, d, q + 1, a / d);
      QuotientBelow(a, d, a / d + 1, q);
    }
  }

  lemma QuotientRemainder(a: int, d: int, q: int, r: int)
    requires a == q * d + r && 0 <= r < d
    ensures a / d == q && a % d == r
  {
    QuotientIs(a, d, q);
    DivMod(a, d);
  }
}
