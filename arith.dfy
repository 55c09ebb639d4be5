/** Facts about multiplication and division by a positive number, which the
    solver does not find on its own. */
module Arith {

  lemma MulMono(a: int, b: int, P: nat)
    requires a <= b
    ensures a * P <= b * P
  {
    assert b * P == a * P + (b - a) * P;
  }

  lemma MulBelow(a: int, b: int, P: nat)
    ensures a < b ==> a * P + P <= b * P
  {
    if a < b {
      MulMono(a + 1, b, P);
      assert (a + 1) * P == a * P + P;
    }
  }

  /** The quotient is the unique `q` with `q * P <= a < q * P + P`. */
  lemma DivUnique(a: int, P: nat, q: int)
    requires P > 0 && q * P <= a < q * P + P
    ensures a / P == q
  {
    var r := a / P;
    assert r * P + a % P == a;
    MulBelow(r, q, P);
    MulBelow(q, r, P);
  }

  lemma QuotientBounds(a: int, P: nat)
    requires P > 0
    ensures (a / P) * P <= a < (a / P) * P + P
  {
  }

  lemma DivMono(a: int, b: int, P: nat)
    requires P > 0 && a <= b
    ensures a / P <= b / P
  {
    QuotientBounds(a, P);
    QuotientBounds(b, P);
    MulBelow(b / P, a / P, P);
  }

  lemma MultipleHasNoRemainder(m: int, P: nat)
    requires P > 0
    ensures (m * P) % P == 0 && (m * P) / P == m
  {
    DivUnique(m * P, P, m);
  }

  /** `Math.ceil(a / P)`. */
  function CeilDiv(a: int, P: nat): (c: int)
    requires P > 0
    ensures (c - 1) * P < a <= c * P
  {
    QuotientBounds(-a, P);
    -((-a) / P)
  }
}
