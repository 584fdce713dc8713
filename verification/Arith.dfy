/** Elementary facts about products and floor division of naturals. */
module Arith {

  lemma MulStep(p: nat, a: int, b: int)
    requires a < b
    ensures p * a + p <= p * b
  {
    assert p * b == p * a + p * (b - a);
    assert p * (b - a) >= p * 1 by { MulMono(p, 1, b - a); }
  }

  lemma MulMono(p: nat, a: int, b: int)
    requires a <= b
    ensures p * a <= p * b
  {
  }

  /** Floor division is characterised by its bounds. */
  lemma DivUnique(x: nat, p: nat, q: nat)
    requires p > 0 && p * q <= x < p * q + p
    ensures x / p == q
  {
    var q' := x / p;
    assert p * q' <= x < p * q' + p;
    if q < q' { MulStep(p, q, q'); }
    if q' < q { MulStep(p, q', q); }
  }

  lemma DivBounds(x: nat, p: nat)
    requires p > 0
    ensures p * (x / p) <= x < p * (x / p) + p
  {
  }

  lemma MulAssoc(a: int, b: int, c: int)
    ensures a * (b * c) == (a * b) * c
  {
  }

  /** Floor division is monotone in the numerator. */
  lemma DivMono(x: nat, y: nat, p: nat)
    requires p > 0 && x <= y
    ensures x / p <= y / p
  {
    if y / p < x / p { MulStep(p, y / p, x / p); }
  }

  /** `q <= x / p` exactly when `q * p <= x`. */
  lemma DivGe(x: nat, p: nat, q: nat)
    requires p > 0
    ensures q <= x / p <==> p * q <= x
  {
    if x / p < q { MulStep(p, x / p, q); } else { MulMono(p, q, x / p); }
  }

  lemma MulCancel(p: nat, a: int, b: int)
    requires p > 0 && p * a <= p * b
    ensures a <= b
  {
    if b < a { MulStep(p, b, a); }
  }

  lemma SquareMono(a: nat, b: nat)
    requires a <= b
    ensures a * a <= b * b
  {
    MulMono(a, a, b);
    MulMono(b, a, b);
  }

  /** Floor division of naturals. */
  function Quotient(a: nat, b: nat): nat
    requires b > 0
  {
    a / b
  }
}
