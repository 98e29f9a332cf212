/** Powers of two, and facts about products and quotients of variables. */
module Arith {
  function Pow2(k: nat): (r: nat)
    ensures r >= 1
  {
    if k == 0 then 1 else 2 * Pow2(k - 1)
  }

  lemma {:induction false} MulMono(a: int, b: int, c: nat)
    requires a <= b
    ensures a * c <= b * c
    decreases c
  {
    if c > 0 { MulMono(a, b, c - 1); }
  }

  lemma MulCancel(a: int, b: int, c: nat)
    requires c > 0
    ensures a * c <= b * c ==> a <= b
    ensures a * c < b * c ==> a < b
  {
    if a > b { MulMono(b + 1, a, c); assert (b + 1) * c == b * c + c; }
  }

  /** A quotient and remainder are the only ones. */
  lemma DivUnique(a: int, q: int, d: nat, r: nat)
    requires d > 0 && r < d && a == q * d + r
    ensures a / d == q && a % d == r
  {
    DivBounds(a, d);
    if a / d > q { MulMono(q + 1, a / d, d); }
    if a / d < q { MulMono(a / d + 1, q, d); }
  }

  lemma DivBounds(a: int, d: nat)
    requires d > 0
    ensures (a / d) * d <= a < (a / d) * d + d && a == (a / d) * d + a % d
  {
  }

  /** q is at most the quotient exactly when q divisors fit. */
  lemma DivAtLeast(a: int, d: nat, q: int)
    requires d > 0
    ensures q <= a / d <==> q * d <= a
  {
    DivBounds(a, d);
    if q <= a / d { MulMono(q, a / d, d); } else { MulMono(a / d + 1, q, d); }
  }
}
