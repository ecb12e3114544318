/** Facts about multiplication and Euclidean division by a positive number
    that the layout and bucketing proofs share. */
module Arith {

  function Min(a: int, b: int): int { if a <= b then a else b }

  function Max(a: int, b: int): int { if a >= b then a else b }

  lemma {:induction false} MulLeMul(x: int, y: int, b: int)
    requires x <= y && b >= 0
    ensures x * b <= y * b
  {
  }

  /** `c * b <= a` exactly when `c <= a / b`. */
  lemma DivBounds(a: int, b: int, c: int)
    requires b > 0
    ensures c * b <= a <==> c <= a / b
  {
    var q, r := a / b, a % b;
    assert a == q * b + r && 0 <= r < b;
    if c <= q {
      MulLeMul(c, q, b);
    } else {
      MulLeMul(q + 1, c, b);
    }
  }

  /** `a / b` is the one `q` with `q * b <= a < (q + 1) * b`. */
  lemma DivUnique(a: int, b: int, q: int)
    requires b > 0 && q * b <= a < (q + 1) * b
    ensures q == a / b
  {
    DivBounds(a, b, q);
    DivBounds(a, b, q + 1);
  }
}
