/** Integer and real arithmetic the models share: extrema, truncation, and the few facts about
    products, quotients and remainders their proofs rest on. */
module Arithmetic {

  function Min(a: int, b: int): int { if a <= b then a else b }

  function Max(a: int, b: int): int { if a >= b then a else b }

  /** A double cast to an integer: toward zero. */
  function Truncate(x: real): int {
    if x >= 0.0 then x.Floor else -((-x).Floor)
  }

  lemma {:induction false} ProductIsNat(a: nat, b: nat)
    ensures 0 <= a * b
  {
    if a > 0 {
      ProductIsNat(a - 1, b);
      ProductNext(a - 1, b);
    }
  }

  lemma {:induction false} ProductNext(a: int, b: int)
    ensures (a + 1) * b == a * b + b
  {
  }

  lemma {:induction false} ProductSum(a: int, b: int, m: int)
    ensures (a + b) * m == a * m + b * m
  {
  }

  lemma {:induction false} ProductMono(a: int, b: int, m: nat)
    requires a <= b
    ensures a * m <= b * m
  {
    ProductIsNat(b - a, m);
    ProductSum(a, b - a, m);
  }

  /** Different multiples are a whole m apart. */
  lemma {:induction false} ProductGap(a: int, b: int, m: nat)
    requires a < b
    ensures a * m + m <= b * m
  {
    ProductNext(a, m);
    ProductMono(a + 1, b, m);
  }

  lemma {:induction false} DivisionParts(x: int, n: int)
    requires n > 0
    ensures x == x / n * n + x % n && 0 <= x % n < n
  {
  }

  lemma {:induction false} QuotientLe(p: int, m: int, q: int, r: int, n: int)
    requires n > 0 && p * n + m == q * n + r && 0 <= m && r < n
    ensures p <= q
  {
    if q < p { ProductGap(q, p, n); }
  }

  /** Quotient and remainder are unique. */
  lemma {:induction false} RemainderUnique(x: int, q: int, r: int, n: int)
    requires n > 0 && x == q * n + r && 0 <= r < n
    ensures x % n == r && x / n == q
  {
    DivisionParts(x, n);
    QuotientLe(x / n, x % n, q, r, n);
    QuotientLe(q, r, x / n, x % n, n);
  }

  lemma {:induction false} SmallRemainder(x: nat, n: nat)
    requires x < n
    ensures x % n == x && x / n == 0
  {
    RemainderUnique(x, 0, x, n);
  }

  // ---------------------------------------------------------------------------
  // Reals
  // ---------------------------------------------------------------------------

  lemma {:induction false} Distribute(x: real, y: real, s: real)
    ensures (x + y) * s == x * s + y * s
  {
  }

  lemma {:induction false} CastProduct(a: int, b: int)
    ensures (a * b) as real == a as real * b as real
  {
  }

  lemma {:induction false} Quotient(y: real, d: real)
    requires d > 0.0
    ensures y / d * d == y
  {
  }

  lemma {:induction false} QuotientGrows(x: real, y: real, d: real)
    requires d > 0.0 && x <= y
    ensures x / d <= y / d
  {
  }

  lemma {:induction false} ScaleLess(a: real, b: real, c: real)
    requires a < b && c > 0.0
    ensures a * c < b * c
  {
  }

  lemma {:induction false} ScaleLe(a: real, b: real, c: real)
    requires a <= b && c >= 0.0
    ensures a * c <= b * c
  {
  }
}
