/** Facts about products and quotients. */
module Arithmetic {

  /** Quotient and remainder are determined by what they add up to. */
  lemma {:induction false} DivModUnique(x: nat, n: nat, q: nat, r: nat)
    requires n > 0 && x == q * n + r && r < n
    ensures x / n == q && x % n == r
  {
    var p := x / n;
    assert x == p * n + x % n;
    MulGap(p, q, n);
    MulGap(q, p, n);
  }

  lemma {:induction false} MulGap(p: int, q: int, n: nat)
    ensures p < q ==> p * n + n <= q * n
  {
    if p < q {
      assert q * n == p * n + (q - p) * n;
      assert (q - p) * n >= n by { assert (q - p) * n == (q - p - 1) * n + n; }
    }
  }
}
