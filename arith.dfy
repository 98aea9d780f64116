/** Facts about Euclidean division that the round-robin deal and the cyclic player search rely on. */
module Arith {
  lemma MulAtLeast(p: int, k: int)
    requires p > 0 && k >= 1
    ensures p * k >= p
  {
    if k > 1 { MulAtLeast(p, k - 1); }
  }

  /** Quotient and remainder are determined by n == p * q + r with 0 <= r < p. */
  lemma DivModUnique(n: int, p: int, q: int, r: int)
    requires p > 0 && 0 <= r < p && n == p * q + r
    ensures n / p == q && n % p == r
  {
    var q' := n / p;
    if q' < q {
      MulAtLeast(p, q - q');
    } else if q' > q {
      MulAtLeast(p, q' - q);
    }
  }

  /** Going from n to n + 1 advances the remainder by one, wrapping to 0 and carrying into the quotient. */
  lemma ModStep(n: nat, p: int)
    requires p > 0
    ensures (n + 1) % p == if n % p == p - 1 then 0 else n % p + 1
    ensures (n + 1) / p == if n % p == p - 1 then n / p + 1 else n / p
  {
    var q, r := n / p, n % p;
    if r == p - 1 {
      DivModUnique(n + 1, p, q + 1, 0);
    } else {
      DivModUnique(n + 1, p, q, r + 1);
    }
  }
}
