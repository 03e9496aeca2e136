module Arithmetic {
  lemma {:induction false} Distribute(q: nat, f: nat)
    ensures (q + 1) * f == q * f + f
  {
  }

  lemma {:induction false} MulGap(a: nat, q: nat, f: nat)
    requires a < q
    ensures q * f >= a * f + f
    decreases q
  {
    if a + 1 < q {
      MulGap(a, q - 1, f);
    }
    Distribute(q - 1, f);
  }

  /** Quotient and remainder are unique. */
  lemma {:induction false} DivModUnique(n: nat, q: nat, r: nat, f: nat)
    requires f > 0 && r < f && n == q * f + r
    ensures n / f == q && n % f == r
  {
    var a := n / f;
    assert n == a * f + n % f;
    if q > a {
      MulGap(a, q, f);
    } else if q < a {
      MulGap(q, a, f);
    }
  }
}
