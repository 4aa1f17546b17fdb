/** Facts about products and quotients of variables. */
module Arith {
  lemma {:induction false} MulGap(a: nat, b: nat, d: nat)
    requires a < b
    ensures a * d + d <= b * d
  {
    if a + 1 < b {
      MulGap(a, b - 1, d);
    }
  }

  lemma DivisionIsUnique(n: nat, d: nat, q: nat, r: nat)
    requires d >= 1 && n == q * d + r && r < d
    ensures n % d == r && n / d == q
  {
    var q', r' := n / d, n % d;
    DivMod(n, d);
    if q < q' {
      MulGap(q, q', d);
    } else if q' < q {
      MulGap(q', q, d);
    }
  }

  lemma DivMod(n: nat, d: nat)
    requires d >= 1
    ensures n == n / d * d + n % d
  {
  }

  lemma {:induction false} MulMonotone(a: nat, b: nat, d: nat)
    requires a <= b
    ensures a * d <= b * d
  {
    if a < b {
      MulGap(a, b, d);
    }
  }

  /** A quotient is below `q` exactly when the number is below `q * d`. */
  lemma DivBelow(n: nat, d: nat, q: nat)
    requires d >= 1
    ensures n / d < q <==> n < q * d
  {
    DivMod(n, d);
    if n / d < q {
      MulGap(n / d, q, d);
    } else {
      MulMonotone(q, n / d, d);
    }
  }
}
