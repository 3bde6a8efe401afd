/** Quotients and remainders of natural numbers. */
module Division {
  lemma {:induction false} Gap(a: nat, b: nat, k: nat)
    requires a < b
    ensures a * k + k <= b * k
    decreases b - a
  {
    assert (a + 1) * k == a * k + k;
    if a + 1 == b {
    } else {
      Gap(a + 1, b, k);
    }
  }

  lemma SameQuotient(a: nat, b: nat, q: nat, r: nat, k: nat)
    requires a * k + b == q * k + r && b < k && r < k
    ensures a == q && b == r
  {
    if a < q { Gap(a, q, k); } else if q < a { Gap(q, a, k); }
  }

  lemma DivMod(n: nat, k: nat, q: nat, r: nat)
    requires k > 0 && r < k && n == q * k + r
    ensures n / k == q && n % k == r
  {
    SameQuotient(n / k, n % k, q, r, k);
  }

  lemma Quotient(l: nat, t: nat, k: nat)
    requires t > 0 && k <= l / t
    ensures k * t <= l
    ensures k < l / t ==> l - k * t >= t
    ensures k == l / t ==> l - k * t == l % t
  {
    assert l == (l / t) * t + l % t;
    if k < l / t { Gap(k, l / t, t); }
  }
}
