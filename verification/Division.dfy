/** Quotients and remainders of natural numbers. */
module Division {

  lemma {:induction false} MulMono(a: nat, b: nat, n: nat)
    requires a <= b
    ensures a * n <= b * n
  {
    assert b * n == a * n + (b - a) * n;
  }

  lemma {:induction false} Unique(q: nat, r: nat, q': nat, r': nat, n: nat)
    requires q * n + r == q' * n + r' && r < n && r' < n
    ensures q == q' && r == r'
  {
    if q < q' {
      MulMono(q + 1, q', n);
    } else if q' < q {
      MulMono(q' + 1, q, n);
    }
  }

  lemma {:induction false} ModIs(x: nat, n: nat, q: nat, r: nat)
    requires x == q * n + r && r < n
    ensures x % n == r && x / n == q
  {
    Unique(q, r, x / n, x % n, n);
  }

  /** A multiple of `n` does not change the remainder. */
  lemma {:induction false} ModShift(x: nat, n: nat, k: nat)
    requires n > 0
    ensures (x + k * n) % n == x % n
  {
    assert x + k * n == (x / n + k) * n + x % n;
    ModIs(x + k * n, n, x / n + k, x % n);
  }

  lemma {:induction false} ModSmall(x: nat, n: nat)
    requires x < n
    ensures x % n == x
  {
    ModIs(x, n, 0, x);
  }
}
