/** Products, quotients and remainders of natural numbers. Multiplication and division by a variable are kept to
    these small lemmas. */
module Arithmetic {
  lemma ProductPositive(a: nat, b: nat)
    requires a >= 1 && b >= 1
    ensures a * b >= 1
  {
  }

  lemma Monotone(a: nat, b: nat, d: nat)
    requires a <= b
    ensures a * d <= b * d
  {
  }

  lemma MultipleHasNoRest(q: nat, d: nat)
    requires d >= 1
    ensures q * d % d == 0
  {
    DivModUnique(q * d, d, q, 0);
  }

  /** Quotient and remainder are what they look like. */
  lemma DivModUnique(x: nat, d: nat, q: nat, r: nat)
    requires d >= 1 && x == q * d + r && r < d
    ensures x / d == q && x % d == r
  {
    var q2, r2 := x / d, x % d;
    assert x == q2 * d + r2;
    if q2 < q {
      Monotone(q2 + 1, q, d);
    } else if q < q2 {
      Monotone(q + 1, q2, d);
    }
  }

  lemma ModAdds(x: nat, n: nat)
    requires n >= 1
    ensures (x + n) % n == x % n
  {
    DivModUnique(x + n, n, x / n + 1, x % n);
  }

  lemma Distribute(a: nat, b: nat, d: nat)
    ensures (a + b) * d == a * d + b * d
  {
  }

  lemma Parts(x: nat, n: nat)
    requires n >= 1
    ensures x == x / n * n + x % n && x % n < n
  {
  }

  /** The quotient of a sum: the sum of the quotients, and one more when the remainders reach the divisor. */
  lemma DivAdds(x: nat, y: nat, n: nat)
    requires n >= 1
    ensures (x + y) / n == x / n + y / n + (if x % n + y % n >= n then 1 else 0)
  {
    Parts(x, n);
    Parts(y, n);
    DivOfParts(x, y, n, x / n, x % n, y / n, y % n);
  }

  lemma DivOfParts(x: nat, y: nat, n: nat, q: nat, r: nat, k: nat, s: nat)
    requires x == q * n + r && y == k * n + s && r < n && s < n
    ensures (x + y) / n == q + k + (if r + s >= n then 1 else 0)
  {
    Distribute(q, k, n);
    if r + s < n {
      DivModUnique(x + y, n, q + k, r + s);
    } else {
      Distribute(q + k, 1, n);
      DivModUnique(x + y, n, q + k + 1, r + s - n);
    }
  }

  /** The remainder of a sum depends on a summand only through its remainder. */
  lemma ModAddsMod(x: nat, k: nat, n: nat)
    requires n >= 1
    ensures (x % n + k) % n == (x + k) % n
  {
    var y := x % n + k;
    Parts(x, n);
    Parts(y, n);
    ModOfParts(x + k, y, n, x / n, y / n, y % n);
  }

  lemma ModOfParts(z: nat, y: nat, n: nat, q: nat, p: nat, r: nat)
    requires z == q * n + y && y == p * n + r && r < n
    ensures z % n == r
  {
    Distribute(q, p, n);
    DivModUnique(z, n, q + p, r);
  }

  /** Shifted so that index `i` comes last, p ends a round exactly when it reads `i`. */
  lemma EndsRound(p: nat, i: nat, n: nat)
    requires i < n
    ensures (p + (n - 1 - i)) % n == n - 1 <==> p % n == i
  {
    RoundOf(p, i, n, p / n, p % n, p + (n - 1 - i)) by { Parts(p, n); }
  }

  lemma RoundOf(p: nat, i: nat, n: nat, q: nat, r: nat, x: nat)
    requires i < n && p == q * n + r && r < n && x == p + (n - 1 - i)
    ensures x % n == n - 1 <==> r == i
  {
    if r <= i {
      DivModUnique(x, n, q, r + n - 1 - i);
    } else {
      Distribute(q, 1, n);
      DivModUnique(x, n, q + 1, r - 1 - i);
    }
  }
}
