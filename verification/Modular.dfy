/** Division with remainder, as far as the index arithmetic of the other modules needs it. */
module Modular {

  lemma MulGrows(a: int, b: nat)
    requires a >= 1
    ensures a * b >= b
  {
  }

  lemma Distribute(a: int, b: int, c: int)
    ensures (a - b) * c == a * c - b * c
    ensures (a + b) * c == a * c + b * c
  {
  }

  /** Quotient and remainder are unique. */
  lemma DivModUnique(size: nat, q: int, r: nat, q': int, r': nat)
    requires size > 0 && r < size && r' < size
    requires q * size + r == q' * size + r'
    ensures q == q' && r == r'
  {
    Distribute(q, q', size);
    Distribute(q', q, size);
    if q > q' {
      MulGrows(q - q', size);
    } else if q < q' {
      MulGrows(q' - q, size);
    }
  }

  lemma DivMod(n: int, size: nat, q: int, r: nat)
    requires size > 0 && r < size && n == q * size + r
    ensures n % size == r && n / size == q
  {
    DivModUnique(size, q, r, n / size, n % size);
  }

  /** Equal remainders: the difference is a multiple of the modulus. */
  lemma SameRemainder(n: int, c: int, size: nat)
    requires size > 0 && c < n && n % size == c % size
    ensures n - c >= size
  {
    var p, q := n / size, c / size;
    Distribute(p, q, size);
    assert n - c == (p - q) * size;
    if p > q {
      MulGrows(p - q, size);
    } else {
      MulNonPositive(p - q, size);
    }
  }

  lemma MulNonPositive(a: int, b: nat)
    ensures a <= 0 ==> a * b <= 0
  {
  }

  lemma ShiftBySize(c: int, size: nat)
    requires size > 0
    ensures (c + size) % size == c % size
  {
    Distribute(c / size, 1, size);
    DivMod(c + size, size, c / size + 1, c % size);
  }

  lemma MulOrder(a: int, b: int, c: nat)
    ensures a >= b ==> a * c >= b * c
  {
    Distribute(b, a, c);
    MulNonPositive(b - a, c);
  }

  lemma DivModIdentity(n: int, size: nat)
    requires size > 0
    ensures n == n / size * size + n % size
  {
  }

  lemma QuotientBound(n: nat, size: nat, m: nat)
    requires size > 0 && n < m * size
    ensures n / size < m
  {
    MulOrder(n / size, m, size);
  }

  /** A remainder taken modulo a multiple of n keeps the remainder modulo n. */
  lemma NestedRemainder(x: nat, m: nat, n: nat)
    requires n > 0 && m > 0 && m % n == 0
    ensures x % m % n == x % n
  {
    var q, k, r := x / m, m / n, x % m;
    Distribute(q * k, r / n, n);
    assert q * k * n == q * (k * n);
    DivMod(x, n, q * k + r / n, r % n);
  }

  /** Stepping by one moves the quotient exactly when the new number is a multiple. */
  lemma QuotientStep(x: nat, n: nat)
    requires n > 0
    ensures (x + 1) / n == x / n + (if (x + 1) % n == 0 then 1 else 0)
    ensures (x + 1) % n == if x % n == n - 1 then 0 else x % n + 1
  {
    var q, r := x / n, x % n;
    if r == n - 1 {
      Distribute(q, 1, n);
      DivMod(x + 1, n, q + 1, 0);
    } else {
      DivMod(x + 1, n, q, r + 1);
    }
  }

  /** How many numbers below m leave remainder k. */
  function CountRemainder(m: nat, n: nat, k: nat): nat
    requires n > 0
  {
    if m == 0 then 0 else CountRemainder(m - 1, n, k) + (if (m - 1) % n == k then 1 else 0)
  }

  lemma {:induction false} CountRemainderValue(m: nat, n: nat, k: nat)
    requires k < n
    ensures CountRemainder(m, n, k) == m / n + (if m % n > k then 1 else 0)
  {
    if m == 0 {
      DivMod(0, n, 0, 0);
    } else {
      CountRemainderValue(m - 1, n, k);
      QuotientStep(m - 1, n);
    }
  }
}
