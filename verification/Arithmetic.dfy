/** Quotients and remainders with a symbolic divisor. */
module Arithmetic {
  lemma Distribute(m: nat, a: nat, b: nat)
    ensures m * (a + b) == m * a + m * b
  {
  }

  lemma DivModOf(x: nat, m: nat)
    requires m > 0
    ensures x == m * (x / m) + x % m && x % m < m
  {
  }

  lemma ModAtMost(x: nat, m: nat)
    requires m > 0
    ensures x % m <= x
  {
    DivModOf(x, m);
  }

  lemma MulLess(m: nat, a: nat, b: nat)
    requires a < b
    ensures m * a + m <= m * b
  {
    Distribute(m, a + 1, b - a - 1);
    Distribute(m, a, 1);
  }

  /** Quotient and remainder are what they should be. */
  lemma DivMod(m: nat, q: nat, r: nat)
    requires r < m
    ensures (m * q + r) / m == q && (m * q + r) % m == r
  {
    var x := m * q + r;
    DivModOf(x, m);
    if x / m < q { MulLess(m, x / m, q); } else if q < x / m { MulLess(m, q, x / m); }
  }

  /** Reducing the summands first makes no difference. */
  lemma ModAdd(a: nat, x: nat, m: nat)
    requires m > 0
    ensures (a % m + x % m) % m == (a + x) % m
  {
    DivModOf(a, m);
    DivModOf(x, m);
    var q, low := a / m + x / m, a % m + x % m;
    Distribute(m, a / m, x / m);
    var carry := if low < m then 0 else 1;
    Distribute(m, q, carry);
    DivMod(m, q + carry, low - m * carry);
    DivMod(m, carry, low - m * carry);
  }

  /** A common factor of dividend and divisor comes out of the remainder. */
  lemma ModScale(p: nat, m: nat, k: nat)
    requires p > 0 && k > 0
    ensures p * k > 0 && (p * m) % (p * k) == p * (m % k)
  {
    var q, r := m / k, m % k;
    DivModOf(m, k);
    MulLess(p, r, k);
    Distribute(p, k * q, r);
    assert p * (k * q) == (p * k) * q;
    DivMod(p * k, q, p * r);
  }

  /** Dividing twice is dividing by the product. */
  lemma DivTwice(v: nat, p: nat)
    requires p > 0
    ensures v / 2 / p == v / (2 * p)
  {
    var q, r := v / 2 / p, v / 2 % p;
    DivModOf(v / 2, p);
    Distribute(2, p * q, r);
    assert 2 * (p * q) == (2 * p) * q;
    DivMod(2 * p, q, 2 * r + v % 2);
  }
}
