/** Quotients and remainders. */
module Arithmetic {
  lemma {:induction false} Times(d: int, m: int)
    requires d >= 1 && m > 0
    ensures d * m >= m
  {
    assert d * m == m + (d - 1) * m;
  }

  lemma {:induction false} Unique(m: int, q: int, r: int, q': int, r': int)
    requires m > 0 && q * m + r == q' * m + r' && 0 <= r < m && 0 <= r' < m
    ensures q == q' && r == r'
  {
    assert (q - q') * m == q * m - q' * m;
    assert (q' - q) * m == q' * m - q * m;
    if q > q' { Times(q - q', m); }
    if q < q' { Times(q' - q, m); }
  }

  lemma {:induction false} DivMod(n: int, m: int, q: int, r: int)
    requires m > 0 && n == q * m + r && 0 <= r < m
    ensures n / m == q && n % m == r
  {
    Unique(m, q, r, n / m, n % m);
  }

  lemma {:induction false} HalfRemainder(x: nat, m: nat)
    requires m > 0
    ensures x % (2 * m) == x % 2 + 2 * ((x / 2) % m)
  {
    var q, r := (x / 2) / m, (x / 2) % m;
    assert x / 2 == q * m + r;
    assert x == q * (2 * m) + (2 * r + x % 2);
    DivMod(x, 2 * m, q, 2 * r + x % 2);
  }

  lemma {:induction false} Associate(a: int, b: int, c: int)
    ensures a * (b * c) == (a * b) * c
  {
  }

  lemma {:induction false} DivBelow(n: nat, m: nat, q: nat)
    requires m > 0 && n < q * m
    ensures n / m < q
  {
    assert n == (n / m) * m + n % m;
    Grows(q, n / m, m);
  }

  lemma {:induction false} Grows(a: nat, b: nat, m: nat)
    ensures a <= b ==> a * m <= b * m
  {
    if a < b && m > 0 {
      Times(b - a, m);
      assert b * m == a * m + (b - a) * m;
    }
  }
}
