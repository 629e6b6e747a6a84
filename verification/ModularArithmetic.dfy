/** Remainders of products. */
module ModularArithmetic {
  lemma {:induction false} ProductAtLeast(m: nat, k: nat)
    requires k > 0
    ensures m * k >= m
  {
    if k > 1 {
      ProductAtLeast(m, k - 1);
      assert m * k == m * (k - 1) + m;
    }
  }

  lemma Spread(m: nat, a: nat, b: nat)
    requires a > b
    ensures m * a >= m * b + m
  {
    ProductAtLeast(m, a - b);
    assert m * (a - b) == m * a - m * b;
  }

  lemma QuotientUnique(m: nat, q: nat, r: nat, q': nat, r': nat)
    requires r < m && r' < m && m * q + r == m * q' + r'
    ensures r == r'
  {
    if q > q' {
      Spread(m, q, q');
    } else if q < q' {
      Spread(m, q', q);
    }
  }

  lemma RemainderUnique(x: nat, m: nat, q: nat, r: nat)
    requires r < m && x == m * q + r
    ensures x % m == r
  {
    QuotientUnique(m, q, r, x / m, x % m);
  }

  lemma Distribute(m: nat, q: nat, r: nat, b: nat)
    ensures (m * q + r) * b == m * (q * b) + r * b
  {
  }

  lemma MulMod(a: nat, b: nat, m: nat)
    requires m > 0
    ensures ((a % m) * b) % m == (a * b) % m
  {
    var q, r := a / m, a % m;
    assert a == m * q + r;
    Distribute(m, q, r, b);
    var x := r * b;
    Combine(a * b, x, m, q * b);
  }

  lemma Combine(y: nat, x: nat, m: nat, k: nat)
    requires m > 0 && y == m * k + x
    ensures y % m == x % m
  {
    assert x == m * (x / m) + x % m;
    assert m * k + m * (x / m) == m * (k + x / m);
    RemainderUnique(y, m, k + x / m, x % m);
  }
}
