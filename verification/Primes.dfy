/** The primes that the constants of SHA-256 are made from. */
module Primes {
  import opened ModularArithmetic

  predicate Prime(p: nat) {
    p > 1 && forall d | 1 < d < p :: p % d != 0
  }

  /** The primes the constants are made from, eight to a row. */
  const PRIME_ROWS: seq<seq<nat>> := [
    [2, 3, 5, 7, 11, 13, 17, 19],
    [23, 29, 31, 37, 41, 43, 47, 53],
    [59, 61, 67, 71, 73, 79, 83, 89],
    [97, 101, 103, 107, 109, 113, 127, 131],
    [137, 139, 149, 151, 157, 163, 167, 173],
    [179, 181, 191, 193, 197, 199, 211, 223],
    [227, 229, 233, 239, 241, 251, 257, 263],
    [269, 271, 277, 281, 283, 293, 307, 311]]

  // ---------------------------------------------------------------- trial division

  /** No prime below 18 divides a number, except the number itself. */
  predicate PassesTrial(p: nat) {
    && p > 1
    && (p % 2 != 0 || p == 2) && (p % 3 != 0 || p == 3) && (p % 5 != 0 || p == 5) && (p % 7 != 0 || p == 7)
    && (p % 11 != 0 || p == 11) && (p % 13 != 0 || p == 13) && (p % 17 != 0 || p == 17)
  }

  lemma Divides(p: nat, d: nat, e: nat)
    requires d > 0 && e > 0 && p % d == 0 && d % e == 0
    ensures p % e == 0
  {
    var a, b := p / d, d / e;
    assert p == d * a && d == e * b;
    assert p == e * (b * a) + 0;
    RemainderUnique(p, e, b * a, 0);
  }

  lemma SmallFactor(d: nat)
    requires 1 < d < 18
    ensures d % 2 == 0 || d % 3 == 0 || d % 5 == 0 || d % 7 == 0 || d == 11 || d == 13 || d == 17
  {
  }

  lemma SmallDivisorFails(p: nat, d: nat)
    requires 1 < d < 18 && d < p && p % d == 0
    ensures !PassesTrial(p)
  {
    SmallFactor(d);
    if d % 2 == 0 { Divides(p, d, 2); }
    if d % 3 == 0 { Divides(p, d, 3); }
    if d % 5 == 0 { Divides(p, d, 5); }
    if d % 7 == 0 { Divides(p, d, 7); }
  }

  lemma LargeProduct(d: nat, q: nat)
    requires 18 <= d && 18 <= q
    ensures d * q >= 324
  {
    assert d * q >= 18 * q;
  }

  lemma Cofactor(p: nat, d: nat, q: nat)
    requires p == d * q && d < p < 324 && 18 <= d
    ensures 1 < q < 18 && q < p && p % q == 0
  {
    if q >= 18 { LargeProduct(d, q); }
    assert p == q * d + 0;
    RemainderUnique(p, q, d, 0);
  }

  /** Below 18 squared the trial decides. */
  lemma TrialDecides(p: nat)
    requires p < 324
    ensures PassesTrial(p) <==> Prime(p)
  {
    if PassesTrial(p) {
      forall d | 1 < d < p ensures p % d != 0 { DivisorFails(p, d); }
    }
  }

  lemma DivisorFails(p: nat, d: nat)
    requires 1 < d < p < 324 && PassesTrial(p)
    ensures p % d != 0
  {
    if p % d == 0 {
      if d < 18 {
        SmallDivisorFails(p, d);
      } else {
        Cofactor(p, d, p / d);
        SmallDivisorFails(p, p / d);
      }
    }
  }

  // ---------------------------------------------------------------- the list

  lemma RowPasses(r: nat, k: nat)
    requires r < 8 && k < 8
    ensures PRIME_ROWS[r][k] < 324 && PassesTrial(PRIME_ROWS[r][k])
  {
  }

  /** Every listed number is a prime. */
  lemma ListedArePrimes(r: nat, k: nat)
    requires r < 8 && k < 8
    ensures Prime(PRIME_ROWS[r][k])
  {
    hide PassesTrial;
    RowPasses(r, k);
    TrialDecides(PRIME_ROWS[r][k]);
  }

  lemma RemainderBy30(p: nat)
    ensures p % 30 % 2 == p % 2 && p % 30 % 3 == p % 3 && p % 30 % 5 == p % 5
  {
    var q, r := p / 30, p % 30;
    assert p == 2 * (15 * q) + r && p == 3 * (10 * q) + r && p == 5 * (6 * q) + r;
    RemainderUnique(p, 2, 15 * q + r / 2, r % 2);
    RemainderUnique(p, 3, 10 * q + r / 3, r % 3);
    RemainderUnique(p, 5, 6 * q + r / 5, r % 5);
  }

  lemma CoprimeTo30(r: nat)
    requires r < 30 && r % 2 != 0 && r % 3 != 0 && r % 5 != 0
    ensures r in {1, 7, 11, 13, 17, 19, 23, 29}
  {
  }

  /** A larger number that passes has a remainder by 30 without a small factor. */
  lemma Wheel(p: nat)
    requires p > 5 && PassesTrial(p)
    ensures p % 30 in {1, 7, 11, 13, 17, 19, 23, 29}
  {
    RemainderBy30(p);
    CoprimeTo30(p % 30);
  }

  lemma NoneMissing0(p: nat)
    requires 1 < p <= 19 && PassesTrial(p)
    ensures p in PRIME_ROWS[0]
  {
    assert p == 2 || p == 3 || p == 5 || p == 7 || p == 11 || p == 13 || p == 17 || p == 19;
  }

  lemma NoneMissing1(p: nat)
    requires 19 < p <= 53 && PassesTrial(p)
    ensures p in PRIME_ROWS[1]
  {
    Wheel(p);
    hide PassesTrial;
    assert p in {23, 29, 31, 37, 41, 43, 47, 49, 53};
  }

  lemma NoneMissing2(p: nat)
    requires 53 < p <= 89 && PassesTrial(p)
    ensures p in PRIME_ROWS[2]
  {
    Wheel(p);
    hide PassesTrial;
    assert p in {59, 61, 67, 71, 73, 77, 79, 83, 89};
  }

  lemma NoneMissing3(p: nat)
    requires 89 < p <= 131 && PassesTrial(p)
    ensures p in PRIME_ROWS[3]
  {
    Wheel(p);
    hide PassesTrial;
    assert p in {91, 97, 101, 103, 107, 109, 113, 119, 121, 127, 131};
  }

  lemma NoneMissing4(p: nat)
    requires 131 < p <= 173 && PassesTrial(p)
    ensures p in PRIME_ROWS[4]
  {
    Wheel(p);
    hide PassesTrial;
    assert p in {133, 137, 139, 143, 149, 151, 157, 161, 163, 167, 169, 173};
  }

  lemma NoneMissing5(p: nat)
    requires 173 < p <= 223 && PassesTrial(p)
    ensures p in PRIME_ROWS[5]
  {
    Wheel(p);
    hide PassesTrial;
    assert p in {179, 181, 187, 191, 193, 197, 199, 203, 209, 211, 217, 221, 223};
  }

  lemma NoneMissing6(p: nat)
    requires 223 < p <= 263 && PassesTrial(p)
    ensures p in PRIME_ROWS[6]
  {
    Wheel(p);
    hide PassesTrial;
    assert p in {227, 229, 233, 239, 241, 247, 251, 253, 257, 259, 263};
  }

  lemma NoneMissing7(p: nat)
    requires 263 < p <= 311 && PassesTrial(p)
    ensures p in PRIME_ROWS[7]
  {
    Wheel(p);
    hide PassesTrial;
    assert p in {269, 271, 277, 281, 283, 287, 289, 293, 299, 301, 307, 311};
  }

  /** No prime up to the last of the list is missing from it. */
  lemma NoPrimeIsMissing(p: nat)
    requires p <= 311 && Prime(p)
    ensures exists r :: 0 <= r < 8 && p in PRIME_ROWS[r]
  {
    TrialDecides(p);
    hide PassesTrial, Prime;
    if p <= 19 { NoneMissing0(p); }
    else if p <= 53 { NoneMissing1(p); }
    else if p <= 89 { NoneMissing2(p); }
    else if p <= 131 { NoneMissing3(p); }
    else if p <= 173 { NoneMissing4(p); }
    else if p <= 223 { NoneMissing5(p); }
    else if p <= 263 { NoneMissing6(p); }
    else { NoneMissing7(p); }
  }

  /** The t-th number of the list. */
  function PrimeAt(t: nat): nat
    requires t < 64
  {
    PRIME_ROWS[t / 8][t % 8]
  }

  lemma RowsRise(r: nat, k: nat)
    requires r < 8 && k < 8
    ensures k < 7 ==> PRIME_ROWS[r][k] < PRIME_ROWS[r][k + 1]
    ensures r < 7 ==> PRIME_ROWS[r][7] < PRIME_ROWS[r + 1][0]
  {
  }

  lemma NextRises(t: nat, r: nat, k: nat)
    requires t == 8 * r + k && r < 8 && k < 8 && t < 63
    ensures PrimeAt(t) < PrimeAt(t + 1)
  {
    RowsRise(r, k);
    if k < 7 { Place(t + 1, r, k + 1); } else { Place(t + 1, r + 1, 0); }
    Place(t, r, k);
  }

  lemma Place(t: nat, r: nat, k: nat)
    requires t == 8 * r + k && r < 8 && k < 8
    ensures PrimeAt(t) == PRIME_ROWS[r][k]
  {
    assert t / 8 == r && t % 8 == k;
  }

  lemma {:induction false} ListRises(s: nat, t: nat)
    requires s < t < 64
    ensures PrimeAt(s) < PrimeAt(t)
    decreases t
  {
    hide PrimeAt;
    NextRises(t - 1, (t - 1) / 8, (t - 1) % 8);
    if s < t - 1 { ListRises(s, t - 1); }
  }

  /** The list is that of the first sixty-four primes, in order: its numbers are prime and rise, and it skips none. */
  lemma FirstSixtyFour()
    ensures forall t | 0 <= t < 64 :: Prime(PrimeAt(t))
    ensures forall s, t | 0 <= s < t < 64 :: PrimeAt(s) < PrimeAt(t)
    ensures forall p: nat | Prime(p) && p <= PrimeAt(63) :: exists t :: 0 <= t < 64 && PrimeAt(t) == p
  {
    hide Prime;
    forall t | 0 <= t < 64 ensures Prime(PrimeAt(t)) { ListedArePrimes(t / 8, t % 8); }
    forall s, t | 0 <= s < t < 64 ensures PrimeAt(s) < PrimeAt(t) { ListRises(s, t); }
    forall p: nat | Prime(p) && p <= PrimeAt(63) ensures exists t :: 0 <= t < 64 && PrimeAt(t) == p {
      NoPrimeIsMissing(p);
      var r :| 0 <= r < 8 && p in PRIME_ROWS[r];
      PlaceInRow(r, p);
    }
  }

  lemma PlaceInRow(r: nat, p: nat)
    requires r < 8 && p in PRIME_ROWS[r]
    ensures exists t :: 0 <= t < 64 && PrimeAt(t) == p
  {
    var k :| 0 <= k < |PRIME_ROWS[r]| && PRIME_ROWS[r][k] == p;
    Place(8 * r + k, r, k);
  }
}
