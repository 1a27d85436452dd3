/** Trial-division primality test (`is_prime` in cython/wrapping_c/primes.c).
    The C code bounds the trial divisors by `(int)sqrt(n)`; over the inputs a
    C `int` can hold this truncated square root is the integer square root,
    which is what the model uses. */
module Primes {
  import opened Layout

  /** The integer square root: the largest r with r * r <= n. */
  function ISqrt(n: nat): (r: nat)
    ensures r * r <= n < (r + 1) * (r + 1)
    decreases n
  {
    if n == 0 then 0
    else
      var s := ISqrt(n - 1);
      if (s + 1) * (s + 1) <= n then s + 1 else s
  }

  /** Mathematical primality: at least 2 and no divisor in [2, n). */
  predicate Prime(n: int)
  {
    n >= 2 && forall d :: 2 <= d < n ==> n % d != 0
  }

  /** No trial divisor in [2, hi] divides n. */
  predicate NoDivisorUpTo(n: int, hi: int)
  {
    forall d :: 2 <= d <= hi ==> n % d != 0
  }

  /** `ISqrt(n)` is the largest k with k * k <= n. */
  lemma ISqrtIsLargest(n: nat, k: nat)
    requires k * k <= n
    ensures k <= ISqrt(n)
  {
    var r := ISqrt(n);
    if k > r {
      MulLe(r + 1, k, r + 1);
      MulLe(r + 1, k, k);
      assert false;
    }
  }

  /** The square-root bound lies below n, so a divisor found by trial
      division is a divisor in [2, n). */
  lemma ISqrtBelow(n: nat)
    requires n >= 2
    ensures ISqrt(n) < n
  {
    var r := ISqrt(n);
    if r >= 2 {
      MulLe(2, r, r);
    }
  }

  lemma ModOfMultiple(d: int, e: int)
    requires d >= 1 && e >= 1
    ensures (d * e) % e == 0
  {
    var q, m := (d * e) / e, (d * e) % e;
    assert (d - q) * e == m;
    if d - q >= 1 {
      MulLe(1, d - q, e);
      assert false;
    }
    if d - q <= -1 {
      MulLe(1, q - d, e);
      assert false;
    }
  }

  /** A cofactor of a divisor below n is at least 2. */
  lemma CofactorAtLeastTwo(n: int, d: int, e: int)
    requires 2 <= d < n && n == e * d
    ensures e >= 2
  {
    if e <= 1 {
      MulLe(e, 1, d);
    }
  }

  /** If n < (s + 1)^2 and d > s, a cofactor e of d is at most s. */
  lemma CofactorBelowRoot(n: int, s: nat, d: int, e: int)
    requires n == e * d && n < (s + 1) * (s + 1) && d >= s + 1
    ensures e <= s
  {
    if e >= s + 1 {
      MulLe(s + 1, e, s + 1);
      MulLe(s + 1, d, e);
    }
  }

  /** A composite n has a divisor no larger than its integer square root:
      if d > ISqrt(n) divides n, the cofactor n / d divides n and is small. */
  lemma {:induction false} DivisorBelowSqrt(n: int, d: int) returns (e: int)
    requires 2 <= d < n && n % d == 0
    ensures 2 <= e <= ISqrt(n) && n % e == 0
  {
    var s := ISqrt(n);
    if d <= s {
      return d;
    }
    e := n / d;
    assert n == e * d;
    CofactorAtLeastTwo(n, d, e);
    CofactorBelowRoot(n, s, d, e);
    ModOfMultiple(d, e);
  }

  /** Checking divisors up to the integer square root decides primality. */
  lemma PrimeIffNoSmallDivisor(n: int)
    ensures Prime(n) <==> n >= 2 && NoDivisorUpTo(n, ISqrt(n))
  {
    if n >= 2 {
      ISqrtBelow(n);
      if !Prime(n) {
        var d :| 2 <= d < n && n % d == 0;
        var e := DivisorBelowSqrt(n, d);
      }
    }
  }

  /** For n = 2 and n = 3 the bound is 1, so the loop body never runs. */
  lemma TwoAndThreeSkipTheLoop()
    ensures ISqrt(2) == 1 && ISqrt(3) == 1
    ensures Prime(2) && Prime(3)
  {
    ISqrtIsLargest(2, 1);
    ISqrtIsLargest(3, 1);
  }

  /** `is_prime`: reject n <= 1, then try every i in [2, n_sqrt] and
      return false at the first one dividing n. */
  method IsPrime(n: int) returns (b: bool)
    ensures b <==> n >= 2 && NoDivisorUpTo(n, ISqrt(n))
    ensures b <==> Prime(n)
  {
    PrimeIffNoSmallDivisor(n);
    if n <= 1 {
      return false;
    }
    var nSqrt := ISqrt(n);
    var i := 2;
    while i <= nSqrt
      invariant 2 <= i <= if nSqrt < 2 then 2 else nSqrt + 1
      invariant NoDivisorUpTo(n, i - 1)
    {
      if n % i == 0 {
        return false;
      }
      i := i + 1;
    }
    return true;
  }
}
