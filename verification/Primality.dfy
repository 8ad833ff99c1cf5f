/** Trial division up to number / 2 (Prime.isPrime), against primality defined by multiplication. */
module Primality {
  import opened JavaInt

  /** d times some whole number is m. */
  ghost predicate Divides(d: int, m: int) {
    exists k: int :: Times(d, k) == m
  }

  function Times(d: int, k: int): int {
    d * k
  }

  /** m is a prime number. */
  ghost predicate PrimeNumber(m: int) {
    m >= 2 && forall d :: 1 < d < m ==> !Divides(d, m)
  }

  /** No candidate divisor from 2 to number / 2 leaves remainder zero. */
  predicate Passes(number: int) {
    forall d :: 2 <= d <= Div(number, 2) ==> Rem(number, d) != 0
  }

  /** The counting loop with its early exit. */
  method IsPrime(number: int) returns (prime: bool)
    requires InRange(number)
    ensures prime <==> Passes(number)
    ensures number >= 2 ==> (prime <==> PrimeNumber(number))
  {
    if number >= 2 {
      TrialDivisionIsPrimality(number);
    }
    var end := Div(number, 2);
    var i := 2;
    while i <= end
      invariant 2 <= i
      invariant end >= 2 ==> i <= end + 1
      invariant forall d :: 2 <= d < i && d <= end ==> Rem(number, d) != 0
      decreases end - i
    {
      if Rem(number, i) == 0 {
        return false;
      }
      i := Wrap(i + 1);
    }
    return true;
  }

  /** Testing divisors up to m / 2 is enough: for m >= 2 the loop answers true exactly on the primes. */
  lemma TrialDivisionIsPrimality(m: int)
    requires m >= 2
    ensures Passes(m) <==> PrimeNumber(m)
  {
    if Passes(m) {
      forall d | 1 < d < m
        ensures !Divides(d, m)
      {
        if Divides(d, m) {
          var k :| Times(d, k) == m;
          CofactorAtLeastTwo(d, k, m);
          DividesIffRemainderZero(d, m);
        }
      }
    }
    if PrimeNumber(m) {
      forall d | 2 <= d <= Div(m, 2)
        ensures Rem(m, d) != 0
      {
        DividesIffRemainderZero(d, m);
      }
    }
  }

  /** A proper divisor is at most m / 2. */
  lemma CofactorAtLeastTwo(d: int, k: int, m: int)
    requires 1 < d < m && d * k == m
    ensures d <= m / 2
  {
    Multiples(d, k);
  }

  lemma DividesIffRemainderZero(d: int, m: int)
    requires d > 0 && m >= 0
    ensures Divides(d, m) <==> Rem(m, d) == 0
  {
    DivRem(m, d);
    if Rem(m, d) == 0 {
      assert Times(d, Div(m, d)) == m;
    }
    if Divides(d, m) {
      var k :| Times(d, k) == m;
      var r := Rem(m, d);
      assert r == d * (k - Div(m, d));
      Multiples(d, k - Div(m, d));
    }
  }

  /** Below 4 the loop never runs, so 0, 1 and every negative number pass although none is prime:
      the answer means "prime" exactly from 2 on. */
  lemma PassesBelowTwo(m: int)
    ensures m < 4 ==> Passes(m)
    ensures (Passes(m) <==> PrimeNumber(m)) <==> m >= 2
  {
    if m >= 2 {
      TrialDivisionIsPrimality(m);
    }
  }
}
