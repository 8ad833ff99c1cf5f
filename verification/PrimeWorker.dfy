/** The loops of Prime.run and calculatePrime as they are written: in place, on the shared list. */
module PrimeWorker {
  import opened Wrappers
  import opened JavaInt
  import opened Primality
  import opened PrimeSearch
  import opened PrimeSearchSafety
  import opened PrimeSearchLimits

  /** The numbers from lo up to hi - 1 that pass trial division, in increasing order. */
  function Passing(lo: int, hi: int): seq<int>
    decreases hi - lo
  {
    if hi <= lo then []
    else Passing(lo, hi - 1) + if Passes(hi - 1) then [hi - 1] else []
  }

  lemma {:induction false} PassingOnce(lo: int, hi: int, v: int)
    ensures multiset(Passing(lo, hi))[v] == if lo <= v < hi && Passes(v) then 1 else 0
    decreases hi - lo
  {
    if lo < hi {
      PassingOnce(lo, hi - 1, v);
    }
  }

  /** They are in increasing order. */
  lemma {:induction false} PassingInOrder(lo: int, hi: int)
    ensures Increasing(Passing(lo, hi))
    ensures forall a :: 0 <= a < |Passing(lo, hi)| ==> lo <= Passing(lo, hi)[a] < hi
    decreases hi - lo
  {
    if lo < hi {
      PassingInOrder(lo, hi - 1);
    }
  }

  /** The ArrayList that all threads append to. */
  class PrimeList {
    var numbers: seq<int>

    constructor ()
      ensures numbers == []
    {
      numbers := [];
    }

    method Add(number: int)
      modifies this
      ensures numbers == old(numbers) + [number]
    {
      numbers := numbers + [number];
    }
  }

  class Prime {
    const threadId: int
    const limit: int
    const primeNumbers: PrimeList

    constructor (threadId: int, limit: int, primeNumbers: PrimeList)
      ensures this.threadId == threadId && this.limit == limit && this.primeNumbers == primeNumbers
    {
      this.threadId := threadId;
      this.limit := limit;
      this.primeNumbers := primeNumbers;
    }

    /** Run without interruption, a worker appends the primes of its block in increasing order. */
    method Run(threads: int)
      requires Config(limit, threads).Valid()
      modifies primeNumbers
      ensures var c := Config(limit, threads);
              primeNumbers.numbers ==
              old(primeNumbers.numbers) + Passing(Wrap(c.End(threadId) - c.Block()), c.End(threadId))
    {
      var everyBlock := Div(limit, threads);
      var end := Wrap(Wrap(everyBlock * threadId) + 2);
      var start := Wrap(end - everyBlock);
      var i := start;
      while i < end
        invariant start <= i && (i <= end || i == start) && InRange(i)
        invariant primeNumbers.numbers == old(primeNumbers.numbers) + Passing(start, i)
        decreases end - i
      {
        var isPrime := IsPrime(i);
        if isPrime {
          primeNumbers.Add(i);
        }
        i := Wrap(i + 1);
      }
      assert start >= end ==> Passing(start, i) == Passing(start, end);
    }
  }

  /** The loop of calculatePrime over the numbers that no block covers. For n == Integer.MAX_VALUE
      it never ends (LargestNNeverReturns). */
  method TailScan(n: int, threads: int, primes: PrimeList)
    requires Config(n, threads).Valid() && n < MAX_INT
    modifies primes
    ensures primes.numbers == old(primes.numbers) + Passing(Config(n, threads).First(0), n + 1)
  {
    var start := Wrap(Wrap(n - Rem(n, threads)) + 2);
    var begin := start;
    while begin <= n
      invariant start <= begin && (begin <= n + 1 || begin == start) && InRange(begin)
      invariant primes.numbers == old(primes.numbers) + Passing(start, begin)
      decreases n - begin
    {
      var isPrime := IsPrime(begin);
      if isPrime {
        primes.Add(begin);
      }
      begin := Wrap(begin + 1);
    }
    assert start > n ==> Passing(start, begin) == Passing(start, n + 1);
  }

  /** calculatePrime under a scheduler that may pick any thread that can move. */
  method CalculatePrime(n: int, threads: int) returns (primes: seq<int>)
    requires Config(n, threads).Valid() && Fits(Config(n, threads))
    ensures ExactlyThePrimes(primes, Highest(Config(n, threads)))
    ensures SharesInOrder(Config(n, threads), primes)
    ensures threads == 1 ==> Increasing(primes)
  {
    var c := Config(n, threads);
    var s := Start(c);
    StartInv(c);
    while s.pcs[0] != Done
      invariant Inv(c, s) && SharesInOrder(c, s.list)
      decreases StepsLeft(c, s)
    {
      LeftNonNegative(c, s, |s.pcs|);
      if Stuck(c, s) {
        NoDeadlock(c, s);
      }
      var t: nat :| t < |s.pcs| && Enabled(c, s, t);
      FitsMakesExact(c, s, t);
      StepKeepsInv(c, s, t);
      StepLeavesLess(c, s, t);
      StepKeepsOrder(c, s, t);
      s := Step(c, s, t);
    }
    ReturnedListIsRight(c, s);
    if threads == 1 {
      OneWorkerInOrder(c, s);
    }
    primes := s.list;
  }

  /** What the workers append when each runs without interruption, one after the other. */
  function Blocks(c: Config, k: nat): seq<int>
    requires c.Valid()
  {
    if k == 0 then [] else Blocks(c, k - 1) + Passing(c.First(k), c.End(k))
  }

  /** Below THREADS the blocks are empty, or run backwards. */
  lemma BlockBounds(c: Config, k: nat)
    requires c.Valid() && Fits(c) && 1 <= k <= c.threads
    ensures c.First(k) == c.Block() * (k - 1) + 2 && c.End(k) == c.Block() * k + 2
    ensures if c.Block() > 0 then 2 <= c.First(k) <= c.End(k) else c.End(k) <= c.First(k) <= 2
  {
    BlockEnds(c, k);
    BlockEnds(c, k - 1);
    assert c.Block() * k == c.Block() * (k - 1) + c.Block();
    if c.Block() > 0 {
      ProductNonNegative(c.Block(), k - 1);
    } else {
      ProductNonNegative(-c.Block(), k - 1);
      assert -c.Block() * (k - 1) == -(c.Block() * (k - 1));
    }
  }

  lemma Appended(a: seq<int>, b: seq<int>, v: int)
    ensures multiset(a + b)[v] == multiset(a)[v] + multiset(b)[v]
  {}

  /** The first k blocks hold each number from 2 to the end of block k that passes, once. */
  ghost predicate CoveredBy(c: Config, k: nat, v: int)
    requires c.Valid()
  {
    multiset(Blocks(c, k))[v] == if 2 <= v < c.Block() * k + 2 && Passes(v) then 1 else 0
  }

  /** Block k starts where block k - 1 ends. */
  lemma BlockAdds(c: Config, k: nat, v: int)
    requires c.Valid() && Fits(c) && 1 <= k <= c.threads && CoveredBy(c, k - 1, v)
    ensures CoveredBy(c, k, v)
  {
    BlockBounds(c, k);
    PassingOnce(c.First(k), c.End(k), v);
    Appended(Blocks(c, k - 1), Passing(c.First(k), c.End(k)), v);
  }

  lemma NoBlockCovers(c: Config, v: int)
    requires c.Valid()
    ensures CoveredBy(c, 0, v)
  {
    assert Blocks(c, 0) == [];
  }

  lemma {:induction false} BlocksAbut(c: Config, k: nat, v: int)
    requires c.Valid() && Fits(c) && k <= c.threads
    ensures CoveredBy(c, k, v)
  {
    if k == 0 {
      NoBlockCovers(c, v);
    } else {
      BlocksAbut(c, k - 1, v);
      BlockAdds(c, k, v);
    }
  }

  lemma FoundAfterTail(found: seq<int>, first: int, last: int, v: int)
    requires 2 <= first <= last + 1
    requires multiset(found)[v] == if 2 <= v < first && Passes(v) then 1 else 0
    ensures multiset(found + Passing(first, last))[v] == if 2 <= v < Max(first, last) && Passes(v) then 1 else 0
  {
    PassingOnce(first, last, v);
    Appended(found, Passing(first, last), v);
  }

  lemma TailBounds(c: Config)
    requires c.Valid() && Fits(c)
    ensures c.First(0) == c.Block() * c.threads + 2 && Highest(c) == Max(c.n, c.First(0) - 1)
    ensures if c.n >= 0 then 2 <= c.First(0) <= c.n + 2 else c.n + 2 <= c.First(0) <= 2
  {
    DivRem(c.n, c.threads);
    if c.n >= 0 {
      ProductNonNegative(c.Block(), c.threads);
    } else {
      ProductNonNegative(-c.Block(), c.threads);
      assert -c.Block() * c.threads == -(c.Block() * c.threads);
    }
  }

  lemma TailAdds(c: Config, v: int)
    requires c.Valid() && Fits(c) && CoveredBy(c, c.threads, v)
    ensures multiset(Blocks(c, c.threads) + Passing(c.First(0), c.n + 1))[v]
            == if 2 <= v <= Highest(c) && Passes(v) then 1 else 0
  {
    TailBounds(c);
    var first, last, found := c.First(0), c.n + 1, Blocks(c, c.threads);
    if c.n >= 0 {
      FoundAfterTail(found, first, last, v);
    } else {
      assert found + Passing(first, last) == found;
    }
  }

  /** Workers in order and then the tail scan: the schedule without any interleaving finds the same list. */
  lemma InOrderFindsThePrimes(c: Config)
    requires c.Valid() && Fits(c)
    ensures ExactlyThePrimes(Blocks(c, c.threads) + Passing(c.First(0), c.n + 1), Highest(c))
  {
    var found := Blocks(c, c.threads) + Passing(c.First(0), c.n + 1);
    forall v
      ensures multiset(found)[v] == if PrimeNumber(v) && v <= Highest(c) then 1 else 0
    {
      BlocksAbut(c, c.threads, v);
      TailAdds(c, v);
      PassesBelowTwo(v);
    }
  }

  ghost predicate InOrderBelow(list: seq<int>, hi: int) {
    Increasing(list) && forall a :: 0 <= a < |list| ==> list[a] < hi
  }

  lemma PassingGoesOn(list: seq<int>, lo: int, hi: int)
    requires InOrderBelow(list, lo) && lo <= hi
    ensures InOrderBelow(list + Passing(lo, hi), hi)
  {
    PassingInOrder(lo, hi);
  }

  lemma {:induction false} BlocksEmpty(c: Config, k: nat)
    requires c.Valid() && Fits(c) && k <= c.threads && c.Block() <= 0
    ensures Blocks(c, k) == []
  {
    if k > 0 {
      BlocksEmpty(c, k - 1);
      BlockBounds(c, k);
    }
  }

  lemma {:induction false} BlocksInOrder(c: Config, k: nat)
    requires c.Valid() && Fits(c) && 1 <= k <= c.threads && c.Block() > 0
    ensures InOrderBelow(Blocks(c, k), c.End(k))
  {
    BlockBounds(c, k);
    if k == 1 {
      assert Blocks(c, 0) == [];
    } else {
      BlocksInOrder(c, k - 1);
      BlockBounds(c, k - 1);
    }
    PassingGoesOn(Blocks(c, k - 1), c.First(k), c.End(k));
  }

  lemma InOrderIsIncreasing(c: Config)
    requires c.Valid() && Fits(c)
    ensures Increasing(Blocks(c, c.threads) + Passing(c.First(0), c.n + 1))
  {
    TailBounds(c);
    BlockBounds(c, c.threads);
    PassingInOrder(c.First(0), c.n + 1);
    if c.Block() <= 0 {
      BlocksEmpty(c, c.threads);
    } else {
      BlocksInOrder(c, c.threads);
    }
  }

  lemma NextBlock(c: Config, k: nat, numbers: seq<int>)
    requires c.Valid() && 1 <= k && numbers == Blocks(c, k - 1)
    ensures numbers + Passing(Wrap(c.End(k) - c.Block()), c.End(k)) == Blocks(c, k)
  {}

  /** Each worker runs to its end before the next one starts. */
  method RunWorkers(n: int, threads: int, primeNumbers: PrimeList)
    requires Config(n, threads).Valid() && primeNumbers.numbers == []
    modifies primeNumbers
    ensures primeNumbers.numbers == Blocks(Config(n, threads), threads)
  {
    var thread := 1;
    while thread <= threads
      invariant 1 <= thread <= threads + 1
      invariant primeNumbers.numbers == Blocks(Config(n, threads), thread - 1)
    {
      NextBlock(Config(n, threads), thread, primeNumbers.numbers);
      var prime := new Prime(thread, n, primeNumbers);
      prime.Run(threads);
      thread := thread + 1;
    }
  }

  /** calculatePrime on the list itself: the workers in order, and then the tail. */
  method CalculatePrimeInOrder(n: int, threads: int) returns (primes: seq<int>)
    requires Config(n, threads).Valid() && Fits(Config(n, threads))
    ensures ExactlyThePrimes(primes, Highest(Config(n, threads))) && Increasing(primes)
  {
    var primeNumbers := new PrimeList();
    RunWorkers(n, threads, primeNumbers);
    TailScan(n, threads, primeNumbers);
    InOrderFindsThePrimes(Config(n, threads));
    InOrderIsIncreasing(Config(n, threads));
    primes := primeNumbers.numbers;
  }
}
