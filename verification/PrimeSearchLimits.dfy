/** Termination of the prime search under every scheduler, and the exact range of n where it is right. */
module PrimeSearchLimits {
  import opened JavaInt
  import opened Primality
  import opened PrimeSearch
  import opened PrimeSearchSafety

  /** Every `int` computed in every run is exact. */
  ghost predicate AlwaysExact(c: Config)
    requires c.Valid()
  {
    forall schedule, t: nat ::
      Legal(c, schedule) && Enabled(c, After(c, schedule), t) ==> Exact(c, After(c, schedule), t)
  }

  ghost predicate RunsAtMost(c: Config, bound: nat)
    requires c.Valid()
  {
    forall schedule :: Legal(c, schedule) ==> |schedule| <= bound
  }

  ghost predicate Complete(c: Config, schedule: seq<nat>)
    requires c.Valid()
  {
    Legal(c, schedule) && Stuck(c, After(c, schedule))
  }

  /** Total correctness under every scheduler: no run goes on forever, and wherever a run cannot go
      on, calculatePrime has returned with the right list. */
  ghost predicate AlwaysReturnsThePrimes(c: Config)
    requires c.Valid()
  {
    && (exists bound: nat :: RunsAtMost(c, bound))
    && (forall schedule :: Complete(c, schedule) ==>
          && Returned(After(c, schedule))
          && ExactlyThePrimes(After(c, schedule).list, Highest(c))
          && SharesInOrder(c, After(c, schedule).list))
  }

  // ---------------------------------------------------------------- no deadlock

  /** Only a state in which calculatePrime has returned can be stuck; this needs no bound on n. */
  lemma NoDeadlock(c: Config, s: State)
    requires LockInv(c, s) && Stuck(c, s)
    ensures Returned(s)
  {
    if s.lock.Some? {
      assert InCritical(s.pcs[s.lock.value]);
      assert Enabled(c, s, s.lock.value);
      assert false;
    }
    forall t: nat | 1 <= t <= c.threads
      ensures s.pcs[t].Done? || s.pcs[t].Idle?
    {
      assert !Enabled(c, s, t);
    }
    assert !Enabled(c, s, 0);
  }

  // ---------------------------------------------------------------- no infinite run

  /** An upper bound on the steps that thread t still has to take. */
  function Left(c: Config, t: int, pc: Pc): int
    requires c.Valid()
  {
    match pc
    case Idle => 5 * (Hi(c, t) - Lo(c, t)) + c.threads + 3
    case Spawn(k) => 5 * (Hi(c, t) - Lo(c, t)) + 2 * c.threads + 5 - k
    case Test(i) => 5 * (Hi(c, t) - i) + c.threads + 2
    case Acquire(i) => 5 * (Hi(c, t) - i) + c.threads + 1
    case ReadSize(i) => 5 * (Hi(c, t) - i) + c.threads
    case Store(i, _) => 5 * (Hi(c, t) - i) + c.threads - 1
    case Release(i) => 5 * (Hi(c, t) - i) + c.threads - 2
    case Join(k) => c.threads + 2 - k
    case Done => 0
  }

  function LeftUpTo(c: Config, pcs: seq<Pc>, k: nat): int
    requires c.Valid() && k <= |pcs|
  {
    if k == 0 then 0 else LeftUpTo(c, pcs, k - 1) + Left(c, k - 1, pcs[k - 1])
  }

  function StepsLeft(c: Config, s: State): int
    requires c.Valid()
  {
    LeftUpTo(c, s.pcs, |s.pcs|)
  }

  lemma {:induction false} LeftNonNegative(c: Config, s: State, k: nat)
    requires Inv(c, s) && k <= |s.pcs|
    ensures LeftUpTo(c, s.pcs, k) >= 0
  {
    if k > 0 {
      LeftNonNegative(c, s, k - 1);
      assert InShare(c, k - 1, s.pcs[k - 1]);
    }
  }

  /** If no thread has more left and thread t has less, the total is less. */
  lemma {:induction false} LessLeft(c: Config, pcs: seq<Pc>, pcs': seq<Pc>, t: nat, k: nat)
    requires c.Valid() && |pcs| == |pcs'| && k <= |pcs| && t < |pcs|
    requires forall u :: 0 <= u < |pcs| ==> Left(c, u, pcs'[u]) <= Left(c, u, pcs[u])
    requires Left(c, t, pcs'[t]) < Left(c, t, pcs[t])
    ensures LeftUpTo(c, pcs', k) <= LeftUpTo(c, pcs, k)
    ensures t < k ==> LeftUpTo(c, pcs', k) < LeftUpTo(c, pcs, k)
  {
    if k > 0 {
      LessLeft(c, pcs, pcs', t, k - 1);
    }
  }

  lemma StepLeavesLess(c: Config, s: State, t: nat)
    requires Inv(c, s) && Enabled(c, s, t) && Exact(c, s, t)
    ensures StepsLeft(c, Step(c, s, t)) < StepsLeft(c, s)
  {
    var s' := Step(c, s, t);
    if s.pcs[t].Spawn? {
      SpawnInShare(c, s);
      var k := s.pcs[t].next;
      assert k <= c.threads ==> s.pcs[k] == Idle;
    } else if s.pcs[t].Test? {
      TestInShare(c, s, t);
    }
    LessLeft(c, s.pcs, s'.pcs, t, |s.pcs|);
  }

  lemma {:induction false} RunsAreBounded(c: Config, schedule: seq<nat>)
    requires c.Valid() && AlwaysExact(c) && Legal(c, schedule)
    ensures Inv(c, After(c, schedule))
    ensures |schedule| + StepsLeft(c, After(c, schedule)) <= StepsLeft(c, Start(c))
    ensures SharesInOrder(c, After(c, schedule).list)
    decreases |schedule|
  {
    if schedule == [] {
      StartInv(c);
    } else {
      var s, t := After(c, Front(schedule)), Last(schedule);
      RunsAreBounded(c, Front(schedule));
      StepKeepsInv(c, s, t);
      StepLeavesLess(c, s, t);
      StepKeepsOrder(c, s, t);
    }
  }

  lemma ExactSearchesReturn(c: Config)
    requires c.Valid() && AlwaysExact(c)
    ensures AlwaysReturnsThePrimes(c)
  {
    StartInv(c);
    LeftNonNegative(c, Start(c), c.threads + 1);
    var bound: nat := StepsLeft(c, Start(c));
    forall schedule | Legal(c, schedule)
      ensures |schedule| <= bound
    {
      RunsAreBounded(c, schedule);
      LeftNonNegative(c, After(c, schedule), c.threads + 1);
    }
    assert RunsAtMost(c, bound);
    forall schedule | Complete(c, schedule)
      ensures Returned(After(c, schedule)) && ExactlyThePrimes(After(c, schedule).list, Highest(c))
      ensures SharesInOrder(c, After(c, schedule).list)
    {
      RunsAreBounded(c, schedule);
      NoDeadlock(c, After(c, schedule));
      ReturnedListIsRight(c, After(c, schedule));
    }
  }

  /** If runs are bounded, each extends to one that cannot go on. */
  lemma {:induction false} Completion(c: Config, schedule: seq<nat>, bound: nat) returns (full: seq<nat>)
    requires c.Valid() && RunsAtMost(c, bound) && Legal(c, schedule)
    ensures Complete(c, full)
    decreases bound - |schedule|
  {
    if Stuck(c, After(c, schedule)) {
      full := schedule;
    } else {
      var t: nat :| Enabled(c, After(c, schedule), t);
      assert Front(schedule + [t]) == schedule;
      assert Legal(c, schedule + [t]);
      full := Completion(c, schedule + [t], bound);
    }
  }

  // ---------------------------------------------------------------- where it goes wrong

  /** With n == Integer.MAX_VALUE the guard `begin <= n` holds of every int: the tail loop never ends. */
  lemma {:induction false} LargestNNeverReturns(c: Config, schedule: seq<nat>)
    requires c.Valid() && c.n == MAX_INT && Legal(c, schedule)
    ensures !Returned(After(c, schedule))
    ensures var main := After(c, schedule).pcs[0];
            !main.Join? && !main.Idle? && (main.Test? ==> InRange(main.at))
    decreases |schedule|
  {
    if schedule != [] {
      LargestNNeverReturns(c, Front(schedule));
      MutualExclusion(c, Front(schedule));
    }
  }

  /** Main has still to append Integer.MIN_VALUE, or it is in the list. */
  ghost predicate MinimumComing(s: State) {
    |s.pcs| > 0 &&
    match s.pcs[0]
    case Spawn(_) => true
    case Test(i) => i == MIN_INT || MIN_INT in s.list
    case Acquire(i) => i == MIN_INT || MIN_INT in s.list
    case ReadSize(i) => i == MIN_INT || MIN_INT in s.list
    case Store(i, _) => i == MIN_INT || MIN_INT in s.list
    case _ => MIN_INT in s.list
  }

  lemma StepKeepsMinimum(c: Config, s: State, t: nat)
    requires LockInv(c, s) && Enabled(c, s, t) && MinimumComing(s)
    requires c.n == MAX_INT - 1 && Rem(c.n, c.threads) == 0
    ensures MinimumComing(Step(c, s, t))
  {
    PassesBelowTwo(MIN_INT);
    var s' := Step(c, s, t);
    if s.pcs[t].Store? {
      assert s'.list == s.list + [s.pcs[t].at];
    } else {
      assert s'.list == s.list;
    }
  }

  /** With n == Integer.MAX_VALUE - 1 and THREADS dividing n, `begin` wraps to Integer.MIN_VALUE,
      which passes trial division and ends up in the list. */
  lemma {:induction false} WrappedBeginIsListed(c: Config, schedule: seq<nat>)
    requires c.Valid() && c.n == MAX_INT - 1 && Rem(c.n, c.threads) == 0 && Legal(c, schedule)
    ensures MinimumComing(After(c, schedule))
    decreases |schedule|
  {
    if schedule != [] {
      WrappedBeginIsListed(c, Front(schedule));
      MutualExclusion(c, Front(schedule));
      StepKeepsMinimum(c, After(c, Front(schedule)), Last(schedule));
    }
  }

  lemma NoSmallNumber(list: seq<int>, bound: int, v: int)
    requires ExactlyThePrimes(list, bound) && v < 2
    ensures v !in list
  {
    assert multiset(list)[v] == 0;
  }

  lemma RightSearchesFit(c: Config)
    requires c.Valid() && AlwaysReturnsThePrimes(c)
    ensures Fits(c)
  {
    if !Fits(c) {
      var bound: nat :| RunsAtMost(c, bound);
      var full := Completion(c, [], bound);
      NoSmallNumber(After(c, full).list, Highest(c), MIN_INT);
      if c.n == MAX_INT {
        LargestNNeverReturns(c, full);
      } else {
        WrappedBeginIsListed(c, full);
      }
    }
  }

  lemma FittingSearchesAreExact(c: Config)
    requires c.Valid() && Fits(c)
    ensures AlwaysExact(c)
  {
    forall schedule, t: nat | Legal(c, schedule) && Enabled(c, After(c, schedule), t)
      ensures Exact(c, After(c, schedule), t)
    {
      RunsKeepInv(c, schedule);
      FitsMakesExact(c, After(c, schedule), t);
    }
  }

  lemma FitsIs(c: Config)
    requires c.Valid()
    ensures Fits(c) <==> c.n <= 2147483645 || (c.n == 2147483646 && c.n % c.threads != 0)
  {
    DivRem(c.n, c.threads);
  }

  /** Under every scheduler calculatePrime terminates with the right list exactly when n is at most
      Integer.MAX_VALUE - 2, or is Integer.MAX_VALUE - 1 and not a multiple of THREADS. The same
      condition says exactly when no 32-bit overflow happens. */
  lemma SearchIsRightExactlyWhenItFits(c: Config)
    requires c.Valid()
    ensures AlwaysReturnsThePrimes(c) <==> Fits(c)
    ensures AlwaysExact(c) <==> Fits(c)
    ensures Fits(c) <==> c.n <= 2147483645 || (c.n == 2147483646 && c.n % c.threads != 0)
  {
    FitsIs(c);
    if Fits(c) {
      FittingSearchesAreExact(c);
      ExactSearchesReturn(c);
    } else {
      if AlwaysExact(c) {
        ExactSearchesReturn(c);
      }
      if AlwaysReturnsThePrimes(c) {
        RightSearchesFit(c);
      }
    }
  }
}
