/** What every step of the prime search keeps. */
module PrimeSearchSafety {
  import opened Wrappers
  import opened JavaInt
  import opened Primality
  import opened PrimeSearch

  // ---------------------------------------------------------------- mutual exclusion

  predicate InCritical(pc: Pc) {
    pc.ReadSize? || pc.Store? || pc.Release?
  }

  /** Exactly the holder of the lock is inside the synchronized block, and the size it read is current. */
  ghost predicate Exclusive(s: State) {
    && (s.lock.Some? ==> s.lock.value < |s.pcs|)
    && (forall t :: 0 <= t < |s.pcs| ==> (InCritical(s.pcs[t]) <==> s.lock == Some(t)))
    && (forall t :: 0 <= t < |s.pcs| && s.pcs[t].Store? ==> s.pcs[t].size == |s.list|)
  }

  /** The main thread starts the workers in order, scans the tail, and joins the workers in order. */
  ghost predicate Phased(c: Config, s: State)
    requires Shaped(c, s)
  {
    && (forall t :: 1 <= t < |s.pcs| ==> !s.pcs[t].Spawn? && !s.pcs[t].Join?)
    && match s.pcs[0]
       case Idle => false
       case Spawn(k) => 1 <= k <= c.threads + 1 && forall t :: 1 <= t < |s.pcs| ==> (s.pcs[t].Idle? <==> t >= k)
       case Join(k) => 1 <= k <= c.threads + 1
                       && (forall t :: 1 <= t < |s.pcs| ==> !s.pcs[t].Idle?)
                       && (forall t :: 1 <= t < k ==> s.pcs[t].Done?)
       case Done => forall t :: 0 <= t < |s.pcs| ==> s.pcs[t].Done?
       case _ => forall t :: 1 <= t < |s.pcs| ==> !s.pcs[t].Idle?
  }

  ghost predicate LockInv(c: Config, s: State) {
    Shaped(c, s) && Exclusive(s) && Phased(c, s)
  }

  lemma StartLocks(c: Config)
    requires c.Valid()
    ensures LockInv(c, Start(c))
  {}

  lemma StepKeepsExclusive(c: Config, s: State, t: nat)
    requires LockInv(c, s) && Enabled(c, s, t)
    ensures Exclusive(Step(c, s, t))
  {}

  lemma StepKeepsPhase(c: Config, s: State, t: nat)
    requires LockInv(c, s) && Enabled(c, s, t)
    ensures Phased(c, Step(c, s, t))
  {}

  lemma StepKeepsLock(c: Config, s: State, t: nat)
    requires LockInv(c, s) && Enabled(c, s, t)
    ensures LockInv(c, Step(c, s, t))
  {
    StepKeepsExclusive(c, s, t);
    StepKeepsPhase(c, s, t);
  }

  /** In every run, whatever n: appends never overlap, so none is lost. */
  lemma {:induction false} MutualExclusion(c: Config, schedule: seq<nat>)
    requires c.Valid() && Legal(c, schedule)
    ensures LockInv(c, After(c, schedule))
    decreases |schedule|
  {
    if schedule == [] {
      StartLocks(c);
    } else {
      MutualExclusion(c, Front(schedule));
      StepKeepsLock(c, After(c, Front(schedule)), Last(schedule));
    }
  }

  // ---------------------------------------------------------------- who tries which number

  /** Thread t tries the numbers from Lo to Hi - 1. */
  function Lo(c: Config, t: int): int
    requires c.Valid()
  {
    if t == 0 then c.Block() * c.threads + 2 else c.Block() * (t - 1) + 2
  }

  function Hi(c: Config, t: int): int
    requires c.Valid()
  {
    Max(Lo(c, t), if t == 0 then c.n + 1 else c.Block() * t + 2)
  }

  /** The thread whose share v lies in. */
  function Owner(c: Config, v: int): (t: nat)
    requires c.Valid() && v >= 2
    ensures t <= c.threads
  {
    if c.Block() <= 0 || v >= c.Block() * c.threads + 2 then 0
    else
      OwnerInRange(c.Block(), c.threads, v - 2);
      (v - 2) / c.Block() + 1
  }

  lemma OwnerInRange(q: int, threads: int, x: nat)
    requires q > 0 && x < q * threads
    ensures 0 <= x / q < threads
    ensures q * (x / q) <= x < q * (x / q + 1)
  {
    var d := x / q;
    assert x == q * d + x % q;
    assert q * (d + 1) == q * d + q;
    if d >= threads {
      Ordered(q, threads, d);
    }
    if d < 0 {
      Multiples(q, d);
    }
  }

  /** The shares do not overlap: a number in the share of t has t as its only owner. */
  lemma ShareHasOneOwner(c: Config, t: nat, v: int)
    requires c.Valid() && t <= c.threads && Lo(c, t) <= v < Hi(c, t)
    ensures v >= 2 && Owner(c, v) == t
  {
    var q := c.Block();
    DivRem(c.n, c.threads);
    if t == 0 {
      if c.n >= 0 {
        ProductNonNegative(q, c.threads);
      }
    } else {
      assert q * t == q * (t - 1) + q;
      assert q > 0;
      ProductNonNegative(q, t - 1);
      Ordered(q, t, c.threads);
      OwnerInRange(q, c.threads, v - 2);
      SameQuotient(q, t - 1, (v - 2) / q, v - 2);
    }
  }

  /** The shares leave no gap: together they are the numbers from 2 to Highest. */
  lemma SharesCover(c: Config, v: int)
    requires c.Valid() && v >= 2
    ensures Lo(c, Owner(c, v)) <= v
    ensures v < Hi(c, Owner(c, v)) <==> v <= Highest(c)
  {
    var q := c.Block();
    DivRem(c.n, c.threads);
    if q > 0 && v < q * c.threads + 2 {
      OwnerInRange(q, c.threads, v - 2);
      var t := Owner(c, v);
      assert q * t == q * (t - 1) + q;
    } else if q <= 0 {
      Ordered(c.threads, q, 0);
    }
  }

  /** Worker t has the t-th of THREADS blocks of n / THREADS numbers, main what is left up to n. */
  lemma SharesAre(c: Config, t: nat)
    requires c.Valid() && c.n >= 0 && t <= c.threads
    ensures t > 0 ==> Lo(c, t) == c.n / c.threads * (t - 1) + 2 && Hi(c, t) == c.n / c.threads * t + 2
    ensures t == 0 ==> Lo(c, t) == c.n / c.threads * c.threads + 2 && Hi(c, t) == Max(Lo(c, t), c.n + 1)
  {
    DivRem(c.n, c.threads);
    assert c.n / c.threads * t == c.n / c.threads * (t - 1) + c.n / c.threads;
  }

  // ---------------------------------------------------------------- progress of the list

  /** The numbers of its share that thread t has dealt with are those below Frontier. */
  function Frontier(c: Config, t: int, pc: Pc): int
    requires c.Valid()
  {
    match pc
    case Idle => Lo(c, t)
    case Spawn(_) => Lo(c, t)
    case Test(i) => i
    case Acquire(i) => i
    case ReadSize(i) => i
    case Store(i, _) => i
    case Release(i) => i + 1
    case Join(_) => Hi(c, t)
    case Done => Hi(c, t)
  }

  predicate InShare(c: Config, t: int, pc: Pc)
    requires c.Valid()
  {
    match pc
    case Test(i) => Lo(c, t) <= i <= Hi(c, t)
    case Acquire(i) => Lo(c, t) <= i < Hi(c, t) && Passes(i)
    case ReadSize(i) => Lo(c, t) <= i < Hi(c, t) && Passes(i)
    case Store(i, _) => Lo(c, t) <= i < Hi(c, t) && Passes(i)
    case Release(i) => Lo(c, t) <= i < Hi(c, t) && Passes(i)
    case _ => true
  }

  /** v should be in the list by now. */
  ghost predicate Found(c: Config, s: State, v: int)
    requires Shaped(c, s)
  {
    v >= 2 && Passes(v) && v < Frontier(c, Owner(c, v), s.pcs[Owner(c, v)])
  }

  ghost predicate Inv(c: Config, s: State) {
    && LockInv(c, s)
    && (forall t :: 0 <= t < |s.pcs| ==> InShare(c, t, s.pcs[t]))
    && (forall v :: multiset(s.list)[v] == if Found(c, s, v) then 1 else 0)
  }

  lemma StartInv(c: Config)
    requires c.Valid()
    ensures Inv(c, Start(c))
  {
    var s := Start(c);
    StartLocks(c);
    forall v
      ensures !Found(c, s, v)
    {
      if v >= 2 {
        SharesCover(c, v);
      }
    }
  }

  /** Thread t alone moved, from frontier i to i or i + 1, and dealt with i as it should. */
  lemma ListKept(c: Config, s: State, s': State, t: nat)
    requires Inv(c, s) && LockInv(c, s') && t < |s.pcs|
    requires forall u :: 0 <= u < |s.pcs| && u != t ==> Frontier(c, u, s'.pcs[u]) == Frontier(c, u, s.pcs[u])
    requires var i, j := Frontier(c, t, s.pcs[t]), Frontier(c, t, s'.pcs[t]);
             || (j == i && s'.list == s.list)
             || (j == i + 1 && Lo(c, t) <= i < Hi(c, t) && s'.list == if Passes(i) then s.list + [i] else s.list)
    ensures forall v :: multiset(s'.list)[v] == if Found(c, s', v) then 1 else 0
  {
    var i, j := Frontier(c, t, s.pcs[t]), Frontier(c, t, s'.pcs[t]);
    if j == i + 1 {
      ShareHasOneOwner(c, t, i);
    }
    forall v
      ensures multiset(s'.list)[v] == if Found(c, s', v) then 1 else 0
    {
      if v >= 2 && Owner(c, v) != t {
        assert Found(c, s', v) == Found(c, s, v);
      }
    }
  }

  lemma WorkerStartsAtLo(c: Config, t: int)
    requires c.Valid() && t != 0 && EndExact(c, t) && InRange(c.Block() * t + 2 - c.Block())
    ensures c.First(t) == Lo(c, t)
  {
    assert c.Block() * t == c.Block() * (t - 1) + c.Block();
  }

  lemma TailStartsAtLo(c: Config)
    requires c.Valid() && InRange(c.n - Rem(c.n, c.threads)) && InRange(c.n - Rem(c.n, c.threads) + 2)
    ensures c.First(0) == Lo(c, 0)
  {
    DivRem(c.n, c.threads);
  }

  lemma SpawnInShare(c: Config, s: State)
    requires Inv(c, s) && Enabled(c, s, 0) && s.pcs[0].Spawn? && Exact(c, s, 0)
    ensures var s', k := Step(c, s, 0), s.pcs[0].next;
            k <= c.threads ==> s'.pcs[k] == Test(Lo(c, k)) && s'.pcs[0] == Spawn(k + 1)
    ensures s.pcs[0].next == c.threads + 1 ==> Step(c, s, 0).pcs[0] == Test(Lo(c, 0))
  {
    var k := s.pcs[0].next;
    if k <= c.threads {
      WorkerStartsAtLo(c, k);
    } else {
      TailStartsAtLo(c);
    }
  }

  lemma TestInShare(c: Config, s: State, t: nat)
    requires Inv(c, s) && Enabled(c, s, t) && s.pcs[t].Test? && Exact(c, s, t)
    ensures var i, pc' := s.pcs[t].at, Step(c, s, t).pcs[t];
            InShare(c, t, pc') && Frontier(c, t, pc') == if pc'.Test? then i + 1 else i
    ensures var i, pc' := s.pcs[t].at, Step(c, s, t).pcs[t];
            pc'.Test? ==> i < Hi(c, t) && !Passes(i)
  {}

  /** A step whose `int` results are exact keeps the invariant. */
  lemma StepKeepsInv(c: Config, s: State, t: nat)
    requires Inv(c, s) && Enabled(c, s, t) && Exact(c, s, t)
    ensures Inv(c, Step(c, s, t))
  {
    var s' := Step(c, s, t);
    StepKeepsLock(c, s, t);
    if s.pcs[t].Spawn? {
      SpawnInShare(c, s);
    } else if s.pcs[t].Test? {
      TestInShare(c, s, t);
    }
    OthersStay(c, s, t);
    ListKept(c, s, s', t);
  }

  /** A step leaves the other threads where they are, except that it may start one. */
  lemma OthersStay(c: Config, s: State, t: nat)
    requires Inv(c, s) && Enabled(c, s, t) && Exact(c, s, t)
    ensures var s' := Step(c, s, t);
            forall u :: 0 <= u < |s.pcs| && u != t ==>
              InShare(c, u, s'.pcs[u]) && Frontier(c, u, s'.pcs[u]) == Frontier(c, u, s.pcs[u])
  {
    if s.pcs[t].Spawn? {
      SpawnInShare(c, s);
      var k := s.pcs[t].next;
      assert k <= c.threads ==> s.pcs[k] == Idle;
    }
  }

  /** With Fits, every `int` of the next step is exact. */
  lemma FitsMakesExact(c: Config, s: State, t: nat)
    requires Inv(c, s) && Enabled(c, s, t) && Fits(c)
    ensures Exact(c, s, t)
  {
    BlockEnds(c, t);
    if s.pcs[t].Spawn? {
      SpawnFits(c, s.pcs[t].next);
    } else if s.pcs[t].Test? || s.pcs[t].Release? {
      assert s.pcs[t].at < Hi(c, t) || !c.Continues(t, s.pcs[t].at);
      ShareFits(c, t);
      assert InShare(c, t, s.pcs[t]);
    }
  }

  lemma SpawnFits(c: Config, k: int)
    requires c.Valid() && Fits(c) && 1 <= k <= c.threads + 1
    ensures k <= c.threads ==> EndExact(c, k) && InRange(c.Block() * k + 2 - c.Block())
    ensures InRange(c.n - Rem(c.n, c.threads)) && InRange(c.n - Rem(c.n, c.threads) + 2)
  {
    DivRem(c.n, c.threads);
    if k <= c.threads {
      BlockEnds(c, k);
      BlockEnds(c, k - 1);
      assert c.Block() * k == c.Block() * (k - 1) + c.Block();
    }
  }

  lemma ShareFits(c: Config, t: nat)
    requires c.Valid() && Fits(c) && t <= c.threads
    ensures InRange(Lo(c, t)) && InRange(Hi(c, t))
  {
    DivRem(c.n, c.threads);
    BlockEnds(c, t);
    if t > 0 {
      BlockEnds(c, t - 1);
    }
  }

  lemma BlockEnds(c: Config, k: int)
    requires c.Valid() && Fits(c) && 0 <= k <= c.threads
    ensures InRange(c.Block() * k) && InRange(c.Block() * k + 2)
  {
    var q := c.Block();
    DivRem(c.n, c.threads);
    if q >= 0 {
      ProductNonNegative(q, k);
      Ordered(q, k, c.threads);
    } else {
      Ordered(k, q, 0);
      Ordered(-q, k, c.threads);
      assert -q * k == -(q * k) && -q * c.threads == -(q * c.threads);
    }
  }

  lemma {:induction false} RunsKeepInv(c: Config, schedule: seq<nat>)
    requires c.Valid() && Fits(c) && Legal(c, schedule)
    ensures Inv(c, After(c, schedule))
    decreases |schedule|
  {
    if schedule == [] {
      StartInv(c);
    } else {
      var s, t := After(c, Front(schedule)), Last(schedule);
      RunsKeepInv(c, Front(schedule));
      FitsMakesExact(c, s, t);
      StepKeepsInv(c, s, t);
    }
  }

  lemma ReturnedListIsRight(c: Config, s: State)
    requires Inv(c, s) && Returned(s)
    ensures ExactlyThePrimes(s.list, Highest(c))
  {
    forall v
      ensures multiset(s.list)[v] == if PrimeNumber(v) && v <= Highest(c) then 1 else 0
    {
      if v >= 2 {
        SharesCover(c, v);
        TrialDivisionIsPrimality(v);
      }
    }
  }

  /** Whatever the interleaving of THREADS workers with the tail loop, the list that
      calculatePrime returns holds every prime up to max(n, THREADS * (n / THREADS) + 1) exactly
      once and nothing else. */
  lemma EveryInterleavingFindsThePrimes(c: Config, schedule: seq<nat>)
    requires c.Valid() && Fits(c) && Legal(c, schedule) && Returned(After(c, schedule))
    ensures ExactlyThePrimes(After(c, schedule).list, Highest(c))
  {
    RunsKeepInv(c, schedule);
    ReturnedListIsRight(c, After(c, schedule));
  }

  // ---------------------------------------------------------------- the order of the list

  ghost predicate Increasing(list: seq<int>) {
    forall a, b :: 0 <= a < b < |list| ==> list[a] < list[b]
  }

  /** Numbers that one thread has tried stand in increasing order. */
  ghost predicate SharesInOrder(c: Config, list: seq<int>)
    requires c.Valid()
  {
    forall a, b, t |
      && 0 <= a < b < |list| && 0 <= t <= c.threads
      && Lo(c, t) <= list[a] < Hi(c, t) && Lo(c, t) <= list[b] < Hi(c, t) :: list[a] < list[b]
  }

  /** What thread t has listed lies below its frontier. */
  lemma ListedBelowFrontier(c: Config, s: State, t: nat, a: nat)
    requires Inv(c, s) && t <= c.threads && a < |s.list| && Lo(c, t) <= s.list[a] < Hi(c, t)
    ensures s.list[a] < Frontier(c, t, s.pcs[t])
  {
    ShareHasOneOwner(c, t, s.list[a]);
    assert s.list[a] in multiset(s.list);
    assert Found(c, s, s.list[a]);
  }

  lemma StepKeepsOrder(c: Config, s: State, t: nat)
    requires Inv(c, s) && Enabled(c, s, t) && SharesInOrder(c, s.list)
    ensures SharesInOrder(c, Step(c, s, t).list)
  {
    if s.pcs[t].Store? {
      var i, list := s.pcs[t].at, Step(c, s, t).list;
      assert list == s.list + [i];
      forall a, b, u: nat |
        && 0 <= a < b < |list| && u <= c.threads
        && Lo(c, u) <= list[a] < Hi(c, u) && Lo(c, u) <= list[b] < Hi(c, u)
        ensures list[a] < list[b]
      {
        if b == |s.list| {
          assert InShare(c, t, s.pcs[t]);
          ShareHasOneOwner(c, t, i);
          ShareHasOneOwner(c, u, i);
          ListedBelowFrontier(c, s, t, a);
        }
      }
    }
  }

  lemma {:induction false} RunsKeepOrder(c: Config, schedule: seq<nat>)
    requires c.Valid() && Fits(c) && Legal(c, schedule)
    ensures Inv(c, After(c, schedule)) && SharesInOrder(c, After(c, schedule).list)
    decreases |schedule|
  {
    RunsKeepInv(c, schedule);
    if schedule != [] {
      RunsKeepOrder(c, Front(schedule));
      StepKeepsOrder(c, After(c, Front(schedule)), Last(schedule));
    }
  }

  lemma ListedByOwner(c: Config, s: State, a: nat)
    requires Inv(c, s) && a < |s.list|
    ensures var v := s.list[a]; v >= 2 && Lo(c, Owner(c, v)) <= v < Hi(c, Owner(c, v))
  {
    var v := s.list[a];
    assert v in multiset(s.list);
    assert Found(c, s, v);
    SharesCover(c, v);
    assert InShare(c, Owner(c, v), s.pcs[Owner(c, v)]);
  }

  /** The only worker tries every number. */
  lemma OneWorkerOwnsAll(c: Config, s: State, a: nat)
    requires Inv(c, s) && c.threads == 1 && a < |s.list|
    ensures Lo(c, 1) <= s.list[a] < Hi(c, 1)
  {
    DivRem(c.n, 1);
    ListedByOwner(c, s, a);
  }

  lemma OneWorkerInOrder(c: Config, s: State)
    requires Inv(c, s) && SharesInOrder(c, s.list) && c.threads == 1
    ensures Increasing(s.list)
  {
    forall a, b | 0 <= a < b < |s.list|
      ensures s.list[a] < s.list[b]
    {
      OneWorkerOwnsAll(c, s, a);
      OneWorkerOwnsAll(c, s, b);
    }
  }

  /** At every point of every run the primes that one thread has found stand in increasing order; with one
      worker, all of them do. */
  lemma EveryInterleavingKeepsOrder(c: Config, schedule: seq<nat>)
    requires c.Valid() && Fits(c) && Legal(c, schedule)
    ensures SharesInOrder(c, After(c, schedule).list)
    ensures c.threads == 1 ==> Increasing(After(c, schedule).list)
  {
    RunsKeepOrder(c, schedule);
    if c.threads == 1 {
      OneWorkerInOrder(c, After(c, schedule));
    }
  }

  // ---------------------------------------------------------------- the highest number

  /** What is tried ends with n, or with n + 1 if THREADS divides n. */
  lemma HighestIs(c: Config)
    requires c.Valid()
    ensures c.n >= 0 ==> Highest(c) == if c.n % c.threads == 0 then c.n + 1 else c.n
    ensures c.n < 0 ==> Highest(c) <= 1
  {
    DivRem(c.n, c.threads);
  }

  /** The promise "all primes up to n" fails in one case only: THREADS divides n and n + 1 is prime. */
  lemma PrimesUpToNExactlyWhen(c: Config, list: seq<int>)
    requires c.Valid() && ExactlyThePrimes(list, Highest(c))
    ensures ExactlyThePrimes(list, c.n) <==> !(Rem(c.n, c.threads) == 0 && PrimeNumber(c.n + 1))
  {
    DivRem(c.n, c.threads);
    if Rem(c.n, c.threads) == 0 && PrimeNumber(c.n + 1) {
      assert multiset(list)[c.n + 1] == 1;
    } else {
      forall v
        ensures multiset(list)[v] == if PrimeNumber(v) && v <= c.n then 1 else 0
      {
        if c.n < 0 {
          assert Highest(c) <= 1;
        }
      }
    }
  }

  /** For example n = 4 on two processors: whatever the interleaving, 5 is in the list. */
  lemma FourOnTwoProcessors(schedule: seq<nat>)
    requires var c := Config(4, 2); Legal(c, schedule) && Returned(After(c, schedule))
    ensures var list := After(Config(4, 2), schedule).list; 5 in list && !ExactlyThePrimes(list, 4)
  {
    var c := Config(4, 2);
    assert Div(4, 2) == 2 && Rem(4, 2) == 0;
    assert Div(5, 2) == 2 && Rem(5, 2) == 1;
    EveryInterleavingFindsThePrimes(c, schedule);
    TrialDivisionIsPrimality(5);
    assert multiset(After(c, schedule).list)[5] == 1;
  }
}
