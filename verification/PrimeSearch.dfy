/** calculatePrime and the Prime workers as threads that take turns one step at a time.

    Thread 0 runs calculatePrime itself; threads 1 to THREADS run Prime.run. A step is one shared
    access or one trial of a number. The scheduler is arbitrary: a schedule is any sequence of
    thread numbers in which each thread can move when its turn comes. Every `int` the program
    computes goes through Wrap. */
module PrimeSearch {
  import opened Wrappers
  import opened JavaInt
  import opened Primality

  /** The argument n and the number of processors. */
  datatype Config = Config(n: int, threads: int) {

    predicate Valid() {
      InRange(n) && 1 <= threads < MAX_INT
    }

    function Block(): int
      requires Valid()
    {
      Div(n, threads)
    }

    /** `end` of worker t. */
    function End(t: int): int
      requires Valid()
    {
      Wrap(Wrap(Block() * t) + 2)
    }

    /** The first number that thread t tries. */
    function First(t: int): int
      requires Valid()
    {
      if t == 0 then Wrap(Wrap(n - Rem(n, threads)) + 2) else Wrap(End(t) - Block())
    }

    /** The loop guard of thread t. */
    predicate Continues(t: int, i: int)
      requires Valid()
    {
      if t == 0 then i <= n else i < End(t)
    }
  }

  /** Where a thread is. An append to the ArrayList reads the size and then stores the element and
      the new size; the `synchronized` block takes and returns the lock around both. */
  datatype Pc =
    | Idle
    | Spawn(next: int)
    | Test(at: int)
    | Acquire(at: int)
    | ReadSize(at: int)
    | Store(at: int, size: nat)
    | Release(at: int)
    | Join(next: int)
    | Done

  datatype State = State(pcs: seq<Pc>, list: seq<int>, lock: Option<nat>)

  function Start(c: Config): State
    requires c.Valid()
  {
    State([Spawn(1)] + seq(c.threads, _ => Idle), [], None)
  }

  predicate Shaped(c: Config, s: State) {
    c.Valid() && |s.pcs| == c.threads + 1
  }

  /** Thread t can take a step. */
  predicate Enabled(c: Config, s: State, t: nat)
    requires Shaped(c, s)
  {
    t < |s.pcs| &&
    match s.pcs[t]
    case Idle => false
    case Spawn(k) => 1 <= k <= c.threads + 1
    case Test(_) => true
    case Acquire(_) => s.lock == None
    case ReadSize(_) => true
    case Store(_, size) => size <= |s.list|
    case Release(_) => true
    case Join(k) => 1 <= k <= c.threads + 1 && (k <= c.threads ==> s.pcs[k] == Done)
    case Done => false
  }

  function Step(c: Config, s: State, t: nat): (s': State)
    requires Shaped(c, s) && Enabled(c, s, t)
    ensures Shaped(c, s')
  {
    match s.pcs[t]
    case Spawn(k) =>
      if k <= c.threads
      then s.(pcs := s.pcs[k := Test(c.First(k))][t := Spawn(k + 1)])
      else s.(pcs := s.pcs[t := Test(c.First(t))])
    case Test(i) =>
      if !c.Continues(t, i) then s.(pcs := s.pcs[t := if t == 0 then Join(1) else Done])
      else if Passes(i) then s.(pcs := s.pcs[t := Acquire(i)])
      else s.(pcs := s.pcs[t := Test(Wrap(i + 1))])
    case Acquire(i) => s.(pcs := s.pcs[t := ReadSize(i)], lock := Some(t))
    case ReadSize(i) => s.(pcs := s.pcs[t := Store(i, |s.list|)])
    case Store(i, size) => s.(pcs := s.pcs[t := Release(i)], list := s.list[..size] + [i])
    case Release(i) => s.(pcs := s.pcs[t := Test(Wrap(i + 1))], lock := None)
    case Join(k) => s.(pcs := s.pcs[t := if k <= c.threads then Join(k + 1) else Done])
  }

  /** Every thread named by the schedule can move when its turn comes. */
  ghost predicate Legal(c: Config, schedule: seq<nat>)
    requires c.Valid()
    decreases |schedule|, 0
  {
    schedule == [] ||
    (Legal(c, Front(schedule)) && Enabled(c, After(c, Front(schedule)), Last(schedule)))
  }

  /** The state that a schedule leads to. */
  ghost function After(c: Config, schedule: seq<nat>): (s: State)
    requires c.Valid() && Legal(c, schedule)
    ensures Shaped(c, s)
    decreases |schedule|, 1
  {
    if schedule == [] then Start(c)
    else Step(c, After(c, Front(schedule)), Last(schedule))
  }

  function Front(s: seq<nat>): seq<nat>
    requires s != []
  {
    s[..|s| - 1]
  }

  function Last(s: seq<nat>): nat
    requires s != []
  {
    s[|s| - 1]
  }

  /** calculatePrime has returned. */
  predicate Returned(s: State) {
    |s.pcs| > 0 && s.pcs[0] == Done
  }

  ghost predicate Stuck(c: Config, s: State)
    requires Shaped(c, s)
  {
    forall t: nat :: !Enabled(c, s, t)
  }

  /** The largest number that any thread tries. */
  function Highest(c: Config): int
    requires c.Valid()
  {
    Max(c.n, c.Block() * c.threads + 1)
  }

  /** The list holds every prime up to `bound` exactly once and nothing else. */
  ghost predicate ExactlyThePrimes(list: seq<int>, bound: int) {
    forall v :: multiset(list)[v] == if PrimeNumber(v) && v <= bound then 1 else 0
  }

  /** No index of the search leaves the int range; a caller can check it from n and THREADS. */
  predicate Fits(c: Config)
    requires c.Valid()
  {
    c.n <= MAX_INT - 2 || (c.n == MAX_INT - 1 && Rem(c.n, c.threads) != 0)
  }

  /** The `int` results that thread t computes in its next step are the mathematical ones.
      A worker's `end` is computed when it starts and used in each of its guards. */
  predicate Exact(c: Config, s: State, t: nat)
    requires Shaped(c, s) && Enabled(c, s, t)
  {
    (t > 0 ==> EndExact(c, t)) &&
    match s.pcs[t]
    case Spawn(k) =>
      if k <= c.threads
      then EndExact(c, k) && InRange(c.Block() * k + 2 - c.Block())
      else InRange(c.n - Rem(c.n, c.threads)) && InRange(c.n - Rem(c.n, c.threads) + 2)
    case Test(i) => c.Continues(t, i) && !Passes(i) ==> InRange(i + 1)
    case Release(i) => InRange(i + 1)
    case _ => true
  }

  predicate EndExact(c: Config, t: int)
    requires c.Valid()
  {
    InRange(c.Block() * t) && InRange(c.Block() * t + 2)
  }
}
