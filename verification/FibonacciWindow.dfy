/** calculateFibonacci: three indices at a time by F(k) = 4 F(k - 3) + F(k - 6), on three threads,
    in a map that is cut back to its seven latest entries. */
module FibonacciWindow {
  import opened Wrappers
  import opened JavaInt

  function Fib(n: nat): nat {
    if n < 2 then n else Fib(n - 1) + Fib(n - 2)
  }

  /** The recurrence that lets three indices advance independently. */
  lemma RecurrenceByThree(k: nat)
    requires k >= 6
    ensures Fib(k) == 4 * Fib(k - 3) + Fib(k - 6)
  {
    assert Fib(k) == Fib(k - 1) + Fib(k - 2);
    assert Fib(k - 1) == Fib(k - 2) + Fib(k - 3);
    assert Fib(k - 2) == Fib(k - 3) + Fib(k - 4);
    assert Fib(k - 3) == Fib(k - 4) + Fib(k - 5);
    assert Fib(k - 4) == Fib(k - 5) + Fib(k - 6);
  }

  // ---------------------------------------------------------------- tasks

  /** A HashMap<Integer, BigInteger>; a key can be bound to null. */
  type Entries = map<int, Option<int>>

  /** Map.get: null for an absent key. */
  function Get(m: Entries, k: int): Option<int> {
    if k in m then m[k] else None
  }

  /** A Fibonacci object: the index and the two operands it was given. */
  datatype Task = Task(index: int, parN3: Option<int>, parN6: Option<int>)

  /** run: one put, or a NullPointerException that ends the thread without one. */
  function Put(m: Entries, task: Task): Entries {
    if task.parN3.Some? && task.parN6.Some? then m[task.index := Some(4 * task.parN3.value + task.parN6.value)]
    else m
  }

  lemma TasksDistinct(m: Entries, i: int)
    requires InRange(i)
    ensures DistinctIndices(Tasks(m, i))
  {}

  function PutAll(m: Entries, order: seq<Task>): Entries {
    if order == [] then m else Put(PutAll(m, order[..|order| - 1]), order[|order| - 1])
  }

  ghost predicate DistinctIndices(order: seq<Task>) {
    forall a, b :: 0 <= a < b < |order| ==> order[a].index != order[b].index
  }

  predicate SameAt(m: Entries, m': Entries, k: int) {
    (k in m <==> k in m') && (k in m ==> m[k] == m'[k])
  }

  /** After distinct puts, each key holds what its own task put there. */
  lemma {:induction false} PutAllAt(m: Entries, order: seq<Task>, k: int)
    requires DistinctIndices(order)
    ensures (forall a :: 0 <= a < |order| ==> order[a].index != k) ==> SameAt(PutAll(m, order), m, k)
    ensures forall a :: 0 <= a < |order| && order[a].index == k ==> SameAt(PutAll(m, order), Put(m, order[a]), k)
  {
    if order != [] {
      var front := order[..|order| - 1];
      PutAllAt(m, front, k);
      assert forall a :: 0 <= a < |front| ==> front[a] == order[a];
    }
  }

  /** The operands were read before any thread started, so every order of the puts gives the same map. */
  lemma OrderDoesNotMatter(m: Entries, order: seq<Task>, order': seq<Task>)
    requires DistinctIndices(order) && DistinctIndices(order') && multiset(order) == multiset(order')
    ensures PutAll(m, order) == PutAll(m, order')
  {
    forall k
      ensures k in PutAll(m, order) <==> k in PutAll(m, order')
      ensures k in PutAll(m, order) ==> PutAll(m, order)[k] == PutAll(m, order')[k]
    {
      PutAllAt(m, order, k);
      PutAllAt(m, order', k);
      if a :| 0 <= a < |order| && order[a].index == k {
        assert order[a] in multiset(order');
        var b :| 0 <= b < |order'| && order'[b] == order[a];
      } else {
        forall b | 0 <= b < |order'|
          ensures order'[b].index != k
        {
          assert order'[b] in multiset(order);
        }
      }
    }
  }

  lemma AtMostOnce(order: seq<Task>, x: Task)
    requires DistinctIndices(order)
    ensures multiset(order)[x] <= 1
  {
    if p :| 0 <= p < |order| && order[p] == x {
      assert order == order[..p] + [x] + order[p + 1..];
      assert x !in order[..p] && x !in order[p + 1..];
    }
  }

  lemma AtLeastTwice(order: seq<Task>, a: nat, b: nat)
    requires a < b < |order| && order[a] == order[b]
    ensures multiset(order)[order[a]] >= 2
  {
    var x := order[a];
    assert order == order[..a] + [x] + order[a + 1..b] + [x] + order[b + 1..];
  }

  lemma PermutationDistinct(order: seq<Task>, order': seq<Task>)
    requires DistinctIndices(order) && multiset(order) == multiset(order')
    ensures DistinctIndices(order')
  {
    forall a, b | 0 <= a < b < |order'|
      ensures order'[a].index != order'[b].index
    {
      assert order'[a] in multiset(order) && order'[b] in multiset(order);
      AtMostOnce(order, order'[a]);
      if order'[a] == order'[b] {
        AtLeastTwice(order', a, b);
      }
    }
  }

  // ---------------------------------------------------------------- one trip round the loop

  /** fillFirstElements. */
  function Filled(m: Entries): Entries {
    m[0 := Some(0)][1 := Some(1)][2 := Some(1)][3 := Some(2)][4 := Some(3)][5 := Some(5)][6 := Some(8)]
  }

  /** h1, h2 and h3 for loop index i, with the operands that the map holds now. */
  function Tasks(m: Entries, i: int): seq<Task> {
    [Task(i, Get(m, Wrap(i - 3)), Get(m, Wrap(i - 6))),
     Task(Wrap(i + 1), Get(m, Wrap(i - 2)), Get(m, Wrap(i - 5))),
     Task(Wrap(i + 2), Get(m, Wrap(i - 1)), Get(m, Wrap(i - 4)))]
  }

  /** The entries at i, i - 1, ..., one for each of `count` indices. */
  function Latest(m: Entries, i: int, count: nat): Entries {
    if count == 0 then map[]
    else Latest(m, i, count - 1)[Wrap(i - (count - 1)) := Get(m, Wrap(i - (count - 1)))]
  }

  /** The map cut back to seven entries. */
  function Pruned(m: Entries, i: int): Entries {
    Latest(m, i, 7)
  }

  datatype Loop = Loop(i: int, fib: Entries)

  const ENTRY := Loop(7, Filled(map[]))

  /** The map after the three puts of loop index i. */
  function Calculated(m: Entries, i: int): Entries {
    var h := Tasks(m, i);
    Put(Put(Put(m, h[0]), h[1]), h[2])
  }

  /** The rest of the body, `i += 2` and the pruning, and the `i += 1` of the loop. */
  function Finished(m: Entries, i: int): Loop {
    Loop(Wrap(Wrap(i + 2) + 1), if |m| > 14 then Pruned(m, Wrap(i + 2)) else m)
  }

  function Body(l: Loop): Loop {
    Finished(Calculated(l.fib, l.i), l.i)
  }

  /** The state before trip number k + 1 of a loop that starts in l. */
  function Trips(l: Loop, k: nat): Loop {
    if k == 0 then l else Body(Trips(l, k - 1))
  }

  /** The window holds the right values of consecutive indices, the latest being i - 1. */
  ghost predicate Window(m: Entries, lo: int, hi: int) {
    0 <= lo && (forall k :: k in m <==> lo <= k < hi) && (forall k :: k in m ==> m[k] == Some(Fib(k)))
  }

  ghost predicate LoopInv(l: Loop, lo: int) {
    && l.i % 3 == 1
    && 7 <= l.i <= MAX_INT
    && lo <= l.i - 7
    && l.i - lo <= 13 && (l.i - lo) % 3 == 1
    && Window(l.fib, lo, l.i)
  }

  lemma {:induction false} IntervalSize(keys: set<int>, lo: int, hi: int)
    requires lo <= hi && forall k :: k in keys <==> lo <= k < hi
    ensures |keys| == hi - lo
    decreases hi - lo
  {
    if lo == hi {
      assert forall k :: k !in keys;
      assert keys == {};
    } else {
      IntervalSize(keys - {hi - 1}, lo, hi - 1);
    }
  }

  lemma WindowSize(m: Entries, lo: int, hi: int)
    requires Window(m, lo, hi) && lo <= hi
    ensures |m| == hi - lo
  {
    IntervalSize(m.Keys, lo, hi);
    assert |m| == |m.Keys|;
  }

  /** A put with the right operands extends the window by one right value. */
  lemma PutExtendsWindow(m: Entries, lo: int, hi: int, task: Task)
    requires Window(m, lo, hi) && 6 <= hi && lo <= hi
    requires task == Task(hi, Some(Fib(hi - 3)), Some(Fib(hi - 6)))
    ensures Window(Put(m, task), lo, hi + 1)
  {
    RecurrenceByThree(hi);
  }

  lemma PutThree(m: Entries, order: seq<Task>)
    requires |order| == 3
    ensures PutAll(m, order) == Put(Put(Put(m, order[0]), order[1]), order[2])
  {
    assert order[..2][..1] == order[..1] && order[..1][..0] == [];
    assert PutAll(m, order[..1]) == Put(m, order[0]);
    assert PutAll(m, order[..2]) == Put(Put(m, order[0]), order[1]);
  }

  /** No operand is missing, and the three puts extend the window by three right values. */
  lemma PutsExtendWindow(m: Entries, lo: int, i: int)
    requires Window(m, lo, i) && lo <= i - 7 && i + 2 <= MAX_INT
    ensures forall t :: t in Tasks(m, i) ==> t.parN3.Some? && t.parN6.Some?
    ensures Window(Calculated(m, i), lo, i + 3)
  {
    var ts := Tasks(m, i);
    PutExtendsWindow(m, lo, i, ts[0]);
    PutExtendsWindow(Put(m, ts[0]), lo, i + 1, ts[1]);
    PutExtendsWindow(Put(Put(m, ts[0]), ts[1]), lo, i + 2, ts[2]);
  }

  lemma FinishKeepsWindow(m: Entries, lo: int, i: int) returns (lo': int)
    requires Window(m, lo, i + 3) && lo <= i - 7 && i - lo <= 13 && (i - lo) % 3 == 1
    requires i % 3 == 1 && i + 3 <= MAX_INT
    ensures LoopInv(Finished(m, i), lo') && Finished(m, i).i == i + 3
  {
    WindowSize(m, lo, i + 3);
    if |m| > 14 {
      lo' := i - 4;
      PruneKeepsSeven(m, lo, i + 2);
    } else {
      lo' := lo;
    }
  }

  /** One trip keeps the window; the map holds at most 16 entries on the way. */
  lemma BodyKeepsWindow(l: Loop, lo: int) returns (lo': int)
    requires LoopInv(l, lo) && l.i + 3 <= MAX_INT
    ensures LoopInv(Body(l), lo') && Body(l).i == l.i + 3
    ensures |Calculated(l.fib, l.i)| <= 16
  {
    PutsExtendWindow(l.fib, lo, l.i);
    WindowSize(Calculated(l.fib, l.i), lo, l.i + 3);
    lo' := FinishKeepsWindow(Calculated(l.fib, l.i), lo, l.i);
  }

  lemma {:induction false} LatestEntries(m: Entries, i: int, count: nat)
    requires count <= i + 1 && i <= MAX_INT
    ensures forall k :: k in Latest(m, i, count) <==> i - count < k <= i
    ensures forall k :: k in Latest(m, i, count) ==> Latest(m, i, count)[k] == Get(m, k)
  {
    if count > 0 {
      LatestEntries(m, i, count - 1);
    }
  }

  lemma PruneKeepsSeven(m: Entries, lo: int, i: int)
    requires Window(m, lo, i + 1) && lo <= i - 6 && i <= MAX_INT
    ensures Window(Pruned(m, i), i - 6, i + 1)
  {
    LatestEntries(m, i, 7);
  }

  // ---------------------------------------------------------------- the method

  /** fibMap, shared by the three threads. */
  class FibMap {
    var entries: Entries

    constructor ()
      ensures entries == map[]
    {
      entries := map[];
    }

    method FillFirstElements()
      modifies this
      ensures entries == Filled(old(entries))
    {
      entries := entries[0 := Some(0)];
      entries := entries[1 := Some(1)];
      entries := entries[2 := Some(1)];
      entries := entries[3 := Some(2)];
      entries := entries[4 := Some(3)];
      entries := entries[5 := Some(5)];
      entries := entries[6 := Some(8)];
    }

    /** Three threads run their tasks; each put is taken as atomic, the order is up to the scheduler. */
    method RunAll(tasks: seq<Task>)
      requires |tasks| == 3 && DistinctIndices(tasks)
      modifies this
      ensures entries == Put(Put(Put(old(entries), tasks[0]), tasks[1]), tasks[2])
    {
      PutThree(entries, tasks);
      var order :| multiset(order) == multiset(tasks);
      PermutationDistinct(tasks, order);
      OrderDoesNotMatter(entries, order, tasks);
      ghost var before := entries;
      var k := 0;
      while k < |order|
        invariant 0 <= k <= |order|
        invariant entries == PutAll(before, order[..k])
      {
        assert order[..k + 1][..k] == order[..k];
        entries := Put(entries, order[k]);
        k := k + 1;
      }
      assert order[..k] == order;
    }

    method Prune(i: int)
      modifies this
      ensures entries == Pruned(old(entries), i)
    {
      var temp: Entries := map[];
      var j := 0;
      while j < 7
        invariant 0 <= j <= 7
        invariant temp == Latest(entries, i, j)
      {
        temp := temp[Wrap(i - j) := Get(entries, Wrap(i - j))];
        j := j + 1;
      }
      entries := temp;
    }

    /** The body of the for loop, with its two assignments to i. */
    method Advance(i: int) returns (i': int)
      requires InRange(i)
      modifies this
      ensures Loop(i', entries) == Body(Loop(i, old(entries)))
    {
      TasksDistinct(entries, i);
      var tasks := Tasks(entries, i);
      RunAll(tasks);
      i' := Wrap(i + 2);
      if |entries| > 14 {
        Prune(i');
      }
      i' := Wrap(i' + 1);
    }
  }

  /** calculateFibonacci. For n == Integer.MAX_VALUE its loop never ends (LoopEndsExactlyWhen). */
  method CalculateFibonacci(n: int) returns (result: Option<int>)
    requires InRange(n) && n < MAX_INT
    ensures n >= 0 ==> result == Some(Fib(n))
    ensures n < 0 ==> result == None
    ensures n == 0 ==> result == Some(0)
    ensures n == 1 ==> result == Some(1)
  {
    var fibMap := new FibMap();
    fibMap.FillFirstElements();
    SeedsAreRight();
    if n < 7 {
      return Get(fibMap.entries, n);
    }
    var i := 7;
    ghost var lo := 0;
    while i <= n
      invariant LoopInv(Loop(i, fibMap.entries), lo)
      invariant i <= n + 3 && lo <= n
      decreases n - i
    {
      PutsExtendWindow(fibMap.entries, lo, i);
      lo := BodyKeepsWindow(Loop(i, fibMap.entries), lo);
      i := fibMap.Advance(i);
    }
    result := Get(fibMap.entries, n);
  }

  lemma SeedsAreRight()
    ensures Window(Filled(map[]), 0, 7)
    ensures Filled(map[])
            == map[0 := Some(0), 1 := Some(1), 2 := Some(1), 3 := Some(2), 4 := Some(3), 5 := Some(5), 6 := Some(8)]
  {
    assert Fib(2) == 1 && Fib(3) == 2 && Fib(4) == 3;
    assert Fib(5) == 5 && Fib(6) == 8;
  }

  // ---------------------------------------------------------------- runs of the loop

  /** The map is a window of right values that ends at i - 1. */
  ghost predicate InWindow(l: Loop) {
    exists lo :: LoopInv(l, lo)
  }

  lemma BodyStaysInWindow(l: Loop)
    requires InWindow(l) && l.i + 3 <= MAX_INT
    ensures InWindow(Body(l)) && Body(l).i == l.i + 3
  {
    var lo :| LoopInv(l, lo);
    var lo' := BodyKeepsWindow(l, lo);
  }

  /** Before every trip the map is such a window, and i has grown by three each time. */
  lemma {:induction false} TripsKeepWindow(l: Loop, k: nat)
    requires InWindow(l) && l.i + 3 * k <= MAX_INT
    ensures InWindow(Trips(l, k)) && Trips(l, k).i == l.i + 3 * k
  {
    if k > 0 {
      TripsKeepWindow(l, k - 1);
      BodyStaysInWindow(Trips(l, k - 1));
    }
  }

  /** If there are more than 14 entries after the puts, the latest seven are left. */
  lemma FinishMovesWindow(m: Entries, lo: int, i: int)
    requires Window(m, lo, i + 3) && i - 13 <= lo <= i - 7 && (i - lo) % 3 == 1 && i + 3 <= MAX_INT
    ensures Window(Finished(m, i).fib, if i - lo == 13 then lo + 9 else lo, i + 3)
    ensures Finished(m, i).i == i + 3
  {
    WindowSize(m, lo, i + 3);
    if i - lo == 13 {
      PruneKeepsSeven(m, lo, i + 2);
    }
  }

  /** A trip that finds fewer than 13 entries adds three; one that finds 13 leaves the latest seven. */
  lemma TripMovesWindow(l: Loop, lo: int)
    requires Window(l.fib, lo, l.i) && l.i - 13 <= lo <= l.i - 7 && (l.i - lo) % 3 == 1 && l.i + 3 <= MAX_INT
    ensures Window(Body(l).fib, if l.i - lo == 13 then lo + 9 else lo, l.i + 3) && Body(l).i == l.i + 3
  {
    PutsExtendWindow(l.fib, lo, l.i);
    FinishMovesWindow(Calculated(l.fib, l.i), lo, l.i);
  }

  /** The map is a window of so many right values that ends at i - 1. */
  ghost predicate Sized(l: Loop, size: nat) {
    exists lo :: Window(l.fib, lo, l.i) && lo == l.i - size
  }

  function NextSize(size: nat): nat {
    if size == 13 then 7 else size + 3
  }

  lemma BodyStaysSized(l: Loop, size: nat)
    requires Sized(l, size) && size in {7, 10, 13} && l.i + 3 <= MAX_INT
    ensures Sized(Body(l), NextSize(size)) && Body(l).i == l.i + 3
  {
    TripMovesWindow(l, l.i - size);
  }

  function SizeBefore(k: nat): (size: nat)
    ensures size in {7, 10, 13}
  {
    if k == 0 then 7 else NextSize(SizeBefore(k - 1))
  }

  lemma {:induction false} SizeBeforeIs(k: nat)
    ensures SizeBefore(k) == 7 + 3 * (k % 3)
  {
    if k > 0 {
      SizeBeforeIs(k - 1);
    }
  }

  lemma {:induction false} TripsStaySized(l: Loop, k: nat)
    requires Sized(l, 7) && l.i + 3 * k <= MAX_INT
    ensures Sized(Trips(l, k), SizeBefore(k)) && Trips(l, k).i == l.i + 3 * k
  {
    if k > 0 {
      TripsStaySized(l, k - 1);
      BodyStaysSized(Trips(l, k - 1), SizeBefore(k - 1));
    }
  }

  /** How many entries the map has before each trip: 7, 10, 13, and, cut back from 16, 7 again. */
  lemma MapSizes(k: nat)
    requires 7 + 3 * k <= MAX_INT
    ensures |Trips(ENTRY, k).fib| == 7 + 3 * (k % 3)
  {
    SeedsAreRight();
    TripsStaySized(ENTRY, k);
    SizeBeforeIs(k);
    var l, size := Trips(ENTRY, k), SizeBefore(k);
    WindowSize(l.fib, l.i - size, l.i);
  }

  lemma EntryIsInWindow()
    ensures InWindow(ENTRY)
  {
    SeedsAreRight();
    assert LoopInv(ENTRY, 0);
  }

  /** The loop for n is left after finitely many trips. */
  ghost predicate LoopEnds(n: int) {
    exists k: nat :: Trips(ENTRY, k).i > n
  }

  lemma IndexStaysInt(k: nat)
    ensures InRange(Trips(ENTRY, k).i)
  {}

  /** The loop terminates for every n below Integer.MAX_VALUE, and not for Integer.MAX_VALUE. */
  lemma LoopEndsExactlyWhen(n: int)
    requires InRange(n)
    ensures LoopEnds(n) <==> n < MAX_INT
  {
    if n < MAX_INT {
      var k: nat := if n < 7 then 0 else (n - 7) / 3 + 1;
      EntryIsInWindow();
      TripsKeepWindow(ENTRY, k);
      assert Trips(ENTRY, k).i > n;
    } else {
      forall k: nat
        ensures Trips(ENTRY, k).i <= n
      {
        IndexStaysInt(k);
      }
    }
  }
}
