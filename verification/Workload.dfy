/** The per-endpoint workload counters of the calculation service, under any interleaving of calls. */
module Workload {
  import opened JavaInt

  datatype Kind = Add | Multiply | Fibonacci | Prime

  datatype Call = Call(kind: Kind, n: int)

  /** Map.of(...): an immutable map with one AtomicInteger for each kind. */
  datatype Counters = Counters(add: int, multiply: int, fibonacci: int, prime: int) {

    function Get(kind: Kind): int {
      match kind
      case Add => add
      case Multiply => multiply
      case Fibonacci => fibonacci
      case Prime => prime
    }

    function Set(kind: Kind, value: int): (c: Counters)
      ensures forall k :: c.Get(k) == if k == kind then value else Get(k)
    {
      match kind
      case Add => this.(add := value)
      case Multiply => this.(multiply := value)
      case Fibonacci => this.(fibonacci := value)
      case Prime => this.(prime := value)
    }
  }

  const ZERO := Counters(0, 0, 0, 0)

  /** The early `return fibMap.get(n)` of calculateFibonacci comes before the decrement. */
  predicate ReturnsEarly(call: Call) {
    call.kind == Fibonacci && call.n < 7
  }

  function Entered(c: Counters, call: Call): Counters
  {
    c.Set(call.kind, Wrap(c.Get(call.kind) + 1))
  }

  function Left(c: Counters, call: Call): Counters
  {
    if ReturnsEarly(call) then c else c.Set(call.kind, Wrap(c.Get(call.kind) - 1))
  }

  /** endpointWorkload: one AtomicInteger per kind. */
  class EndpointWorkload {
    var counters: Counters

    constructor FillWorkloadMap()
      ensures counters == ZERO
    {
      counters := ZERO;
    }

    method IncrementAndGet(kind: Kind) returns (value: int)
      modifies this
      ensures counters == old(counters).Set(kind, value) && value == Wrap(old(counters).Get(kind) + 1)
    {
      value := Wrap(counters.Get(kind) + 1);
      counters := counters.Set(kind, value);
    }

    method DecrementAndGet(kind: Kind) returns (value: int)
      modifies this
      ensures counters == old(counters).Set(kind, value) && value == Wrap(old(counters).Get(kind) - 1)
    {
      value := Wrap(counters.Get(kind) - 1);
      counters := counters.Set(kind, value);
    }

    /** The first statement of every calculation. */
    method Enter(call: Call)
      modifies this
      ensures counters == Entered(old(counters), call)
      ensures counters.Get(call.kind) == Wrap(old(counters).Get(call.kind) + 1)
      ensures forall kind :: kind != call.kind ==> counters.Get(kind) == old(counters).Get(kind)
    {
      var _ := IncrementAndGet(call.kind);
    }

    /** What a calculation does to its counter on the way out. */
    method Leave(call: Call)
      modifies this
      ensures counters == Left(old(counters), call)
      ensures counters.Get(call.kind)
              == if call.kind == Fibonacci && call.n < 7 then old(counters).Get(call.kind)
                 else Wrap(old(counters).Get(call.kind) - 1)
      ensures forall kind :: kind != call.kind ==> counters.Get(kind) == old(counters).Get(kind)
    {
      if call.kind == Fibonacci && call.n < 7 {
        return;
      }
      var _ := DecrementAndGet(call.kind);
    }
  }

  // ---------------------------------------------------------------- interleavings

  /** A call arrives under a new number, or the call with that number returns. */
  datatype Event = Arrive(id: nat, call: Call) | Return(id: nat)

  datatype State = State(counters: Counters, inFlight: map<nat, Call>, completed: seq<Call>)

  const INITIAL := State(ZERO, map[], [])

  function Step(s: State, e: Event): State
  {
    match e
    case Arrive(id, call) =>
      if id in s.inFlight then s
      else State(Entered(s.counters, call), s.inFlight[id := call], s.completed)
    case Return(id) =>
      if id !in s.inFlight then s
      else State(Left(s.counters, s.inFlight[id]), s.inFlight - {id}, s.completed + [s.inFlight[id]])
  }

  function After(events: seq<Event>): State
  {
    if events == [] then INITIAL else Step(After(events[..|events| - 1]), events[|events| - 1])
  }

  function Running(inFlight: map<nat, Call>, kind: Kind): set<nat> {
    set id | id in inFlight && inFlight[id].kind == kind
  }

  /** How many completed calls of this kind returned early. */
  function Early(completed: seq<Call>, kind: Kind): nat {
    if completed == [] then 0
    else
      var last := completed[|completed| - 1];
      Early(completed[..|completed| - 1], kind) + if last.kind == kind && ReturnsEarly(last) then 1 else 0
  }

  /** What a counter stands for. */
  function Load(s: State, kind: Kind): nat {
    |Running(s.inFlight, kind)| + Early(s.completed, kind)
  }

  ghost predicate Accurate(s: State) {
    forall kind :: s.counters.Get(kind) == Wrap(Load(s, kind))
  }

  lemma ArrivalRuns(inFlight: map<nat, Call>, id: nat, call: Call, kind: Kind)
    requires id !in inFlight
    ensures |Running(inFlight[id := call], kind)| == |Running(inFlight, kind)| + if call.kind == kind then 1 else 0
  {
    var before, after := Running(inFlight, kind), Running(inFlight[id := call], kind);
    assert after == if call.kind == kind then before + {id} else before;
  }

  lemma ReturnStops(inFlight: map<nat, Call>, id: nat, kind: Kind)
    requires id in inFlight
    ensures |Running(inFlight - {id}, kind)| == |Running(inFlight, kind)| - if inFlight[id].kind == kind then 1 else 0
  {
    var before, after := Running(inFlight, kind), Running(inFlight - {id}, kind);
    assert after == if inFlight[id].kind == kind then before - {id} else before;
  }

  lemma EarlyGrows(completed: seq<Call>, call: Call, kind: Kind)
    ensures Early(completed + [call], kind)
            == Early(completed, kind) + if call.kind == kind && ReturnsEarly(call) then 1 else 0
  {
    assert (completed + [call])[..|completed|] == completed;
  }

  lemma ArrivalLoads(s: State, id: nat, call: Call, kind: Kind)
    requires id !in s.inFlight
    ensures Load(Step(s, Arrive(id, call)), kind) == Load(s, kind) + if call.kind == kind then 1 else 0
  {
    ArrivalRuns(s.inFlight, id, call, kind);
  }

  lemma ReturnUnloads(s: State, id: nat, kind: Kind)
    requires id in s.inFlight
    ensures var call := s.inFlight[id];
            Load(Step(s, Return(id)), kind)
            == Load(s, kind) - if call.kind == kind && !ReturnsEarly(call) then 1 else 0
  {
    ReturnStops(s.inFlight, id, kind);
    EarlyGrows(s.completed, s.inFlight[id], kind);
  }

  lemma CounterAfterArrival(s: State, id: nat, call: Call, kind: Kind)
    requires Accurate(s) && id !in s.inFlight
    ensures var s' := Step(s, Arrive(id, call)); s'.counters.Get(kind) == Wrap(Load(s', kind))
  {
    ArrivalLoads(s, id, call, kind);
    WrapAdds(Load(s, kind), 1);
  }

  lemma CounterAfterReturn(s: State, id: nat, kind: Kind)
    requires Accurate(s) && id in s.inFlight
    ensures var s' := Step(s, Return(id)); s'.counters.Get(kind) == Wrap(Load(s', kind))
  {
    ReturnUnloads(s, id, kind);
    WrapAdds(Load(s, kind), -1);
  }

  lemma StepKeepsAccurate(s: State, e: Event)
    requires Accurate(s)
    ensures Accurate(Step(s, e))
  {
    forall kind
      ensures Step(s, e).counters.Get(kind) == Wrap(Load(Step(s, e), kind))
    {
      match e
      case Arrive(id, call) =>
        if id !in s.inFlight {
          CounterAfterArrival(s, id, call, kind);
        }
      case Return(id) =>
        if id in s.inFlight {
          CounterAfterReturn(s, id, kind);
        }
    }
  }

  lemma {:induction false} StaysAccurate(events: seq<Event>)
    ensures Accurate(After(events))
  {
    if events == [] {
      forall kind: Kind
        ensures Running(map[], kind) == {}
      {}
    } else {
      StaysAccurate(events[..|events| - 1]);
      StepKeepsAccurate(After(events[..|events| - 1]), events[|events| - 1]);
    }
  }

  /** The places of completed Fibonacci calls with n < 7. */
  function ShortFibonacci(completed: seq<Call>): set<int> {
    set k | 0 <= k < |completed| && completed[k].kind == Fibonacci && completed[k].n < 7
  }

  lemma {:induction false} EarlyIsShortFibonacci(completed: seq<Call>)
    ensures Early(completed, Fibonacci) == |ShortFibonacci(completed)|
  {
    if completed == [] {
      assert ShortFibonacci(completed) == {};
    } else {
      var last := |completed| - 1;
      EarlyIsShortFibonacci(completed[..last]);
      var before := ShortFibonacci(completed[..last]);
      assert ShortFibonacci(completed)
          == if completed[last].kind == Fibonacci && completed[last].n < 7 then before + {last} else before;
    }
  }

  /** In every interleaving each counter is the number of calls of its kind in flight plus, for
      FIBONACCI alone, the completed calls with n < 7 (modulo 2^32, as AtomicInteger counts). */
  lemma CountersAreAccurate(events: seq<Event>, kind: Kind)
    ensures var s := After(events);
            s.counters.Get(kind)
            == Wrap(|set id | id in s.inFlight && s.inFlight[id].kind == kind|
                    + if kind == Fibonacci then |ShortFibonacci(s.completed)| else 0)
  {
    var s := After(events);
    StaysAccurate(events);
    assert Running(s.inFlight, kind) == set id | id in s.inFlight && s.inFlight[id].kind == kind;
    if kind == Fibonacci {
      EarlyIsShortFibonacci(s.completed);
    } else {
      OnlyFibonacciIsEarly(s.completed, kind);
    }
  }

  lemma {:induction false} OnlyFibonacciIsEarly(completed: seq<Call>, kind: Kind)
    requires kind != Fibonacci
    ensures Early(completed, kind) == 0
  {
    if completed != [] {
      OnlyFibonacciIsEarly(completed[..|completed| - 1], kind);
    }
  }

  /** Until 2^31 calls have piled up no counter is negative, and an idle service reports zero, except for
      the completed Fibonacci calls with n < 7: each of them is counted forever. */
  lemma IdleReadsZeroExactlyWhen(events: seq<Event>, kind: Kind)
    requires var s := After(events);
             |set id | id in s.inFlight && s.inFlight[id].kind == kind|
             + (if kind == Fibonacci then |ShortFibonacci(s.completed)| else 0) <= MAX_INT
    ensures After(events).counters.Get(kind) >= 0
    ensures var s := After(events);
            s.inFlight == map[] ==>
              (s.counters.Get(kind) == 0 <==>
               kind != Fibonacci || forall k :: 0 <= k < |s.completed| && s.completed[k].kind == Fibonacci ==>
                                      s.completed[k].n >= 7)
  {
    var s := After(events);
    var running := set id | id in s.inFlight && s.inFlight[id].kind == kind;
    CountersAreAccurate(events, kind);
    NoShortFibonacci(s.completed);
    assert s.inFlight == map[] ==> running == {};
  }

  lemma NoShortFibonacci(completed: seq<Call>)
    ensures |ShortFibonacci(completed)| == 0 <==>
              forall k :: 0 <= k < |completed| && completed[k].kind == Fibonacci ==> completed[k].n >= 7
  {
    if |ShortFibonacci(completed)| == 0 {
      forall k | 0 <= k < |completed| && completed[k].kind == Fibonacci
        ensures completed[k].n >= 7
      {
        assert k !in ShortFibonacci(completed);
      }
    } else {
      var k :| k in ShortFibonacci(completed);
    }
  }

  /** A call is in flight from its arrival to its return, and completed from then on. */
  lemma CallsComeAndGo(events: seq<Event>, id: nat, call: Call)
    ensures After([]).inFlight == map[] && After([]).completed == []
    ensures id !in After(events).inFlight ==>
              var s, s' := After(events), After(events + [Arrive(id, call)]);
              s'.inFlight == s.inFlight[id := call] && s'.completed == s.completed
    ensures id in After(events).inFlight ==>
              var s, s' := After(events), After(events + [Return(id)]);
              s'.inFlight == s.inFlight - {id} && s'.completed == s.completed + [s.inFlight[id]]
  {
    assert (events + [Arrive(id, call)])[..|events|] == events;
    assert (events + [Return(id)])[..|events|] == events;
  }
}
