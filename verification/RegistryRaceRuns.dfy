/** Runs of racing registrations that list a service twice, or lose one. */
module RegistryRaceRuns {
  import opened RegistryState
  import opened RegistryRaces
  import opened RegistryLocks

  // ---------------------------------------------------------------- putting a run together

  function Arrivals(events: seq<Event>): set<Event> {
    set e | e in events && e.Arrive?
  }

  lemma Then(fold: char -> char, events: seq<Event>, e: Event) returns (events': seq<Event>)
    ensures events' == events + [e] && After(fold, events') == Step(fold, After(fold, events), e)
    ensures Arrivals(events') == Arrivals(events) + if e.Arrive? then {e} else {}
    ensures EqualsApart(fold, events) && NoEqualInFlight(After(fold, events), e) ==> EqualsApart(fold, events')
    ensures AddsApart(fold, events) && AddsUndisturbed(After(fold, events), e) ==> AddsApart(fold, events')
  {
    events' := events + [e];
    assert forall k :: 0 <= k <= |events| ==> events'[..k] == events[..k];
  }

  predicate AloneInRegisterMs(s: State, id: nat) {
    forall id' :: id' in s.threads && id' != id ==> !InRegisterMs(s.threads[id'])
  }

  lemma MoveDisturbsNone(fold: char -> char, s: State, id: nat)
    requires AloneInRegisterMs(s, id)
    ensures AddsUndisturbed(s, Move(id)) && AloneInRegisterMs(Step(fold, s, Move(id)), id)
  {
    if id in s.threads {
      AccessMoves(s, id);
    }
  }

  lemma TurnsKeepEqualsApart(fold: char -> char, events: seq<Event>, id: nat, k: nat)
    requires EqualsApart(fold, events)
    ensures EqualsApart(fold, events + Turns(id, k))
  {
    var events' := events + Turns(id, k);
    forall j | 0 <= j < |events'|
      ensures NoEqualInFlight(After(fold, events'[..j]), events'[j])
    {
      if j < |events| {
        assert events'[..j] == events[..j];
      } else {
        assert events'[j] in Turns(id, k);
      }
    }
  }

  lemma {:induction false} TurnsKeepAddsApart(fold: char -> char, events: seq<Event>, id: nat, k: nat)
    requires AddsApart(fold, events) && AloneInRegisterMs(After(fold, events), id)
    ensures AddsApart(fold, events + Turns(id, k)) && AloneInRegisterMs(After(fold, events + Turns(id, k)), id)
  {
    if k == 0 {
      assert events + Turns(id, 0) == events;
    } else {
      var more := events + Turns(id, k - 1);
      TurnsKeepAddsApart(fold, events, id, k - 1);
      MoveDisturbsNone(fold, After(fold, more), id);
      var events' := Then(fold, more, Move(id));
      assert events + Turns(id, k) == events';
    }
  }

  /** events', going on from events where all but registration id are as in s, is as orderly as events. */
  ghost predicate GoesOn(fold: char -> char, events: seq<Event>, s: State, id: nat, events': seq<Event>) {
    && Arrivals(events') == Arrivals(events)
    && (EqualsApart(fold, events) ==> EqualsApart(fold, events'))
    && (AddsApart(fold, events) && AloneInRegisterMs(s, id) ==> AddsApart(fold, events'))
  }

  /** Registration id goes on alone, k accesses from pc, to s'. */
  lemma ThenMoves(fold: char -> char, events: seq<Event>, s: State, id: nat, pc: Pc, k: nat, s': State)
      returns (events': seq<Event>)
    requires After(fold, events) == At(s, id, pc) && Moves(fold, At(s, id, pc), id, k) == s'
    ensures events' == events + Turns(id, k)
    ensures After(fold, events') == s' && GoesOn(fold, events, s, id, events')
  {
    events' := events + Turns(id, k);
    RunsAdd(fold, INITIAL, events, Turns(id, k));
    if EqualsApart(fold, events) {
      TurnsKeepEqualsApart(fold, events, id, k);
    }
    if AddsApart(fold, events) && AloneInRegisterMs(s, id) {
      TurnsKeepAddsApart(fold, events, id, k);
    }
  }

  lemma ThenArrive(fold: char -> char, events: seq<Event>, s: State, id: nat, i: Info) returns (events': seq<Event>)
    requires After(fold, events) == s && id !in s.threads
    ensures After(fold, events') == At(s, id, Checking(i)) && Arrivals(events') == Arrivals(events) + {Arrive(id, i)}
    ensures EqualsApart(fold, events) && NoEqualInFlight(s, Arrive(id, i)) ==> EqualsApart(fold, events')
    ensures AddsApart(fold, events) ==> AddsApart(fold, events')
  {
    events' := Then(fold, events, Arrive(id, i));
  }

  /** Registration id finds no list under its URL. */
  lemma ThenChecks(fold: char -> char, events: seq<Event>, s: State, id: nat, i: Info) returns (events': seq<Event>)
    requires After(fold, events) == At(s, id, Checking(i)) && KeyOf(i) !in s.keys
    ensures After(fold, events') == At(s, id, Fetching(i)) && GoesOn(fold, events, s, id, events')
  {
    Checks(fold, s, id, i);
    events' := ThenMoves(fold, events, s, id, Checking(i), 1, At(s, id, Fetching(i)));
  }

  /** Registration id goes through registerMs. */
  lemma ThenPuts(fold: char -> char, events: seq<Event>, s: State, id: nat, i: Info) returns (events': seq<Event>)
    requires After(fold, events) == At(s, id, Fetching(i))
    requires KeyOf(i) in s.keys ==> s.keys[KeyOf(i)] < |s.lists|
    ensures After(fold, events') == At(Put(s, i), id, Answered(true)) && GoesOn(fold, events, s, id, events')
  {
    Puts(fold, s, id, i);
    events' := ThenMoves(fold, events, s, id, Fetching(i), 3, At(Put(s, i), id, Answered(true)));
  }

  /** Two registrations: which of them is written last does not matter. */
  lemma Swap(s: State, a: nat, pc: Pc, b: nat, pc': Pc)
    requires a != b
    ensures At(At(s, a, pc), b, pc') == At(At(s, b, pc'), a, pc)
  {}

  lemma ViewOfOneList(s: State, key: string, list: nat, entries: seq<Info>)
    requires s.keys == map[key := list] && Entries(s, list) == entries
    ensures ViewOf(s) == map[key := entries]
  {}

  // ---------------------------------------------------------------- two registrations

  lemma TwoArrive(fold: char -> char, a: nat, i: Info, b: nat, i': Info) returns (events: seq<Event>)
    requires a != b
    ensures After(fold, events) == At(At(INITIAL, a, Checking(i)), b, Checking(i'))
    ensures Arrivals(events) == {Arrive(a, i), Arrive(b, i')}
    ensures AddsApart(fold, events) && (i != i' ==> EqualsApart(fold, events))
  {
    events := ThenArrive(fold, [], INITIAL, a, i);
    events := ThenArrive(fold, events, At(INITIAL, a, Checking(i)), b, i');
  }

  /** Two registrations for one URL have arrived, and have found no list there. */
  lemma TwoFindNothing(fold: char -> char, a: nat, i: Info, b: nat, i': Info) returns (events: seq<Event>)
    requires a != b && KeyOf(i) == KeyOf(i')
    ensures After(fold, events) == At(At(INITIAL, b, Fetching(i')), a, Fetching(i))
    ensures Arrivals(events) == {Arrive(a, i), Arrive(b, i')}
    ensures AddsApart(fold, events) && (i != i' ==> EqualsApart(fold, events))
  {
    events := TwoArrive(fold, a, i, b, i');
    events := ThenChecks(fold, events, At(INITIAL, a, Checking(i)), b, i');
    Swap(INITIAL, a, Checking(i), b, Fetching(i'));
    events := ThenChecks(fold, events, At(INITIAL, b, Fetching(i')), a, i);
  }

  lemma PutTwice(i: Info)
    ensures var s := Put(Put(INITIAL, i), i);
            s.keys == map[KeyOf(i) := 0] && s.lists == [Bucket(KeyOf(i), [i, i])]
  {
    var s := Put(INITIAL, i);
    assert s.lists == [Bucket(KeyOf(i), [i])];
    assert s.lists[0].entries + [i] == [i, i];
  }

  /** Two overlapping registrations of one service, whatever their numbers, can both be accepted and leave
      two equal entries - even if registerMs runs undisturbed. */
  lemma OverlappingRegistrationsRepeat(fold: char -> char, a: nat, b: nat, i: Info) returns (events: seq<Event>)
    requires a != b
    ensures AddsApart(fold, events) && Arrivals(events) == {Arrive(a, i), Arrive(b, i)}
    ensures var s := After(fold, events);
            && ViewOf(s) == map[KeyOf(i) := [i, i]]
            && s.threads == map[a := Answered(true), b := Answered(true)]
  {
    events := TwoFindNothing(fold, a, i, b, i);
    events := ThenPuts(fold, events, At(INITIAL, b, Fetching(i)), a, i);
    Swap(Put(INITIAL, i), b, Fetching(i), a, Answered(true));
    var s := At(Put(INITIAL, i), a, Answered(true));
    events := ThenPuts(fold, events, s, b, i);
    PutTwice(i);
    ViewOfOneList(At(Put(s, i), b, Answered(true)), KeyOf(i), 0, [i, i]);
  }

  /** Two registrations that have found no list hold one each; that of i' has been filled. */
  function TwoLists(i: Info, i': Info): State {
    State(map[], [Bucket(KeyOf(i), []), Bucket(KeyOf(i'), [i'])], map[])
  }

  lemma SecondFills(fold: char -> char, i: Info, i': Info, threads: map<nat, Pc>, b: nat)
    requires KeyOf(i) == KeyOf(i')
    ensures Moves(fold, At(Made(INITIAL, i).(threads := threads), b, Fetching(i')), b, 2)
            == At(TwoLists(i, i').(threads := threads), b, Putting(i', 1))
  {
    var s := Made(INITIAL, i).(threads := threads);
    var s', filled := At(Made(s, i'), b, Adding(i', 1)), TwoLists(i, i').(threads := threads);
    MoveTo(fold, At(s, b, Fetching(i')), b, Fetching(i'), s', 1);
    assert Made(s, i').lists[1].entries + [i'] == [i'];
    LastMoveTo(fold, s', b, Adding(i', 1), At(filled, b, Putting(i', 1)));
  }

  lemma EachHoldsAList(fold: char -> char, a: nat, i: Info, b: nat, i': Info) returns (events: seq<Event>)
    requires a != b && KeyOf(i) == KeyOf(i') && i != i'
    ensures After(fold, events) == At(At(TwoLists(i, i'), a, Adding(i, 0)), b, Putting(i', 1))
    ensures Arrivals(events) == {Arrive(a, i), Arrive(b, i')} && EqualsApart(fold, events)
  {
    events := TwoFindNothing(fold, a, i, b, i');
    var s := At(INITIAL, b, Fetching(i'));
    Fetches(fold, s, a, i);
    events := ThenMoves(fold, events, s, a, Fetching(i), 1, At(Made(s, i), a, Adding(i, 0)));
    var s' := At(Made(INITIAL, i), a, Adding(i, 0));
    Swap(Made(INITIAL, i), a, Adding(i, 0), b, Fetching(i'));
    SecondFills(fold, i, i', s'.threads, b);
    events := ThenMoves(fold, events, s', b, Fetching(i'), 2,
      At(At(TwoLists(i, i'), a, Adding(i, 0)), b, Putting(i', 1)));
  }

  /** Both lists are filled, and the first is under the URL. */
  function FirstListed(i: Info, i': Info): State {
    State(map[KeyOf(i) := 0], [Bucket(KeyOf(i), [i]), Bucket(KeyOf(i'), [i'])], map[])
  }

  lemma FirstReplaces(fold: char -> char, i: Info, i': Info, threads: map<nat, Pc>, a: nat)
    ensures var s := TwoLists(i, i').(keys := map[KeyOf(i) := 1], threads := threads);
            Moves(fold, At(s, a, Adding(i, 0)), a, 2)
            == At(FirstListed(i, i').(threads := threads), a, Answered(true))
  {
    var s := TwoLists(i, i').(keys := map[KeyOf(i) := 1], threads := threads);
    Stores(fold, s, a, i, 0);
    assert s.lists[0].entries + [i] == [i];
    assert Stored(s, i, 0) == FirstListed(i, i').(threads := threads);
  }

  lemma SecondPuts(fold: char -> char, i: Info, i': Info, threads: map<nat, Pc>, b: nat)
    requires KeyOf(i) == KeyOf(i')
    ensures var s := TwoLists(i, i').(threads := threads);
            Moves(fold, At(s, b, Putting(i', 1)), b, 1)
            == At(s.(keys := map[KeyOf(i) := 1]), b, Answered(true))
  {
    var s := TwoLists(i, i').(threads := threads);
    LastMoveTo(fold, At(s, b, Putting(i', 1)), b, Putting(i', 1),
      At(s.(keys := map[KeyOf(i) := 1]), b, Answered(true)));
  }

  lemma SecondIsAccepted(fold: char -> char, before: seq<Event>, a: nat, i: Info, b: nat, i': Info)
      returns (events: seq<Event>)
    requires a != b && KeyOf(i) == KeyOf(i')
    requires After(fold, before) == At(At(TwoLists(i, i'), a, Adding(i, 0)), b, Putting(i', 1))
    ensures events == before + Turns(b, 1) && Arrivals(events) == Arrivals(before)
    ensures EqualsApart(fold, before) ==> EqualsApart(fold, events)
    ensures var s := TwoLists(i, i').(keys := map[KeyOf(i) := 1]);
            After(fold, events) == At(At(s, b, Answered(true)), a, Adding(i, 0))
  {
    var s := TwoLists(i, i').(keys := map[KeyOf(i) := 1]);
    var threads := At(TwoLists(i, i'), a, Adding(i, 0)).threads;
    SecondPuts(fold, i, i', threads, b);
    events := ThenMoves(fold, before, At(TwoLists(i, i'), a, Adding(i, 0)), b, Putting(i', 1), 1,
      At(At(s, a, Adding(i, 0)), b, Answered(true)));
    Swap(s, a, Adding(i, 0), b, Answered(true));
  }

  lemma FirstIsAccepted(fold: char -> char, before: seq<Event>, a: nat, i: Info, b: nat, i': Info)
      returns (events: seq<Event>)
    requires var s := TwoLists(i, i').(keys := map[KeyOf(i) := 1]);
             After(fold, before) == At(At(s, b, Answered(true)), a, Adding(i, 0))
    ensures events == before + Turns(a, 2) && Arrivals(events) == Arrivals(before)
    ensures EqualsApart(fold, before) ==> EqualsApart(fold, events)
    ensures After(fold, events) == At(At(FirstListed(i, i'), b, Answered(true)), a, Answered(true))
  {
    var s := At(TwoLists(i, i').(keys := map[KeyOf(i) := 1]), b, Answered(true));
    FirstReplaces(fold, i, i', s.threads, a);
    events := ThenMoves(fold, before, s, a, Adding(i, 0), 2,
      At(At(FirstListed(i, i'), b, Answered(true)), a, Answered(true)));
  }

  lemma FirstIsListed(i: Info, i': Info, a: nat, b: nat)
    ensures var s := At(At(FirstListed(i, i'), b, Answered(true)), a, Answered(true));
            && ViewOf(s) == map[KeyOf(i) := [i]]
            && s.threads == map[a := Answered(true), b := Answered(true)]
  {
    ViewOfOneList(FirstListed(i, i'), KeyOf(i), 0, [i]);
  }

  /** Of two registrations for one URL, both accepted, one can be lost, though of different services and
      though nothing is removed: after `before` that of i' is accepted, and then that of i replaces its list. */
  lemma RegistrationCanBeLost(fold: char -> char, a: nat, i: Info, b: nat, i': Info)
      returns (before: seq<Event>, events: seq<Event>)
    requires a != b && KeyOf(i) == KeyOf(i') && i != i'
    ensures IsAt(After(fold, before), b, Putting(i', 1)) && events == before + Turns(b, 1) + Turns(a, 2)
    ensures EqualsApart(fold, events) && Arrivals(events) == {Arrive(a, i), Arrive(b, i')}
    ensures var s := After(fold, events);
            && ViewOf(s) == map[KeyOf(i) := [i]]
            && s.threads == map[a := Answered(true), b := Answered(true)]
  {
    before := EachHoldsAList(fold, a, i, b, i');
    var accepted := SecondIsAccepted(fold, before, a, i, b, i');
    events := FirstIsAccepted(fold, accepted, a, i, b, i');
    FirstIsListed(i, i', a, b);
  }

  // ---------------------------------------------------------------- a removed list

  /** The registration of i gets a list in which it is not found. */
  lemma ThenGets(fold: char -> char, events: seq<Event>, s: State, id: nat, i: Info) returns (events': seq<Event>)
    requires After(fold, events) == At(s, id, Checking(i))
    requires KeyOf(i) in s.keys && i !in Entries(s, s.keys[KeyOf(i)])
    ensures After(fold, events') == At(s, id, Adding(i, s.keys[KeyOf(i)])) && GoesOn(fold, events, s, id, events')
  {
    Scans(fold, s, id, i);
    events' := ThenMoves(fold, events, s, id, Checking(i), 2, At(s, id, Fetching(i)));
    Fetches(fold, s, id, i);
    events' := ThenMoves(fold, events', s, id, Fetching(i), 1, At(s, id, Adding(i, s.keys[KeyOf(i)])));
  }

  lemma ThenStores(fold: char -> char, events: seq<Event>, s: State, id: nat, i: Info, list: nat)
      returns (events': seq<Event>)
    requires After(fold, events) == At(s, id, Adding(i, list)) && list < |s.lists|
    ensures After(fold, events') == At(Stored(s, i, list), id, Answered(true)) && GoesOn(fold, events, s, id, events')
  {
    Stores(fold, s, id, i, list);
    events' := ThenMoves(fold, events, s, id, Adding(i, list), 2, At(Stored(s, i, list), id, Answered(true)));
  }

  /** A service e is registered; a registration of another, i, has got the list; then the URL is removed. */
  lemma RemovedMeanwhile(fold: char -> char, e: Info, i: Info) returns (events: seq<Event>)
    requires KeyOf(e) == KeyOf(i) && e != i
    ensures EqualsApart(fold, events)
    ensures After(fold, events)
            == State(map[], [Bucket(KeyOf(e), [e])], map[1 := Answered(true), 2 := Adding(i, 0)])
  {
    events := ThenArrive(fold, [], INITIAL, 1, e);
    events := ThenChecks(fold, events, INITIAL, 1, e);
    events := ThenPuts(fold, events, INITIAL, 1, e);
    var s := At(Put(INITIAL, e), 1, Answered(true));
    events := ThenArrive(fold, events, s, 2, i);
    events := ThenGets(fold, events, s, 2, i);
    events := Then(fold, events, Remove(KeyOf(e)));
  }

  /** Another registration of e finds nothing, and then that of i puts the list back. */
  lemma ListIsPutBack(fold: char -> char, before: seq<Event>, s: State, e: Info, i: Info) returns (events: seq<Event>)
    requires After(fold, before) == At(s, 2, Adding(i, 0)) && EqualsApart(fold, before)
    requires s == State(map[], [Bucket(KeyOf(e), [e])], map[1 := Answered(true)]) && e != i
    ensures EqualsApart(fold, events)
    ensures After(fold, events) == At(At(Stored(s, i, 0), 2, Answered(true)), 3, Fetching(e))
  {
    events := ThenArrive(fold, before, At(s, 2, Adding(i, 0)), 3, e);
    events := ThenChecks(fold, events, At(s, 2, Adding(i, 0)), 3, e);
    Swap(s, 2, Adding(i, 0), 3, Fetching(e));
    events := ThenStores(fold, events, At(s, 3, Fetching(e)), 2, i, 0);
    Swap(Stored(s, i, 0), 3, Fetching(e), 2, Answered(true));
  }

  lemma PutOnceMore(s: State, e: Info, i: Info)
    requires KeyOf(e) == KeyOf(i) && s.keys == map[] && s.lists == [Bucket(KeyOf(e), [e])]
    ensures var s' := Stored(s, i, 0); s'.keys == map[KeyOf(e) := 0] && |s'.lists| == 1
    ensures var s'' := Put(Stored(s, i, 0), e); s''.keys == map[KeyOf(e) := 0] && Entries(s'', 0) == [e, i, e]
  {
    assert [e] + [i] == [e, i] && [e, i] + [e] == [e, i, e];
  }

  /** With registerMs disturbed by a removal, it does not suffice that equal services are not in flight
      together: a registration can put back a list that was removed, and with it an e that another
      registration of e did not find. */
  lemma RemovedListComesBack(fold: char -> char, e: Info, i: Info) returns (events: seq<Event>)
    requires KeyOf(e) == KeyOf(i) && e != i
    ensures EqualsApart(fold, events)
    ensures var s := After(fold, events);
            && ViewOf(s) == map[KeyOf(e) := [e, i, e]]
            && s.threads == map[1 := Answered(true), 2 := Answered(true), 3 := Answered(true)]
  {
    events := RemovedMeanwhile(fold, e, i);
    var s := State(map[], [Bucket(KeyOf(e), [e])], map[1 := Answered(true)]);
    events := ListIsPutBack(fold, events, s, e, i);
    var back := At(Stored(s, i, 0), 2, Answered(true));
    PutOnceMore(s, e, i);
    events := ThenPuts(fold, events, back, 3, e);
    ViewOfOneList(At(Put(back, e), 3, Answered(true)), KeyOf(e), 0, [e, i, e]);
  }

  /** A registration has got the list of its URL. */
  lemma ThenGetsList(fold: char -> char, events: seq<Event>, s: State, id: nat, i: Info) returns (events': seq<Event>)
    requires After(fold, events) == At(s, id, Checking(i)) && KeyOf(i) in s.keys
    ensures After(fold, events') == At(s, id, Scanning(i, s.keys[KeyOf(i)]))
    ensures EqualsApart(fold, events) ==> EqualsApart(fold, events')
  {
    var list := s.keys[KeyOf(i)];
    LastMoveTo(fold, At(s, id, Checking(i)), id, Checking(i), At(s, id, Scanning(i, list)));
    events' := ThenMoves(fold, events, s, id, Checking(i), 1, At(s, id, Scanning(i, list)));
  }

  /** It finds its service in the list, whether or not that is still under the URL. */
  lemma ThenIsRefused(fold: char -> char, events: seq<Event>, s: State, id: nat, i: Info, list: nat)
      returns (events': seq<Event>)
    requires After(fold, events) == At(s, id, Scanning(i, list)) && i in Entries(s, list)
    ensures After(fold, events') == At(s, id, Answered(false))
    ensures EqualsApart(fold, events) ==> EqualsApart(fold, events')
  {
    LastMoveTo(fold, At(s, id, Scanning(i, list)), id, Scanning(i, list), At(s, id, Answered(false)));
    events' := ThenMoves(fold, events, s, id, Scanning(i, list), 1, At(s, id, Answered(false)));
  }

  /** A service can be refused as registered already, and not be in the registry. */
  lemma RefusedThoughRemoved(fold: char -> char, i: Info) returns (events: seq<Event>)
    ensures EqualsApart(fold, events)
    ensures var s := After(fold, events);
            ViewOf(s) == map[] && s.threads == map[1 := Answered(true), 2 := Answered(false)]
  {
    events := ThenArrive(fold, [], INITIAL, 1, i);
    events := ThenChecks(fold, events, INITIAL, 1, i);
    events := ThenPuts(fold, events, INITIAL, 1, i);
    var s := At(Put(INITIAL, i), 1, Answered(true));
    events := ThenArrive(fold, events, s, 2, i);
    events := ThenGetsList(fold, events, s, 2, i);
    events := Then(fold, events, Remove(KeyOf(i)));
    events := ThenIsRefused(fold, events, s.(keys := s.keys - {KeyOf(i)}), 2, i, 0);
  }
}
