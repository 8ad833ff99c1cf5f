/** For a given set of registration requests, what holds of the registry however they race. */
module RegistryRequests {
  import opened RegistryState
  import opened RegistryRaces
  import opened RegistryLocks
  import opened RegistryListing
  import opened RegistryRaceRuns

  type Requests = map<nat, Info>

  /** Every registration of the run is one of the requests, under its number. */
  ghost predicate Drawn(requests: Requests, events: seq<Event>) {
    forall k :: 0 <= k < |events| ==> IsDrawn(requests, events[k])
  }

  predicate IsDrawn(requests: Requests, e: Event) {
    e.Arrive? ==> e.id in requests && e.i == requests[e.id]
  }

  /** A registration in flight is for the service of its request. */
  ghost predicate Served(requests: Requests, s: State) {
    forall id :: id in s.threads ==> id in requests && (!s.threads[id].Answered? ==> s.threads[id].i == requests[id])
  }

  lemma StepKeepsServed(fold: char -> char, requests: Requests, s: State, e: Event)
    requires Served(requests, s) && IsDrawn(requests, e)
    ensures Served(requests, Step(fold, s, e))
  {
    if e.Move? && e.id in s.threads {
      AccessMoves(s, e.id);
    }
  }

  /** An entry after an access was there before, or has just been added. */
  lemma EntryAfterAccess(s: State, id: nat, list: nat, n: nat)
    requires id in s.threads && list < |Access(s, id, s.threads[id]).lists|
    requires n < |Access(s, id, s.threads[id]).lists[list].entries|
    ensures var entry, pc := Access(s, id, s.threads[id]).lists[list].entries[n], s.threads[id];
            if list < |s.lists| && n < |s.lists[list].entries| then entry == s.lists[list].entries[n]
            else pc.Adding? && pc.list < |s.lists| && entry == pc.i
  {}

  /** An entry after a workload update is as before, or of type "calculation". */
  lemma EntryAfterReload(fold: char -> char, s: State, e: Event, list: nat, n: nat)
    requires e.Reload? && list < |Step(fold, s, e).lists| && n < |Step(fold, s, e).lists[list].entries|
    ensures list < |s.lists| && n < |s.lists[list].entries|
    ensures var entry, was := Step(fold, s, e).lists[list].entries[n], s.lists[list].entries[n];
            SameButWorkload(entry, was) && (entry == was || IsCalculation(fold, entry.type_))
  {}

  // ---------------------------------------------------------------- unequal requests

  /** No two requests are of equal services, but for those of type "calculation". */
  ghost predicate RequestsDiffer(fold: char -> char, requests: Requests) {
    forall id, id' | id in requests && id' in requests && id != id' ::
      !IsCalculation(fold, requests[id].type_) ==> requests[id] != requests[id']
  }

  predicate HasAdded(s: State, id: nat) {
    id in s.threads && (s.threads[id].Putting? || s.threads[id] == Answered(true))
  }

  /** An entry that is the service of a request was added by that request, unless of type "calculation". */
  ghost predicate Owned(fold: char -> char, requests: Requests, s: State) {
    forall list, n, id |
      && 0 <= list < |s.lists| && 0 <= n < |s.lists[list].entries| && id in requests
      && s.lists[list].entries[n] == requests[id] && !IsCalculation(fold, requests[id].type_) ::
      HasAdded(s, id)
  }

  ghost predicate NoListRepeats(fold: char -> char, s: State) {
    forall list :: 0 <= list < |s.lists| ==> NoRepeats(fold, s.lists[list].entries)
  }

  ghost predicate OwnedOnce(fold: char -> char, requests: Requests, s: State) {
    Form(s) && Served(requests, s) && Owned(fold, requests, s) && NoListRepeats(fold, s)
  }

  lemma AddedStays(s: State, id: nat, id': nat)
    requires id in s.threads && HasAdded(s, id')
    ensures HasAdded(Access(s, id, s.threads[id]), id')
  {
    AccessMoves(s, id);
  }

  lemma AccessKeepsOwned(fold: char -> char, requests: Requests, s: State, id: nat)
    requires RequestsDiffer(fold, requests) && Form(s) && Served(requests, s) && Owned(fold, requests, s)
    requires id in s.threads
    ensures Owned(fold, requests, Access(s, id, s.threads[id]))
  {
    var s' := Access(s, id, s.threads[id]);
    forall list, n, id' |
      && 0 <= list < |s'.lists| && 0 <= n < |s'.lists[list].entries| && id' in requests
      && s'.lists[list].entries[n] == requests[id'] && !IsCalculation(fold, requests[id'].type_)
      ensures HasAdded(s', id')
    {
      EntryAfterAccess(s, id, list, n);
      if list < |s.lists| && n < |s.lists[list].entries| {
        AddedStays(s, id, id');
      } else {
        assert requests[id] == requests[id'];
      }
    }
  }

  lemma AccessKeepsOnce(fold: char -> char, requests: Requests, s: State, id: nat)
    requires RequestsDiffer(fold, requests) && OwnedOnce(fold, requests, s) && id in s.threads
    ensures NoListRepeats(fold, Access(s, id, s.threads[id]))
  {
    if s.threads[id].Adding? {
      var list, i := s.threads[id].list, requests[id];
      forall n | 0 <= n < |s.lists[list].entries| && !IsCalculation(fold, i.type_)
        ensures s.lists[list].entries[n] != i
      {
        assert !HasAdded(s, id);
      }
    }
  }

  lemma ReloadKeepsOwned(fold: char -> char, requests: Requests, s: State, e: Event)
    requires e.Reload? && Owned(fold, requests, s)
    ensures Owned(fold, requests, Step(fold, s, e))
  {
    var s' := Step(fold, s, e);
    forall list, n, id |
      && 0 <= list < |s'.lists| && 0 <= n < |s'.lists[list].entries| && id in requests
      && s'.lists[list].entries[n] == requests[id] && !IsCalculation(fold, requests[id].type_)
      ensures HasAdded(s', id)
    {
      EntryAfterReload(fold, s, e, list, n);
    }
  }

  lemma ReloadKeepsOnce(fold: char -> char, s: State, e: Event)
    requires e.Reload? && NoListRepeats(fold, s)
    ensures NoListRepeats(fold, Step(fold, s, e))
  {
    var s' := Step(fold, s, e);
    forall list, m, n | 0 <= list < |s'.lists| && 0 <= m < n < |s'.lists[list].entries|
      ensures !IsCalculation(fold, s'.lists[list].entries[m].type_) ==>
                s'.lists[list].entries[m] != s'.lists[list].entries[n]
    {
      EntryAfterReload(fold, s, e, list, m);
      EntryAfterReload(fold, s, e, list, n);
    }
  }

  lemma ArriveKeepsOwned(fold: char -> char, requests: Requests, s: State, id: nat, i: Info)
    requires Owned(fold, requests, s) && id !in s.threads
    ensures Owned(fold, requests, At(s, id, Checking(i)))
  {
    forall id' | HasAdded(s, id')
      ensures HasAdded(At(s, id, Checking(i)), id')
    {}
  }

  lemma RemoveKeepsOwned(fold: char -> char, requests: Requests, s: State, url: string)
    requires Owned(fold, requests, s)
    ensures Owned(fold, requests, Step(fold, s, Remove(url)))
  {
    forall id | HasAdded(s, id)
      ensures HasAdded(Step(fold, s, Remove(url)), id)
    {}
  }

  lemma StepKeepsOwned(fold: char -> char, requests: Requests, s: State, e: Event)
    requires RequestsDiffer(fold, requests) && Form(s) && Served(requests, s) && Owned(fold, requests, s)
    ensures Owned(fold, requests, Step(fold, s, e))
  {
    match e
    case Arrive(id, i) => if id !in s.threads { ArriveKeepsOwned(fold, requests, s, id, i); }
    case Move(id) => if id in s.threads { AccessKeepsOwned(fold, requests, s, id); }
    case Reload(_, _, _) => ReloadKeepsOwned(fold, requests, s, e);
    case Remove(url) => RemoveKeepsOwned(fold, requests, s, url);
  }

  lemma StepKeepsOnce(fold: char -> char, requests: Requests, s: State, e: Event)
    requires RequestsDiffer(fold, requests) && OwnedOnce(fold, requests, s)
    ensures NoListRepeats(fold, Step(fold, s, e))
  {
    match e
    case Move(id) => if id in s.threads { AccessKeepsOnce(fold, requests, s, id); }
    case Reload(_, _, _) => ReloadKeepsOnce(fold, s, e);
    case _ =>
  }

  lemma StepKeepsOwnedOnce(fold: char -> char, requests: Requests, s: State, e: Event)
    requires RequestsDiffer(fold, requests) && OwnedOnce(fold, requests, s) && IsDrawn(requests, e)
    ensures OwnedOnce(fold, requests, Step(fold, s, e))
  {
    StepKeepsForm(fold, s, e);
    StepKeepsServed(fold, requests, s, e);
    StepKeepsOwned(fold, requests, s, e);
    StepKeepsOnce(fold, requests, s, e);
  }

  lemma {:induction false} DifferentRequestsAreOwnedOnce(fold: char -> char, requests: Requests, events: seq<Event>)
    requires RequestsDiffer(fold, requests) && Drawn(requests, events)
    ensures OwnedOnce(fold, requests, After(fold, events))
  {
    if events != [] {
      var front := events[..|events| - 1];
      assert IsDrawn(requests, events[|events| - 1]);
      assert Drawn(requests, front);
      DifferentRequestsAreOwnedOnce(fold, requests, front);
      StepKeepsOwnedOnce(fold, requests, After(fold, front), events[|events| - 1]);
    }
  }

  lemma OwnedOnceIsUnique(fold: char -> char, requests: Requests, s: State)
    requires OwnedOnce(fold, requests, s)
    ensures Unique(ViewOf(s), NonCalculations(fold))
  {}

  lemma ArrivalsAreDrawn(requests: Requests, events: seq<Event>, a: nat, b: nat)
    requires a in requests && b in requests
    requires Arrivals(events) == {Arrive(a, requests[a]), Arrive(b, requests[b])}
    ensures Drawn(requests, events)
  {
    forall k | 0 <= k < |events|
      ensures IsDrawn(requests, events[k])
    {
      if events[k].Arrive? {
        assert events[k] in Arrivals(events);
      }
    }
  }

  /** However the requests race, with whatever removals and workload updates. */
  ghost predicate AlwaysUnique(fold: char -> char, requests: Requests) {
    forall events :: Drawn(requests, events) ==> Unique(ViewOf(After(fold, events)), NonCalculations(fold))
  }

  lemma EqualRequestsRepeat(fold: char -> char, requests: Requests, a: nat, b: nat)
    requires a in requests && b in requests && a != b && requests[a] == requests[b]
    requires !IsCalculation(fold, requests[a].type_)
    ensures !AlwaysUnique(fold, requests)
  {
    var i := requests[a];
    var events := OverlappingRegistrationsRepeat(fold, a, b, i);
    ArrivalsAreDrawn(requests, events, a, b);
    var v := ViewOf(After(fold, events));
    assert v[KeyOf(i)][0] == v[KeyOf(i)][1];
  }

  /** In every interleaving of the requests, with any removals and workload updates, the entries that are
      not of type "calculation" are pairwise unequal, if and only if no two of the requests are of equal
      services that are not. */
  lemma UniqueExactlyWhenRequestsDiffer(fold: char -> char, requests: Requests)
    ensures AlwaysUnique(fold, requests) <==> RequestsDiffer(fold, requests)
  {
    if RequestsDiffer(fold, requests) {
      forall events | Drawn(requests, events)
        ensures Unique(ViewOf(After(fold, events)), NonCalculations(fold))
      {
        DifferentRequestsAreOwnedOnce(fold, requests, events);
        OwnedOnceIsUnique(fold, requests, After(fold, events));
      }
    }
    if AlwaysUnique(fold, requests) {
      forall id, id' | id in requests && id' in requests && id != id'
        ensures !IsCalculation(fold, requests[id].type_) ==> requests[id] != requests[id']
      {
        if !IsCalculation(fold, requests[id].type_) && requests[id] == requests[id'] {
          EqualRequestsRepeat(fold, requests, id, id');
        }
      }
    }
  }

  // ---------------------------------------------------------------- one service a URL

  /** Requests for one URL are of the same service, but for the workload. */
  ghost predicate OneServicePerUrl(requests: Requests) {
    forall id, id' | id in requests && id' in requests && KeyOf(requests[id]) == KeyOf(requests[id']) ::
      SameButWorkload(requests[id], requests[id'])
  }

  /** Every entry is the service of each request for its URL, but for the workload. */
  ghost predicate AllTwins(requests: Requests, s: State) {
    forall list, n, id |
      && 0 <= list < |s.lists| && 0 <= n < |s.lists[list].entries| && id in requests
      && KeyOf(s.lists[list].entries[n]) == KeyOf(requests[id]) ::
      SameButWorkload(s.lists[list].entries[n], requests[id])
  }

  lemma AccessKeepsTwins(requests: Requests, s: State, id: nat)
    requires OneServicePerUrl(requests) && Served(requests, s) && AllTwins(requests, s) && id in s.threads
    ensures AllTwins(requests, Access(s, id, s.threads[id]))
  {
    var s' := Access(s, id, s.threads[id]);
    forall list, n, id' |
      && 0 <= list < |s'.lists| && 0 <= n < |s'.lists[list].entries| && id' in requests
      && KeyOf(s'.lists[list].entries[n]) == KeyOf(requests[id'])
      ensures SameButWorkload(s'.lists[list].entries[n], requests[id'])
    {
      EntryAfterAccess(s, id, list, n);
    }
  }

  lemma ReloadKeepsTwins(fold: char -> char, requests: Requests, s: State, e: Event)
    requires e.Reload? && AllTwins(requests, s)
    ensures AllTwins(requests, Step(fold, s, e))
  {
    var s' := Step(fold, s, e);
    forall list, n, id |
      && 0 <= list < |s'.lists| && 0 <= n < |s'.lists[list].entries| && id in requests
      && KeyOf(s'.lists[list].entries[n]) == KeyOf(requests[id])
      ensures SameButWorkload(s'.lists[list].entries[n], requests[id])
    {
      EntryAfterReload(fold, s, e, list, n);
    }
  }

  lemma StepKeepsTwins(fold: char -> char, requests: Requests, s: State, e: Event)
    requires OneServicePerUrl(requests) && Served(requests, s) && AllTwins(requests, s)
    ensures AllTwins(requests, Step(fold, s, e))
  {
    match e
    case Move(id) => if id in s.threads { AccessKeepsTwins(requests, s, id); }
    case Reload(_, _, _) => ReloadKeepsTwins(fold, requests, s, e);
    case _ =>
  }

  lemma {:induction false} OneServiceIsAllTwins(fold: char -> char, requests: Requests, events: seq<Event>)
    requires OneServicePerUrl(requests) && Drawn(requests, events)
    ensures var s := After(fold, events); Form(s) && Served(requests, s) && AllTwins(requests, s)
  {
    if events != [] {
      var front := events[..|events| - 1];
      assert IsDrawn(requests, events[|events| - 1]);
      assert Drawn(requests, front);
      OneServiceIsAllTwins(fold, requests, front);
      StepKeepsForm(fold, After(fold, front), events[|events| - 1]);
      StepKeepsServed(fold, requests, After(fold, front), events[|events| - 1]);
      StepKeepsTwins(fold, requests, After(fold, front), events[|events| - 1]);
    }
  }

  /** However the requests race, with whatever removals and workload updates. */
  ghost predicate AlwaysKeepsAccepted(fold: char -> char, requests: Requests) {
    forall events :: Drawn(requests, events) ==> KeepsAccepted(fold, events)
  }

  lemma TwinsPutTwins(requests: Requests, s: State, id: nat)
    requires OneServicePerUrl(requests) && Form(s) && Served(requests, s) && AllTwins(requests, s)
    requires id in s.threads && s.threads[id].Putting?
    ensures OthersPut(s, id)
  {
    var i := s.threads[id].i;
    forall id' | id' in s.threads && InRegisterMs(s.threads[id']) && KeyOf(s.threads[id'].i) == KeyOf(i)
      ensures HoldsTwin(ToPut(s, s.threads[id']), i)
    {
      var pc := s.threads[id'];
      if pc.Adding? {
        TwinInGrown(Entries(s, pc.list), pc.i, i);
      } else {
        assert SameButWorkload(Entries(s, pc.list)[0], i);
      }
    }
  }

  lemma DifferentServicesGetLost(fold: char -> char, requests: Requests, a: nat, b: nat)
    requires a in requests && b in requests && KeyOf(requests[a]) == KeyOf(requests[b])
    requires !SameButWorkload(requests[a], requests[b])
    ensures !AlwaysKeepsAccepted(fold, requests)
  {
    var i, i' := requests[a], requests[b];
    var before, events := RegistrationCanBeLost(fold, a, i, b, i');
    ArrivalsAreDrawn(requests, events, a, b);
    assert events[..|before|] == before;
    assert events[|before| + 1..] == Turns(a, 2);
    assert AcceptedAt(fold, events, |before|, b, i');
    assert ViewOf(After(fold, events))[KeyOf(i')] == [i];
  }

  /** In every interleaving of the requests, with any removals and workload updates, every accepted service
      is listed until its URL is removed, if and only if no two of the requests are of different services
      for one URL. */
  lemma AcceptedExactlyWhenOneServicePerUrl(fold: char -> char, requests: Requests)
    ensures AlwaysKeepsAccepted(fold, requests) <==> OneServicePerUrl(requests)
  {
    if OneServicePerUrl(requests) {
      forall events, k, id, i | Drawn(requests, events) && AcceptedAt(fold, events, k, id, i)
        ensures Listed(ViewOf(After(fold, events)), i)
      {
        assert Drawn(requests, events[..k]);
        OneServiceIsAllTwins(fold, requests, events[..k]);
        TwinsPutTwins(requests, After(fold, events[..k]), id);
        AcceptedStays(fold, events, k, id, i);
      }
    }
    if AlwaysKeepsAccepted(fold, requests) {
      forall id, id' | id in requests && id' in requests && KeyOf(requests[id]) == KeyOf(requests[id'])
        ensures SameButWorkload(requests[id], requests[id'])
      {
        if !SameButWorkload(requests[id], requests[id']) {
          DifferentServicesGetLost(fold, requests, id, id');
        }
      }
    }
  }
}
