/** When a service whose registration was accepted stays in the registry, though others race with it. */
module RegistryListing {
  import opened RegistryState
  import opened RegistryRaces
  import opened RegistryLocks

  /** The entries hold i, whatever workload it shows by now. */
  predicate HoldsTwin(entries: seq<Info>, i: Info) {
    exists n :: 0 <= n < |entries| && SameButWorkload(entries[n], i)
  }

  predicate Listed(v: View, i: Info) {
    KeyOf(i) in v && HoldsTwin(v[KeyOf(i)], i)
  }

  /** What the list that a registration holds in registerMs will hold when it is put under the URL. */
  function ToPut(s: State, pc: Pc): seq<Info>
    requires InRegisterMs(pc)
  {
    if pc.Adding? then Entries(s, pc.list) + [pc.i] else Entries(s, pc.list)
  }

  /** Every registration for the URL of i that is in registerMs will put a list that holds i. */
  ghost predicate AllPut(s: State, i: Info) {
    forall id :: id in s.threads && InRegisterMs(s.threads[id]) && KeyOf(s.threads[id].i) == KeyOf(i) ==>
      HoldsTwin(ToPut(s, s.threads[id]), i)
  }

  // ---------------------------------------------------------------- what keeps a service listed

  /** Lists only grow, and a workload update leaves a twin. */
  lemma StepKeepsTwin(fold: char -> char, s: State, e: Event, list: nat, i: Info)
    requires HoldsTwin(Entries(s, list), i)
    ensures HoldsTwin(Entries(Step(fold, s, e), list), i)
  {
    var n :| 0 <= n < |Entries(s, list)| && SameButWorkload(Entries(s, list)[n], i);
    assert SameButWorkload(Entries(Step(fold, s, e), list)[n], i);
  }

  lemma TwinInGrown(entries: seq<Info>, more: Info, i: Info)
    ensures HoldsTwin(entries + [more], i) <==> HoldsTwin(entries, i) || SameButWorkload(more, i)
  {
    if HoldsTwin(entries, i) {
      var n :| 0 <= n < |entries| && SameButWorkload(entries[n], i);
      assert SameButWorkload((entries + [more])[n], i);
    }
    if SameButWorkload(more, i) {
      assert SameButWorkload((entries + [more])[|entries|], i);
    }
  }

  /** The list under the URL of i after e held i before. */
  lemma ListAfter(fold: char -> char, s: State, e: Event, i: Info) returns (list: nat)
    requires Form(s) && Listed(ViewOf(s), i) && AllPut(s, i) && e != Remove(KeyOf(i))
    ensures var s' := Step(fold, s, e); KeyOf(i) in s'.keys && s'.keys[KeyOf(i)] == list
    ensures HoldsTwin(Entries(s, list), i)
  {
    list := s.keys[KeyOf(i)];
    if e.Move? && e.id in s.threads && s.threads[e.id].Putting? && KeyOf(s.threads[e.id].i) == KeyOf(i) {
      list := s.threads[e.id].list;
    }
  }

  lemma StepKeepsListed(fold: char -> char, s: State, e: Event, i: Info)
    requires Form(s) && Listed(ViewOf(s), i) && AllPut(s, i) && e != Remove(KeyOf(i))
    ensures Listed(ViewOf(Step(fold, s, e)), i)
  {
    var list := ListAfter(fold, s, e, i);
    StepKeepsTwin(fold, s, e, list, i);
  }

  /** An event that is not a move of the registration leaves it the list that it will put. */
  lemma OthersKeepToPut(fold: char -> char, s: State, e: Event, pc: Pc, i: Info)
    requires InRegisterMs(pc) && HoldsTwin(ToPut(s, pc), i)
    ensures HoldsTwin(ToPut(Step(fold, s, e), pc), i)
  {
    var s' := Step(fold, s, e);
    if pc.Adding? {
      TwinInGrown(Entries(s, pc.list), pc.i, i);
      TwinInGrown(Entries(s', pc.list), pc.i, i);
    }
    if HoldsTwin(Entries(s, pc.list), i) {
      StepKeepsTwin(fold, s, e, pc.list, i);
    }
  }

  /** A registration that gets the list under the URL gets one that holds i. */
  lemma AccessKeepsToPut(s: State, id: nat, i: Info)
    requires Form(s) && Listed(ViewOf(s), i) && AllPut(s, i)
    requires id in s.threads && !s.threads[id].Answered? && KeyOf(s.threads[id].i) == KeyOf(i)
    ensures var s' := Access(s, id, s.threads[id]);
            InRegisterMs(s'.threads[id]) ==> HoldsTwin(ToPut(s', s'.threads[id]), i)
  {
    var pc := s.threads[id];
    if pc.Fetching? {
      TwinInGrown(Entries(s, s.keys[KeyOf(i)]), pc.i, i);
    }
  }

  lemma StepKeepsAllPut(fold: char -> char, s: State, e: Event, i: Info)
    requires Form(s) && Listed(ViewOf(s), i) && AllPut(s, i)
    ensures AllPut(Step(fold, s, e), i)
  {
    var s' := Step(fold, s, e);
    if e.Move? && e.id in s.threads {
      AccessMoves(s, e.id);
    }
    forall id | id in s'.threads && InRegisterMs(s'.threads[id]) && KeyOf(s'.threads[id].i) == KeyOf(i)
      ensures HoldsTwin(ToPut(s', s'.threads[id]), i)
    {
      if e == Move(id) {
        AccessKeepsToPut(s, id, i);
      } else {
        OthersKeepToPut(fold, s, e, s.threads[id], i);
      }
    }
  }

  // ---------------------------------------------------------------- when a service stays listed

  /** Until its URL is removed, i is listed, whatever comes. */
  ghost predicate StaysListed(fold: char -> char, s: State, i: Info) {
    forall events :: Remove(KeyOf(i)) !in events ==> Listed(ViewOf(RunFrom(fold, s, events)), i)
  }

  lemma {:induction false} RunKeepsListed(fold: char -> char, s: State, events: seq<Event>, i: Info)
    requires Form(s) && Listed(ViewOf(s), i) && AllPut(s, i) && Remove(KeyOf(i)) !in events
    ensures var s' := RunFrom(fold, s, events); Form(s') && Listed(ViewOf(s'), i) && AllPut(s', i)
  {
    if events != [] {
      var front, e := events[..|events| - 1], events[|events| - 1];
      RunKeepsListed(fold, s, front, i);
      StepKeepsForm(fold, RunFrom(fold, s, front), e);
      StepKeepsListed(fold, RunFrom(fold, s, front), e, i);
      StepKeepsAllPut(fold, RunFrom(fold, s, front), e, i);
    }
  }

  /** A registration in registerMs, left alone, puts what it holds. */
  lemma PutsWhatItHolds(fold: char -> char, s: State, id: nat) returns (events: seq<Event>)
    requires Form(s) && id in s.threads && InRegisterMs(s.threads[id])
    ensures forall e :: e in events ==> e.Move?
    ensures var pc, v := s.threads[id], ViewOf(RunFrom(fold, s, events));
            KeyOf(pc.i) in v && v[KeyOf(pc.i)] == ToPut(s, pc)
  {
    var s1 := Step(fold, s, Move(id));
    var one := [Move(id)];
    assert RunFrom(fold, s, one) == Step(fold, RunFrom(fold, s, []), Move(id)) == s1;
    if s.threads[id].Putting? {
      events := one;
    } else {
      events := one + [Move(id)];
      assert events[..1] == one;
      assert RunFrom(fold, s, events) == Step(fold, s1, Move(id));
    }
  }

  /** From here on i is listed until its URL is removed, in every continuation, exactly when it is listed
      now and every registration for its URL that is in registerMs will put a list that holds it. */
  lemma StaysListedExactlyWhen(fold: char -> char, s: State, i: Info)
    requires Form(s)
    ensures StaysListed(fold, s, i) <==> Listed(ViewOf(s), i) && AllPut(s, i)
  {
    if StaysListed(fold, s, i) {
      assert RunFrom(fold, s, []) == s;
      forall id | id in s.threads && InRegisterMs(s.threads[id]) && KeyOf(s.threads[id].i) == KeyOf(i)
        ensures HoldsTwin(ToPut(s, s.threads[id]), i)
      {
        var events := PutsWhatItHolds(fold, s, id);
        assert Listed(ViewOf(RunFrom(fold, s, events)), i);
      }
    }
    if Listed(ViewOf(s), i) && AllPut(s, i) {
      forall events | Remove(KeyOf(i)) !in events
        ensures Listed(ViewOf(RunFrom(fold, s, events)), i)
      {
        RunKeepsListed(fold, s, events, i);
      }
    }
  }

  // ---------------------------------------------------------------- accepted registrations

  /** Event k accepts the registration of i, and its URL is not removed afterwards. */
  ghost predicate AcceptedAt(fold: char -> char, events: seq<Event>, k: nat, id: nat, i: Info) {
    && k < |events| && events[k] == Move(id) && Remove(KeyOf(i)) !in events[k + 1..]
    && var s := After(fold, events[..k]); id in s.threads && s.threads[id].Putting? && s.threads[id].i == i
  }

  /** Every service whose registration was accepted is listed, unless its URL has been removed since. */
  ghost predicate KeepsAccepted(fold: char -> char, events: seq<Event>) {
    forall k, id, i :: AcceptedAt(fold, events, k, id, i) ==> Listed(ViewOf(After(fold, events)), i)
  }

  /** The list that a registration is about to put holds its service. */
  ghost predicate Carrying(s: State) {
    forall id :: id in s.threads && s.threads[id].Putting? ==>
      HoldsTwin(Entries(s, s.threads[id].list), s.threads[id].i)
  }

  lemma StepKeepsCarrying(fold: char -> char, s: State, e: Event)
    requires Form(s) && Carrying(s)
    ensures Carrying(Step(fold, s, e))
  {
    var s' := Step(fold, s, e);
    if e.Move? && e.id in s.threads {
      AccessMoves(s, e.id);
    }
    forall id | id in s'.threads && s'.threads[id].Putting?
      ensures HoldsTwin(Entries(s', s'.threads[id].list), s'.threads[id].i)
    {
      var pc := s'.threads[id];
      if e == Move(id) {
        TwinInGrown(Entries(s, pc.list), pc.i, pc.i);
      } else {
        StepKeepsTwin(fold, s, e, pc.list, pc.i);
      }
    }
  }

  lemma {:induction false} EveryRunCarries(fold: char -> char, events: seq<Event>)
    ensures Form(After(fold, events)) && Carrying(After(fold, events))
  {
    EveryRunKeepsForm(fold, events);
    if events != [] {
      var front := events[..|events| - 1];
      EveryRunCarries(fold, front);
      StepKeepsCarrying(fold, After(fold, front), events[|events| - 1]);
    }
  }

  lemma RunSplits(fold: char -> char, events: seq<Event>, k: nat)
    requires k < |events|
    ensures After(fold, events)
            == RunFrom(fold, Step(fold, After(fold, events[..k]), events[k]), events[k + 1..])
  {
    assert events[..k + 1][..k] == events[..k];
    assert events[..k + 1] + events[k + 1..] == events;
    RunsAdd(fold, INITIAL, events[..k + 1], events[k + 1..]);
  }

  /** The others of its URL in registerMs will put a list that holds the service of registration id, too. */
  ghost predicate OthersPut(s: State, id: nat)
    requires id in s.threads && !s.threads[id].Answered?
  {
    var i := s.threads[id].i;
    forall id' :: id' in s.threads && id' != id ==>
      InRegisterMs(s.threads[id']) && KeyOf(s.threads[id'].i) == KeyOf(i) ==> HoldsTwin(ToPut(s, s.threads[id']), i)
  }

  lemma AcceptanceLists(s: State, id: nat)
    requires Carrying(s) && id in s.threads && s.threads[id].Putting? && OthersPut(s, id)
    ensures var s', i := Access(s, id, s.threads[id]), s.threads[id].i;
            Listed(ViewOf(s'), i) && AllPut(s', i)
  {
    var s', i := Access(s, id, s.threads[id]), s.threads[id].i;
    assert ViewOf(s')[KeyOf(i)] == Entries(s, s.threads[id].list);
    forall id' | id' in s'.threads && InRegisterMs(s'.threads[id']) && KeyOf(s'.threads[id'].i) == KeyOf(i)
      ensures HoldsTwin(ToPut(s', s'.threads[id']), i)
    {
      assert ToPut(s', s'.threads[id']) == ToPut(s, s.threads[id']);
    }
  }

  lemma AcceptedStays(fold: char -> char, events: seq<Event>, k: nat, id: nat, i: Info)
    requires AcceptedAt(fold, events, k, id, i) && OthersPut(After(fold, events[..k]), id)
    ensures Listed(ViewOf(After(fold, events)), i)
  {
    var s := After(fold, events[..k]);
    EveryRunCarries(fold, events[..k]);
    StepKeepsForm(fold, s, Move(id));
    AcceptanceLists(s, id);
    RunSplits(fold, events, k);
    RunKeepsListed(fold, Step(fold, s, Move(id)), events[k + 1..], i);
  }

  /** If a registration starts only while no other for its URL is unanswered, every accepted service
      stays listed until its URL is removed. */
  lemma OneRegistrationPerUrlKeepsAccepted(fold: char -> char, events: seq<Event>)
    requires OneRegistrationPerUrl(fold, events)
    ensures KeepsAccepted(fold, events)
  {
    forall k, id, i | AcceptedAt(fold, events, k, id, i)
      ensures Listed(ViewOf(After(fold, events)), i)
    {
      UrlsStayApart(fold, events, k);
      AcceptedStays(fold, events, k, id, i);
    }
  }

  /** So it does if equal services are not in flight together and registerMs runs undisturbed. */
  lemma EqualsApartKeepAccepted(fold: char -> char, events: seq<Event>)
    requires EqualsApart(fold, events) && AddsApart(fold, events)
    ensures KeepsAccepted(fold, events)
  {
    forall k, id, i | AcceptedAt(fold, events, k, id, i)
      ensures Listed(ViewOf(After(fold, events)), i)
    {
      StaysOrderly(fold, events, k);
      AcceptedStays(fold, events, k, id, i);
    }
  }
}
