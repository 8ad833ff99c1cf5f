/** When racing registrations leave no two equal entries: conditions that locks establish. */
module RegistryLocks {
  import opened RegistryState
  import opened RegistryRaces

  // ---------------------------------------------------------------- what keeps entries unique

  /** No two entries of a list are equal, but for those of type "calculation". */
  ghost predicate NoRepeats(fold: char -> char, entries: seq<Info>) {
    forall m, n :: 0 <= m < n < |entries| && !IsCalculation(fold, entries[m].type_) ==> entries[m] != entries[n]
  }

  /** The list under the URL of i does not hold i. */
  predicate Unlisted(s: State, i: Info) {
    KeyOf(i) in s.keys ==> i !in Entries(s, s.keys[KeyOf(i)])
  }

  /** What a registration has found out still holds, if its service is not of type "calculation". */
  predicate Safe(fold: char -> char, s: State, pc: Pc) {
    pc.Answered? || IsCalculation(fold, pc.i.type_) ||
    match pc
    case Scanning(i, list) => (KeyOf(i) in s.keys && s.keys[KeyOf(i)] == list) || Unlisted(s, i)
    case Fetching(i) => Unlisted(s, i)
    case Adding(i, list) => i !in Entries(s, list)
    case _ => true
  }

  ghost predicate Sound(fold: char -> char, s: State) {
    && Form(s)
    && (forall list :: 0 <= list < |s.lists| ==> NoRepeats(fold, s.lists[list].entries))
    && (forall id :: id in s.threads ==> Safe(fold, s, s.threads[id]))
  }

  lemma SoundIsUnique(fold: char -> char, s: State)
    requires Sound(fold, s)
    ensures Unique(ViewOf(s), NonCalculations(fold))
  {}

  /** A registration that is safe adds no repeated entry and stays safe itself. */
  lemma AccessIsSafe(fold: char -> char, s: State, id: nat)
    requires Sound(fold, s) && id in s.threads
    ensures var s' := Access(s, id, s.threads[id]);
            && Safe(fold, s', s'.threads[id])
            && forall list :: 0 <= list < |s'.lists| ==> NoRepeats(fold, s'.lists[list].entries)
  {}

  /** A workload update changes entries of type "calculation" only. */
  lemma ReloadIsSafe(fold: char -> char, s: State, list: nat, n: nat, workload: int)
    requires Sound(fold, s)
    ensures var s' := Step(fold, s, Reload(list, n, workload));
            && (forall l :: 0 <= l < |s'.lists| ==> NoRepeats(fold, s'.lists[l].entries))
            && (forall pc :: HoldsOwn(s, pc) && Safe(fold, s, pc) ==> Safe(fold, s', pc))
  {
    var s' := Step(fold, s, Reload(list, n, workload));
    forall l, i: Info | !IsCalculation(fold, i.type_)
      ensures i in Entries(s', l) ==> i in Entries(s, l)
    {}
  }

  lemma OthersAreSafe(fold: char -> char, s: State, e: Event)
    requires Sound(fold, s) && (e.Reload? || e.Remove?)
    ensures Sound(fold, Step(fold, s, e))
  {
    StepKeepsForm(fold, s, e);
    if e.Reload? {
      ReloadIsSafe(fold, s, e.list, e.n, e.workload);
    }
  }

  /** An access that spoils no other registration keeps the state sound. */
  lemma AccessKeepsSound(fold: char -> char, s: State, id: nat)
    requires Sound(fold, s) && id in s.threads
    requires forall id' :: id' in s.threads && id' != id ==>
               Safe(fold, Access(s, id, s.threads[id]), s.threads[id'])
    ensures Sound(fold, Access(s, id, s.threads[id]))
  {
    AccessKeepsForm(s, id);
    AccessIsSafe(fold, s, id);
    AccessMoves(s, id);
  }

  // ---------------------------------------------------------------- one registration a URL

  /** A registration starts only while none for the same URL is unanswered. */
  ghost predicate UrlIsFree(s: State, e: Event) {
    e.Arrive? ==>
      forall id :: id in s.threads && !s.threads[id].Answered? ==> KeyOf(s.threads[id].i) != KeyOf(e.i)
  }

  ghost predicate OneRegistrationPerUrl(fold: char -> char, events: seq<Event>) {
    forall k :: 0 <= k < |events| ==> UrlIsFree(After(fold, events[..k]), events[k])
  }

  ghost predicate UrlsApart(s: State) {
    forall id, id' | id in s.threads && id' in s.threads && id != id' ::
      s.threads[id].Answered? || s.threads[id'].Answered? || KeyOf(s.threads[id].i) != KeyOf(s.threads[id'].i)
  }

  /** An access changes nothing that a registration for another URL has found out. */
  lemma AccessElsewhere(fold: char -> char, s: State, id: nat, pc: Pc)
    requires Sound(fold, s) && id in s.threads && !s.threads[id].Answered?
    requires HoldsOwn(s, pc) && Safe(fold, s, pc) && !pc.Answered? && KeyOf(pc.i) != KeyOf(s.threads[id].i)
    ensures Safe(fold, Access(s, id, s.threads[id]), pc)
  {}

  lemma ArriveKeepsUrlsApart(fold: char -> char, s: State, id: nat, i: Info)
    requires Sound(fold, s) && UrlsApart(s) && UrlIsFree(s, Arrive(id, i)) && id !in s.threads
    ensures Sound(fold, At(s, id, Checking(i))) && UrlsApart(At(s, id, Checking(i)))
  {}

  lemma StepKeepsUrlsApart(fold: char -> char, s: State, e: Event)
    requires Sound(fold, s) && UrlsApart(s) && UrlIsFree(s, e)
    ensures Sound(fold, Step(fold, s, e)) && UrlsApart(Step(fold, s, e))
  {
    match e
    case Arrive(id, i) =>
      if id !in s.threads {
        ArriveKeepsUrlsApart(fold, s, id, i);
      }
    case Move(id) =>
      if id in s.threads && !s.threads[id].Answered? {
        forall id' | id' in s.threads && id' != id && !s.threads[id'].Answered?
          ensures Safe(fold, Access(s, id, s.threads[id]), s.threads[id'])
        {
          AccessElsewhere(fold, s, id, s.threads[id']);
        }
        AccessKeepsSound(fold, s, id);
        AccessMoves(s, id);
      }
    case _ => OthersAreSafe(fold, s, e);
  }

  lemma {:induction false} UrlsStayApart(fold: char -> char, events: seq<Event>, k: nat)
    requires OneRegistrationPerUrl(fold, events) && k <= |events|
    ensures Sound(fold, After(fold, events[..k])) && UrlsApart(After(fold, events[..k]))
  {
    if k > 0 {
      UrlsStayApart(fold, events, k - 1);
      assert events[..k][..k - 1] == events[..k - 1];
      StepKeepsUrlsApart(fold, After(fold, events[..k - 1]), events[k - 1]);
    }
  }

  /** If a registration starts only while no other for its URL is unanswered, no two entries that are not
      of type "calculation" are equal - though workload updates and removals come at any time. */
  lemma OneRegistrationPerUrlKeepsUnique(fold: char -> char, events: seq<Event>)
    requires OneRegistrationPerUrl(fold, events)
    ensures Unique(ViewOf(After(fold, events)), NonCalculations(fold))
  {
    assert events[..|events|] == events;
    UrlsStayApart(fold, events, |events|);
    SoundIsUnique(fold, After(fold, events));
  }

  // ---------------------------------------------------------------- equal services apart

  /** A registration starts only while none of an equal service is unanswered. */
  ghost predicate NoEqualInFlight(s: State, e: Event) {
    e.Arrive? ==> forall id :: id in s.threads && !s.threads[id].Answered? ==> s.threads[id].i != e.i
  }

  /** No other registration for the URL of pc enters registerMs with e, and e does not remove the URL. */
  predicate Undisturbed(s: State, id: nat, e: Event)
    requires id in s.threads && InRegisterMs(s.threads[id])
  {
    var key := KeyOf(s.threads[id].i);
    && e != Remove(key)
    && (e.Move? && e.id != id && e.id in s.threads && s.threads[e.id].Fetching? ==> KeyOf(s.threads[e.id].i) != key)
  }

  ghost predicate AddsUndisturbed(s: State, e: Event) {
    forall id :: id in s.threads && InRegisterMs(s.threads[id]) ==> Undisturbed(s, id, e)
  }

  ghost predicate EqualsApart(fold: char -> char, events: seq<Event>) {
    forall k :: 0 <= k < |events| ==> NoEqualInFlight(After(fold, events[..k]), events[k])
  }

  ghost predicate AddsApart(fold: char -> char, events: seq<Event>) {
    forall k :: 0 <= k < |events| ==> AddsUndisturbed(After(fold, events[..k]), events[k])
  }

  /** The list held in registerMs is the one under its URL, or there is none and it is new. */
  ghost predicate HoldsCurrent(fold: char -> char, s: State, pc: Pc)
    requires InRegisterMs(pc)
  {
    var key, entries := KeyOf(pc.i), Entries(s, pc.list);
    if key in s.keys then s.keys[key] == pc.list
    else forall i :: i in entries ==> i == pc.i || IsCalculation(fold, i.type_)
  }

  /** Two registrations in flight are of different services; in registerMs, of different URLs. */
  predicate Apart(pc: Pc, pc': Pc) {
    || pc.Answered? || pc'.Answered?
    || (pc.i != pc'.i && (InRegisterMs(pc) && InRegisterMs(pc') ==> KeyOf(pc.i) != KeyOf(pc'.i)))
  }

  ghost predicate Orderly(fold: char -> char, s: State) {
    && (forall id, id' | id in s.threads && id' in s.threads && id != id' :: Apart(s.threads[id], s.threads[id']))
    && (forall id :: id in s.threads && InRegisterMs(s.threads[id]) ==> HoldsCurrent(fold, s, s.threads[id]))
  }

  /** An access changes nothing that a registration apart from it has found out. */
  lemma AccessBeside(fold: char -> char, s: State, id: nat, pc: Pc)
    requires Sound(fold, s) && id in s.threads && !s.threads[id].Answered?
    requires InRegisterMs(s.threads[id]) ==> HoldsCurrent(fold, s, s.threads[id])
    requires HoldsOwn(s, pc) && Safe(fold, s, pc) && !pc.Answered? && Apart(s.threads[id], pc)
    ensures Safe(fold, Access(s, id, s.threads[id]), pc)
  {}

  /** Nor does it replace a list that another registration holds in registerMs. */
  lemma AccessLeavesHeld(fold: char -> char, s: State, id: nat, pc: Pc)
    requires Form(s) && id in s.threads && !s.threads[id].Answered? && HoldsOwn(s, pc)
    requires InRegisterMs(pc) && HoldsCurrent(fold, s, pc) && Apart(s.threads[id], pc)
    requires s.threads[id].Fetching? ==> KeyOf(s.threads[id].i) != KeyOf(pc.i)
    ensures HoldsCurrent(fold, Access(s, id, s.threads[id]), pc)
  {}

  lemma AccessHoldsCurrent(fold: char -> char, s: State, id: nat)
    requires Form(s) && id in s.threads
    requires InRegisterMs(s.threads[id]) ==> HoldsCurrent(fold, s, s.threads[id])
    ensures var s' := Access(s, id, s.threads[id]);
            InRegisterMs(s'.threads[id]) ==> HoldsCurrent(fold, s', s'.threads[id])
  {}

  lemma MoveKeepsSound(fold: char -> char, s: State, id: nat)
    requires Sound(fold, s) && Orderly(fold, s) && id in s.threads && !s.threads[id].Answered?
    ensures Sound(fold, Access(s, id, s.threads[id]))
  {
    forall id' | id' in s.threads && id' != id && !s.threads[id'].Answered?
      ensures Safe(fold, Access(s, id, s.threads[id]), s.threads[id'])
    {
      assert Apart(s.threads[id], s.threads[id']);
      AccessBeside(fold, s, id, s.threads[id']);
    }
    AccessKeepsSound(fold, s, id);
  }

  lemma MoveKeepsApart(s: State, id: nat, pc: Pc)
    requires id in s.threads && Apart(s.threads[id], pc)
    requires s.threads[id].Fetching? && InRegisterMs(pc) ==> KeyOf(s.threads[id].i) != KeyOf(pc.i)
    ensures Apart(Access(s, id, s.threads[id]).threads[id], pc)
  {}

  lemma MoveKeepsOrderly(fold: char -> char, s: State, id: nat)
    requires Sound(fold, s) && Orderly(fold, s) && AddsUndisturbed(s, Move(id))
    requires id in s.threads && !s.threads[id].Answered?
    ensures Orderly(fold, Access(s, id, s.threads[id]))
  {
    var s' := Access(s, id, s.threads[id]);
    forall id' | id' in s.threads && id' != id
      ensures InRegisterMs(s.threads[id']) ==> HoldsCurrent(fold, s', s.threads[id'])
      ensures Apart(s'.threads[id], s.threads[id']) && Apart(s.threads[id'], s'.threads[id])
    {
      assert Apart(s.threads[id], s.threads[id']);
      if InRegisterMs(s.threads[id']) {
        assert Undisturbed(s, id', Move(id));
        AccessLeavesHeld(fold, s, id, s.threads[id']);
      }
      MoveKeepsApart(s, id, s.threads[id']);
    }
    AccessHoldsCurrent(fold, s, id);
    AccessMoves(s, id);
  }

  lemma ReloadHoldsCurrent(fold: char -> char, s: State, list: nat, n: nat, workload: int, pc: Pc)
    requires InRegisterMs(pc) && HoldsCurrent(fold, s, pc)
    ensures HoldsCurrent(fold, Step(fold, s, Reload(list, n, workload)), pc)
  {}

  lemma OthersKeepOrderly(fold: char -> char, s: State, e: Event)
    requires Sound(fold, s) && Orderly(fold, s) && AddsUndisturbed(s, e) && (e.Reload? || e.Remove?)
    ensures Orderly(fold, Step(fold, s, e))
  {
    forall id | id in s.threads && InRegisterMs(s.threads[id])
      ensures HoldsCurrent(fold, Step(fold, s, e), s.threads[id])
    {
      assert Undisturbed(s, id, e);
      if e.Reload? {
        ReloadHoldsCurrent(fold, s, e.list, e.n, e.workload, s.threads[id]);
      }
    }
  }

  lemma ArriveKeepsOrderly(fold: char -> char, s: State, id: nat, i: Info)
    requires Sound(fold, s) && Orderly(fold, s) && NoEqualInFlight(s, Arrive(id, i)) && id !in s.threads
    ensures Sound(fold, At(s, id, Checking(i))) && Orderly(fold, At(s, id, Checking(i)))
  {}

  lemma StepKeepsOrderly(fold: char -> char, s: State, e: Event)
    requires Sound(fold, s) && Orderly(fold, s) && NoEqualInFlight(s, e) && AddsUndisturbed(s, e)
    ensures Sound(fold, Step(fold, s, e)) && Orderly(fold, Step(fold, s, e))
  {
    match e
    case Arrive(id, i) =>
      if id !in s.threads {
        ArriveKeepsOrderly(fold, s, id, i);
      }
    case Move(id) =>
      if id in s.threads && !s.threads[id].Answered? {
        MoveKeepsSound(fold, s, id);
        MoveKeepsOrderly(fold, s, id);
      }
    case _ =>
      OthersAreSafe(fold, s, e);
      OthersKeepOrderly(fold, s, e);
  }

  lemma {:induction false} StaysOrderly(fold: char -> char, events: seq<Event>, k: nat)
    requires EqualsApart(fold, events) && AddsApart(fold, events) && k <= |events|
    ensures Sound(fold, After(fold, events[..k])) && Orderly(fold, After(fold, events[..k]))
  {
    if k > 0 {
      StaysOrderly(fold, events, k - 1);
      assert events[..k][..k - 1] == events[..k - 1];
      StepKeepsOrderly(fold, After(fold, events[..k - 1]), events[k - 1]);
    }
  }

  /** It also suffices that equal services are not in flight together, if registerMs runs undisturbed:
      while one registration is in it, no other for its URL enters it and the URL is not removed. */
  lemma EqualsApartKeepUnique(fold: char -> char, events: seq<Event>)
    requires EqualsApart(fold, events) && AddsApart(fold, events)
    ensures Unique(ViewOf(After(fold, events)), NonCalculations(fold))
  {
    assert events[..|events|] == events;
    StaysOrderly(fold, events, |events|);
    SoundIsUnique(fold, After(fold, events));
  }
}
