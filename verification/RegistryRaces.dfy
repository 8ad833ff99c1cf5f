/** Registration served on several threads: every access to the map and to one of its lists is a step of
    its own, and other registrations, workload updates and removals may come between any two of them.
    An access is taken to be atomic, a scan of a list too: what an unsynchronised HashMap or ArrayList
    does when two threads are inside it at once is not part of this model. */
module RegistryRaces {
  import opened RegistryState

  /** A list of services on the heap, with the URL that it was made for. */
  datatype Bucket = Bucket(url: string, entries: seq<Info>)

  /** The next access of a registration, and the list that it holds; lists go by their number. */
  datatype Pc =
    | Checking(i: Info)
    | Scanning(i: Info, list: nat)
    | Fetching(i: Info)
    | Adding(i: Info, list: nat)
    | Putting(i: Info, list: nat)
    | Answered(accepted: bool)

  datatype State = State(keys: map<string, nat>, lists: seq<Bucket>, threads: map<nat, Pc>)

  const INITIAL := State(map[], [], map[])

  /** Reload is one setWorkload: the object may be in a list that is no longer registered. Remove is the
      removal of one key by the sweep. */
  datatype Event =
    | Arrive(id: nat, i: Info)
    | Move(id: nat)
    | Reload(list: nat, n: nat, workload: int)
    | Remove(url: string)

  /** Between the first and the last access of registerMs. */
  predicate InRegisterMs(pc: Pc) {
    pc.Adding? || pc.Putting?
  }

  function Entries(s: State, list: nat): seq<Info> {
    if list < |s.lists| then s.lists[list].entries else []
  }

  /** What the registry holds. */
  function ViewOf(s: State): View {
    map key | key in s.keys :: Entries(s, s.keys[key])
  }

  function WithEntries(s: State, list: nat, entries: seq<Info>): State
    requires list < |s.lists|
  {
    s.(lists := s.lists[list := Bucket(s.lists[list].url, entries)])
  }

  /** s with registration id at pc. */
  function At(s: State, id: nat, pc: Pc): State {
    s.(threads := s.threads[id := pc])
  }

  /** The next access of registration id: two of isServiceRegistered, three of registerMs. */
  function Access(s: State, id: nat, pc: Pc): State {
    match pc
    case Checking(i) =>
      var key := KeyOf(i);
      At(s, id, if key in s.keys then Scanning(i, s.keys[key]) else Fetching(i))
    case Scanning(i, list) =>
      At(s, id, if i in Entries(s, list) then Answered(false) else Fetching(i))
    case Fetching(i) =>
      var key := KeyOf(i);
      if key in s.keys then At(s, id, Adding(i, s.keys[key]))
      else State(s.keys, s.lists + [Bucket(key, [])], s.threads[id := Adding(i, |s.lists|)])
    case Adding(i, list) =>
      if list >= |s.lists| then s
      else WithEntries(s, list, s.lists[list].entries + [i]).(threads := s.threads[id := Putting(i, list)])
    case Putting(i, list) =>
      s.(keys := s.keys[KeyOf(i) := list], threads := s.threads[id := Answered(true)])
    case Answered(_) => s
  }

  function Step(fold: char -> char, s: State, e: Event): State {
    match e
    case Arrive(id, i) => if id in s.threads then s else At(s, id, Checking(i))
    case Move(id) => if id in s.threads then Access(s, id, s.threads[id]) else s
    case Reload(list, n, workload) =>
      var entries := Entries(s, list);
      if n < |entries| && IsCalculation(fold, entries[n].type_) then
        WithEntries(s, list, entries[n := entries[n].(workload := workload)])
      else s
    case Remove(url) => s.(keys := s.keys - {url})
  }

  /** The state after these events, from s on. */
  function RunFrom(fold: char -> char, s: State, events: seq<Event>): State {
    if events == [] then s
    else Step(fold, RunFrom(fold, s, events[..|events| - 1]), events[|events| - 1])
  }

  function After(fold: char -> char, events: seq<Event>): State {
    RunFrom(fold, INITIAL, events)
  }

  lemma {:induction false} RunsAdd(fold: char -> char, s: State, before: seq<Event>, events: seq<Event>)
    ensures RunFrom(fold, s, before + events) == RunFrom(fold, RunFrom(fold, s, before), events)
  {
    if events == [] {
      assert before + events == before;
    } else {
      RunsAdd(fold, s, before, events[..|events| - 1]);
      assert (before + events)[..|before + events| - 1] == before + events[..|events| - 1];
    }
  }

  // ---------------------------------------------------------------- the form of the registry

  /** A registration holds only lists made for its own URL; the one it puts back is not empty. */
  predicate HoldsOwn(s: State, pc: Pc) {
    pc.Scanning? || pc.Adding? || pc.Putting? ==>
      && pc.list < |s.lists| && s.lists[pc.list].url == KeyOf(pc.i)
      && (pc.Putting? ==> s.lists[pc.list].entries != [])
  }

  ghost predicate Form(s: State) {
    && (forall key :: key in s.keys ==>
          s.keys[key] < |s.lists| && s.lists[s.keys[key]].url == key && s.lists[s.keys[key]].entries != [])
    && (forall list, n :: 0 <= list < |s.lists| && 0 <= n < |s.lists[list].entries| ==>
          KeyOf(s.lists[list].entries[n]) == s.lists[list].url)
    && (forall id :: id in s.threads ==> HoldsOwn(s, s.threads[id]))
  }

  lemma GrowingKeepsForm(s: State, list: nat, i: Info)
    requires Form(s) && list < |s.lists| && s.lists[list].url == KeyOf(i)
    ensures Form(WithEntries(s, list, s.lists[list].entries + [i]))
  {}

  lemma PcKeepsForm(s: State, id: nat, pc: Pc)
    requires Form(s) && HoldsOwn(s, pc)
    ensures Form(At(s, id, pc))
  {}

  lemma AccessKeepsForm(s: State, id: nat)
    requires Form(s) && id in s.threads
    ensures Form(Access(s, id, s.threads[id]))
  {
    match s.threads[id]
    case Adding(i, list) =>
      GrowingKeepsForm(s, list, i);
      PcKeepsForm(WithEntries(s, list, s.lists[list].entries + [i]), id, Putting(i, list));
    case Fetching(i) =>
    case Putting(i, list) =>
    case _ => PcKeepsForm(s, id, Access(s, id, s.threads[id]).threads[id]);
  }

  lemma ReloadKeepsForm(fold: char -> char, s: State, list: nat, n: nat, workload: int)
    requires Form(s)
    ensures Form(Step(fold, s, Reload(list, n, workload)))
  {}

  lemma StepKeepsForm(fold: char -> char, s: State, e: Event)
    requires Form(s)
    ensures Form(Step(fold, s, e))
  {
    match e
    case Move(id) => if id in s.threads { AccessKeepsForm(s, id); }
    case Reload(list, n, workload) => ReloadKeepsForm(fold, s, list, n, workload);
    case _ =>
  }

  lemma {:induction false} EveryRunKeepsForm(fold: char -> char, events: seq<Event>)
    ensures Form(After(fold, events))
  {
    if events != [] {
      EveryRunKeepsForm(fold, events[..|events| - 1]);
      StepKeepsForm(fold, After(fold, events[..|events| - 1]), events[|events| - 1]);
    }
  }

  /** However registrations, workload updates and removals interleave, each key has a non-empty list and
      each entry stands under its own rendered URL. */
  lemma EveryInterleavingIsWellFormed(fold: char -> char, events: seq<Event>)
    ensures WellFormed(ViewOf(After(fold, events)))
  {
    EveryRunKeepsForm(fold, events);
  }

  /** An access leaves the other registrations where they are, and goes on with the same service. */
  lemma AccessMoves(s: State, id: nat)
    requires id in s.threads
    ensures var pc, s' := s.threads[id], Access(s, id, s.threads[id]);
            && s'.threads.Keys == s.threads.Keys
            && (forall id' :: id' in s.threads && id' != id ==> s'.threads[id'] == s.threads[id'])
            && (s'.threads[id].Answered? || (!pc.Answered? && s'.threads[id].i == pc.i))
            && (pc.Answered? ==> s' == s)
  {}

  // ---------------------------------------------------------------- single events

  /** A workload update: the entry shows the workload afterwards if it is of type "calculation", and is as
      before if not; nothing else changes. */
  lemma ReloadSets(fold: char -> char, s: State, list: nat, n: nat, workload: int)
    requires list < |s.lists| && n < |s.lists[list].entries|
    ensures var s', was := Step(fold, s, Reload(list, n, workload)), s.lists[list].entries[n];
            && s'.keys == s.keys && s'.threads == s.threads && |s'.lists| == |s.lists|
            && s'.lists[list].url == s.lists[list].url
            && s'.lists[list].entries
               == s.lists[list].entries[n := if IsCalculation(fold, was.type_) then was.(workload := workload) else was]
            && forall l :: 0 <= l < |s.lists| && l != list ==> s'.lists[l] == s.lists[l]
  {}

  /** A removal takes the key away, and nothing else; a registration arrives under a new number. */
  lemma RemovalAndArrival(fold: char -> char, s: State, url: string, key: string, id: nat, i: Info)
    ensures var s' := Step(fold, s, Remove(url));
            && s'.lists == s.lists && s'.threads == s.threads
            && (key in s'.keys <==> key in s.keys && key != url)
            && (key in s.keys && key != url ==> s'.keys[key] == s.keys[key])
    ensures id !in s.threads ==>
              Step(fold, s, Arrive(id, i)) == s.(threads := s.threads[id := Checking(i)])
  {}

  // ---------------------------------------------------------------- stages of a registration

  function Turns(id: nat, k: nat): (events: seq<Event>)
    ensures |events| == k && forall e :: e in events ==> e == Move(id)
  {
    seq(k, _ => Move(id))
  }

  /** k accesses of registration id, with nothing in between. */
  function Moves(fold: char -> char, s: State, id: nat, k: nat): State {
    RunFrom(fold, s, Turns(id, k))
  }

  predicate IsAt(s: State, id: nat, pc: Pc) {
    id in s.threads && s.threads[id] == pc
  }

  lemma MovesAdd(fold: char -> char, s: State, id: nat, j: nat, k: nat)
    ensures Moves(fold, s, id, j + k) == Moves(fold, Moves(fold, s, id, j), id, k)
  {
    RunsAdd(fold, s, Turns(id, j), Turns(id, k));
    assert Turns(id, j) + Turns(id, k) == Turns(id, j + k);
  }

  lemma OneMove(fold: char -> char, s: State, id: nat)
    ensures Moves(fold, s, id, 1) == Step(fold, s, Move(id))
  {
    assert Turns(id, 1) == [Move(id)] && [Move(id)][..0] == [];
    assert RunFrom(fold, s, []) == s;
  }

  lemma MoveTo(fold: char -> char, s: State, id: nat, pc: Pc, s': State, k: nat)
    requires id in s.threads && s.threads[id] == pc && Access(s, id, pc) == s'
    ensures Moves(fold, s, id, k + 1) == Moves(fold, s', id, k)
  {
    MovesAdd(fold, s, id, 1, k);
    OneMove(fold, s, id);
  }

  lemma {:induction false} AnsweredStays(fold: char -> char, s: State, id: nat, accepted: bool, k: nat)
    requires IsAt(s, id, Answered(accepted))
    ensures Moves(fold, s, id, k) == s
  {
    if k > 0 {
      MoveTo(fold, s, id, Answered(accepted), s, k - 1);
      AnsweredStays(fold, s, id, accepted, k - 1);
    } else {
      assert Turns(id, 0) == [];
    }
  }

  /** The last access. */
  lemma LastMoveTo(fold: char -> char, s: State, id: nat, pc: Pc, s': State)
    requires id in s.threads && s.threads[id] == pc && Access(s, id, pc) == s'
    ensures Moves(fold, s, id, 1) == s'
  {
    OneMove(fold, s, id);
  }

  /** isServiceRegistered without a list under the URL. */
  lemma Checks(fold: char -> char, s: State, id: nat, i: Info)
    requires KeyOf(i) !in s.keys
    ensures Moves(fold, At(s, id, Checking(i)), id, 1) == At(s, id, Fetching(i))
  {
    LastMoveTo(fold, At(s, id, Checking(i)), id, Checking(i), At(s, id, Fetching(i)));
  }

  /** isServiceRegistered with a list under the URL. */
  lemma Scans(fold: char -> char, s: State, id: nat, i: Info)
    requires KeyOf(i) in s.keys
    ensures Moves(fold, At(s, id, Checking(i)), id, 2)
            == At(s, id, if i in Entries(s, s.keys[KeyOf(i)]) then Answered(false) else Fetching(i))
  {
    var list := s.keys[KeyOf(i)];
    MoveTo(fold, At(s, id, Checking(i)), id, Checking(i), At(s, id, Scanning(i, list)), 1);
    LastMoveTo(fold, At(s, id, Scanning(i, list)), id, Scanning(i, list),
      At(s, id, if i in Entries(s, list) then Answered(false) else Fetching(i)));
  }

  /** s with a new, empty list for the URL of i. */
  function Made(s: State, i: Info): State {
    s.(lists := s.lists + [Bucket(KeyOf(i), [])])
  }

  /** s with i in this list, and the list under the URL of i. */
  function Stored(s: State, i: Info, list: nat): State
    requires list < |s.lists|
  {
    WithEntries(s, list, s.lists[list].entries + [i]).(keys := s.keys[KeyOf(i) := list])
  }

  /** The first access of registerMs. */
  lemma Fetches(fold: char -> char, s: State, id: nat, i: Info)
    ensures Moves(fold, At(s, id, Fetching(i)), id, 1)
            == if KeyOf(i) in s.keys then At(s, id, Adding(i, s.keys[KeyOf(i)]))
               else At(Made(s, i), id, Adding(i, |s.lists|))
  {
    LastMoveTo(fold, At(s, id, Fetching(i)), id, Fetching(i),
      if KeyOf(i) in s.keys then At(s, id, Adding(i, s.keys[KeyOf(i)]))
      else At(Made(s, i), id, Adding(i, |s.lists|)));
  }

  /** The other two. */
  lemma Stores(fold: char -> char, s: State, id: nat, i: Info, list: nat)
    requires list < |s.lists|
    ensures Moves(fold, At(s, id, Adding(i, list)), id, 2) == At(Stored(s, i, list), id, Answered(true))
  {
    var added := WithEntries(s, list, s.lists[list].entries + [i]);
    MoveTo(fold, At(s, id, Adding(i, list)), id, Adding(i, list), At(added, id, Putting(i, list)), 1);
    LastMoveTo(fold, At(added, id, Putting(i, list)), id, Putting(i, list), At(Stored(s, i, list), id, Answered(true)));
  }

  /** registerMs as a whole: without a list under the URL a new one is made, filled and put there; the
      list that is there grows by the service, whatever it holds. */
  function Put(s: State, i: Info): State {
    var key := KeyOf(i);
    if key !in s.keys then s.(keys := s.keys[key := |s.lists|], lists := s.lists + [Bucket(key, [i])])
    else if s.keys[key] < |s.lists| then WithEntries(s, s.keys[key], s.lists[s.keys[key]].entries + [i])
    else s
  }

  lemma StoredIsPut(s: State, i: Info)
    ensures KeyOf(i) !in s.keys ==> Stored(Made(s, i), i, |s.lists|) == Put(s, i)
    ensures KeyOf(i) in s.keys && s.keys[KeyOf(i)] < |s.lists| ==> Stored(s, i, s.keys[KeyOf(i)]) == Put(s, i)
  {
    var key := KeyOf(i);
    if key !in s.keys {
      assert Made(s, i).lists[|s.lists|].entries + [i] == [i];
      assert Made(s, i).lists[|s.lists| := Bucket(key, [i])] == s.lists + [Bucket(key, [i])];
    } else {
      assert s.keys[key := s.keys[key]] == s.keys;
    }
  }

  lemma Puts(fold: char -> char, s: State, id: nat, i: Info)
    requires KeyOf(i) in s.keys ==> s.keys[KeyOf(i)] < |s.lists|
    ensures Moves(fold, At(s, id, Fetching(i)), id, 3) == At(Put(s, i), id, Answered(true))
  {
    MovesAdd(fold, At(s, id, Fetching(i)), id, 1, 2);
    Fetches(fold, s, id, i);
    if KeyOf(i) in s.keys {
      Stores(fold, s, id, i, s.keys[KeyOf(i)]);
    } else {
      Stores(fold, Made(s, i), id, i, |s.lists|);
    }
    StoredIsPut(s, i);
  }

  // ---------------------------------------------------------------- one registration alone

  lemma PutIsRegistered(s: State, i: Info)
    requires Form(s) && (KeyOf(i) in s.keys ==> i !in Entries(s, s.keys[KeyOf(i)]))
    ensures ViewOf(Put(s, i)) == Registered(ViewOf(s), i).0
  {}

  lemma PutsAndStays(fold: char -> char, s: State, id: nat, i: Info)
    requires KeyOf(i) !in s.keys
    ensures Moves(fold, At(s, id, Fetching(i)), id, 4) == At(Put(s, i), id, Answered(true))
  {
    MovesAdd(fold, At(s, id, Fetching(i)), id, 3, 1);
    Puts(fold, s, id, i);
    AnsweredStays(fold, At(Put(s, i), id, Answered(true)), id, true, 1);
  }

  lemma AloneWithoutList(fold: char -> char, s: State, id: nat, i: Info)
    requires KeyOf(i) !in s.keys
    ensures Moves(fold, At(s, id, Checking(i)), id, 5) == At(Put(s, i), id, Answered(true))
  {
    MovesAdd(fold, At(s, id, Checking(i)), id, 1, 4);
    Checks(fold, s, id, i);
    PutsAndStays(fold, s, id, i);
  }

  lemma AloneWithList(fold: char -> char, s: State, id: nat, i: Info)
    requires KeyOf(i) in s.keys && s.keys[KeyOf(i)] < |s.lists|
    ensures Moves(fold, At(s, id, Checking(i)), id, 5)
            == if i in Entries(s, s.keys[KeyOf(i)]) then At(s, id, Answered(false))
               else At(Put(s, i), id, Answered(true))
  {
    MovesAdd(fold, At(s, id, Checking(i)), id, 2, 3);
    Scans(fold, s, id, i);
    if i in Entries(s, s.keys[KeyOf(i)]) {
      AnsweredStays(fold, At(s, id, Answered(false)), id, false, 3);
    } else {
      Puts(fold, s, id, i);
    }
  }

  /** The registry after a registration on its own, and whether it is accepted. */
  function AfterAlone(s: State, i: Info): (State, bool) {
    if KeyOf(i) in s.keys && i in Entries(s, s.keys[KeyOf(i)]) then (s, false) else (Put(s, i), true)
  }

  lemma AfterAloneIsRegistered(s: State, i: Info)
    requires Form(s)
    ensures var (s', accepted) := AfterAlone(s, i); (ViewOf(s'), accepted) == Registered(ViewOf(s), i)
  {
    if KeyOf(i) !in s.keys || i !in Entries(s, s.keys[KeyOf(i)]) {
      PutIsRegistered(s, i);
    }
  }

  lemma AloneLeads(fold: char -> char, s: State, id: nat, i: Info)
    requires KeyOf(i) in s.keys ==> s.keys[KeyOf(i)] < |s.lists|
    ensures var (s', accepted) := AfterAlone(s, i);
            Moves(fold, At(s, id, Checking(i)), id, 5) == At(s', id, Answered(accepted))
  {
    if KeyOf(i) in s.keys {
      AloneWithList(fold, s, id, i);
    } else {
      AloneWithoutList(fold, s, id, i);
    }
  }

  /** Without interleaving, the accesses of a registration amount to registerMicroservice as a whole. */
  lemma AloneIsRegistered(fold: char -> char, s: State, id: nat, i: Info)
    requires Form(s)
    ensures var s', (v, accepted) := Moves(fold, At(s, id, Checking(i)), id, 5), Registered(ViewOf(s), i);
            ViewOf(s') == v && s'.threads == s.threads[id := Answered(accepted)]
  {
    AloneLeads(fold, s, id, i);
    AfterAloneIsRegistered(s, i);
  }
}
