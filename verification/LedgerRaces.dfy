/** The same handlers served on several threads: every look at and every change of `users` is a step
    of its own, and other requests may run between any two of them. */
module LedgerRaces {
  import opened Wrappers
  import opened MapSum
  import opened Ledger
  import opened LedgerBooks

  /** The next access of a request to the dictionary, and the local variables it needs. */
  datatype Pc =
    | Checking(r: Request)
    | Creating(user: User)
    | Reading(r: Request)
    | Writing(r: Request, read: int)
    | Deleting(user: User)
    | Replying(user: User)
    | Answered(response: Response)

  /** One access. A missing key raises a KeyError, which Flask answers with 500. */
  function Access(users: Accounts, pc: Pc): (Accounts, Pc) {
    match pc
    case Checking(Create(user)) =>
      (users, if user in users then Answered(RefuseNaming(user, 400)) else Creating(user))
    case Checking(Delete(user)) =>
      (users, if user in users then Deleting(user) else Answered(RefuseNaming(user, 404)))
    case Checking(Info(user)) =>
      (users, if user in users then Replying(user) else Answered(RefuseNaming(user, 400)))
    case Checking(r) =>
      (users,
       if r.amount.Missing? then Answered(Refuse(500))
       else if r.user !in users then Answered(RefuseNaming(r.user, 400))
       else if !Positive(r.amount) then Answered(Refuse(400))
       else Reading(r))
    case Creating(user) => (users[user := 0], Replying(user))
    case Reading(r) =>
      (users,
       if r.user !in users then Answered(Refuse(500))
       else if r.Charge? && Positive(r.amount) && users[r.user] - r.amount.value < 0 then Answered(Refuse(400))
       else Writing(r, users[r.user]))
    case Writing(r, read) => (users[r.user := NewBalance(r, read)], Replying(r.user))
    case Deleting(user) =>
      if user in users then (users - {user}, Answered(Response(200, None))) else (users, Answered(Refuse(500)))
    case Replying(user) =>
      (users, Answered(if user in users then Response(200, Some(users[user])) else Refuse(500)))
    case Answered(_) => (users, pc)
  }

  /** What a deposit or a charge stores after it has read the balance. */
  function NewBalance(r: Request, read: int): int {
    match r
    case Deposit(_, Whole(amount)) => read + amount
    case Charge(_, Whole(amount)) => read - amount
    case _ => read
  }

  // ---------------------------------------------------------------- one request alone

  function Rank(pc: Pc): nat {
    match pc
    case Checking(_) => 4
    case Reading(_) => 3
    case Writing(_, _) => 2
    case Creating(_) => 2
    case Deleting(_) => 1
    case Replying(_) => 1
    case Answered(_) => 0
  }

  /** All remaining accesses of a request, with nothing in between. */
  function Alone(users: Accounts, pc: Pc): (Accounts, Response)
    decreases Rank(pc)
  {
    if pc.Answered? then (users, pc.response)
    else
      var (users', pc') := Access(users, pc);
      Alone(users', pc')
  }

  /** Without interleaving, the accesses of a request amount to the atomic handler. */
  lemma AloneIsAtomic(users: Accounts, r: Request)
    ensures Alone(users, Checking(r)) == Handle(users, r)
  {
    var (users1, pc1) := Access(users, Checking(r));
    var (users2, pc2) := Access(users1, pc1);
    var (users3, pc3) := Access(users2, pc2);
    var (users4, pc4) := Access(users3, pc3);
    assert Alone(users, Checking(r)) == Alone(users1, pc1);
    assert Alone(users1, pc1) == Alone(users2, pc2);
    assert Alone(users2, pc2) == Alone(users3, pc3);
    assert Alone(users3, pc3) == Alone(users4, pc4);
  }

  // ---------------------------------------------------------------- interleavings

  datatype Event = Arrive(id: nat, r: Request) | Move(id: nat)

  /** The dictionary and the requests in flight; beside them, for the record: the deposits written
      for each user, the books of all writes, and by how much stale writes falsified the total. */
  datatype State = State(
    users: Accounts, threads: map<nat, Pc>,
    deposits: map<User, int>, books: Books, drift: int)

  const INITIAL := State(map[], map[], map[], EMPTY, 0)

  /** The balance that a write assumes to be there, less the balance that it replaces. */
  function Staleness(users: Accounts, pc: Pc): int {
    match pc
    case Creating(user) => 0 - At(users, user)
    case Writing(r, read) => read - At(users, r.user)
    case _ => 0
  }

  function DepositsAfter(deposits: map<User, int>, pc: Pc): map<User, int> {
    match pc
    case Writing(Deposit(user, Whole(amount)), _) => deposits[user := At(deposits, user) + amount]
    case _ => deposits
  }

  function BooksAfter(b: Books, users: Accounts, pc: Pc): Books {
    match pc
    case Writing(Deposit(_, Whole(amount)), _) => b.(deposited := b.deposited + amount)
    case Writing(Charge(_, Whole(amount)), _) => b.(charged := b.charged + amount)
    case Deleting(user) => b.(destroyed := b.destroyed + At(users, user))
    case _ => b
  }

  function Step(s: State, e: Event): State {
    match e
    case Arrive(id, r) =>
      if id in s.threads then s else s.(threads := s.threads[id := Checking(r)])
    case Move(id) =>
      if id !in s.threads then s
      else
        var pc := s.threads[id];
        var (users', pc') := Access(s.users, pc);
        State(users', s.threads[id := pc'], DepositsAfter(s.deposits, pc),
              BooksAfter(s.books, s.users, pc), s.drift + Staleness(s.users, pc))
  }

  function After(events: seq<Event>): State {
    if events == [] then INITIAL else Step(After(events[..|events| - 1]), events[|events| - 1])
  }

  // ---------------------------------------------------------------- safety of every balance

  /** A value held by a request in flight is a balance that its user could have had. */
  predicate HeldIsBounded(pc: Pc, deposits: map<User, int>) {
    match pc
    case Reading(r) => (r.Deposit? || r.Charge?) && Positive(r.amount)
    case Writing(r, read) =>
      && (r.Deposit? || r.Charge?) && Positive(r.amount)
      && 0 <= read <= At(deposits, r.user)
      && (r.Charge? ==> r.amount.value <= read)
    case _ => true
  }

  ghost predicate Bounded(s: State) {
    && (forall user :: At(s.deposits, user) >= 0)
    && (forall user :: user in s.users ==> 0 <= s.users[user] <= At(s.deposits, user))
    && (forall id :: id in s.threads ==> HeldIsBounded(s.threads[id], s.deposits))
  }

  lemma StepKeepsBounded(s: State, e: Event)
    requires Bounded(s)
    ensures Bounded(Step(s, e))
  {
    var s' := Step(s, e);
    forall user
      ensures At(s'.deposits, user) >= At(s.deposits, user)
    {
      assert e.Move? && e.id in s.threads ==> HeldIsBounded(s.threads[e.id], s.deposits);
    }
  }

  /** Whatever races happen - lost updates, racing creates and deletes - no stored balance is ever
      negative or above the total of the deposits ever written for its user. */
  lemma {:induction false} RacesKeepBalancesBounded(events: seq<Event>)
    ensures Bounded(After(events))
  {
    if events != [] {
      RacesKeepBalancesBounded(events[..|events| - 1]);
      StepKeepsBounded(After(events[..|events| - 1]), events[|events| - 1]);
    }
  }

  // ---------------------------------------------------------------- conservation

  function Expected(b: Books): int {
    b.deposited - b.charged - b.destroyed
  }

  ghost predicate Conserved(s: State) {
    Sum(s.users) == Expected(s.books)
  }

  ghost predicate Explained(s: State) {
    Sum(s.users) == Expected(s.books) + s.drift
  }

  lemma StepKeepsExplained(s: State, e: Event)
    requires Bounded(s) && Explained(s)
    ensures Explained(Step(s, e))
  {
    if e.Move? && e.id in s.threads {
      var pc := s.threads[e.id];
      assert HeldIsBounded(pc, s.deposits);
      match pc
      case Creating(user) => SumUpdates(s.users, user, 0);
      case Writing(r, read) => SumUpdates(s.users, r.user, NewBalance(r, read));
      case Deleting(user) => SumRemoves(s.users, user);
      case _ =>
    }
  }

  /** The total of all balances is what the books say, plus exactly what stale writes added or lost. */
  lemma {:induction false} DriftExplainsTheTotal(events: seq<Event>)
    ensures Bounded(After(events)) && Explained(After(events))
  {
    if events == [] {
      assert Sum(INITIAL.users) == 0;
    } else {
      DriftExplainsTheTotal(events[..|events| - 1]);
      StepKeepsBounded(After(events[..|events| - 1]), events[|events| - 1]);
      StepKeepsExplained(After(events[..|events| - 1]), events[|events| - 1]);
    }
  }

  /** In state s, event e is a write whose assumption about the balance no longer holds. */
  predicate IsStale(s: State, e: Event) {
    e.Move? && e.id in s.threads && Staleness(s.users, s.threads[e.id]) != 0
  }

  ghost predicate NeverStale(events: seq<Event>) {
    forall k :: 0 <= k < |events| ==> !IsStale(After(events[..k]), events[k])
  }

  ghost predicate AlwaysConserved(events: seq<Event>) {
    forall k :: 0 <= k <= |events| ==> Conserved(After(events[..k]))
  }

  lemma DriftOfOneEvent(events: seq<Event>, k: nat)
    requires k < |events|
    ensures After(events[..k + 1]) == Step(After(events[..k]), events[k])
    ensures After(events[..k + 1]).drift != After(events[..k]).drift <==> IsStale(After(events[..k]), events[k])
  {
    assert events[..k + 1][..k] == events[..k];
  }

  lemma {:induction false} NoDriftWithoutStaleWrites(events: seq<Event>, k: nat)
    requires k <= |events| && NeverStale(events)
    ensures After(events[..k]).drift == 0
  {
    if k > 0 {
      NoDriftWithoutStaleWrites(events, k - 1);
      DriftOfOneEvent(events, k - 1);
    }
  }

  lemma ConservedExactlyWithoutDrift(events: seq<Event>)
    ensures Conserved(After(events)) <==> After(events).drift == 0
  {
    DriftExplainsTheTotal(events);
  }

  lemma NeverStaleConserves(events: seq<Event>)
    requires NeverStale(events)
    ensures AlwaysConserved(events)
  {
    forall k | 0 <= k <= |events|
      ensures Conserved(After(events[..k]))
    {
      NoDriftWithoutStaleWrites(events, k);
      ConservedExactlyWithoutDrift(events[..k]);
    }
  }

  lemma ConservedIsNeverStale(events: seq<Event>)
    requires AlwaysConserved(events)
    ensures NeverStale(events)
  {
    forall k | 0 <= k < |events|
      ensures !IsStale(After(events[..k]), events[k])
    {
      DriftOfOneEvent(events, k);
      assert Conserved(After(events[..k])) && Conserved(After(events[..k + 1]));
      ConservedExactlyWithoutDrift(events[..k]);
      ConservedExactlyWithoutDrift(events[..k + 1]);
    }
  }

  /** Money is conserved throughout a run exactly when every write finds the balance that its
      request had read (none, for a create): the test that a lock or a compare-and-set would make. */
  lemma ConservedExactlyWhenNeverStale(events: seq<Event>)
    ensures AlwaysConserved(events) <==> NeverStale(events)
  {
    if NeverStale(events) {
      NeverStaleConserves(events);
    }
    if AlwaysConserved(events) {
      ConservedIsNeverStale(events);
    }
  }

  // ---------------------------------------------------------------- one request a user

  /** The user whose account a request in flight is about; None once it is answered. */
  function Holds(pc: Pc): Option<User> {
    match pc
    case Checking(r) => Some(r.user)
    case Creating(user) => Some(user)
    case Reading(r) => Some(r.user)
    case Writing(r, _) => Some(r.user)
    case Deleting(user) => Some(user)
    case Replying(user) => Some(user)
    case Answered(_) => None
  }

  /** What a lock for each user would let through: no unanswered request is about the same user. */
  ghost predicate MayStart(s: State, e: Event) {
    e.Arrive? && e.id !in s.threads ==>
      forall id :: id in s.threads ==> Holds(s.threads[id]) != Some(e.r.user)
  }

  ghost predicate OneRequestPerUser(events: seq<Event>) {
    forall k :: 0 <= k < |events| ==> MayStart(After(events[..k]), events[k])
  }

  /** What a request in flight has seen of its account still holds. */
  predicate SeesTruly(users: Accounts, pc: Pc) {
    match pc
    case Creating(user) => user !in users
    case Writing(r, read) => r.user in users && users[r.user] == read
    case _ => true
  }

  ghost predicate Locked(s: State) {
    && (forall id, id' | id in s.threads && id' in s.threads && id != id' ::
          Holds(s.threads[id]) == None || Holds(s.threads[id]) != Holds(s.threads[id']))
    && (forall id :: id in s.threads ==> SeesTruly(s.users, s.threads[id]))
  }

  /** An access goes on about the same user, or answers, and touches no other account. */
  lemma AccessStaysWithUser(users: Accounts, pc: Pc, other: User)
    ensures var (users', pc') := Access(users, pc);
            && (Holds(pc') == None || Holds(pc') == Holds(pc))
            && (SeesTruly(users, pc) ==> SeesTruly(users', pc'))
            && (Holds(pc) != Some(other) ==>
                  (other in users' <==> other in users) && (other in users ==> users'[other] == users[other]))
  {}

  lemma StepKeepsLocked(s: State, e: Event)
    requires Locked(s) && MayStart(s, e)
    ensures Locked(Step(s, e)) && !IsStale(s, e)
  {
    if e.Move? && e.id in s.threads {
      var s', pc := Step(s, e), s.threads[e.id];
      AccessStaysWithUser(s.users, pc, None);
      forall id | id in s.threads && id != e.id
        ensures SeesTruly(s'.users, s'.threads[id])
      {
        var user := Holds(s.threads[id]);
        if user.Some? {
          AccessStaysWithUser(s.users, pc, user.value);
        }
      }
    }
  }

  lemma {:induction false} LockKeepsWritesFresh(events: seq<Event>, k: nat)
    requires OneRequestPerUser(events) && k <= |events|
    ensures Locked(After(events[..k]))
    ensures k < |events| ==> !IsStale(After(events[..k]), events[k])
  {
    if k > 0 {
      LockKeepsWritesFresh(events, k - 1);
      DriftOfOneEvent(events, k - 1);
      StepKeepsLocked(After(events[..k - 1]), events[k - 1]);
    }
    if k < |events| {
      assert MayStart(After(events[..k]), events[k]);
      StepKeepsLocked(After(events[..k]), events[k]);
    }
  }

  /** If a request starts only while no other request for its user is unanswered, no write is stale and
      money is conserved throughout, however the requests of different users interleave. */
  lemma OneRequestPerUserConserves(events: seq<Event>)
    requires OneRequestPerUser(events)
    ensures NeverStale(events) && AlwaysConserved(events)
  {
    forall k | 0 <= k < |events|
      ensures !IsStale(After(events[..k]), events[k])
    {
      LockKeepsWritesFresh(events, k);
    }
    NeverStaleConserves(events);
  }

  // ---------------------------------------------------------------- late accesses

  /** An account that has been deleted since it was found is answered with 500 and left alone. */
  lemma VanishedAccountIsAnError(s: State, id: nat)
    requires id in s.threads
    requires var pc := s.threads[id];
             || (pc.Reading? && pc.r.user !in s.users)
             || ((pc.Deleting? || pc.Replying?) && pc.user !in s.users)
    ensures Step(s, Move(id)) == s.(threads := s.threads[id := Answered(Response(500, None))])
  {}

  /** A deposit, a charge and a creation store what they have computed, whatever has happened to the
      account since - even if it has been deleted, or created and filled; a deletion deletes what is there
      by then. Just that is recorded. */
  lemma LateWritesStore(s: State, id: nat, user: User, amount: int, read: int)
    requires id in s.threads
    ensures var s' := Step(s, Move(id));
            && (s.threads[id] == Writing(Deposit(user, Whole(amount)), read) ==>
                  && s'.users == s.users[user := read + amount]
                  && s'.deposits == s.deposits[user := At(s.deposits, user) + amount]
                  && s'.books == s.books.(deposited := s.books.deposited + amount))
            && (s.threads[id] == Writing(Charge(user, Whole(amount)), read) ==>
                  && s'.users == s.users[user := read - amount] && s'.deposits == s.deposits
                  && s'.books == s.books.(charged := s.books.charged + amount))
            && (s.threads[id] == Creating(user) ==>
                  s'.users == s.users[user := 0] && s'.deposits == s.deposits && s'.books == s.books)
            && (s.threads[id] == Deleting(user) && user in s.users ==>
                  && s'.users == s.users - {user} && s'.deposits == s.deposits
                  && s'.books == s.books.(destroyed := s.books.destroyed + s.users[user]))
            && (s.threads[id].Writing? || s.threads[id].Creating? ==>
                  s'.threads[id].Replying? && s'.threads - {id} == s.threads - {id})
  {}

  // ---------------------------------------------------------------- races

  lemma Then(events: seq<Event>, e: Event)
    ensures After(events + [e]) == Step(After(events), e)
  {
    assert (events + [e])[..|events|] == events;
  }

  lemma TwoMoves(events: seq<Event>, id: nat) returns (events': seq<Event>)
    ensures After(events') == Step(Step(After(events), Move(id)), Move(id))
  {
    Then(events, Move(id));
    Then(events + [Move(id)], Move(id));
    events' := events + [Move(id)] + [Move(id)];
  }

  predicate IsAt(s: State, id: nat, pc: Pc) {
    id in s.threads && s.threads[id] == pc
  }

  /** Checking and reading: the deposit now holds the balance it saw. */
  lemma DepositReads(s: State, id: nat, user: User, amount: int)
    requires IsAt(s, id, Checking(Deposit(user, Whole(amount)))) && amount > 0 && user in s.users
    ensures Step(Step(s, Move(id)), Move(id))
            == s.(threads := s.threads[id := Writing(Deposit(user, Whole(amount)), s.users[user])])
  {
    var s1 := Step(s, Move(id));
    assert s1 == s.(threads := s.threads[id := Reading(Deposit(user, Whole(amount)))]);
  }

  /** Writing and answering: the deposit stores its own sum, whatever the balance is by now. */
  lemma DepositWrites(s: State, id: nat, user: User, amount: int, read: int)
    requires IsAt(s, id, Writing(Deposit(user, Whole(amount)), read))
    ensures var s' := Step(Step(s, Move(id)), Move(id));
            && s'.users == s.users[user := read + amount]
            && s'.threads == s.threads[id := Answered(Response(200, Some(read + amount)))]
            && s'.books == s.books.(deposited := s.books.deposited + amount)
            && s'.drift == s.drift + read - At(s.users, user)
  {
    var s1 := Step(s, Move(id));
    assert s1.threads == s.threads[id := Replying(user)];
  }

  /** A new account, and two requests that have arrived. */
  lemma TwoArrive(user: User, r: Request, r': Request) returns (events: seq<Event>)
    ensures var s := After(events);
            && s.users == map[user := 0] && s.books == EMPTY && s.drift == 0
            && IsAt(s, 2, Checking(r)) && IsAt(s, 3, Checking(r'))
  {
    Then([], Arrive(1, Create(user)));
    events := [] + [Arrive(1, Create(user))];
    assert After(events).threads == map[1 := Checking(Create(user))];
    events := TwoMoves(events, 1);
    Then(events, Arrive(2, r));
    events := events + [Arrive(2, r)];
    Then(events, Arrive(3, r'));
    events := events + [Arrive(3, r')];
  }

  /** Two deposits of 1 into a new account, both answered with 200, can leave a balance of 1. */
  lemma DepositsCanBeLost(user: User) returns (events: seq<Event>)
    ensures var s := After(events);
            && IsAt(s, 2, Answered(Response(200, Some(1)))) && IsAt(s, 3, Answered(Response(200, Some(1))))
            && s.users == map[user := 1]
            && s.books == Books(2, 0, 0) && s.drift == -1
    ensures !AlwaysConserved(events)
  {
    events := TwoArrive(user, Deposit(user, Whole(1)), Deposit(user, Whole(1)));
    var s0 := After(events);
    events := TwoMoves(events, 2);
    DepositReads(s0, 2, user, 1);
    var s1 := After(events);
    events := TwoMoves(events, 3);
    DepositReads(s1, 3, user, 1);
    var s2 := After(events);
    events := TwoMoves(events, 3);
    DepositWrites(s2, 3, user, 1, 0);
    var s3 := After(events);
    events := TwoMoves(events, 2);
    DepositWrites(s3, 2, user, 1, 0);
    DriftBreaksConservation(events);
  }

  lemma DriftBreaksConservation(events: seq<Event>)
    requires After(events).drift != 0
    ensures !AlwaysConserved(events)
  {
    DriftExplainsTheTotal(events);
    assert events[..|events|] == events;
  }

  /** Checking and deleting. */
  lemma DeletionDeletes(s: State, id: nat, user: User)
    requires IsAt(s, id, Checking(Delete(user))) && user in s.users
    ensures var s' := Step(Step(s, Move(id)), Move(id));
            s'.users == s.users - {user} && s'.threads == s.threads[id := Answered(Response(200, None))]
  {
    var s1 := Step(s, Move(id));
    assert s1 == s.(threads := s.threads[id := Deleting(user)]);
  }

  /** A deposit that has found its account can be answered with 500: the account is deleted before the
      balance is read. */
  lemma AccountCanVanish(user: User) returns (events: seq<Event>)
    ensures var s := After(events);
            && IsAt(s, 2, Answered(Response(500, None))) && IsAt(s, 3, Answered(Response(200, None)))
            && s.users == map[]
  {
    var deposit := Deposit(user, Whole(1));
    events := TwoArrive(user, deposit, Delete(user));
    var s0 := After(events);
    Then(events, Move(2));
    events := events + [Move(2)];
    var s1 := After(events);
    assert s1 == s0.(threads := s0.threads[2 := Reading(deposit)]);
    events := TwoMoves(events, 3);
    DeletionDeletes(s1, 3, user);
    VanishedAccountIsAnError(After(events), 2);
    Then(events, Move(2));
    events := events + [Move(2)];
  }

  /** An account whose deletion was answered with 200 can come back, with a balance: a deposit had read
      its balance before. */
  lemma DeletedAccountCanReturn(user: User) returns (events: seq<Event>)
    ensures var s := After(events);
            && IsAt(s, 2, Answered(Response(200, Some(1)))) && IsAt(s, 3, Answered(Response(200, None)))
            && s.users == map[user := 1]
  {
    events := TwoArrive(user, Deposit(user, Whole(1)), Delete(user));
    var s0 := After(events);
    events := TwoMoves(events, 2);
    DepositReads(s0, 2, user, 1);
    var s1 := After(events);
    events := TwoMoves(events, 3);
    DeletionDeletes(s1, 3, user);
    var s2 := After(events);
    events := TwoMoves(events, 2);
    DepositWrites(s2, 2, user, 1, 0);
  }
}
