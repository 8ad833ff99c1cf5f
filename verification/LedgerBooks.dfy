/** Conservation in the billing service when requests are served one at a time. */
module LedgerBooks {
  import opened Wrappers
  import opened MapSum
  import opened Ledger

  predicate Accepted(users: Accounts, r: Request) {
    Handle(users, r).1.status == 200
  }

  /** What an observer of requests and responses books for one request. */
  datatype Books = Books(deposited: int, charged: int, destroyed: int)

  const EMPTY := Books(0, 0, 0)

  function Booked(b: Books, users: Accounts, r: Request): Books {
    if !Accepted(users, r) then b
    else
      match r
      case Deposit(_, amount) => if amount.Whole? then b.(deposited := b.deposited + amount.value) else b
      case Charge(_, amount) => if amount.Whole? then b.(charged := b.charged + amount.value) else b
      case Delete(user) => b.(destroyed := b.destroyed + At(users, user))
      case _ => b
  }

  function Served(users: Accounts, requests: seq<Request>): Accounts {
    if requests == [] then users
    else Handle(Served(users, requests[..|requests| - 1]), requests[|requests| - 1]).0
  }

  function Accounted(users: Accounts, requests: seq<Request>): Books {
    if requests == [] then EMPTY
    else
      var front := requests[..|requests| - 1];
      Booked(Accounted(users, front), Served(users, front), requests[|requests| - 1])
  }

  ghost predicate Solvent(users: Accounts) {
    forall user :: user in users ==> users[user] >= 0
  }

  // ---------------------------------------------------------------- the answers

  /** Accounts of a named user: an account is created once, shown and deleted if it is there - whatever
      it holds. */
  lemma AccountAnswers(users: Accounts, name: string)
    ensures var user: User := Some(name);
            && Handle(users, Create(user))
               == (if user in users then (users, Response(400, None)) else (users[user := 0], Response(200, Some(0))))
            && Handle(users, Info(user))
               == (users, if user in users then Response(200, Some(users[user])) else Response(400, None))
            && Handle(users, Delete(user))
               == (if user in users then (users - {user}, Response(200, None)) else (users, Response(404, None)))
  {}

  /** Deposits and charges of a named user: 200 exactly for a known user and a positive whole amount - that
      the balance covers, for a charge; 400 for everything else that was given. */
  lemma AmountAnswers(users: Accounts, name: string, amount: Amount)
    requires !amount.Missing?
    ensures var user: User := Some(name);
            Handle(users, Deposit(user, amount))
            == if user in users && amount.Whole? && amount.value > 0 then
                 (users[user := users[user] + amount.value], Response(200, Some(users[user] + amount.value)))
               else (users, Response(400, None))
    ensures var user: User := Some(name);
            Handle(users, Charge(user, amount))
            == if user in users && amount.Whole? && 0 < amount.value <= users[user] then
                 (users[user := users[user] - amount.value], Response(200, Some(users[user] - amount.value)))
               else (users, Response(400, None))
  {}

  /** A missing amount is answered with 500; so is a missing name, where an error text would be built from
      it. An account without a name can be created, once. */
  lemma MissingAnswers(users: Accounts, user: User, amount: Amount)
    ensures Handle(users, Deposit(user, Missing)) == (users, Response(500, None))
    ensures Handle(users, Charge(user, Missing)) == (users, Response(500, None))
    ensures None in users ==> Handle(users, Create(None)) == (users, Response(500, None))
    ensures None !in users ==>
              && Handle(users, Create(None)) == (users[None := 0], Response(200, Some(0)))
              && Handle(users, Delete(None)) == Handle(users, Info(None)) == (users, Response(500, None))
              && Handle(users, Deposit(None, amount)) == Handle(users, Charge(None, amount))
              == (users, Response(500, None))
  {}

  /** What is booked: the amount of each deposit and charge answered with 200, and what a deleted account
      still held. */
  lemma BookedIs(b: Books, users: Accounts, r: Request)
    ensures Handle(users, r).1.status != 200 || r.Create? || r.Info? ==> Booked(b, users, r) == b
    ensures Handle(users, r).1.status == 200 ==>
              match r
              case Deposit(_, amount) =>
                amount.Whole? && Booked(b, users, r) == Books(b.deposited + amount.value, b.charged, b.destroyed)
              case Charge(_, amount) =>
                amount.Whole? && Booked(b, users, r) == Books(b.deposited, b.charged + amount.value, b.destroyed)
              case Delete(user) =>
                user in users && Booked(b, users, r) == Books(b.deposited, b.charged, b.destroyed + users[user])
              case _ => true
  {}

  /** Each request meets the ledger, and adds to the books, that the ones before it have left. */
  lemma RequestsInOrder(users: Accounts, requests: seq<Request>, r: Request)
    ensures Served(users, []) == users && Accounted(users, []) == Books(0, 0, 0)
    ensures Served(users, requests + [r]) == Handle(Served(users, requests), r).0
    ensures Accounted(users, requests + [r]) == Booked(Accounted(users, requests), Served(users, requests), r)
  {
    assert (requests + [r])[..|requests|] == requests;
  }

  // ---------------------------------------------------------------- what requests undo and keep

  /** A request that is not answered with 200 leaves the whole ledger as it was. */
  lemma RejectedChangesNothing(users: Accounts, r: Request)
    ensures !Accepted(users, r) ==> Handle(users, r).0 == users
    ensures Handle(users, r).0 != users ==> Accepted(users, r)
  {}

  /** A charge is accepted exactly when the account holds a positive whole amount that was asked for;
      then the whole amount moves, and from no other account. */
  lemma ChargeAcceptedExactlyWhen(users: Accounts, user: User, amount: Amount)
    ensures Accepted(users, Charge(user, amount)) <==>
              amount.Whole? && user in users && 0 < amount.value <= users[user]
    ensures Accepted(users, Charge(user, amount)) ==>
              var after := Handle(users, Charge(user, amount)).0;
              && after.Keys == users.Keys
              && after[user] == users[user] - amount.value
              && forall other :: other in users && other != user ==> after[other] == users[other]
  {}

  /** A response that shows a balance shows the one that the account has after the request; every
      accepted request but a deletion is answered with it. */
  lemma ResponsesShowTheBalance(users: Accounts, r: Request)
    ensures var (users', response) := Handle(users, r);
            && (response.balance.Some? ==> r.user in users' && response.balance.value == users'[r.user])
            && (response.balance.Some? <==> response.status == 200 && !r.Delete?)
            && (response.status == 200 ==> users' - {r.user} == users - {r.user})
  {}

  /** A deposit and an equal charge restore the ledger; so do creation and deletion of an account. */
  lemma ChargeUndoesDeposit(users: Accounts, user: User, amount: Amount)
    requires Solvent(users) && Accepted(users, Deposit(user, amount))
    ensures Served(users, [Deposit(user, amount), Charge(user, amount)]) == users
  {
    ServedTwo(users, Deposit(user, amount), Charge(user, amount));
  }

  lemma DeleteUndoesCreate(users: Accounts, user: User)
    ensures Accepted(users, Create(user)) ==> Served(users, [Create(user), Delete(user)]) == users
  {
    ServedTwo(users, Create(user), Delete(user));
  }

  lemma ServedTwo(users: Accounts, r1: Request, r2: Request)
    ensures Served(users, [r1, r2]) == Handle(Handle(users, r1).0, r2).0
  {
    assert [r1, r2][..1] == [r1] && [r1][..0] == [];
    assert Served(users, [r1]) == Handle(users, r1).0;
  }

  lemma HandleConserves(users: Accounts, b: Books, r: Request)
    ensures var users', b' := Handle(users, r).0, Booked(b, users, r);
            Sum(users') - Sum(users)
            == (b'.deposited - b.deposited) - (b'.charged - b.charged) - (b'.destroyed - b.destroyed)
  {
    match r
    case Create(user) => SumUpdates(users, user, 0);
    case Deposit(user, amount) =>
      if Accepted(users, r) {
        SumUpdates(users, user, users[user] + amount.value);
      }
    case Charge(user, amount) =>
      if Accepted(users, r) {
        SumUpdates(users, user, users[user] - amount.value);
      }
    case Delete(user) => SumRemoves(users, user);
    case Info(_) =>
  }

  /** Over any sequence of requests the balances change by the deposits answered with 200, less the
      charges answered with 200, less what deleted accounts still held; and none becomes negative. */
  lemma {:induction false} MoneyIsConserved(users: Accounts, requests: seq<Request>)
    requires Solvent(users)
    ensures Solvent(Served(users, requests))
    ensures var b := Accounted(users, requests);
            Sum(Served(users, requests)) == Sum(users) + b.deposited - b.charged - b.destroyed
  {
    if requests != [] {
      var front := requests[..|requests| - 1];
      MoneyIsConserved(users, front);
      HandleConserves(Served(users, front), Accounted(users, front), requests[|requests| - 1]);
    }
  }
}
