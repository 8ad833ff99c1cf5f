/** The billing service: the `users` dictionary and the handlers that change it, one request at a time. */
module Ledger {
  import opened Wrappers

  /** The `user` query parameter; Flask passes None when it is absent, and None can be a key. */
  type User = Option<string>

  /** try_to_int of the `amount` query parameter: int(None) raises, other bad text gives None. */
  datatype Amount = Missing | NotANumber | Whole(value: int)

  type Accounts = map<User, int>

  datatype Request =
    | Create(user: User)
    | Deposit(user: User, amount: Amount)
    | Charge(user: User, amount: Amount)
    | Delete(user: User)
    | Info(user: User)

  /** Status, and the balance in the body of a successful account response. */
  datatype Response = Response(status: int, balance: Option<int>)

  function Refuse(status: int): Response {
    Response(status, None)
  }

  /** An error text 'User ' + user raises a TypeError when user is None, which Flask answers with 500. */
  function RefuseNaming(user: User, status: int): Response {
    Refuse(if user.None? then 500 else status)
  }

  predicate Positive(amount: Amount) {
    amount.Whole? && amount.value > 0
  }

  /** The dictionary and the response after one request. */
  function Handle(users: Accounts, r: Request): (Accounts, Response) {
    match r
    case Create(user) =>
      if user in users then (users, RefuseNaming(user, 400))
      else (users[user := 0], Response(200, Some(0)))
    case Deposit(user, amount) =>
      if amount.Missing? then (users, Refuse(500))
      else if user !in users then (users, RefuseNaming(user, 400))
      else if !Positive(amount) then (users, Refuse(400))
      else (users[user := users[user] + amount.value], Response(200, Some(users[user] + amount.value)))
    case Charge(user, amount) =>
      if amount.Missing? then (users, Refuse(500))
      else if user !in users then (users, RefuseNaming(user, 400))
      else if !Positive(amount) || users[user] - amount.value < 0 then (users, Refuse(400))
      else (users[user := users[user] - amount.value], Response(200, Some(users[user] - amount.value)))
    case Delete(user) =>
      if user in users then (users - {user}, Response(200, None)) else (users, RefuseNaming(user, 404))
    case Info(user) =>
      if user in users then (users, Response(200, Some(users[user]))) else (users, RefuseNaming(user, 400))
  }

  class BillingService {
    var users: Accounts

    constructor ()
      ensures users == map[]
    {
      users := map[];
    }

    method AddAccount(user: User) returns (r: Response)
      modifies this
      ensures (users, r) == Handle(old(users), Create(user))
    {
      if user in users {
        return RefuseNaming(user, 400);
      }
      users := users[user := 0];
      r := GetAccountInfoByUsername(user);
    }

    method DepositAccount(user: User, amount: Amount) returns (r: Response)
      modifies this
      ensures (users, r) == Handle(old(users), Deposit(user, amount))
    {
      if amount.Missing? {
        return Refuse(500);
      }
      if user in users {
        if amount.NotANumber? || amount.value <= 0 {
          return Refuse(400);
        }
        users := users[user := users[user] + amount.value];
        r := GetAccountInfoByUsername(user);
      } else {
        r := RefuseNaming(user, 400);
      }
    }

    method ChargeAccount(user: User, amount: Amount) returns (r: Response)
      modifies this
      ensures (users, r) == Handle(old(users), Charge(user, amount))
    {
      if amount.Missing? {
        return Refuse(500);
      }
      if user in users {
        if amount.NotANumber? || amount.value <= 0 {
          return Refuse(400);
        }
        var diff := users[user] - amount.value;
        if diff < 0 {
          return Refuse(400);
        }
        users := users[user := diff];
        r := GetAccountInfoByUsername(user);
      } else {
        r := RefuseNaming(user, 400);
      }
    }

    method RemoveAccount(user: User) returns (r: Response)
      modifies this
      ensures (users, r) == Handle(old(users), Delete(user))
    {
      if user in users {
        users := users - {user};
        r := Response(200, None);
      } else {
        r := RefuseNaming(user, 404);
      }
    }

    method GetAccountInfo(user: User) returns (r: Response)
      ensures (users, r) == Handle(users, Info(user))
    {
      if user in users {
        r := GetAccountInfoByUsername(user);
      } else {
        r := RefuseNaming(user, 400);
      }
    }

    method GetAccountInfoByUsername(user: User) returns (r: Response)
      requires user in users
      ensures r == Response(200, Some(users[user]))
    {
      r := Response(200, Some(users[user]));
    }
  }
}
