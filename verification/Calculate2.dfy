/** control-center's calculate2 in its two copies, and the gateway that repeats it: one client alone. */
module Calculate2 {
  import opened Wrappers
  import opened JavaInt
  import opened Ledger

  /** The docker copy forwards the status of the calculation service, the microservices copy answers 200. */
  datatype Variant = Docker | Microservices

  /** The JSON price, as float(price) and as the billing service reads str(price); None where that raises. */
  datatype Price = Price(asFloat: Option<real>, asInt: Option<int>)

  datatype Job = Job(user: string, calculationType: string, price: Price)

  /** What becomes of a request to another service: it is served and its response arrives; or it
      fails, having reached the service or not, and the caller sees a status or (None) an exception. */
  datatype Delivery = Served | Failed(reached: bool, seen: Option<int>)

  /** The surroundings of one attempt: two billing requests, the calculation service's answer, and
      whether the attempt outlasts `perTryTimeout`. An attempt that is cut off is taken here to have run
      its course before the next one starts; Calculate2Clients lets it run on beside the others. */
  datatype Env = Env(info: Delivery, charge: Delivery, calculation: Option<int>, timedOut: bool)

  /** `attempts: 20`: up to 20 repetitions, so 21 attempts in all. */
  const RETRIES: nat := 20

  /** `retryOn: gateway-error`. */
  predicate GatewayError(status: int) {
    status == 502 || status == 503 || status == 504
  }

  function AmountOf(price: Price): Amount {
    if price.asInt.Some? then Whole(price.asInt.value) else NotANumber
  }

  function Cost(job: Job): int {
    if job.price.asInt.Some? then job.price.asInt.value else 0
  }

  function BillingUser(job: Job): User {
    Some(job.user)
  }

  predicate Known(calculationType: string) {
    calculationType in ["add", "multiply", "prime", "fibonacci"]
  }

  /** The status for a price that is rejected before anything is asked of billing. */
  function PriceRefusal(price: Price): Option<int> {
    if price.asFloat.None? then Some(500)
    else if price.asFloat.value < 1.0 then Some(400)
    else None
  }

  /** What the billing service does with a request, and the status that control-center sees. */
  function Ask(users: Accounts, r: Request, d: Delivery): (Accounts, Option<int>) {
    var (users', response) := Handle(users, r);
    if d.Served? then (users', Some(response.status))
    else (if d.reached then users' else users, d.seen)
  }

  /** The charge took effect in the billing service, whatever control-center saw of it. */
  predicate Paid(users: Accounts, job: Job, d: Delivery) {
    (d.Served? || d.reached) && Handle(users, Charge(BillingUser(job), AmountOf(job.price))).1.status == 200
  }

  /** calculate2's answer after the account request or the charge was answered with something else than 200. */
  function Relay(seen: Option<int>): int {
    if seen.None? then 500 else 400
  }

  function CalculationStatus(variant: Variant, job: Job, reply: Option<int>): int {
    if !Known(job.calculationType) then 403
    else if reply.None? then 500
    else if variant == Docker then reply.value
    else 200
  }

  /** The accounts afterwards, how many attempts were paid for and how many cut off, and the status. */
  datatype Outcome = Outcome(users: Accounts, paid: nat, timeouts: nat, status: int)

  /** calculate2 as a whole, with the status it returns. */
  function Attempt(variant: Variant, users: Accounts, job: Job, env: Env): Outcome {
    var refusal := PriceRefusal(job.price);
    if refusal.Some? then Outcome(users, 0, 0, refusal.value)
    else
      var (_, info) := Ask(users, Info(BillingUser(job)), env.info);
      if info != Some(200) then Outcome(users, 0, 0, Relay(info))
      else
        var (users', charge) := Ask(users, Charge(BillingUser(job), AmountOf(job.price)), env.charge);
        var paid := if Paid(users, job, env.charge) then 1 else 0;
        if charge != Some(200) then Outcome(users', paid, 0, Relay(charge))
        else Outcome(users', paid, 0, CalculationStatus(variant, job, env.calculation))
  }

  /** The status that the gateway sees of an attempt: its own 504 where it has given the attempt up. */
  function Seen(env: Env, status: int): int {
    if env.timedOut then 504 else status
  }

  function Tried(variant: Variant, users: Accounts, job: Job, env: Env): Outcome {
    var o := Attempt(variant, users, job, env);
    o.(timeouts := if env.timedOut then 1 else 0, status := Seen(env, o.status))
  }

  /** The gateway from attempt number `attempt` on. */
  function Delivered(variant: Variant, users: Accounts, job: Job, envs: nat -> Env, attempt: nat): Outcome
    decreases RETRIES + 1 - attempt
  {
    var o := Tried(variant, users, job, envs(attempt));
    if GatewayError(o.status) && attempt <= RETRIES
    then
      var rest := Delivered(variant, o.users, job, envs, attempt + 1);
      rest.(paid := o.paid + rest.paid, timeouts := o.timeouts + rest.timeouts)
    else o
  }

  /** The accounts and the status at the end, seen from after attempt number `attempts`. */
  function Rest(
      variant: Variant, users: Accounts, job: Job, envs: nat -> Env, attempts: nat, status: int): (Accounts, int)
  {
    if GatewayError(status) && attempts <= RETRIES
    then
      var o := Delivered(variant, users, job, envs, attempts + 1);
      (o.users, o.status)
    else (users, status)
  }

  lemma TryThenRest(variant: Variant, users: Accounts, job: Job, envs: nat -> Env, attempt: nat)
    ensures var o, a := Delivered(variant, users, job, envs, attempt), Tried(variant, users, job, envs(attempt));
            (o.users, o.status) == Rest(variant, a.users, job, envs, attempt, a.status)
  {}

  class ControlCenter {
    const billing: BillingService
    const variant: Variant

    constructor (billing: BillingService, variant: Variant)
      ensures this.billing == billing && this.variant == variant
    {
      this.billing := billing;
      this.variant := variant;
    }

    method GetAccountInfo(user: User, d: Delivery) returns (seen: Option<int>)
      ensures seen == Ask(billing.users, Info(user), d).1
    {
      var r := billing.GetAccountInfo(user);
      seen := if d.Served? then Some(r.status) else d.seen;
    }

    method ChargeAccount(user: User, amount: Amount, d: Delivery) returns (seen: Option<int>)
      modifies billing
      ensures (billing.users, seen) == Ask(old(billing.users), Charge(user, amount), d)
    {
      if d.Failed? && !d.reached {
        return d.seen;
      }
      var r := billing.ChargeAccount(user, amount);
      seen := if d.Served? then Some(r.status) else d.seen;
    }

    method Calculate2(job: Job, env: Env) returns (status: int)
      modifies billing
      ensures var o := Attempt(variant, old(billing.users), job, env);
              billing.users == o.users && status == o.status
    {
      if job.price.asFloat.None? {
        return 500;
      }
      if job.price.asFloat.value < 1.0 {
        return 400;
      }
      var info := GetAccountInfo(BillingUser(job), env.info);
      if info == None {
        return 500;
      }
      if info.value != 200 {
        return 400;
      }
      var charge := ChargeAccount(BillingUser(job), AmountOf(job.price), env.charge);
      if charge == None {
        return 500;
      }
      if charge.value != 200 {
        return 400;
      }
      var t := job.calculationType;
      if t == "add" || t == "multiply" || t == "prime" || t == "fibonacci" {
        if env.calculation == None {
          return 500;
        }
        return if variant == Docker then env.calculation.value else 200;
      }
      return 403;
    }

    /** The gateway route to /calculate2. */
    method Deliver(job: Job, envs: nat -> Env) returns (status: int, attempts: nat)
      modifies billing
      ensures var o := Delivered(variant, old(billing.users), job, envs, 1);
              billing.users == o.users && status == o.status
      ensures 1 <= attempts <= RETRIES + 1
    {
      ghost var users := billing.users;
      attempts := 1;
      status := Calculate2(job, envs(1));
      status := Seen(envs(1), status);
      TryThenRest(variant, users, job, envs, 1);
      ghost var outcome := Rest(variant, billing.users, job, envs, attempts, status);
      while GatewayError(status) && attempts <= RETRIES
        invariant 1 <= attempts <= RETRIES + 1
        invariant Rest(variant, billing.users, job, envs, attempts, status) == outcome
        decreases RETRIES + 1 - attempts
      {
        users := billing.users;
        attempts := attempts + 1;
        status := Calculate2(job, envs(attempts));
        status := Seen(envs(attempts), status);
        TryThenRest(variant, users, job, envs, attempts);
      }
    }
  }

  // ---------------------------------------------------------------- the status of an attempt

  /** A price that is no number is answered with 500, one below 1 with 400; nothing is charged. */
  lemma BadPrices(variant: Variant, users: Accounts, job: Job, env: Env)
    ensures job.price.asFloat == None ==> Attempt(variant, users, job, env) == Outcome(users, 0, 0, 500)
    ensures job.price.asFloat.Some? && job.price.asFloat.value < 1.0 ==>
              Attempt(variant, users, job, env) == Outcome(users, 0, 0, 400)
  {}

  /** Before the charge: 400 for a client without an account, or whatever but 200 the account request is
      answered with; 500 if it raises. Nothing is charged. */
  lemma NoAccount(variant: Variant, users: Accounts, job: Job, env: Env)
    requires job.price.asFloat.Some? && job.price.asFloat.value >= 1.0
    ensures env.info == Served && Some(job.user) !in users ==>
              Attempt(variant, users, job, env) == Outcome(users, 0, 0, 400)
    ensures env.info.Failed? && env.info.seen != Some(200) ==>
              Attempt(variant, users, job, env)
              == Outcome(users, 0, 0, if env.info.seen == None then 500 else 400)
  {}

  /** The charge: 400 if the balance does not cover a whole positive price. If it does, and the response is
      lost, the account is charged all the same, exactly when the request had reached billing. */
  lemma ChargeOutcomes(variant: Variant, users: Accounts, job: Job, env: Env)
    requires job.price.asFloat.Some? && job.price.asFloat.value >= 1.0
    requires env.info == Served && Some(job.user) in users
    ensures env.charge == Served
            && !(job.price.asInt.Some? && 0 < job.price.asInt.value <= users[Some(job.user)]) ==>
              Attempt(variant, users, job, env) == Outcome(users, 0, 0, 400)
    ensures env.charge.Failed? && env.charge.seen != Some(200)
            && job.price.asInt.Some? && 0 < job.price.asInt.value <= users[Some(job.user)] ==>
              var charged := users[Some(job.user) := users[Some(job.user)] - job.price.asInt.value];
              var status := if env.charge.seen == None then 500 else 400;
              Attempt(variant, users, job, env)
              == if env.charge.reached then Outcome(charged, 1, 0, status) else Outcome(users, 0, 0, status)
  {}

  /** After the charge: 403 for a type that is none of the four, 500 if the calculation service raises;
      else its status in the docker copy, 200 in the microservices copy. */
  lemma CalculationOutcomes(variant: Variant, users: Accounts, job: Job, env: Env)
    requires job.price.asFloat.Some? && job.price.asFloat.value >= 1.0 && job.price.asInt.Some?
    requires Some(job.user) in users && 0 < job.price.asInt.value <= users[Some(job.user)]
    requires env.info == Served && env.charge == Served
    ensures var charged := users[Some(job.user) := users[Some(job.user)] - job.price.asInt.value];
            Attempt(variant, users, job, env)
            == Outcome(charged, 1, 0,
                 if job.calculationType !in {"add", "multiply", "prime", "fibonacci"} then 403
                 else match env.calculation
                      case None => 500
                      case Some(status) => if variant == Docker then status else 200)
  {}

  // ---------------------------------------------------------------- what a client pays

  function Debited(users: Accounts, user: User, amount: int): Accounts {
    if user in users then users[user := users[user] - amount] else users
  }

  /** The account is lowered by `paid` times the price, which it could afford; nothing else changes. */
  ghost predicate Pays(users: Accounts, job: Job, paid: nat, users': Accounts) {
    var user, amount := BillingUser(job), paid * Cost(job);
    && users' == Debited(users, user, amount)
    && (paid > 0 ==> user in users && 0 < Cost(job) && amount <= users[user])
  }

  lemma AttemptPays(variant: Variant, users: Accounts, job: Job, env: Env)
    ensures var o := Attempt(variant, users, job, env);
            && o.paid <= 1
            && Pays(users, job, o.paid, o.users)
            && (o.paid == 1 && variant == Microservices ==> !GatewayError(o.status))
  {}

  lemma PaymentsAdd(users: Accounts, job: Job, p: nat, users': Accounts, q: nat, users'': Accounts)
    requires Pays(users, job, p, users') && Pays(users', job, q, users'')
    ensures Pays(users, job, p + q, users'')
  {
    var x, y := p * Cost(job), q * Cost(job);
    assert (p + q) * Cost(job) == x + y;
    assert p == 0 ==> x == 0;
    assert q == 0 ==> y == 0;
  }

  /** Over all attempts of one request, with any faults: the client's account is lowered by exactly
      the price times the number of attempts whose charge took effect, and no other account changes.
      That number is at most 21 and what the balance affords; in the microservices copy it is at most
      one more than the number of attempts that the gateway cut off. */
  lemma {:induction false} PaysForEachChargeThatTookEffect(
      variant: Variant, users: Accounts, job: Job, envs: nat -> Env, attempt: nat)
    requires 1 <= attempt <= RETRIES + 1
    ensures var o := Delivered(variant, users, job, envs, attempt);
            && Pays(users, job, o.paid, o.users)
            && o.paid <= RETRIES + 2 - attempt
            && (variant == Microservices ==> o.paid <= 1 + o.timeouts)
    decreases RETRIES + 1 - attempt
  {
    var o := Tried(variant, users, job, envs(attempt));
    AttemptPays(variant, users, job, envs(attempt));
    if GatewayError(o.status) && attempt <= RETRIES {
      PaysForEachChargeThatTookEffect(variant, o.users, job, envs, attempt + 1);
      var rest := Delivered(variant, o.users, job, envs, attempt + 1);
      PaymentsAdd(users, job, o.paid, o.users, rest.paid, rest.users);
    }
  }

  /** A charged attempt is repeated: the gateway cut it off, or was given a gateway error of the
      calculation service. */
  predicate Repeats(variant: Variant, job: Job, env: Env) {
    || env.timedOut
    || (variant == Docker && Known(job.calculationType)
        && env.calculation.Some? && GatewayError(env.calculation.value))
  }

  /** How many charged attempts in a row, from this one, the gateway would repeat. */
  function Repeated(variant: Variant, job: Job, envs: nat -> Env, attempt: nat): nat
    decreases RETRIES + 1 - attempt
  {
    if attempt <= RETRIES && Repeats(variant, job, envs(attempt)) then 1 + Repeated(variant, job, envs, attempt + 1)
    else 0
  }

  /** How many attempts in a row, from this one, the gateway cuts off and repeats. */
  function CutOff(envs: nat -> Env, attempt: nat): nat
    decreases RETRIES + 1 - attempt
  {
    if attempt <= RETRIES && envs(attempt).timedOut then 1 + CutOff(envs, attempt + 1) else 0
  }

  ghost predicate BillingIsReliable(envs: nat -> Env) {
    forall i: nat :: envs(i).info.Served? && envs(i).charge.Served?
  }

  /** q is how often a balance of b affords a. */
  predicate Affords(b: int, a: int, q: nat) {
    q * a <= b < q * a + a
  }

  lemma OneLess(b: int, a: int, q: nat)
    requires 0 < a && 0 <= b && Affords(b, a, q)
    ensures b < a <==> q == 0
    ensures b >= a ==> q >= 1 && Affords(b - a, a, q - 1)
  {
    Multiples(a, q);
    assert (q - 1) * a == q * a - a;
  }

  lemma AffordsQuotient(b: int, a: int)
    requires 0 < a && 0 <= b
    ensures b / a >= 0 && Affords(b, a, b / a)
    ensures b >= a ==> b / a >= 1
  {
    DivAtMost(b, a);
    assert b == b / a * a + b % a;
    OneLess(b, a, b / a);
  }

  /** A client that cannot afford the price pays nothing and sees 400 once an attempt is not cut off. */
  lemma {:induction false} TooPoorToPay(variant: Variant, users: Accounts, job: Job, envs: nat -> Env, attempt: nat)
    requires 1 <= attempt <= RETRIES + 1 && BillingIsReliable(envs)
    requires PriceRefusal(job.price) == None && BillingUser(job) in users && users[BillingUser(job)] < Cost(job)
    ensures var o := Delivered(variant, users, job, envs, attempt);
            o.paid == 0 && o.status == Seen(envs(attempt + CutOff(envs, attempt)), 400)
    decreases RETRIES + 1 - attempt
  {
    var env := envs(attempt);
    var o := Tried(variant, users, job, env);
    assert env.info.Served? && env.charge.Served?;
    assert o.users == users && o.paid == 0 && o.status == Seen(env, 400);
    if attempt <= RETRIES && env.timedOut {
      TooPoorToPay(variant, users, job, envs, attempt + 1);
    }
  }

  /** An attempt of a client that can afford the price is paid for, and repeated as Repeats says. */
  lemma AffordableTry(variant: Variant, users: Accounts, job: Job, env: Env)
    requires env.info.Served? && env.charge.Served? && PriceRefusal(job.price) == None
    requires BillingUser(job) in users && 1 <= Cost(job) <= users[BillingUser(job)]
    ensures var o, user := Tried(variant, users, job, env), BillingUser(job);
            && o.users == users[user := users[user] - Cost(job)] && o.paid == 1
            && o.status == Seen(env, CalculationStatus(variant, job, env.calculation))
            && (GatewayError(o.status) <==> Repeats(variant, job, env))
  {}

  /** The status that the client sees if it can afford this many attempts, this one being the next. */
  function FinalStatus(variant: Variant, job: Job, envs: nat -> Env, attempt: nat, affordable: nat): int {
    var r := Repeated(variant, job, envs, attempt);
    if affordable > r then Seen(envs(attempt + r), CalculationStatus(variant, job, envs(attempt + r).calculation))
    else Seen(envs(attempt + affordable + CutOff(envs, attempt + affordable)), 400)
  }

  lemma FinalStatusRepeats(variant: Variant, job: Job, envs: nat -> Env, attempt: nat, affordable: nat)
    requires attempt <= RETRIES && Repeats(variant, job, envs(attempt)) && affordable >= 1
    ensures FinalStatus(variant, job, envs, attempt, affordable)
            == FinalStatus(variant, job, envs, attempt + 1, affordable - 1)
  {
    var r := Repeated(variant, job, envs, attempt + 1);
    assert Repeated(variant, job, envs, attempt) == r + 1;
    assert attempt + (r + 1) == attempt + 1 + r && attempt + affordable == attempt + 1 + (affordable - 1);
  }

  /** The delivery from this attempt on, for a client that can afford so many. */
  ghost predicate AsAfforded(
      variant: Variant, users: Accounts, job: Job, envs: nat -> Env, attempt: nat, affordable: nat) {
    var o := Delivered(variant, users, job, envs, attempt);
    && o.paid == Min(Repeated(variant, job, envs, attempt) + 1, affordable)
    && o.status == FinalStatus(variant, job, envs, attempt, affordable)
  }

  lemma NothingAffordable(variant: Variant, users: Accounts, job: Job, envs: nat -> Env, attempt: nat)
    requires 1 <= attempt <= RETRIES + 1 && BillingIsReliable(envs)
    requires PriceRefusal(job.price) == None && BillingUser(job) in users && users[BillingUser(job)] < Cost(job)
    ensures AsAfforded(variant, users, job, envs, attempt, 0)
  {
    TooPoorToPay(variant, users, job, envs, attempt);
  }

  /** An attempt that is paid for and not repeated is the last. */
  lemma LastAffordableTry(
      variant: Variant, users: Accounts, job: Job, envs: nat -> Env, attempt: nat, affordable: nat)
    requires BillingIsReliable(envs) && PriceRefusal(job.price) == None && affordable >= 1
    requires BillingUser(job) in users && 1 <= Cost(job) <= users[BillingUser(job)]
    requires attempt > RETRIES || !Repeats(variant, job, envs(attempt))
    ensures AsAfforded(variant, users, job, envs, attempt, affordable)
  {
    assert envs(attempt).info.Served? && envs(attempt).charge.Served?;
    AffordableTry(variant, users, job, envs(attempt));
  }

  /** After one that is repeated the delivery goes on, with one payment less to make. */
  lemma RepeatedTry(variant: Variant, users: Accounts, job: Job, envs: nat -> Env, attempt: nat)
    requires BillingIsReliable(envs) && PriceRefusal(job.price) == None
    requires BillingUser(job) in users && 1 <= Cost(job) <= users[BillingUser(job)]
    requires attempt <= RETRIES && Repeats(variant, job, envs(attempt))
    ensures var user, o := BillingUser(job), Delivered(variant, users, job, envs, attempt);
            var rest := Delivered(variant, users[user := users[user] - Cost(job)], job, envs, attempt + 1);
            o.paid == 1 + rest.paid && o.status == rest.status
  {
    assert envs(attempt).info.Served? && envs(attempt).charge.Served?;
    AffordableTry(variant, users, job, envs(attempt));
  }

  lemma RepeatedIsAsAfforded(
      variant: Variant, users: Accounts, job: Job, envs: nat -> Env, attempt: nat, affordable: nat)
    requires BillingIsReliable(envs) && PriceRefusal(job.price) == None && affordable >= 1
    requires BillingUser(job) in users && 1 <= Cost(job) <= users[BillingUser(job)]
    requires attempt <= RETRIES && Repeats(variant, job, envs(attempt))
    requires var user := BillingUser(job);
             AsAfforded(variant, users[user := users[user] - Cost(job)], job, envs, attempt + 1, affordable - 1)
    ensures AsAfforded(variant, users, job, envs, attempt, affordable)
  {
    RepeatedTry(variant, users, job, envs, attempt);
    FinalStatusRepeats(variant, job, envs, attempt, affordable);
  }

  lemma {:induction false} PaysWhatItAffords(
      variant: Variant, users: Accounts, job: Job, envs: nat -> Env, attempt: nat, affordable: nat)
    requires 1 <= attempt <= RETRIES + 1 && BillingIsReliable(envs)
    requires PriceRefusal(job.price) == None && Cost(job) >= 1
    requires BillingUser(job) in users && users[BillingUser(job)] >= 0
    requires Affords(users[BillingUser(job)], Cost(job), affordable)
    ensures AsAfforded(variant, users, job, envs, attempt, affordable)
    decreases RETRIES + 1 - attempt
  {
    var user := BillingUser(job);
    OneLess(users[user], Cost(job), affordable);
    if affordable == 0 {
      NothingAffordable(variant, users, job, envs, attempt);
    } else if attempt <= RETRIES && Repeats(variant, job, envs(attempt)) {
      var users' := users[user := users[user] - Cost(job)];
      PaysWhatItAffords(variant, users', job, envs, attempt + 1, affordable - 1);
      RepeatedIsAsAfforded(variant, users, job, envs, attempt, affordable);
    } else {
      LastAffordableTry(variant, users, job, envs, attempt, affordable);
    }
  }

  /** With reliable billing, how often a client with balance b pays a price a >= 1 is exactly
      min(r + 1, b / a), r being the number of attempts in a row (at most 20) that would be repeated even
      though charged. If the balance lasts that long, the client sees the outcome of the attempt after
      them; otherwise 400 as soon as an attempt is not cut off - however often it has paid. */
  lemma PaysExactly(variant: Variant, users: Accounts, job: Job, envs: nat -> Env)
    requires BillingIsReliable(envs) && PriceRefusal(job.price) == None && Cost(job) >= 1
    requires BillingUser(job) in users && users[BillingUser(job)] >= 0
    ensures var o, affordable := Delivered(variant, users, job, envs, 1), users[BillingUser(job)] / Cost(job);
            && o.paid == Min(Repeated(variant, job, envs, 1) + 1, affordable)
            && o.status == FinalStatus(variant, job, envs, 1, affordable)
  {
    AffordsQuotient(users[BillingUser(job)], Cost(job));
    PaysWhatItAffords(variant, users, job, envs, 1, users[BillingUser(job)] / Cost(job));
  }

  lemma {:induction false} AllRepeat(variant: Variant, job: Job, envs: nat -> Env, attempt: nat)
    requires 1 <= attempt <= RETRIES + 1
    requires forall i: nat :: attempt <= i <= RETRIES ==> Repeats(variant, job, envs(i))
    ensures Repeated(variant, job, envs, attempt) == RETRIES + 1 - attempt
    decreases RETRIES + 1 - attempt
  {
    if attempt <= RETRIES {
      AllRepeat(variant, job, envs, attempt + 1);
    }
  }

  /** Where every charged attempt is repeated - a calculation service that goes on answering gateway
      errors to the docker copy, or one too slow for the gateway behind either copy - a client whose
      balance lasts pays 21 times. */
  lemma BrokenServiceIsPaidFor(variant: Variant, users: Accounts, job: Job, envs: nat -> Env)
    requires BillingIsReliable(envs) && PriceRefusal(job.price) == None && Cost(job) >= 1
    requires BillingUser(job) in users && users[BillingUser(job)] >= 0
    requires users[BillingUser(job)] / Cost(job) >= 21
    requires forall i: nat :: 1 <= i <= RETRIES ==> Repeats(variant, job, envs(i))
    ensures Delivered(variant, users, job, envs, 1).paid == 21
  {
    AllRepeat(variant, job, envs, 1);
    PaysExactly(variant, users, job, envs);
  }

  /** Without timeouts a client of the microservices copy that can pay does so once, whatever the
      calculation service answers. */
  lemma MicroservicesChargesOnce(users: Accounts, job: Job, envs: nat -> Env)
    requires BillingIsReliable(envs) && PriceRefusal(job.price) == None && !envs(1).timedOut
    requires BillingUser(job) in users && 1 <= Cost(job) <= users[BillingUser(job)]
    ensures Delivered(Microservices, users, job, envs, 1).paid == 1
  {
    PaysExactly(Microservices, users, job, envs);
    AffordsQuotient(users[BillingUser(job)], Cost(job));
  }

  /** A client that names an unknown calculation type is charged once and answered with 403. */
  lemma UnknownTypeIsCharged(variant: Variant, users: Accounts, job: Job, envs: nat -> Env)
    requires BillingIsReliable(envs) && PriceRefusal(job.price) == None && !Known(job.calculationType)
    requires !envs(1).timedOut
    requires BillingUser(job) in users && 1 <= Cost(job) <= users[BillingUser(job)]
    ensures var o := Delivered(variant, users, job, envs, 1); o.paid == 1 && o.status == 403
  {
    PaysExactly(variant, users, job, envs);
    AffordsQuotient(users[BillingUser(job)], Cost(job));
  }

  // ---------------------------------------------------------------- what a client sees

  /** With all services up, a client that can pay does so once and sees the status of the calculation
      service (docker copy) or 200 (microservices copy). */
  lemma ClientSeesTheCalculation(variant: Variant, users: Accounts, job: Job, f: real, a: int, s: int, envs: nat -> Env)
    requires BillingIsReliable(envs) && job.price == Price(Some(f), Some(a)) && f >= 1.0
    requires Some(job.user) in users && 1 <= a <= users[Some(job.user)]
    requires job.calculationType in {"add", "multiply", "prime", "fibonacci"}
    requires !envs(1).timedOut && envs(1).calculation == Some(s) && s !in {502, 503, 504}
    ensures Delivered(variant, users, job, envs, 1)
            == Outcome(users[Some(job.user) := users[Some(job.user)] - a], 1, 0, if variant == Docker then s else 200)
  {
    assert envs(1).info.Served? && envs(1).charge.Served?;
    CalculationOutcomes(variant, users, job, envs(1));
  }

  /** The docker copy passes on a gateway error of the calculation service, and the gateway tries once
      more: the client pays twice if it can, and sees 400 if it cannot. */
  lemma DockerPaysAgain(users: Accounts, job: Job, f: real, a: int, s: int, s': int, envs: nat -> Env)
    requires BillingIsReliable(envs) && job.price == Price(Some(f), Some(a)) && f >= 1.0
    requires Some(job.user) in users && 1 <= a <= users[Some(job.user)]
    requires job.calculationType in {"add", "multiply", "prime", "fibonacci"} && !envs(1).timedOut && !envs(2).timedOut
    requires envs(1).calculation == Some(s) && s in {502, 503, 504}
    requires envs(2).calculation == Some(s') && s' !in {502, 503, 504}
    ensures var user, balance := Some(job.user), users[Some(job.user)];
            Delivered(Docker, users, job, envs, 1)
            == if 2 * a <= balance then Outcome(users[user := balance - 2 * a], 2, 0, s')
               else Outcome(users[user := balance - a], 1, 0, 400)
  {
    assert envs(1).info.Served? && envs(1).charge.Served?;
    CalculationOutcomes(Docker, users, job, envs(1));
    var users' := users[Some(job.user) := users[Some(job.user)] - a];
    SecondAttempt(users', job, f, a, s', envs(2));
    DeliveredTwice(users, users', job, envs, s);
  }

  lemma SecondAttempt(users: Accounts, job: Job, f: real, a: int, s: int, env: Env)
    requires env.info.Served? && env.charge.Served? && job.price == Price(Some(f), Some(a)) && f >= 1.0
    requires Some(job.user) in users && a >= 1
    requires job.calculationType in {"add", "multiply", "prime", "fibonacci"} && env.calculation == Some(s)
    ensures Attempt(Docker, users, job, env)
            == if a <= users[Some(job.user)] then Outcome(users[Some(job.user) := users[Some(job.user)] - a], 1, 0, s)
               else Outcome(users, 0, 0, 400)
  {
    if a <= users[Some(job.user)] {
      CalculationOutcomes(Docker, users, job, env);
    } else {
      ChargeOutcomes(Docker, users, job, env);
    }
  }

  lemma DeliveredTwice(users: Accounts, users': Accounts, job: Job, envs: nat -> Env, s: int)
    requires Attempt(Docker, users, job, envs(1)) == Outcome(users', 1, 0, s) && s in {502, 503, 504}
    requires !envs(1).timedOut && !envs(2).timedOut
    requires Attempt(Docker, users', job, envs(2)).status !in {502, 503, 504}
    ensures var o := Attempt(Docker, users', job, envs(2));
            Delivered(Docker, users, job, envs, 1) == Outcome(o.users, 1 + o.paid, 0, o.status)
  {
    var o := Delivered(Docker, users', job, envs, 2);
    assert o == Tried(Docker, users', job, envs(2));
  }

  /** If the gateway cuts off every attempt, it makes 21 and the client sees 504. */
  lemma {:induction false} AllCutOff(variant: Variant, users: Accounts, job: Job, envs: nat -> Env, attempt: nat)
    requires 1 <= attempt <= 21 && forall i: nat :: envs(i).timedOut
    ensures var o := Delivered(variant, users, job, envs, attempt);
            o.timeouts == 22 - attempt && o.status == 504
    decreases 21 - attempt
  {
    var o := Tried(variant, users, job, envs(attempt));
    assert o.timeouts == 1 && o.status == 504;
    if attempt < 21 {
      AllCutOff(variant, o.users, job, envs, attempt + 1);
    }
  }
}
