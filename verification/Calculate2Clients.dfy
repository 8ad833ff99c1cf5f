/** Many clients of calculate2 at once, step by step, with other billing traffic between the steps.

    The gateway gives an attempt up after `perTryTimeout`, answers itself with 504 and may send the next
    one, while control-center goes on with the abandoned attempt. Each billing request is served as a
    whole here; the races inside the billing service are in LedgerRaces. */
module Calculate2Clients {
  import opened Wrappers
  import opened MapSum
  import opened Ledger
  import opened LedgerBooks
  import opened Calculate2

  /** Where control-center is with an attempt. */
  datatype Phase = AskingInfo | AskingCharge | AskingCalculation | Ended(status: int)

  /** One attempt: its charge took effect; the gateway has given it up. */
  datatype Try = Try(phase: Phase, paid: bool, cutOff: bool)

  /** Where the gateway is with a client's request. */
  datatype Gateway = Waiting | InFlight | Responding(status: int) | Finished(status: int)

  /** A client's request and all attempts made so far, the last of which the gateway may wait for. */
  datatype Client = Client(job: Job, gateway: Gateway, tries: seq<Try>)

  /** The clients, the accounts, and the books of all other billing requests. */
  datatype State = State(users: Accounts, clients: map<nat, Client>, others: Books)

  /** Events of attempt number n of client id, of the client, or of others. */
  datatype Event =
    | Join(id: nat, job: Job)
    | Send(id: nat)
    | Bounce(id: nat, status: int) // the mesh answers instead of control-center
    | TimeOut(id: nat)
    | InfoArrives(id: nat, n: nat, d: Delivery)
    | ChargeArrives(id: nat, n: nat, d: Delivery)
    | CalculationArrives(id: nat, n: nat, reply: Option<int>)
    | Decide(id: nat)
    | Other(r: Request)

  predicate AtPhase(s: State, id: nat, n: nat, phase: Phase) {
    id in s.clients && n < |s.clients[id].tries| && s.clients[id].tries[n].phase == phase
  }

  predicate CanMove(s: State, e: Event) {
    match e
    case Join(id, _) => id !in s.clients
    case Send(id) => id in s.clients && s.clients[id].gateway == Waiting
    case Bounce(id, _) => id in s.clients && s.clients[id].gateway == Waiting
    case TimeOut(id) => id in s.clients && s.clients[id].gateway == InFlight && s.clients[id].tries != []
    case InfoArrives(id, n, _) => AtPhase(s, id, n, AskingInfo)
    case ChargeArrives(id, n, _) => AtPhase(s, id, n, AskingCharge)
    case CalculationArrives(id, n, _) => AtPhase(s, id, n, AskingCalculation)
    case Decide(id) => id in s.clients && s.clients[id].gateway.Responding?
    case Other(_) => true
  }

  /** Attempt n of c becomes t; if that ends an attempt not given up, the gateway has its response. */
  function Moved(c: Client, n: nat, t: Try): Client
    requires n < |c.tries|
  {
    var tries := c.tries[n := t];
    if t.phase.Ended? && !t.cutOff then Client(c.job, Responding(t.phase.status), tries)
    else Client(c.job, c.gateway, tries)
  }

  /** The client after an event of its own; for ChargeArrives, `users` are the accounts before it. */
  function Advanced(variant: Variant, users: Accounts, c: Client, e: Event): Client {
    match e
    case Send(_) =>
      var refusal := PriceRefusal(c.job.price);
      if refusal.Some? then
        Client(c.job, Responding(refusal.value), c.tries + [Try(Ended(refusal.value), false, false)])
      else Client(c.job, InFlight, c.tries + [Try(AskingInfo, false, false)])
    case Bounce(_, status) =>
      Client(c.job, Responding(status), c.tries + [Try(Ended(status), false, false)])
    case TimeOut(_) =>
      var last := |c.tries| - 1;
      if last < 0 then c
      else Client(c.job, Responding(504), c.tries[last := c.tries[last].(cutOff := true)])
    case InfoArrives(_, n, d) =>
      if n >= |c.tries| then c
      else
        var (_, seen) := Ask(users, Info(BillingUser(c.job)), d);
        Moved(c, n, c.tries[n].(phase := if seen == Some(200) then AskingCharge else Ended(Relay(seen))))
    case ChargeArrives(_, n, d) =>
      if n >= |c.tries| then c
      else
        var (_, seen) := Ask(users, Charge(BillingUser(c.job), AmountOf(c.job.price)), d);
        Moved(c, n, c.tries[n].(
          phase := if seen == Some(200) then AskingCalculation else Ended(Relay(seen)),
          paid := Paid(users, c.job, d)))
    case CalculationArrives(_, n, reply) =>
      if n >= |c.tries| then c
      else Moved(c, n, c.tries[n].(phase := Ended(CalculationStatus(variant, c.job, reply))))
    case Decide(_) =>
      if !c.gateway.Responding? then c
      else if GatewayError(c.gateway.status) && |c.tries| <= RETRIES then c.(gateway := Waiting)
      else c.(gateway := Finished(c.gateway.status))
    case _ => c
  }

  function Step(variant: Variant, s: State, e: Event): State {
    if !CanMove(s, e) then s
    else
      match e
      case Join(id, job) => s.(clients := s.clients[id := Client(job, Waiting, [])])
      case Other(r) => s.(users := Handle(s.users, r).0, others := Booked(s.others, s.users, r))
      case ChargeArrives(id, _, d) =>
        var c := s.clients[id];
        s.(users := Ask(s.users, Charge(BillingUser(c.job), AmountOf(c.job.price)), d).0,
           clients := s.clients[id := Advanced(variant, s.users, c, e)])
      case _ => s.(clients := s.clients[e.id := Advanced(variant, s.users, s.clients[e.id], e)])
  }

  function After(variant: Variant, users: Accounts, events: seq<Event>): State {
    if events == [] then State(users, map[], EMPTY)
    else Step(variant, After(variant, users, events[..|events| - 1]), events[|events| - 1])
  }

  /** How many attempts have been paid for. */
  function PaidTries(tries: seq<Try>): nat {
    if tries == [] then 0
    else PaidTries(tries[..|tries| - 1]) + if tries[|tries| - 1].paid then 1 else 0
  }

  /** How many attempts the gateway has given up. */
  function TimeOuts(tries: seq<Try>): nat {
    if tries == [] then 0
    else TimeOuts(tries[..|tries| - 1]) + if tries[|tries| - 1].cutOff then 1 else 0
  }

  function SpentBy(c: Client): int {
    PaidTries(c.tries) * Cost(c.job)
  }

  /** What each client has paid in all. */
  function Spent(clients: map<nat, Client>): map<nat, int> {
    map id | id in clients :: SpentBy(clients[id])
  }

  // ---------------------------------------------------------------- each client

  predicate TryOk(variant: Variant, t: Try) {
    && (t.phase == AskingInfo || t.phase == AskingCharge ==> !t.paid)
    && (variant == Microservices && t.paid && t.phase.Ended? ==> !GatewayError(t.phase.status))
  }

  /** An attempt before the last was given up, or it ended with a gateway error. */
  predicate Superseded(t: Try) {
    t.cutOff || (t.phase.Ended? && GatewayError(t.phase.status))
  }

  predicate ClientOk(variant: Variant, c: Client) {
    var last := |c.tries| - 1;
    && |c.tries| <= RETRIES + 1
    && (forall n :: 0 <= n <= last ==> TryOk(variant, c.tries[n]))
    && (forall n :: 0 <= n < last ==> Superseded(c.tries[n]))
    && match c.gateway
       case Waiting => last < RETRIES && (last >= 0 ==> Superseded(c.tries[last]))
       case InFlight => last >= 0 && !c.tries[last].phase.Ended? && !c.tries[last].cutOff
       case Responding(status) => last >= 0 && LastGave(c, status)
       case Finished(status) => last >= 0 && LastGave(c, status) && (GatewayError(status) ==> last == RETRIES)
  }

  /** The status that the gateway has comes from its timeout or from the last attempt. */
  predicate LastGave(c: Client, status: int)
    requires c.tries != []
  {
    var t := c.tries[|c.tries| - 1];
    if t.cutOff then status == 504 else t.phase == Ended(status)
  }

  ghost predicate AllOk(variant: Variant, s: State) {
    forall id :: id in s.clients ==> ClientOk(variant, s.clients[id])
  }

  lemma AdvancedIsOk(variant: Variant, s: State, e: Event)
    requires CanMove(s, e) && !e.Join? && !e.Other? && ClientOk(variant, s.clients[e.id])
    ensures ClientOk(variant, Advanced(variant, s.users, s.clients[e.id], e))
  {}

  lemma StepKeepsClients(variant: Variant, s: State, e: Event)
    requires AllOk(variant, s)
    ensures AllOk(variant, Step(variant, s, e))
  {
    if CanMove(s, e) && !e.Join? && !e.Other? {
      AdvancedIsOk(variant, s, e);
    }
  }

  lemma {:induction false} PaidAtMostTries(tries: seq<Try>)
    ensures PaidTries(tries) <= |tries|
  {
    if tries != [] {
      PaidAtMostTries(tries[..|tries| - 1]);
    }
  }

  /** Where every paid attempt was given up, there are no more payments than timeouts. */
  lemma {:induction false} PaidAtMostTimeOuts(tries: seq<Try>)
    requires forall n :: 0 <= n < |tries| ==> tries[n].paid ==> tries[n].cutOff
    ensures PaidTries(tries) <= TimeOuts(tries)
  {
    if tries != [] {
      PaidAtMostTimeOuts(tries[..|tries| - 1]);
    }
  }

  /** A client is charged at most once an attempt, 21 times in all; in the microservices copy at most
      once more than the gateway has given up an attempt of its, and no more often than that if it
      ends up with a gateway error. */
  lemma ChargesOfAClient(variant: Variant, c: Client)
    requires ClientOk(variant, c)
    ensures PaidTries(c.tries) <= |c.tries| <= 21
    ensures variant == Microservices ==> PaidTries(c.tries) <= 1 + TimeOuts(c.tries)
    ensures variant == Microservices && c.gateway.Finished? && GatewayError(c.gateway.status) ==>
              PaidTries(c.tries) <= TimeOuts(c.tries)
  {
    PaidAtMostTries(c.tries);
    if variant == Microservices && c.tries != [] {
      PaidAtMostTimeOuts(c.tries[..|c.tries| - 1]);
    }
  }

  // ---------------------------------------------------------------- all the money

  ghost predicate Balanced(s: State, initial: int) {
    Sum(s.users) == initial + s.others.deposited - s.others.charged - s.others.destroyed - Sum(Spent(s.clients))
  }

  lemma ClientSpends(s: State, s': State, id: nat, c: Client)
    requires s'.clients == s.clients[id := c]
    ensures Sum(Spent(s'.clients))
            == Sum(Spent(s.clients)) + SpentBy(c) - if id in s.clients then SpentBy(s.clients[id]) else 0
  {
    assert Spent(s'.clients) == Spent(s.clients)[id := SpentBy(c)];
    SumUpdates(Spent(s.clients), id, SpentBy(c));
  }

  lemma {:induction false} PaidAfter(tries: seq<Try>, n: nat, t: Try)
    requires n < |tries|
    ensures PaidTries(tries[n := t])
            == PaidTries(tries) + (if t.paid then 1 else 0) - (if tries[n].paid then 1 else 0)
  {
    var last := |tries| - 1;
    if n < last {
      PaidAfter(tries[..last], n, t);
      assert tries[n := t][..last] == tries[..last][n := t];
    } else {
      assert tries[n := t][..last] == tries[..last];
    }
  }

  lemma PaidAppended(tries: seq<Try>, t: Try)
    ensures PaidTries(tries + [t]) == PaidTries(tries) + if t.paid then 1 else 0
  {
    assert (tries + [t])[..|tries|] == tries;
  }

  /** What an event of a client adds to the attempts it has paid for. */
  lemma AdvancedPays(variant: Variant, s: State, e: Event)
    requires CanMove(s, e) && !e.Join? && !e.Other?
    requires e.ChargeArrives? ==> !s.clients[e.id].tries[e.n].paid
    ensures var c := s.clients[e.id];
            PaidTries(Advanced(variant, s.users, c, e).tries)
            == PaidTries(c.tries) + if e.ChargeArrives? && Paid(s.users, c.job, e.d) then 1 else 0
  {
    var c := s.clients[e.id];
    var tries' := Advanced(variant, s.users, c, e).tries;
    match e
    case Send(_) => PaidAppended(c.tries, tries'[|c.tries|]);
    case Bounce(_, _) => PaidAppended(c.tries, tries'[|c.tries|]);
    case TimeOut(_) => PaidAfter(c.tries, |c.tries| - 1, tries'[|c.tries| - 1]);
    case InfoArrives(_, n, _) => PaidAfter(c.tries, n, tries'[n]);
    case ChargeArrives(_, n, _) => PaidAfter(c.tries, n, tries'[n]);
    case CalculationArrives(_, n, _) => PaidAfter(c.tries, n, tries'[n]);
    case Decide(_) =>
  }

  lemma ChargeIsSpent(users: Accounts, job: Job, d: Delivery)
    requires Solvent(users)
    ensures var r := Charge(BillingUser(job), AmountOf(job.price));
            var users' := Ask(users, r, d).0;
            Solvent(users') && Sum(users') == Sum(users) - if Paid(users, job, d) then Cost(job) else 0
  {
    var r := Charge(BillingUser(job), AmountOf(job.price));
    HandleConserves(users, EMPTY, r);
    if Accepted(users, r) {
      ChargeAcceptedExactlyWhen(users, BillingUser(job), AmountOf(job.price));
    } else {
      RejectedChangesNothing(users, r);
    }
  }

  /** An event of a client lowers the balances by what the client pays with it. */
  lemma AccountsPay(variant: Variant, s: State, e: Event)
    requires Solvent(s.users) && CanMove(s, e) && !e.Join? && !e.Other?
    ensures var s', c := Step(variant, s, e), s.clients[e.id];
            && Solvent(s'.users)
            && Sum(s'.users)
               == Sum(s.users) - (if e.ChargeArrives? && Paid(s.users, c.job, e.d) then Cost(c.job) else 0)
            && s'.others == s.others
            && s'.clients == s.clients[e.id := Advanced(variant, s.users, c, e)]
  {
    if e.ChargeArrives? {
      ChargeIsSpent(s.users, s.clients[e.id].job, e.d);
    }
  }

  lemma OneMorePayment(paid: int, cost: int)
    ensures (paid + 1) * cost == paid * cost + cost
  {}

  lemma AdvancedSpends(variant: Variant, s: State, e: Event)
    requires CanMove(s, e) && !e.Join? && !e.Other? && ClientOk(variant, s.clients[e.id])
    ensures var c := s.clients[e.id];
            SpentBy(Advanced(variant, s.users, c, e))
            == SpentBy(c) + if e.ChargeArrives? && Paid(s.users, c.job, e.d) then Cost(c.job) else 0
  {
    var c := s.clients[e.id];
    AdvancedPays(variant, s, e);
    OneMorePayment(PaidTries(c.tries), Cost(c.job));
  }

  lemma ClientKeepsBalance(variant: Variant, s: State, e: Event, initial: int)
    requires Solvent(s.users) && Balanced(s, initial) && AllOk(variant, s)
    requires CanMove(s, e) && !e.Join? && !e.Other?
    ensures var s' := Step(variant, s, e); Solvent(s'.users) && Balanced(s', initial)
  {
    var s', c := Step(variant, s, e), Advanced(variant, s.users, s.clients[e.id], e);
    AccountsPay(variant, s, e);
    AdvancedSpends(variant, s, e);
    ClientSpends(s, s', e.id, c);
  }

  lemma JoinKeepsBalance(variant: Variant, s: State, id: nat, job: Job, initial: int)
    requires Balanced(s, initial) && id !in s.clients
    ensures Balanced(Step(variant, s, Join(id, job)), initial)
  {
    ClientSpends(s, Step(variant, s, Join(id, job)), id, Client(job, Waiting, []));
  }

  lemma OtherKeepsBalance(variant: Variant, s: State, r: Request, initial: int)
    requires Solvent(s.users) && Balanced(s, initial)
    ensures var s' := Step(variant, s, Other(r)); Solvent(s'.users) && Balanced(s', initial)
  {
    HandleConserves(s.users, s.others, r);
  }

  lemma StepKeepsBalance(variant: Variant, s: State, e: Event, initial: int)
    requires Solvent(s.users) && Balanced(s, initial) && AllOk(variant, s)
    ensures var s' := Step(variant, s, e); Solvent(s'.users) && Balanced(s', initial)
  {
    if CanMove(s, e) {
      match e
      case Join(id, job) => JoinKeepsBalance(variant, s, id, job, initial);
      case Other(r) => OtherKeepsBalance(variant, s, r, initial);
      case _ => ClientKeepsBalance(variant, s, e, initial);
    }
  }

  lemma {:induction false} EveryRunIsOk(variant: Variant, users: Accounts, events: seq<Event>)
    requires Solvent(users)
    ensures var s := After(variant, users, events);
            Solvent(s.users) && AllOk(variant, s) && Balanced(s, Sum(users))
  {
    if events == [] {
      assert Spent(map[]) == map[];
    } else {
      var s := After(variant, users, events[..|events| - 1]);
      EveryRunIsOk(variant, users, events[..|events| - 1]);
      StepKeepsClients(variant, s, events[|events| - 1]);
      StepKeepsBalance(variant, s, events[|events| - 1], Sum(users));
    }
  }

  /** Whatever the interleaving of clients, retries, timeouts, faults and other billing traffic: no
      balance is negative; each client is sent at most 21 attempts and charged at most once for each, in
      the microservices copy at most once more than the gateway gave up an attempt of its; and the
      balances are what was there at first, plus other deposits, less other charges and deletions, less
      what each client paid. */
  lemma EveryRunBalances(variant: Variant, users: Accounts, events: seq<Event>)
    requires Solvent(users)
    ensures var s := After(variant, users, events);
            && Solvent(s.users)
            && Balanced(s, Sum(users))
            && forall id :: id in s.clients ==>
                 var tries := s.clients[id].tries;
                 && PaidTries(tries) <= |tries| <= 21
                 && (variant == Microservices ==> PaidTries(tries) <= 1 + TimeOuts(tries))
  {
    EveryRunIsOk(variant, users, events);
    var s := After(variant, users, events);
    forall id | id in s.clients
      ensures var tries := s.clients[id].tries;
              && PaidTries(tries) <= |tries| <= 21
              && (variant == Microservices ==> PaidTries(tries) <= 1 + TimeOuts(tries))
    {
      ChargesOfAClient(variant, s.clients[id]);
    }
  }

  /** A client answered with a gateway error has had all 21 attempts; in the microservices copy it has
      paid at most for those that the gateway gave up - for none, if there were no timeouts. */
  lemma GatewayErrorsMeanAllAttempts(variant: Variant, users: Accounts, events: seq<Event>, id: nat)
    requires Solvent(users)
    requires var s := After(variant, users, events);
             id in s.clients && s.clients[id].gateway.Finished? && GatewayError(s.clients[id].gateway.status)
    ensures var tries := After(variant, users, events).clients[id].tries;
            |tries| == 21 && (variant == Microservices ==> PaidTries(tries) <= TimeOuts(tries))
  {
    EveryRunIsOk(variant, users, events);
    ChargesOfAClient(variant, After(variant, users, events).clients[id]);
  }

  // ---------------------------------------------------------------- one client alone

  /** The gateway has given up client id's attempt while control-center was busy with it. */
  predicate GivesUp(c: Client, env: Env) {
    env.timedOut && PriceRefusal(c.job.price) == None
  }

  /** Client id's next attempt, one step after the other; control-center goes on after a timeout. */
  function RunAttempt(variant: Variant, s: State, id: nat, env: Env): State
    requires id in s.clients
  {
    var n := |s.clients[id].tries|;
    var s0 := Step(variant, s, Send(id));
    var s1 := if GivesUp(s.clients[id], env) then Step(variant, s0, TimeOut(id)) else s0;
    var s2 := Step(variant, s1, InfoArrives(id, n, env.info));
    var s3 := Step(variant, s2, ChargeArrives(id, n, env.charge));
    Step(variant, s3, CalculationArrives(id, n, env.calculation))
  }

  /** s with client id at its newest attempt t. */
  function WithTry(s: State, id: nat, gateway: Gateway, t: Try): State
    requires id in s.clients
  {
    s.(clients := s.clients[id := Client(s.clients[id].job, gateway, s.clients[id].tries + [t])])
  }

  /** Where the gateway is when its client's newest attempt becomes t. */
  function GatewayAfter(gateway: Gateway, t: Try): Gateway {
    if t.phase.Ended? && !t.cutOff then Responding(t.phase.status) else gateway
  }

  /** The newest attempt t has become t'. */
  lemma NewestMoves(variant: Variant, s: State, id: nat, gateway: Gateway, t: Try, t': Try, e: Event)
    requires id in s.clients && (e.InfoArrives? || e.CalculationArrives?)
    requires var s1, n := WithTry(s, id, gateway, t), |s.clients[id].tries|;
             && e.id == id && e.n == n && CanMove(s1, e)
             && Advanced(variant, s.users, s1.clients[id], e) == Moved(s1.clients[id], n, t')
    ensures Step(variant, WithTry(s, id, gateway, t), e) == WithTry(s, id, GatewayAfter(gateway, t'), t')
  {
    var s1, tries := WithTry(s, id, gateway, t), s.clients[id].tries;
    assert (tries + [t])[|tries| := t'] == tries + [t'];
  }

  lemma NewestPays(variant: Variant, s: State, id: nat, gateway: Gateway, cutOff: bool, d: Delivery)
    requires id in s.clients
    ensures var n, job := |s.clients[id].tries|, s.clients[id].job;
            var (users', seen) := Ask(s.users, Charge(BillingUser(job), AmountOf(job.price)), d);
            var t' := Try(if seen == Some(200) then AskingCalculation else Ended(Relay(seen)),
                          Paid(s.users, job, d), cutOff);
            Step(variant, WithTry(s, id, gateway, Try(AskingCharge, false, cutOff)), ChargeArrives(id, n, d))
            == WithTry(s.(users := users'), id, GatewayAfter(gateway, t'), t')
  {
    var tries := s.clients[id].tries;
    forall t, t'
      ensures (tries + [t])[|tries| := t'] == tries + [t']
    {}
  }

  lemma NewestIsGivenUp(variant: Variant, s: State, id: nat, t: Try)
    requires id in s.clients
    ensures Step(variant, WithTry(s, id, InFlight, t), TimeOut(id))
            == WithTry(s, id, Responding(504), t.(cutOff := true))
  {
    var tries, t' := s.clients[id].tries, t.(cutOff := true);
    assert (tries + [t])[|tries| := t'] == tries + [t'];
  }

  /** From its account request on, an attempt takes its course, whether or not the gateway still waits. */
  lemma AttemptRuns(variant: Variant, s: State, id: nat, gateway: Gateway, cutOff: bool, env: Env)
    requires id in s.clients && PriceRefusal(s.clients[id].job.price) == None
    ensures var o, n := Attempt(variant, s.users, s.clients[id].job, env), |s.clients[id].tries|;
            var s1 := WithTry(s, id, gateway, Try(AskingInfo, false, cutOff));
            var s2 := Step(variant, s1, InfoArrives(id, n, env.info));
            var s3 := Step(variant, s2, ChargeArrives(id, n, env.charge));
            var t := Try(Ended(o.status), o.paid == 1, cutOff);
            Step(variant, s3, CalculationArrives(id, n, env.calculation))
            == WithTry(s.(users := o.users), id, GatewayAfter(gateway, t), t)
  {
    var c, n := s.clients[id], |s.clients[id].tries|;
    var info := Ask(s.users, Info(BillingUser(c.job)), env.info).1;
    NewestMoves(variant, s, id, gateway, Try(AskingInfo, false, cutOff),
      Try(if info == Some(200) then AskingCharge else Ended(Relay(info)), false, cutOff),
      InfoArrives(id, n, env.info));
    if info == Some(200) {
      var (users', charge) := Ask(s.users, Charge(BillingUser(c.job), AmountOf(c.job.price)), env.charge);
      var paid := Paid(s.users, c.job, env.charge);
      NewestPays(variant, s, id, gateway, cutOff, env.charge);
      if charge == Some(200) {
        NewestMoves(variant, s.(users := users'), id, gateway, Try(AskingCalculation, paid, cutOff),
          Try(Ended(CalculationStatus(variant, c.job, env.calculation)), paid, cutOff),
          CalculationArrives(id, n, env.calculation));
      }
    }
  }

  /** Without interleaving, the steps of an attempt amount to calculate2 as a whole; if the gateway gives
      it up on the way, it answers 504. */
  lemma StepsMakeAnAttempt(variant: Variant, s: State, id: nat, env: Env)
    requires id in s.clients && s.clients[id].gateway == Waiting
    ensures var o, cutOff := Attempt(variant, s.users, s.clients[id].job, env), GivesUp(s.clients[id], env);
            RunAttempt(variant, s, id, env)
            == WithTry(s.(users := o.users), id, Responding(if cutOff then 504 else o.status),
                 Try(Ended(o.status), o.paid == 1, cutOff))
  {
    var c := s.clients[id];
    if PriceRefusal(c.job.price) == None {
      var t := Try(AskingInfo, false, false);
      assert Step(variant, s, Send(id)) == WithTry(s, id, InFlight, t);
      if env.timedOut {
        NewestIsGivenUp(variant, s, id, t);
        AttemptRuns(variant, s, id, Responding(504), true, env);
      } else {
        AttemptRuns(variant, s, id, InFlight, false, env);
      }
    }
  }

  /** Client id's attempts, one after the other, until the gateway is done with it. */
  function RunDelivery(variant: Variant, s: State, id: nat, envs: nat -> Env, attempt: nat): State
    requires id in s.clients
    decreases RETRIES + 1 - attempt
  {
    var s' := Step(variant, RunAttempt(variant, s, id, envs(attempt)), Decide(id));
    if id in s'.clients && s'.clients[id].gateway == Waiting && attempt <= RETRIES then
      RunDelivery(variant, s', id, envs, attempt + 1)
    else s'
  }

  /** The gateway decides after an attempt: as Delivered does. */
  lemma GatewayDecides(variant: Variant, s: State, id: nat, env: Env)
    requires id in s.clients && s.clients[id].gateway == Waiting && (env.timedOut ==> GivesUp(s.clients[id], env))
    ensures var o := Tried(variant, s.users, s.clients[id].job, env);
            var again := GatewayError(o.status) && |s.clients[id].tries| < RETRIES;
            Step(variant, RunAttempt(variant, s, id, env), Decide(id))
            == WithTry(s.(users := o.users), id, if again then Waiting else Finished(o.status),
                 Try(Ended(Attempt(variant, s.users, s.clients[id].job, env).status), o.paid == 1, env.timedOut))
  {
    StepsMakeAnAttempt(variant, s, id, env);
  }

  lemma TimeOutsAppended(tries: seq<Try>, t: Try)
    ensures TimeOuts(tries + [t]) == TimeOuts(tries) + if t.cutOff then 1 else 0
  {
    assert (tries + [t])[..|tries|] == tries;
  }

  /** s' is s, but that client id is done: it has got o. */
  ghost predicate HasGot(s: State, id: nat, o: Outcome, s': State)
    requires id in s.clients
  {
    && s'.users == o.users && s'.others == s.others && s'.clients.Keys == s.clients.Keys
    && (forall id' :: id' in s.clients && id' != id ==> s'.clients[id'] == s.clients[id'])
    && var c, c' := s.clients[id], s'.clients[id];
       && c'.job == c.job && c'.gateway == Finished(o.status)
       && PaidTries(c'.tries) == PaidTries(c.tries) + o.paid
       && TimeOuts(c'.tries) == TimeOuts(c.tries) + o.timeouts
  }

  /** One more attempt before what a client has got. */
  lemma GotAfterTry(s: State, id: nat, t: Try, users: Accounts, o: Outcome, s': State)
    requires id in s.clients && HasGot(WithTry(s.(users := users), id, Waiting, t), id, o, s')
    ensures var paid, timeouts := if t.paid then 1 else 0, if t.cutOff then 1 else 0;
            HasGot(s, id, o.(paid := paid + o.paid, timeouts := timeouts + o.timeouts), s')
  {
    PaidAppended(s.clients[id].tries, t);
    TimeOutsAppended(s.clients[id].tries, t);
  }

  lemma GotAtOnce(s: State, id: nat, t: Try, o: Outcome)
    requires id in s.clients && o.paid == (if t.paid then 1 else 0) && o.timeouts == if t.cutOff then 1 else 0
    ensures HasGot(s, id, o, WithTry(s.(users := o.users), id, Finished(o.status), t))
  {
    PaidAppended(s.clients[id].tries, t);
    TimeOutsAppended(s.clients[id].tries, t);
  }

  /** What the attempt of client id comes to. */
  function TryOf(variant: Variant, s: State, id: nat, env: Env): Try
    requires id in s.clients
  {
    var o := Attempt(variant, s.users, s.clients[id].job, env);
    Try(Ended(o.status), o.paid == 1, env.timedOut)
  }

  lemma DeliveryEnds(variant: Variant, s: State, id: nat, envs: nat -> Env, attempt: nat)
    requires id in s.clients && s.clients[id].gateway == Waiting && |s.clients[id].tries| == attempt - 1
    requires envs(attempt).timedOut ==> GivesUp(s.clients[id], envs(attempt))
    requires var status := Tried(variant, s.users, s.clients[id].job, envs(attempt)).status;
             !(GatewayError(status) && attempt <= RETRIES)
    ensures HasGot(s, id, Delivered(variant, s.users, s.clients[id].job, envs, attempt),
              RunDelivery(variant, s, id, envs, attempt))
  {
    GatewayDecides(variant, s, id, envs(attempt));
    AttemptPays(variant, s.users, s.clients[id].job, envs(attempt));
    GotAtOnce(s, id, TryOf(variant, s, id, envs(attempt)), Tried(variant, s.users, s.clients[id].job, envs(attempt)));
  }

  lemma DeliveryGoesOn(variant: Variant, s: State, id: nat, envs: nat -> Env, attempt: nat)
    requires id in s.clients && s.clients[id].gateway == Waiting && |s.clients[id].tries| == attempt - 1
    requires envs(attempt).timedOut ==> GivesUp(s.clients[id], envs(attempt))
    requires GatewayError(Tried(variant, s.users, s.clients[id].job, envs(attempt)).status) && attempt <= RETRIES
    ensures var o := Tried(variant, s.users, s.clients[id].job, envs(attempt));
            RunDelivery(variant, s, id, envs, attempt)
            == RunDelivery(variant, WithTry(s.(users := o.users), id, Waiting, TryOf(variant, s, id, envs(attempt))),
                 id, envs, attempt + 1)
  {
    GatewayDecides(variant, s, id, envs(attempt));
  }

  lemma GotWithTry(
      variant: Variant, s: State, id: nat, envs: nat -> Env, attempt: nat, users: Accounts, t: Try, s': State)
    requires id in s.clients && t == TryOf(variant, s, id, envs(attempt))
    requires users == Tried(variant, s.users, s.clients[id].job, envs(attempt)).users
    requires GatewayError(Tried(variant, s.users, s.clients[id].job, envs(attempt)).status) && attempt <= RETRIES
    requires HasGot(WithTry(s.(users := users), id, Waiting, t), id,
               Delivered(variant, users, s.clients[id].job, envs, attempt + 1), s')
    ensures HasGot(s, id, Delivered(variant, s.users, s.clients[id].job, envs, attempt), s')
  {
    AttemptPays(variant, s.users, s.clients[id].job, envs(attempt));
    GotAfterTry(s, id, t, users, Delivered(variant, users, s.clients[id].job, envs, attempt + 1), s');
  }

  /** Without interleaving, all the attempts of a client amount to the delivery of its request as a whole:
      same accounts, same status, as many payments and timeouts. */
  lemma {:induction false} StepsMakeADelivery(variant: Variant, s: State, id: nat, envs: nat -> Env, attempt: nat)
    requires 1 <= attempt <= RETRIES + 1
    requires id in s.clients && s.clients[id].gateway == Waiting && |s.clients[id].tries| == attempt - 1
    requires forall i: nat :: envs(i).timedOut ==> GivesUp(s.clients[id], envs(i))
    ensures HasGot(s, id, Delivered(variant, s.users, s.clients[id].job, envs, attempt),
              RunDelivery(variant, s, id, envs, attempt))
    decreases RETRIES + 1 - attempt
  {
    var o := Tried(variant, s.users, s.clients[id].job, envs(attempt));
    if GatewayError(o.status) && attempt <= RETRIES {
      var t := TryOf(variant, s, id, envs(attempt));
      var s' := WithTry(s.(users := o.users), id, Waiting, t);
      DeliveryGoesOn(variant, s, id, envs, attempt);
      StepsMakeADelivery(variant, s', id, envs, attempt + 1);
      GotWithTry(variant, s, id, envs, attempt, o.users, t, RunDelivery(variant, s', id, envs, attempt + 1));
    } else {
      DeliveryEnds(variant, s, id, envs, attempt);
    }
  }

  // ---------------------------------------------------------------- single events

  /** An answer of the mesh in place of control-center counts as an attempt, unpaid; another billing
      request is served as it is; and a new client waits for its first attempt. */
  lemma EventsFromOutside(variant: Variant, s: State, id: nat, status: int, r: Request, job: Job)
    ensures var s' := Step(variant, s, Other(r));
            && s'.users == Handle(s.users, r).0 && s'.clients == s.clients
            && s'.others == Booked(s.others, s.users, r)
    ensures id in s.clients && s.clients[id].gateway == Waiting ==>
              Step(variant, s, Bounce(id, status))
              == WithTry(s, id, Responding(status), Try(Ended(status), false, false))
    ensures id !in s.clients ==>
              Step(variant, s, Join(id, job)) == s.(clients := s.clients[id := Client(job, Waiting, [])])
  {}

  /** An event of attempt n of client id touches no other attempt, no other client, and no books; nor the
      gateway, if it has given the attempt up. */
  lemma EventTouchesOneAttempt(variant: Variant, s: State, e: Event, m: nat)
    requires (e.InfoArrives? || e.ChargeArrives? || e.CalculationArrives?) && CanMove(s, e)
    ensures var s' := Step(variant, s, e);
            && s'.others == s.others && s'.clients.Keys == s.clients.Keys
            && (forall id :: id in s.clients && id != e.id ==> s'.clients[id] == s.clients[id])
            && |s'.clients[e.id].tries| == |s.clients[e.id].tries|
            && (m < |s.clients[e.id].tries| && m != e.n ==>
                  s'.clients[e.id].tries[m] == s.clients[e.id].tries[m])
            && (s.clients[e.id].tries[e.n].cutOff ==> s'.clients[e.id].gateway == s.clients[e.id].gateway)
  {}

  // ---------------------------------------------------------------- timeouts and charges

  /** Five steps of a client that pays and is given up before the calculation answers. */
  function RunTimedOut(variant: Variant, s: State, id: nat): State
    requires id in s.clients
  {
    var n := |s.clients[id].tries|;
    var s1 := Step(variant, s, Send(id));
    var s2 := Step(variant, s1, InfoArrives(id, n, Served));
    var s3 := Step(variant, s2, ChargeArrives(id, n, Served));
    var s4 := Step(variant, s3, TimeOut(id));
    Step(variant, s4, Decide(id))
  }

  const PAID_AND_CUT_OFF := Try(AskingCalculation, true, true)

  /** Client id waits for the gateway, may still be sent an attempt after this, and can afford its price. */
  predicate CanAfford(s: State, id: nat) {
    && id in s.clients && s.clients[id].gateway == Waiting && |s.clients[id].tries| < RETRIES
    && var job := s.clients[id].job;
       PriceRefusal(job.price) == None && BillingUser(job) in s.users && 1 <= Cost(job) <= s.users[BillingUser(job)]
  }

  /** The account of client id is lowered by its price, and its newest attempt is given up. */
  function PaidAndCutOff(s: State, id: nat): State
    requires CanAfford(s, id)
  {
    var job := s.clients[id].job;
    var users' := s.users[BillingUser(job) := s.users[BillingUser(job)] - Cost(job)];
    WithTry(s.(users := users'), id, Waiting, PAID_AND_CUT_OFF)
  }

  lemma TimedOutPays(variant: Variant, s: State, id: nat)
    requires CanAfford(s, id)
    ensures RunTimedOut(variant, s, id) == PaidAndCutOff(s, id)
  {
    var c, n := s.clients[id], |s.clients[id].tries|;
    var s3 := s.(users := s.users[BillingUser(c.job) := s.users[BillingUser(c.job)] - Cost(c.job)]);
    NewestMoves(variant, s, id, InFlight, Try(AskingInfo, false, false), Try(AskingCharge, false, false),
      InfoArrives(id, n, Served));
    NewestPays(variant, s, id, InFlight, false, Served);
    NewestIsGivenUp(variant, s3, id, Try(AskingCalculation, true, false));
  }

  lemma RunFollows(variant: Variant, users: Accounts, events: seq<Event>, id: nat) returns (events': seq<Event>)
    requires id in After(variant, users, events).clients
    ensures After(variant, users, events') == RunTimedOut(variant, After(variant, users, events), id)
  {
    var n := |After(variant, users, events).clients[id].tries|;
    events' := events;
    events' := Then(variant, users, events', Send(id));
    events' := Then(variant, users, events', InfoArrives(id, n, Served));
    events' := Then(variant, users, events', ChargeArrives(id, n, Served));
    events' := Then(variant, users, events', TimeOut(id));
    events' := Then(variant, users, events', Decide(id));
  }

  lemma Then(variant: Variant, users: Accounts, events: seq<Event>, e: Event) returns (events': seq<Event>)
    ensures After(variant, users, events') == Step(variant, After(variant, users, events), e)
  {
    events' := events + [e];
    assert events'[..|events|] == events;
  }

  lemma TimedOutRun(variant: Variant, users: Accounts, events: seq<Event>, id: nat) returns (events': seq<Event>)
    requires CanAfford(After(variant, users, events), id)
    ensures After(variant, users, events') == PaidAndCutOff(After(variant, users, events), id)
  {
    events' := RunFollows(variant, users, events, id);
    TimedOutPays(variant, After(variant, users, events), id);
  }

  /** The only client, with this balance and these attempts. */
  function Alone(users: Accounts, job: Job, balance: int, tries: seq<Try>): State {
    State(users[BillingUser(job) := balance], map[1 := Client(job, Waiting, tries)], EMPTY)
  }

  lemma JoinAlone(variant: Variant, users: Accounts, job: Job) returns (events: seq<Event>)
    requires BillingUser(job) in users
    ensures After(variant, users, events) == Alone(users, job, users[BillingUser(job)], [])
  {
    events := Then(variant, users, [], Join(1, job));
    assert users[BillingUser(job) := users[BillingUser(job)]] == users;
  }

  lemma AlonePays(users: Accounts, job: Job, balance: int, tries: seq<Try>)
    requires PriceRefusal(job.price) == None && |tries| < RETRIES && 1 <= Cost(job) <= balance
    ensures var s := Alone(users, job, balance, tries);
            CanAfford(s, 1)
            && PaidAndCutOff(s, 1) == Alone(users, job, balance - Cost(job), tries + [PAID_AND_CUT_OFF])
  {
    var s, c := Alone(users, job, balance, tries), Client(job, Waiting, tries + [PAID_AND_CUT_OFF]);
    assert s.clients[1 := c] == map[1 := c];
    assert s.users[BillingUser(job) := balance - Cost(job)] == users[BillingUser(job) := balance - Cost(job)];
  }

  function CutOffs(k: nat): seq<Try> {
    if k == 0 then [] else CutOffs(k - 1) + [PAID_AND_CUT_OFF]
  }

  lemma {:induction false} CutOffsCount(k: nat)
    ensures |CutOffs(k)| == PaidTries(CutOffs(k)) == TimeOuts(CutOffs(k)) == k
  {
    if k > 0 {
      CutOffsCount(k - 1);
      assert CutOffs(k)[..k - 1] == CutOffs(k - 1);
    }
  }

  /** The only client after k attempts paid for and given up. */
  function AfterTimeOuts(users: Accounts, job: Job, k: nat): State
    requires BillingUser(job) in users
  {
    Alone(users, job, users[BillingUser(job)] - k * Cost(job), CutOffs(k))
  }

  lemma OneMoreTimeOut(users: Accounts, job: Job, k: nat)
    requires PriceRefusal(job.price) == None && k < RETRIES && 1 <= Cost(job)
    requires BillingUser(job) in users && (k + 1) * Cost(job) <= users[BillingUser(job)]
    ensures CanAfford(AfterTimeOuts(users, job, k), 1)
    ensures PaidAndCutOff(AfterTimeOuts(users, job, k), 1) == AfterTimeOuts(users, job, k + 1)
  {
    CutOffsCount(k);
    OneMorePayment(k, Cost(job));
    AlonePays(users, job, users[BillingUser(job)] - k * Cost(job), CutOffs(k));
  }

  lemma {:induction false} PayForTimeOuts(variant: Variant, users: Accounts, job: Job, k: nat)
      returns (events: seq<Event>)
    requires PriceRefusal(job.price) == None && k <= RETRIES && 1 <= Cost(job)
    requires BillingUser(job) in users && k * Cost(job) <= users[BillingUser(job)]
    ensures After(variant, users, events) == AfterTimeOuts(users, job, k)
  {
    if k == 0 {
      events := JoinAlone(variant, users, job);
    } else {
      events := PayForTimeOuts(variant, users, job, k - 1);
      OneMoreTimeOut(users, job, k - 1);
      events := TimedOutRun(variant, users, events, 1);
    }
  }

  /** Timeouts alone make a client pay again, in either copy: for each k up to 20 there is a run in which
      the gateway has given up k attempts of a client, and the client has paid for each. */
  lemma TimeOutsChargeAgain(variant: Variant, users: Accounts, job: Job, k: nat) returns (events: seq<Event>)
    requires PriceRefusal(job.price) == None && BillingUser(job) in users && k <= RETRIES
    requires 1 <= Cost(job) && k * Cost(job) <= users[BillingUser(job)]
    ensures After(variant, users, events)
            == Alone(users, job, users[BillingUser(job)] - k * Cost(job), CutOffs(k))
    ensures |CutOffs(k)| == PaidTries(CutOffs(k)) == TimeOuts(CutOffs(k)) == k
  {
    CutOffsCount(k);
    events := PayForTimeOuts(variant, users, job, k);
  }
}
