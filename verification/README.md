# Resilient microservices: a verified model

This project models, in Dafny, the services of the repository that compute, keep money and keep track
of each other, and proves what they do under concurrency, retries and 32-bit arithmetic.

* **Calculation service** (`Primality`, `PrimeSearch*`, `PrimeWorker`, `FibonacciWindow`, `Workload`).
  `calculatePrime` with its worker threads is a state machine: an arbitrary scheduler interleaves the
  threads, an append to the shared list is two steps under the lock, and every index goes through
  Java's wrap-around. `calculateFibonacci` is the loop over the pruned map, with the three puts of a
  trip in any order. The workload counters follow calls that arrive and return in any order.
* **Billing service** (`Ledger`, `LedgerBooks`, `LedgerRaces`). First one request at a time, then with
  every access to the `users` dictionary as a step between which other requests run.
* **Control center and gateway** (`Calculate2`, `Calculate2Clients`). Both copies of `calculate2` behind
  a gateway that repeats on 502, 503 and 504 and gives an attempt up after a timeout: one client
  exactly, then many clients interleaved with other billing traffic. Every remote call may be served,
  fail before or after it took effect, or raise.
* **Service registry** (`ServiceUrl`, `RegistryState`, `RegistryRuns`, `Registry`). Keys, registration, the
  workload refresh in place, and the health sweep. Then registration with every access to the map and
  its lists as a step of its own (`RegistryRaces`): what locks would keep (`RegistryLocks`,
  `RegistryListing`), for which requests no lock is needed (`RegistryRequests`), and what can happen
  otherwise (`RegistryRaceRuns`).

`JavaInt`, `MapSum` and `Wrappers` hold 32-bit arithmetic, sums over maps and optional values.

Where a promise turns out not to hold, the exact condition is proved: which n the prime search and the
Fibonacci loop are right for, when n+1 slips into the prime list, which interleavings lose money, when
the registry can come to hold duplicates, which registrations can race without one being repeated or
lost, and when a listed service stays listed. Locks are proved enough to conserve money, to keep
non-calculation entries unequal and accepted services listed, and runs show what happens without:
deposits that are lost, a service that is listed twice, a registration that disappears. One malformed
URL stops the health sweep. A client can pay up to 21 times for one request, in the microservices copy
only through timeouts; a client that names an unknown calculation type pays and gets 403.

The comment on `calculatePrime` speaks of the n-th prime; the code, and the model, look for the primes
up to n. The comments on `/prime` and `Prime` promise all values before or up to the limit; the model
follows the code, which may also try n+1.

## Model

| member | source | states |
|---|---|---|
| `PrimeSearchLimits.SearchIsRightExactlyWhenItFits` | microservices/distributed-calculation/src/main/java/univie/distributedcalculation/controller/Controller.java:134-164 | under every scheduler the search ends with the right list, each worker's numbers in order, if and only if n <= 2147483645, or n = 2147483646 and THREADS does not divide n; the same condition says when no index overflows |
| `PrimeSearchSafety.EveryInterleavingFindsThePrimes` | microservices/distributed-calculation/src/main/java/univie/distributedcalculation/service/Prime.java:46-57 | for every n and THREADS for which no index wraps (Fits): in every interleaving of the workers with the tail loop the returned list is a permutation of the primes up to max(n, THREADS*(n/THREADS)+1), each once |
| `PrimeSearchSafety.EveryInterleavingKeepsOrder` | microservices/distributed-calculation/src/main/java/univie/distributedcalculation/service/Prime.java:46-57 | at every point of every run that fits, the numbers one thread has found stand in increasing order; with one worker the whole list does |
| `PrimeSearchSafety.PrimesUpToNExactlyWhen` | microservices/distributed-calculation/src/main/java/univie/distributedcalculation/service/Prime.java:48-50 | that list is the primes up to n except in one case: THREADS divides n and n+1 is prime |
| `PrimeSearchSafety.FourOnTwoProcessors` | microservices/distributed-calculation/src/main/java/univie/distributedcalculation/controller/Controller.java:134-164 | for n = 4 on two processors every interleaving that returns lists 5, so not the primes up to 4 |
| `PrimeSearchSafety.HighestIs` | microservices/distributed-calculation/src/main/java/univie/distributedcalculation/service/Prime.java:48-50 | what is tried ends with n, or with n+1 if THREADS divides n |
| `PrimeSearchSafety.SharesAre` | microservices/distributed-calculation/src/main/java/univie/distributedcalculation/service/Prime.java:48-50 | worker t tries the t-th block of n / THREADS numbers from 2 on, main what is left up to n |
| `JavaInt.WrapIs` | microservices/distributed-calculation/src/main/java/univie/distributedcalculation/controller/Controller.java:146-147 | an int result is the one number from -2^31 to 2^31-1 that is congruent modulo 2^32 |
| `PrimeSearchSafety.MutualExclusion` | microservices/distributed-calculation/src/main/java/univie/distributedcalculation/service/Prime.java:51-55 | only the lock holder is inside the synchronized append and the size it read is current, in every run for every n; main joins only started workers |
| `PrimeSearchSafety.StepKeepsInv` | microservices/distributed-calculation/src/main/java/univie/distributedcalculation/controller/Controller.java:142-160 | each step keeps: the list holds exactly the primes below the frontiers of all threads, once each |
| `PrimeSearchSafety.ShareHasOneOwner` | microservices/distributed-calculation/src/main/java/univie/distributedcalculation/service/Prime.java:48-50 | the blocks and the tail do not overlap |
| `PrimeSearchSafety.SharesCover` | microservices/distributed-calculation/src/main/java/univie/distributedcalculation/controller/Controller.java:146-147 | the blocks and the tail together are the interval from 2 to the highest number, without a gap |
| `PrimeSearchSafety.FitsMakesExact` | microservices/distributed-calculation/src/main/java/univie/distributedcalculation/controller/Controller.java:146-147 | with n in range no int of any step wraps |
| `PrimeSearchLimits.NoDeadlock` | microservices/distributed-calculation/src/main/java/univie/distributedcalculation/controller/Controller.java:154-160 | a state in which no thread can move is one in which calculatePrime has returned |
| `PrimeSearchLimits.RunsAreBounded` | microservices/distributed-calculation/src/main/java/univie/distributedcalculation/controller/Controller.java:142-160 | for an n whose ints are exact in every run (by SearchIsRightExactlyWhenItFits: one that fits), each run, under any scheduler, is at most as long as a bound computed from the start state |
| `PrimeSearchLimits.LargestNNeverReturns` | microservices/distributed-calculation/src/main/java/univie/distributedcalculation/controller/Controller.java:146-147 | for n = 2^31-1 no interleaving ever returns |
| `PrimeSearchLimits.WrappedBeginIsListed` | microservices/distributed-calculation/src/main/java/univie/distributedcalculation/controller/Controller.java:146-152 | for n = 2^31-2 divisible by THREADS the wrapped start puts -2^31 into every returned list |
| `PrimeWorker.CalculatePrime` | microservices/distributed-calculation/src/main/java/univie/distributedcalculation/controller/Controller.java:134-164 | the imperative search under an arbitrary scheduler terminates with exactly the primes, once each, those of a worker in increasing order; all of them, with one worker |
| `PrimeWorker.Prime.Run` | microservices/distributed-calculation/src/main/java/univie/distributedcalculation/service/Prime.java:46-57 | an uninterrupted worker appends the primes of its block in increasing order and changes nothing before them |
| `PrimeWorker.PassingInOrder` | microservices/distributed-calculation/src/main/java/univie/distributedcalculation/service/Prime.java:48-56 | what a worker appends is strictly increasing and within its block |
| `PrimeWorker.TailScan` | microservices/distributed-calculation/src/main/java/univie/distributedcalculation/controller/Controller.java:146-152 | the tail loop appends the primes from its start to n in increasing order |
| `PrimeWorker.InOrderFindsThePrimes` | microservices/distributed-calculation/src/main/java/univie/distributedcalculation/controller/Controller.java:142-152 | for every n that fits, negative ones too: what the workers append one after the other and then the tail is the same collection as in every interleaving |
| `PrimeWorker.CalculatePrimeInOrder` | microservices/distributed-calculation/src/main/java/univie/distributedcalculation/controller/Controller.java:134-164 | the loops themselves, workers first to last and then the tail, on one list in place: exactly the primes, once each, in increasing order, for every n that fits |
| `Primality.IsPrime` | microservices/distributed-calculation/src/main/java/univie/distributedcalculation/service/Prime.java:35-41 | the loop answers true exactly when no d from 2 to number/2 divides; from 2 on, exactly on primes |
| `Primality.TrialDivisionIsPrimality` | microservices/distributed-calculation/src/main/java/univie/distributedcalculation/service/Prime.java:36-40 | testing up to number/2 decides primality, defined by products, for every number >= 2 |
| `Primality.PassesBelowTwo` | microservices/distributed-calculation/src/main/java/univie/distributedcalculation/service/Prime.java:36-40 | numbers below 4 always pass, so the answer means primality exactly from 2 on |
| `FibonacciWindow.CalculateFibonacci` | microservices/distributed-calculation/src/main/java/univie/distributedcalculation/controller/Controller.java:81-117 | returns the n-th Fibonacci number (0, 1, and then the sum of the two before) for every n from 0 to 2^31-2, null for negative n |
| `FibonacciWindow.LoopEndsExactlyWhen` | microservices/distributed-calculation/src/main/java/univie/distributedcalculation/controller/Controller.java:87-114 | the loop, which changes its own index, terminates if and only if n < 2^31-1 |
| `FibonacciWindow.BodyKeepsWindow` | microservices/distributed-calculation/src/main/java/univie/distributedcalculation/controller/Controller.java:88-112 | one trip keeps the map a contiguous window of right values of at most 13 indices ending at i-1; at most 16 entries on the way |
| `FibonacciWindow.TripsKeepWindow` | microservices/distributed-calculation/src/main/java/univie/distributedcalculation/controller/Controller.java:87-114 | the window holds before every trip and i advances by exactly three without overflow |
| `FibonacciWindow.MapSizes` | microservices/distributed-calculation/src/main/java/univie/distributedcalculation/controller/Controller.java:105-112 | before trip k+1 the map has 7, 10 or 13 entries, for k mod 3 = 0, 1, 2: it is cut back whenever it reaches 16 |
| `FibonacciWindow.PutsExtendWindow` | microservices/distributed-calculation/src/main/java/univie/distributedcalculation/service/Fibonacci.java:50-53 | no operand is null, and the three puts extend the window by three right values |
| `FibonacciWindow.PruneKeepsSeven` | microservices/distributed-calculation/src/main/java/univie/distributedcalculation/controller/Controller.java:105-112 | pruning leaves exactly the seven latest right values |
| `FibonacciWindow.RecurrenceByThree` | microservices/distributed-calculation/src/main/java/univie/distributedcalculation/service/Fibonacci.java:37-37 | F(k) = 4F(k-3) + F(k-6) for k >= 6 |
| `FibonacciWindow.OrderDoesNotMatter` | microservices/distributed-calculation/src/main/java/univie/distributedcalculation/controller/Controller.java:88-100 | since operands are read before the threads start, every order of the puts gives the same map |
| `FibonacciWindow.FibMap.RunAll` | microservices/distributed-calculation/src/main/java/univie/distributedcalculation/controller/Controller.java:91-100 | three threads run in an arbitrary order leave the map that running them in program order leaves |
| `FibonacciWindow.FibMap.Advance` | microservices/distributed-calculation/src/main/java/univie/distributedcalculation/controller/Controller.java:88-112 | the loop body in place does what Body says, including both assignments to i |
| `FibonacciWindow.SeedsAreRight` | microservices/distributed-calculation/src/main/java/univie/distributedcalculation/service/Fibonacci.java:36-44 | the seed map holds 0, 1, 1, 2, 3, 5, 8, which are F(0) to F(6) |
| `Workload.CountersAreAccurate` | microservices/distributed-calculation/src/main/java/univie/distributedcalculation/controller/Controller.java:59-86 | in every interleaving a counter is the number of its calls in flight plus, for FIBONACCI only, the number of completed calls with n < 7 |
| `Workload.IdleReadsZeroExactlyWhen` | microservices/distributed-calculation/src/main/java/univie/distributedcalculation/controller/Controller.java:82-86 | no counter is negative before 2^31 calls pile up; an idle counter is zero exactly when it is not FIBONACCI's or every completed Fibonacci call had n >= 7 |
| `Workload.CallsComeAndGo` | microservices/distributed-calculation/src/main/java/univie/distributedcalculation/controller/Controller.java:59-86 | a call is in flight from its arrival to its return, and completed from then on |
| `Workload.EndpointWorkload.Enter` | microservices/distributed-calculation/src/main/java/univie/distributedcalculation/controller/Controller.java:59-82 | entering adds one to the call's own counter (modulo 2^32) and leaves the others unchanged |
| `Workload.EndpointWorkload.Leave` | microservices/distributed-calculation/src/main/java/univie/distributedcalculation/controller/Controller.java:86-115 | leaving takes one from the call's own counter, except for a Fibonacci call with n < 7; the others are unchanged |
| `LedgerBooks.MoneyIsConserved` | microservices/billing-service/billing-service.py:37-125 | over any sequence of requests: balances change by accepted deposits less accepted charges less destroyed balances, and stay >= 0 |
| `LedgerBooks.RejectedChangesNothing` | microservices/billing-service/billing-service.py:37-125 | a request not answered with 200 leaves the whole ledger unchanged |
| `LedgerBooks.AccountAnswers` | microservices/billing-service/billing-service.py:37-125 | for a named user: creation answers 200 with balance 0, or 400 if the account is there; info 200 with the balance, or 400; deletion 200, whatever the balance, or 404 |
| `LedgerBooks.AmountAnswers` | microservices/billing-service/billing-service.py:51-95 | a deposit answers 200 exactly for a known user and a positive whole amount, a charge if moreover the balance covers it; else 400 and no change |
| `LedgerBooks.MissingAnswers` | microservices/billing-service/billing-service.py:37-125 | a missing amount answers 500, so does a missing name wherever an error text is built from it; an account without a name can be created once |
| `LedgerBooks.BookedIs` | microservices/billing-service/billing-service.py:62-120 | booked are the amounts of deposits and charges answered with 200 and what deleted accounts held |
| `LedgerBooks.RequestsInOrder` | microservices/billing-service/billing-service.py:37-125 | each request meets the ledger that the ones before it have left, and adds to their books |
| `LedgerBooks.ChargeAcceptedExactlyWhen` | microservices/billing-service/billing-service.py:71-95 | a charge succeeds if and only if the account exists and 0 < amount <= balance; then only that balance falls, by the amount |
| `LedgerBooks.ResponsesShowTheBalance` | microservices/billing-service/billing-service.py:158-163 | a successful response shows the balance the account has afterwards, and no other account changes |
| `LedgerBooks.ChargeUndoesDeposit` | microservices/billing-service/billing-service.py:62-88 | an equal charge undoes an accepted deposit |
| `LedgerBooks.DeleteUndoesCreate` | microservices/billing-service/billing-service.py:47-121 | deletion undoes creation |
| `Ledger.BillingService.AddAccount` | microservices/billing-service/billing-service.py:37-49 | new balance 0, or refusal without change; the error path for a missing name |
| `Ledger.BillingService.DepositAccount` | microservices/billing-service/billing-service.py:51-69 | new state and response of a deposit in every branch |
| `Ledger.BillingService.ChargeAccount` | microservices/billing-service/billing-service.py:71-95 | new state and response of a charge in every branch |
| `Ledger.BillingService.RemoveAccount` | microservices/billing-service/billing-service.py:116-125 | new state and response of a deletion in every branch |
| `LedgerRaces.RacesKeepBalancesBounded` | microservices/billing-service/billing-service.py:41-88 | with every dictionary access a step of its own, no balance is ever negative or above all deposits written for its user |
| `LedgerRaces.DriftExplainsTheTotal` | microservices/billing-service/billing-service.py:56-88 | in every interleaving the total is what the books say plus exactly what stale writes added or lost |
| `LedgerRaces.ConservedExactlyWhenNeverStale` | microservices/billing-service/billing-service.py:62-88 | money is conserved throughout a run if and only if every write finds the balance its request had read |
| `LedgerRaces.OneRequestPerUserConserves` | microservices/billing-service/billing-service.py:37-125 | if a request starts only while no other for its user is unanswered, no write is stale and money is conserved throughout, however users interleave |
| `LedgerRaces.DepositsCanBeLost` | microservices/billing-service/billing-service.py:62-63 | a run in which two deposits of 1 are both answered with 200 and the balance is 1 |
| `LedgerRaces.AccountCanVanish` | microservices/billing-service/billing-service.py:55-62 | a run in which a deposit that has found its account is answered with 500, since the account is deleted before the balance is read |
| `LedgerRaces.DeletedAccountCanReturn` | microservices/billing-service/billing-service.py:62-63 | a run in which an account whose deletion was answered with 200 is there again, with a balance |
| `LedgerRaces.VanishedAccountIsAnError` | microservices/billing-service/billing-service.py:62-125 | whenever the account is gone, reading, deleting or showing it answers 500 and changes nothing |
| `LedgerRaces.LateWritesStore` | microservices/billing-service/billing-service.py:46-88 | in any state a write stores read balance plus or minus amount, or 0 for a creation, and records just that |
| `LedgerRaces.AloneIsAtomic` | microservices/billing-service/billing-service.py:37-125 | a request whose accesses are not interleaved does what the atomic handler does |
| `Calculate2.PaysExactly` | docker/services/control-center/control-center.py:101-133 | with reliable billing a client with balance b pays a price a exactly min(r+1, b/a) times, r being how many charged attempts in a row (at most 20) the gateway repeats, after a forwarded gateway error or its own timeout; and what status it gets |
| `Calculate2.ClientSeesTheCalculation` | docker/services/control-center/control-center.py:101-133 | with all services up, price >= 1 and balance enough, for add, multiply, prime or fibonacci: the client pays once and sees the calculation service's status (docker) or 200 (microservices), unless that status is 502, 503 or 504 |
| `Calculate2.DockerPaysAgain` | docker/services/control-center/control-center.py:120-132 | a docker client whose calculation answers 502, 503 or 504 is served once more: it pays twice and sees the second status, or pays once and sees 400 if the balance is short |
| `Calculate2.AllCutOff` | istio/retry.yaml:44-47 | if every attempt times out the gateway makes 21 and answers 504 |
| `Calculate2.BadPrices` | docker/services/control-center/control-center.py:101-109 | a price that is no number answers 500, one below 1 answers 400, and nothing is charged |
| `Calculate2.NoAccount` | docker/services/control-center/control-center.py:110-112 | 400 for a client without an account or a refused account request, 500 if it raises; nothing is charged |
| `Calculate2.ChargeOutcomes` | docker/services/control-center/control-center.py:117-119 | 400 if the balance does not cover the price; a charge whose response is lost is made exactly when it had reached billing, and answers 500 or 400 |
| `Calculate2.CalculationOutcomes` | docker/services/control-center/control-center.py:120-133 | after the charge: 403 for an unknown type, 500 if the calculation request raises, else the status of the copy |
| `Calculate2.PaysForEachChargeThatTookEffect` | istio/retry.yaml:44-47 | with any faults and timeouts the balance falls by exactly k*price, no other account changes, k <= 21 and k*price <= the balance; in the microservices copy k <= 1 + the attempts cut off by the gateway |
| `Calculate2.BrokenServiceIsPaidFor` | docker/services/control-center/control-center.py:120-132 | where every charged attempt is repeated (a failing calculation service behind the docker copy, one too slow for the gateway behind either) a client whose balance lasts pays 21 times |
| `Calculate2.MicroservicesChargesOnce` | microservices/control-center/control-center.py:102-132 | without timeouts a client of the microservices copy that can pay does so exactly once, whatever the calculation service answers |
| `Calculate2.UnknownTypeIsCharged` | docker/services/control-center/control-center.py:117-133 | a client that names an unknown calculation type is charged once and answered with 403, unless its first attempt times out |
| `Calculate2.ControlCenter.Calculate2` | docker/services/control-center/control-center.py:101-133 | new ledger and status of one attempt in every branch, for both copies |
| `Calculate2.ControlCenter.Deliver` | istio/retry.yaml:44-47 | the retry loop ends after at most 21 attempts with the ledger and status of the specified delivery, timed-out attempts included |
| `Calculate2.AttemptPays` | microservices/control-center/control-center.py:102-132 | one attempt charges at most once; in the microservices copy a charged attempt does not itself end in a gateway error |
| `Calculate2Clients.EveryRunBalances` | docker/services/control-center/control-center.py:101-133 | many clients, faults, retries, timeouts with the abandoned attempts running on, and other billing traffic interleaved: no negative balance, at most 21 attempts each and one charge an attempt (in the microservices copy at most 1 + timeouts in all), and all money accounted for |
| `Calculate2Clients.GatewayErrorsMeanAllAttempts` | istio/retry.yaml:44-47 | a client answered with a gateway error has had 21 attempts, and in the microservices copy has paid at most for those that timed out |
| `Calculate2Clients.TimeOutsChargeAgain` | istio/retry.yaml:44-47 | for each k up to 20 a run, in either copy, in which a client has paid k times for k attempts, all given up by the gateway |
| `Calculate2Clients.StepsMakeAnAttempt` | docker/services/control-center/control-center.py:109-133 | the steps of an attempt without interleaving amount to calculate2 as a whole; if the gateway gives it up on the way it answers 504, and control-center goes on |
| `Calculate2Clients.StepsMakeADelivery` | istio/retry.yaml:44-47 | all attempts of a client without interleaving amount to the delivery as a whole: same accounts, status, payments and timeouts, and no one else touched |
| `Calculate2Clients.EventsFromOutside` | istio/retry.yaml:44-47 | a mesh answer counts as an unpaid attempt, another billing request is served as it is, a new client waits for its first attempt |
| `Calculate2Clients.EventTouchesOneAttempt` | docker/services/control-center/control-center.py:109-133 | progress of one attempt changes no other attempt or client, nor the gateway if it has given the attempt up |
| `ServiceUrl.KeysAgreeExactlyWhen` | microservices/service-repository/src/main/java/univie/servicerepository/controller/Controller.java:90-92 | two services share a key if and only if name and port agree, for all names and all int ports |
| `ServiceUrl.RenderReadsBack` | microservices/service-repository/src/main/java/univie/servicerepository/controller/Controller.java:90-92 | splitting a key at its last colon gives back name and port |
| `ServiceUrl.RenderIs` | microservices/service-repository/src/main/java/univie/servicerepository/controller/Controller.java:90-92 | a key is http://, the name, a colon and the decimal port |
| `ServiceUrl.DecimalIs` | microservices/service-repository/src/main/java/univie/servicerepository/controller/Controller.java:90-92 | a number is written digit by digit in base ten, without leading zeros |
| `RegistryRuns.EveryRunKeepsTheRegistry` | microservices/service-repository/src/main/java/univie/servicerepository/controller/Controller.java:81-128 | with requests served one after the other, in every reachable registry lists are non-empty, entries stand under their own URL, non-calculation entries are pairwise unequal |
| `RegistryRuns.RefreshLeavesNoDuplicateExactlyWhen` | microservices/service-repository/src/main/java/univie/servicerepository/controller/Controller.java:54-61 | no refresh, whatever the probes answer, can leave two equal entries if and only if there are none before it and no two calculation services agree in all but the workload |
| `RegistryRuns.RunsHoldNoDuplicateExactlyWhen` | microservices/service-repository/src/main/java/univie/servicerepository/controller/Controller.java:33-61 | if no calculation service is let in beside one that agrees with it but for the workload, no reachable registry holds equal entries; every registry of a run is safe from any refresh exactly then |
| `RegistryRuns.RepeatedRegistrationAcceptedExactlyWhen` | microservices/service-repository/src/main/java/univie/servicerepository/controller/Controller.java:102-111 | a repeated registration is accepted if and only if no entry still shows the workload it comes with |
| `RegistryRuns.CalculationsCanBeDuplicated` | microservices/service-repository/src/main/java/univie/servicerepository/model/MicroserviceInfo.java:9-32 | a run that registers the same calculation service twice and ends with two equal entries |
| `RegistryState.RegisterKeeps` | microservices/service-repository/src/main/java/univie/servicerepository/controller/Controller.java:33-38 | registration keeps the representation invariant and the absence of duplicates |
| `RegistryState.RegisteredIs` | microservices/service-repository/src/main/java/univie/servicerepository/controller/Controller.java:81-111 | accepted exactly if no entry under the URL agrees in all six fields; then added at the end of that list, all others unchanged |
| `RegistryState.CalculationIs` | microservices/service-repository/src/main/java/univie/servicerepository/controller/Controller.java:55-55 | calculation services are those whose type folds to the eleven letters of calculation |
| `RegistryState.RefreshedIs` | microservices/service-repository/src/main/java/univie/servicerepository/controller/Controller.java:54-61 | a refresh changes workloads only, and of calculation services only |
| `RegistryRuns.EventsAre` | microservices/service-repository/src/main/java/univie/servicerepository/controller/Controller.java:33-128 | a registration adds what it adds, a refresh leaves its result, a sweep takes its keys away |
| `RegistryRaces.ReloadSets` | microservices/service-repository/src/main/java/univie/servicerepository/controller/Controller.java:57-58 | a workload update leaves the given workload in a calculation entry and changes nothing else |
| `RegistryRaces.RemovalAndArrival` | microservices/service-repository/src/main/java/univie/servicerepository/controller/Controller.java:94-96 | a removal takes its key away and nothing else; a registration arrives under a new number |
| `RegistryRaces.EveryInterleavingIsWellFormed` | microservices/service-repository/src/main/java/univie/servicerepository/controller/Controller.java:33-111 | with each access to the map or a list a step of its own, however registrations, workload updates and removals interleave: lists are non-empty and entries stand under their own URL |
| `RegistryLocks.OneRegistrationPerUrlKeepsUnique` | microservices/service-repository/src/main/java/univie/servicerepository/controller/Controller.java:81-111 | if a registration starts only while none for the same URL is unanswered, non-calculation entries stay pairwise unequal, whenever removals and workload updates come |
| `RegistryLocks.EqualsApartKeepUnique` | microservices/service-repository/src/main/java/univie/servicerepository/controller/Controller.java:81-111 | so they do if equal services are not in flight together and registerMs is not disturbed by another registration or a removal of its URL |
| `RegistryRequests.UniqueExactlyWhenRequestsDiffer` | microservices/service-repository/src/main/java/univie/servicerepository/controller/Controller.java:33-111 | for any given set of requests: in every interleaving of them, with any removals and workload updates, non-calculation entries are pairwise unequal if and only if no two requests are of equal non-calculation services |
| `RegistryRaceRuns.OverlappingRegistrationsRepeat` | microservices/service-repository/src/main/java/univie/servicerepository/controller/Controller.java:33-38 | a run, with registerMs undisturbed, in which two overlapping registrations of one service are both accepted and leave it listed twice |
| `RegistryRaceRuns.RemovedListComesBack` | microservices/service-repository/src/main/java/univie/servicerepository/controller/Controller.java:81-100 | a run in which no equal services are in flight together, but a removed list is put back and an entry ends up twice in it |
| `RegistryRaceRuns.RefusedThoughRemoved` | microservices/service-repository/src/main/java/univie/servicerepository/controller/Controller.java:102-111 | a run in which a service is refused as registered already and is not in the registry |
| `RegistryListing.StaysListedExactlyWhen` | microservices/service-repository/src/main/java/univie/servicerepository/controller/Controller.java:81-100 | in any well-formed state: a service is listed in every continuation until its URL is removed if and only if it is listed and each registration for its URL in registerMs will put a list that holds it |
| `RegistryListing.OneRegistrationPerUrlKeepsAccepted` | microservices/service-repository/src/main/java/univie/servicerepository/controller/Controller.java:33-38 | if a registration starts only while none for the same URL is unanswered, every accepted service is listed until its URL is removed |
| `RegistryListing.EqualsApartKeepAccepted` | microservices/service-repository/src/main/java/univie/servicerepository/controller/Controller.java:33-38 | so it is if equal services are not in flight together and registerMs is not disturbed |
| `RegistryRequests.AcceptedExactlyWhenOneServicePerUrl` | microservices/service-repository/src/main/java/univie/servicerepository/controller/Controller.java:81-88 | for any given set of requests: in every interleaving of them, with any removals and workload updates, every accepted service is listed until its URL is removed if and only if requests for one URL agree but for the workload |
| `RegistryRaceRuns.RegistrationCanBeLost` | microservices/service-repository/src/main/java/univie/servicerepository/controller/Controller.java:81-88 | a run in which two services of one URL are both accepted and one of them is not in the registry, though nothing was removed |
| `RegistryRaces.AloneIsRegistered` | microservices/service-repository/src/main/java/univie/servicerepository/controller/Controller.java:33-38 | the accesses of a registration without interleaving amount to registration as a whole |
| `Registry.Controller.RegisterMicroservice` | microservices/service-repository/src/main/java/univie/servicerepository/controller/Controller.java:33-38 | appends the object at the end of the list under its URL, or refuses it exactly when an equal entry is there, and changes nothing else |
| `Registry.Controller.GetRegisteredServicesByFunction` | microservices/service-repository/src/main/java/univie/servicerepository/controller/Controller.java:47-65 | sets the workload of every calculation entry before the first failing probe and nothing else; returns, in flatten order, exactly the services whose function has the same length and folds to the same characters, or the exception |
| `Registry.RefreshSets` | microservices/service-repository/src/main/java/univie/servicerepository/controller/Controller.java:54-61 | before the first failing probe each service whose type folds to calculation gets its probe's value, and no other service does |
| `Registry.FlattenedInOrder` | microservices/service-repository/src/main/java/univie/servicerepository/controller/Controller.java:40-45 | each list stands in the flattened registry as it is, right after those of the keys before it |
| `Registry.MatchingPlaces` | microservices/service-repository/src/main/java/univie/servicerepository/controller/Controller.java:62-64 | the filter keeps exactly the services whose function matches place by place, once each and in order |
| `Registry.MatchingInOrder` | microservices/service-repository/src/main/java/univie/servicerepository/controller/Controller.java:62-64 | the result holds exactly the services whose function matches, in the order of the list |
| `Registry.Controller.RemoveDeadMicroservices` | microservices/service-repository/src/main/java/univie/servicerepository/controller/Controller.java:113-128 | keeps exactly the keys that are healthy, with their lists; one malformed URL makes the sweep remove nothing |
| `Registry.Controller.DeregisterAll` | microservices/service-repository/src/main/java/univie/servicerepository/controller/Controller.java:94-127 | deregistration never meets a missing key and removes exactly the given keys |
| `Registry.HealthyExactlyWhen` | microservices/service-repository/src/main/java/univie/servicerepository/network/RetryService.java:17-25 | a key survives if and only if one of three probes answers OK after only exceptions; any other answer, null included, ends the probing |
| `Registry.SpaceInNameStopsTheSweep` | microservices/service-repository/src/main/java/univie/servicerepository/controller/Controller.java:113-128 | once a service with a space in its name is accepted, some key does not parse as a URI, which is where the sweep removes nothing |
| `Registry.Controller.RetryWhenError` | microservices/service-repository/src/main/java/univie/servicerepository/network/RetryService.java:17-25 | the body of the first of three probes that does not throw, which may be null; null if all three throw |

## Left out

- FibonacciWindow.FibMap.RunAll: takes each `HashMap.put` of the three unsynchronised threads as atomic; what a data race inside HashMap could do is not modelled.
- PrimeWorker.CalculatePrime: is stated for the n for which the search is right (`Fits`); what happens for the others is in PrimeSearchLimits.
- FibonacciWindow.CalculateFibonacci: excludes n = 2^31-1, for which the loop does not end (LoopEndsExactlyWhen).
- Registry.Controller.RemoveDeadMicroservices: assumes no registration during the sweep (the source would throw ConcurrentModificationException); the HashMap's iteration order is a parameter.
- Registry.Controller.RegisterMicroservice: assumes the object is new to the registry, since every request deserialises one of its own, and that its strings are not null, as the validation at the REST boundary demands.
- RegistryRuns.EveryRunKeepsTheRegistry: takes each registration, refresh and sweep as one event, as if requests were served one after the other; overlapping ones are in RegistryRaces.
- RegistryRaces.EveryInterleavingIsWellFormed: takes each access to the HashMap, each append to an ArrayList and each scan of one as atomic; what two threads inside one of them at once could do, or ConcurrentModificationException, is not modelled. A refresh is its single workload updates, a sweep its single removals.
- Registry.SpaceInNameStopsTheSweep: which strings `URI.create` accepts is a parameter; that it accepts none with a space is assumed.
- Calculate2.ControlCenter.Deliver: takes an attempt that the gateway cuts off to have run its course before the next one starts; Calculate2Clients lets the two overlap. Outlier detection and canary weights are not modelled.
- Calculate2Clients.EveryRunBalances: serves each billing request as a whole. What LedgerRaces proves holds for racing requests from anywhere, control-center's attempts included; how often a client pays is not stated for billing requests that race.
- Interruption of `join` and `sleep`, and exceptions thrown out of a calculation.
- `try_to_int`: the parsed amount is an input (missing, not a number, or an int). `float(price)` and the int that billing reads from the price are inputs too.
- `equalsIgnoreCase`: the character folding is a parameter.
- Users whose names need URL encoding, JSON bodies with missing keys, HTTP method checks, `isUserExists`, `getMetrics` and the pass-through handlers.
- The fault injection of the calculation service: it appears as arbitrary statuses. Its BigDecimal addition and multiplication.
- The analytics services, the load driver, everything vendored under istio, and real time.
