/** Runs of the registry with requests served one after the other, and when they leave equal entries. */
module RegistryRuns {
  import opened RegistryState

  // ---------------------------------------------------------------- runs

  /** A registration, a refresh of all workloads, or a sweep: each as a whole. */
  datatype Event = Register(info: Info) | Refresh(result: View) | Sweep(dead: set<string>)

  ghost predicate CanHappen(fold: char -> char, v: View, e: Event) {
    e.Refresh? ==> WorkloadsRefreshed(fold, v, e.result)
  }

  function Next(v: View, e: Event): View {
    match e
    case Register(info) => Registered(v, info).0
    case Refresh(result) => result
    case Sweep(dead) => v - dead
  }

  /** A registration adds what it adds, a refresh leaves its result, and a sweep takes its keys away. */
  lemma EventsAre(v: View, i: Info, result: View, dead: set<string>, key: string)
    ensures Next(v, Register(i)) == Registered(v, i).0 && Next(v, Refresh(result)) == result
    ensures key in Next(v, Sweep(dead)) <==> key in v && key !in dead
    ensures key in v && key !in dead ==> Next(v, Sweep(dead))[key] == v[key]
  {}

  function After(events: seq<Event>): View {
    if events == [] then map[] else Next(After(events[..|events| - 1]), events[|events| - 1])
  }

  ghost predicate IsRun(fold: char -> char, events: seq<Event>) {
    forall k :: 0 <= k < |events| ==> CanHappen(fold, After(events[..k]), events[k])
  }

  /** With requests served one after the other, in every reachable registry each key has a non-empty list,
      each entry stands under its own rendered URL, and no two entries that are not of type "calculation"
      are equal. What is left of this when registrations overlap is in RegistryRaces. */
  lemma {:induction false} EveryRunKeepsTheRegistry(fold: char -> char, events: seq<Event>)
    requires IsRun(fold, events)
    ensures WellFormed(After(events)) && Unique(After(events), NonCalculations(fold))
  {
    if events != [] {
      var front, e := events[..|events| - 1], events[|events| - 1];
      forall k | 0 <= k < |front|
        ensures CanHappen(fold, After(front[..k]), front[k])
      {
        assert front[..k] == events[..k];
      }
      EveryRunKeepsTheRegistry(fold, front);
      assert CanHappen(fold, After(front), e);
      match e
      case Register(info) => RegisterKeeps(After(front), info, NonCalculations(fold));
      case Refresh(result) => RefreshKeeps(fold, After(front), result);
      case Sweep(dead) => RemovalKeeps(After(front), dead, NonCalculations(fold));
    }
  }

  // ---------------------------------------------------------------- duplicates

  /** Two places in the registry whose entries differ at most in their workload. */
  ghost predicate Twins(v: View, k: string, i: nat, k': string, i': nat) {
    k in v && k' in v && i < |v[k]| && i' < |v[k']| && (k, i) != (k', i') && SameButWorkload(v[k][i], v[k'][i'])
  }

  /** No two entries of type "calculation" agree but for the workload. */
  ghost predicate NoCalculationTwins(fold: char -> char, v: View) {
    forall k, i: nat, k', i': nat :: Twins(v, k, i, k', i') ==> !IsCalculation(fold, v[k][i].type_)
  }

  /** Whatever the workload probes answer, a refresh leaves no two entries equal. */
  ghost predicate SafeToRefresh(fold: char -> char, v: View) {
    forall v': View :: WorkloadsRefreshed(fold, v, v') ==> Unique(v', EVERYTHING)
  }

  /** Equal entries of a refreshed registry were twins before. */
  lemma EqualWereTwins(fold: char -> char, v: View, v': View, k: string, i: nat, k': string, i': nat)
    requires WorkloadsRefreshed(fold, v, v') && k in v && k' in v && i < |v[k]| && i' < |v[k']| && (k, i) != (k', i')
    requires v'[k][i] == v'[k'][i']
    ensures Twins(v, k, i, k', i')
  {
    assert SameButWorkload(v'[k][i], v[k][i]) && SameButWorkload(v'[k'][i'], v[k'][i']);
  }

  /** v with workload w at one place. */
  function Reloaded(v: View, k: string, i: nat, w: int): View
    requires k in v && i < |v[k]|
  {
    v[k := v[k][i := v[k][i].(workload := w)]]
  }

  /** Probes that give two twins the same workload make them equal. */
  lemma TwinsCanMeet(fold: char -> char, v: View, k: string, i: nat, k': string, i': nat)
    requires Twins(v, k, i, k', i') && IsCalculation(fold, v[k][i].type_)
    ensures !SafeToRefresh(fold, v)
  {
    var v' := Reloaded(v, k', i', v[k][i].workload);
    assert WorkloadsRefreshed(fold, v, v');
    assert v'[k][i] == v'[k'][i'];
  }

  /** Refreshing cannot produce duplicates exactly when the registry holds none and no two of its
      calculation services agree in everything but the workload. */
  lemma RefreshLeavesNoDuplicateExactlyWhen(fold: char -> char, v: View)
    ensures SafeToRefresh(fold, v) <==> Unique(v, EVERYTHING) && NoCalculationTwins(fold, v)
  {
    if SafeToRefresh(fold, v) {
      assert WorkloadsRefreshed(fold, v, v);
      forall k, i: nat, k', i': nat | Twins(v, k, i, k', i')
        ensures !IsCalculation(fold, v[k][i].type_)
      {
        if IsCalculation(fold, v[k][i].type_) {
          TwinsCanMeet(fold, v, k, i, k', i');
        }
      }
    }
    if Unique(v, EVERYTHING) && NoCalculationTwins(fold, v) {
      forall v': View | WorkloadsRefreshed(fold, v, v')
        ensures Unique(v', EVERYTHING)
      {
        RefreshKeepsAllUnique(fold, v, v');
      }
    }
  }

  lemma RefreshKeepsAllUnique(fold: char -> char, v: View, v': View)
    requires Unique(v, EVERYTHING) && NoCalculationTwins(fold, v) && WorkloadsRefreshed(fold, v, v')
    ensures Unique(v', EVERYTHING) && NoCalculationTwins(fold, v')
  {
    forall k, i: nat, k', i': nat | k in v && k' in v && i < |v[k]| && i' < |v[k']| && (k, i) != (k', i')
      ensures v'[k][i] != v'[k'][i']
      ensures Twins(v', k, i, k', i') ==> Twins(v, k, i, k', i')
      ensures v'[k][i].type_ == v[k][i].type_
    {
      assert SameButWorkload(v'[k][i], v[k][i]) && SameButWorkload(v'[k'][i'], v[k'][i']);
      if v'[k][i] == v'[k'][i'] {
        EqualWereTwins(fold, v, v', k, i, k', i');
      }
    }
  }

  /** No entry agrees with i but for the workload. */
  ghost predicate NoTwinOf(v: View, i: Info) {
    forall k, n :: k in v && 0 <= n < |v[k]| ==> !SameButWorkload(v[k][n], i)
  }

  /** What a caller would check before registering: a calculation service is not let in beside a twin. */
  ghost predicate LetsInNoTwin(fold: char -> char, v: View, e: Event) {
    e.Register? && IsCalculation(fold, e.info.type_) && Registered(v, e.info).1 ==> NoTwinOf(v, e.info)
  }

  ghost predicate LetsInNoTwins(fold: char -> char, events: seq<Event>) {
    forall k :: 0 <= k < |events| ==> LetsInNoTwin(fold, After(events[..k]), events[k])
  }

  /** Every place of the registry after a registration was there before, or holds the service. */
  lemma PlaceAfterRegister(v: View, i: Info, k: string, n: nat)
    requires k in Registered(v, i).0 && n < |Registered(v, i).0[k]|
    ensures var v' := Registered(v, i).0;
            if k in v && n < |v[k]| then v'[k][n] == v[k][n]
            else v'[k][n] == i && Registered(v, i).1 && k == KeyOf(i) && n == |v'[k]| - 1
  {}

  lemma RegisterKeepsNoTwins(fold: char -> char, v: View, i: Info)
    requires NoCalculationTwins(fold, v) && LetsInNoTwin(fold, v, Register(i))
    ensures NoCalculationTwins(fold, Registered(v, i).0)
  {
    var v' := Registered(v, i).0;
    forall k, n: nat, k', n': nat | Twins(v', k, n, k', n')
      ensures !IsCalculation(fold, v'[k][n].type_)
    {
      PlaceAfterRegister(v, i, k, n);
      PlaceAfterRegister(v, i, k', n');
      var wasThere, wasThere' := k in v && n < |v[k]|, k' in v && n' < |v[k']|;
      if wasThere && wasThere' {
        assert Twins(v, k, n, k', n');
      } else if wasThere {
        assert SameButWorkload(v[k][n], i);
      } else {
        assert SameButWorkload(v[k'][n'], i);
      }
    }
  }

  lemma NextStaysSafe(fold: char -> char, v: View, e: Event)
    requires WellFormed(v) && Unique(v, EVERYTHING) && NoCalculationTwins(fold, v)
    requires CanHappen(fold, v, e) && LetsInNoTwin(fold, v, e)
    ensures Unique(Next(v, e), EVERYTHING) && NoCalculationTwins(fold, Next(v, e))
  {
    match e
    case Register(info) =>
      RegisterKeeps(v, info, EVERYTHING);
      RegisterKeepsNoTwins(fold, v, info);
    case Refresh(result) => RefreshKeepsAllUnique(fold, v, result);
    case Sweep(dead) =>
      RemovalKeeps(v, dead, EVERYTHING);
      forall k, i: nat, k', i': nat | Twins(v - dead, k, i, k', i')
        ensures Twins(v, k, i, k', i')
      {}
  }

  /** A calculation service let in beside a twin leaves two twins. */
  lemma TwinLetInShows(fold: char -> char, v: View, i: Info)
    requires WellFormed(v) && !LetsInNoTwin(fold, v, Register(i))
    ensures !NoCalculationTwins(fold, Registered(v, i).0)
  {
    var k, n :| k in v && 0 <= n < |v[k]| && SameButWorkload(v[k][n], i);
    var v', key := Registered(v, i).0, KeyOf(i);
    assert k == key && v'[key] == v[key] + [i];
    assert Twins(v', key, n, key, |v[key]|);
  }

  ghost predicate AlwaysSafeToRefresh(fold: char -> char, events: seq<Event>) {
    forall k :: 0 <= k <= |events| ==> SafeToRefresh(fold, After(events[..k]))
  }

  lemma RunPrefix(fold: char -> char, events: seq<Event>, k: nat)
    requires IsRun(fold, events) && k <= |events|
    ensures IsRun(fold, events[..k])
    ensures k < |events| ==> After(events[..k + 1]) == Next(After(events[..k]), events[k])
  {
    forall j | 0 <= j < k
      ensures events[..k][..j] == events[..j]
    {}
    if k < |events| {
      assert events[..k + 1][..k] == events[..k];
    }
  }

  lemma {:induction false} NoTwinsNoDuplicates(fold: char -> char, events: seq<Event>, k: nat)
    requires IsRun(fold, events) && LetsInNoTwins(fold, events) && k <= |events|
    ensures Unique(After(events[..k]), EVERYTHING) && NoCalculationTwins(fold, After(events[..k]))
  {
    if k > 0 {
      NoTwinsNoDuplicates(fold, events, k - 1);
      RunPrefix(fold, events, k - 1);
      EveryRunKeepsTheRegistry(fold, events[..k - 1]);
      assert CanHappen(fold, After(events[..k - 1]), events[k - 1]);
      assert LetsInNoTwin(fold, After(events[..k - 1]), events[k - 1]);
      NextStaysSafe(fold, After(events[..k - 1]), events[k - 1]);
    }
  }

  /** In no reachable registry two entries are equal, if no calculation service is let in beside a
      twin. And only so is every registry of a run one that no refresh can spoil. */
  lemma RunsHoldNoDuplicateExactlyWhen(fold: char -> char, events: seq<Event>)
    requires IsRun(fold, events)
    ensures LetsInNoTwins(fold, events) ==> Unique(After(events), EVERYTHING)
    ensures AlwaysSafeToRefresh(fold, events) <==> LetsInNoTwins(fold, events)
  {
    assert events[..|events|] == events;
    if LetsInNoTwins(fold, events) {
      forall k | 0 <= k <= |events|
        ensures Unique(After(events[..k]), EVERYTHING) && SafeToRefresh(fold, After(events[..k]))
      {
        NoTwinsNoDuplicates(fold, events, k);
        RefreshLeavesNoDuplicateExactlyWhen(fold, After(events[..k]));
      }
    }
    if AlwaysSafeToRefresh(fold, events) {
      forall k | 0 <= k < |events|
        ensures LetsInNoTwin(fold, After(events[..k]), events[k])
      {
        RunPrefix(fold, events, k);
        EveryRunKeepsTheRegistry(fold, events[..k]);
        RefreshLeavesNoDuplicateExactlyWhen(fold, After(events[..k + 1]));
        assert SafeToRefresh(fold, After(events[..k + 1]));
        if !LetsInNoTwin(fold, After(events[..k]), events[k]) {
          TwinLetInShows(fold, After(events[..k]), events[k].info);
        }
      }
    }
  }

  /** After a refresh, a service that was registered before is accepted once more exactly when every
      entry that agrees with it but for the workload now shows another workload. */
  lemma RepeatedRegistrationAcceptedExactlyWhen(fold: char -> char, v: View, v': View, i: Info)
    requires WellFormed(v) && WorkloadsRefreshed(fold, v, v')
    ensures Registered(v', i).1 <==>
              forall k, n :: k in v && 0 <= n < |v[k]| && SameButWorkload(v[k][n], i) ==>
                v'[k][n].workload != i.workload
  {
    forall k, n | k in v && 0 <= n < |v[k]|
      ensures v'[k][n] == i <==> SameButWorkload(v[k][n], i) && v'[k][n].workload == i.workload
      ensures SameButWorkload(v[k][n], i) ==> k == KeyOf(i)
    {
      assert SameButWorkload(v'[k][n], v[k][n]);
    }
  }

  /** Register, refresh, register again, refresh: two equal entries of type "calculation". */
  lemma CalculationsCanBeDuplicated(fold: char -> char, i: Info, load: int) returns (events: seq<Event>)
    requires IsCalculation(fold, i.type_) && load != i.workload
    ensures IsRun(fold, events)
    ensures var j := i.(workload := load); After(events) == map[KeyOf(i) := [j, j]]
    ensures !Unique(After(events), EVERYTHING)
  {
    var key, j := KeyOf(i), i.(workload := load);
    var v1: View := map[key := [i]];
    var v2: View := map[key := [j]];
    var v3: View := map[key := [j, i]];
    var v4: View := map[key := [j, j]];
    var e := [Register(i), Refresh(v2), Register(i), Refresh(v4)];
    assert e[..1] == [e[0]] && e[..2] == [e[0], e[1]] && e[..3] == [e[0], e[1], e[2]];
    assert e[..1][..0] == [] && e[..2][..1] == e[..1] && e[..3][..2] == e[..2] && e[..4] == e;
    assert After(e[..1]) == v1;
    assert After(e[..2]) == v2;
    assert i !in v2[key] && v2[key] + [i] == [j, i];
    assert Next(v2, Register(i)) == v3;
    assert After(e[..3]) == v3;
    assert After(e) == v4;
    events := e;
    assert v4[key][0] == v4[key][1];
  }
}
