/** The registry controller: a map of lists of service objects, changed in place. */
module Registry {
  import opened Wrappers
  import opened ServiceUrl
  import opened RegistryState

  class MicroserviceInfo {
    const name: string
    const port: int
    const description: string
    const function_: string
    const type_: string
    var workload: int

    constructor (name: string, port: int, description: string, function_: string, type_: string, workload: int)
      ensures Value() == Info(name, port, description, function_, type_, workload)
    {
      this.name := name;
      this.port := port;
      this.description := description;
      this.function_ := function_;
      this.type_ := type_;
      this.workload := workload;
    }

    function Value(): Info
      reads this
    {
      Info(name, port, description, function_, type_, workload)
    }

    method SetWorkload(workload: int)
      modifies this`workload
      ensures Value() == old(Value()).(workload := workload)
    {
      this.workload := workload;
    }
  }

  function Values(es: seq<MicroserviceInfo>): (vs: seq<Info>)
    reads es
    ensures |vs| == |es| && forall i :: 0 <= i < |es| ==> vs[i] == es[i].Value()
  {
    if es == [] then [] else [es[0].Value()] + Values(es[1..])
  }

  type Services = map<string, seq<MicroserviceInfo>>

  ghost function ObjectsIn(m: Services): set<MicroserviceInfo> {
    set k, i | k in m && 0 <= i < |m[k]| :: m[k][i]
  }

  /** values().stream().flatMap(List::stream), the keys in the HashMap's iteration order. */
  function Flattened(m: Services, order: seq<string>): (es: seq<MicroserviceInfo>)
    requires forall k :: k in order ==> k in m
    ensures forall j :: 0 <= j < |es| ==> exists k :: k in order && es[j] in m[k]
    ensures forall k, i :: k in order && 0 <= i < |m[k]| ==> m[k][i] in es
  {
    if order == [] then [] else Flattened(m, order[..|order| - 1]) + m[order[|order| - 1]]
  }

  ghost function ContentOf(m: Services): View
    reads ObjectsIn(m)
  {
    map k | k in m :: Values(m[k])
  }

  /** Each object stands at one place only: every registration brings an object of its own. */
  ghost predicate Separate(m: Services) {
    forall k, i, k', i' |
      && k in m && k' in m && 0 <= i < |m[k]| && 0 <= i' < |m[k']| && (k, i) != (k', i') :: m[k][i] != m[k'][i']
  }

  function Added(m: Services, key: string, e: MicroserviceInfo): Services {
    m[key := (if key in m then m[key] else []) + [e]]
  }

  lemma AddedObjects(m: Services, key: string, e: MicroserviceInfo)
    ensures ObjectsIn(Added(m, key, e)) == ObjectsIn(m) + {e}
    ensures Separate(m) && e !in ObjectsIn(m) ==> Separate(Added(m, key, e))
  {
    var m' := Added(m, key, e);
    assert m'[key][|m'[key]| - 1] == e;
    forall k, i | k in m && 0 <= i < |m[k]|
      ensures m[k][i] in ObjectsIn(m') && m[k][i] in ObjectsIn(m)
    {
      assert m'[k][i] == m[k][i];
    }
  }

  lemma AddedContent(m: Services, e: MicroserviceInfo)
    requires var key := KeyOf(e.Value()); key in m ==> e.Value() !in Values(m[key])
    ensures (ContentOf(Added(m, KeyOf(e.Value()), e)), true) == Registered(ContentOf(m), e.Value())
  {
    var key := KeyOf(e.Value());
    var list := if key in m then m[key] else [];
    assert Values(list + [e]) == Values(list) + [e.Value()];
    assert Values([]) + [e.Value()] == [e.Value()];
    assert ContentOf(Added(m, key, e)) == ContentOf(m)[key := Values(list) + [e.Value()]];
  }

  lemma RemovedContent(m: Services, m': Services, dead: set<string>)
    requires m' == m - dead
    ensures Separate(m) ==> Separate(m')
    ensures ContentOf(m') == ContentOf(m) - dead
  {}

  /** Any order in which the HashMap may hand out its keys. */
  ghost predicate IterationOrder(m: Services, order: seq<string>) {
    && (forall k :: k in order <==> k in m)
    && forall a, b :: 0 <= a < b < |order| ==> order[a] != order[b]
  }

  // ---------------------------------------------------------------- the flattened registry

  ghost predicate Distinct(es: seq<MicroserviceInfo>) {
    forall a, b :: 0 <= a < b < |es| ==> es[a] != es[b]
  }

  /** The flattened list holds each object once. */
  lemma {:induction false} FlattenedIsDistinct(m: Services, order: seq<string>)
    requires Separate(m) && forall k :: k in order ==> k in m
    requires forall a, b :: 0 <= a < b < |order| ==> order[a] != order[b]
    ensures Distinct(Flattened(m, order))
  {
    if order != [] {
      var front, last := order[..|order| - 1], order[|order| - 1];
      var es := Flattened(m, front);
      FlattenedIsDistinct(m, front);
      assert order == front + [last] && last !in front;
      forall j | 0 <= j < |es|
        ensures es[j] !in m[last]
      {
        var k :| k in front && es[j] in m[k];
        ListsAreDisjoint(m, k, last, es[j]);
      }
      forall a, b | 0 <= a < b < |m[last]|
        ensures m[last][a] != m[last][b]
      {
        assert (last, a) != (last, b);
      }
    }
  }

  /** Each list stands in the flattened registry as it is, right after the lists of the keys before its
      own; the last key's list ends it. */
  lemma {:induction false} FlattenedInOrder(m: Services, order: seq<string>, p: nat)
    requires (forall k :: k in order ==> k in m) && p < |order|
    ensures Flattened(m, order[..p]) + m[order[p]] <= Flattened(m, order)
    ensures p == |order| - 1 ==> Flattened(m, order) == Flattened(m, order[..p]) + m[order[p]]
    ensures Flattened(m, []) == []
  {
    var last := |order| - 1;
    if p < last {
      FlattenedInOrder(m, order[..last], p);
      assert order[..last][..p] == order[..p];
    }
  }

  lemma FlattenedObjects(m: Services, order: seq<string>)
    requires IterationOrder(m, order)
    ensures forall j :: 0 <= j < |Flattened(m, order)| ==> Flattened(m, order)[j] in ObjectsIn(m)
  {
    var es := Flattened(m, order);
    forall j | 0 <= j < |es|
      ensures es[j] in ObjectsIn(m)
    {
      var k :| k in order && es[j] in m[k];
      var i :| 0 <= i < |m[k]| && m[k][i] == es[j];
    }
  }

  lemma ListsAreDisjoint(m: Services, k: string, k': string, e: MicroserviceInfo)
    requires Separate(m) && k in m && k' in m && k != k' && e in m[k]
    ensures e !in m[k']
  {
    var i :| 0 <= i < |m[k]| && m[k][i] == e;
    forall i' | 0 <= i' < |m[k']|
      ensures m[k'][i'] != e
    {
      assert (k, i) != (k', i');
    }
  }

  /** The first place, from this one, whose workload probe throws; the length if none does. */
  function FirstFailure(
      fold: char -> char, es: seq<MicroserviceInfo>, probe: nat -> Option<int>, from: nat): (stop: nat)
    requires from <= |es|
    ensures from <= stop <= |es|
    ensures forall j :: from <= j < stop && IsCalculation(fold, es[j].type_) ==> probe(j).Some?
    ensures stop < |es| ==> IsCalculation(fold, es[stop].type_) && probe(stop) == None
    decreases |es| - from
  {
    if from == |es| then from
    else if IsCalculation(fold, es[from].type_) && probe(from) == None then from
    else FirstFailure(fold, es, probe, from + 1)
  }

  /** The workload of a service whose probe has returned. */
  function Reported(fold: char -> char, e: MicroserviceInfo, reply: Option<int>, before: int): int {
    if IsCalculation(fold, e.type_) && reply.Some? then reply.value else before
  }

  /** The refresh sets the workload of each service of type "calculation" to what its probe has returned,
      up to the first such service whose probe throws; no other workload. */
  lemma RefreshSets(fold: char -> char, es: seq<MicroserviceInfo>, probe: nat -> Option<int>, j: nat, before: int)
    requires j < FirstFailure(fold, es, probe, 0)
    ensures j < |es|
    ensures var e := es[j];
            if |e.type_| == 11 && forall i | 0 <= i < 11 :: fold("calculation"[i]) == fold(e.type_[i])
            then probe(j).Some? && Reported(fold, e, probe(j), before) == probe(j).value
            else Reported(fold, e, probe(j), before) == before
  {}

  function Matching(fold: char -> char, function_: string, es: seq<MicroserviceInfo>): seq<MicroserviceInfo> {
    if es == [] then []
    else
      var last := es[|es| - 1];
      Matching(fold, function_, es[..|es| - 1])
      + if EqualsIgnoreCase(fold, function_, last.function_) then [last] else []
  }

  /** Matching keeps the order of the list: it takes each service or leaves it, one after the other. */
  lemma {:induction false} MatchingInOrder(
      fold: char -> char, function_: string, es: seq<MicroserviceInfo>, fs: seq<MicroserviceInfo>)
    ensures Matching(fold, function_, es + fs) == Matching(fold, function_, es) + Matching(fold, function_, fs)
    ensures forall j :: 0 <= j < |es| ==>
              (es[j] in Matching(fold, function_, es) <==> EqualsIgnoreCase(fold, function_, es[j].function_))
    ensures forall j :: 0 <= j < |Matching(fold, function_, es)| ==> Matching(fold, function_, es)[j] in es
    decreases |es| + |fs|
  {
    if fs != [] {
      MatchingInOrder(fold, function_, es, fs[..|fs| - 1]);
      assert (es + fs)[..|es + fs| - 1] == es + fs[..|fs| - 1];
    } else {
      assert es + fs == es;
      if es != [] {
        MatchingInOrder(fold, function_, es[..|es| - 1], []);
      }
    }
  }

  /** The services of r stand in es too, in the same order. */
  ghost predicate InOrderOf(r: seq<MicroserviceInfo>, es: seq<MicroserviceInfo>) {
    && (forall a :: 0 <= a < |r| ==> r[a] in es)
    && (forall a, b, j, l |
          0 <= a < |r| && 0 <= b < |r| && 0 <= j < |es| && 0 <= l < |es| && r[a] == es[j] && r[b] == es[l] ::
          a < b <==> j < l)
  }

  /** r has, in order, the services of es whose function is as long as the one asked for and folds to the
      same character at every place. */
  ghost predicate FoundByFunction(
      fold: char -> char, function_: string, es: seq<MicroserviceInfo>, r: seq<MicroserviceInfo>)
  {
    && InOrderOf(r, es)
    && forall j :: 0 <= j < |es| ==>
         (es[j] in r <==>
          && |es[j].function_| == |function_|
          && forall i :: 0 <= i < |function_| ==> fold(es[j].function_[i]) == fold(function_[i]))
  }

  lemma LastKeepsOrder(r: seq<MicroserviceInfo>, es: seq<MicroserviceInfo>, last: MicroserviceInfo)
    requires InOrderOf(r, es) && last !in es
    ensures InOrderOf(r + [last], es + [last])
  {
    forall a | 0 <= a < |r|
      ensures r[a] in es
    {}
  }

  lemma LastIsFoundOrNot(
      fold: char -> char, function_: string,
      es: seq<MicroserviceInfo>, r: seq<MicroserviceInfo>, last: MicroserviceInfo)
    requires FoundByFunction(fold, function_, es, r) && last !in es
    ensures FoundByFunction(fold, function_, es + [last],
              r + if EqualsIgnoreCase(fold, function_, last.function_) then [last] else [])
  {
    assert last !in r;
    if EqualsIgnoreCase(fold, function_, last.function_) {
      LastKeepsOrder(r, es, last);
    } else {
      assert r + [] == r;
    }
  }

  lemma {:induction false} MatchingPlaces(fold: char -> char, function_: string, es: seq<MicroserviceInfo>)
    requires Distinct(es)
    ensures FoundByFunction(fold, function_, es, Matching(fold, function_, es))
  {
    if es != [] {
      var front, last := es[..|es| - 1], es[|es| - 1];
      var r := Matching(fold, function_, front);
      MatchingPlaces(fold, function_, front);
      LastIsFoundOrNot(fold, function_, front, r, last);
      assert es == front + [last];
    }
  }

  // ---------------------------------------------------------------- health probes

  /** What one health request comes to: an exception, or a body, which may be null. */
  datatype Probe = Threw | Answer(body: Option<string>)

  type Health = (string, nat) -> Probe

  /** The body of the first probe from this attempt to the third that does not throw; null if all throw. */
  function FirstAnswer(health: Health, msUrl: string, attempt: nat): Option<string>
    decreases 4 - attempt
  {
    if attempt > 3 then None
    else
      match health(msUrl, attempt)
      case Answer(body) => body
      case Threw => FirstAnswer(health, msUrl, attempt + 1)
  }

  predicate Healthy(health: Health, msUrl: string) {
    FirstAnswer(health, msUrl, 1) == Some("OK")
  }

  function DeadKeys(m: Services, health: Health): set<string> {
    set k | k in m && !Healthy(health, k)
  }

  /** A URL survives the sweep exactly when, within three probes, one answers "OK" and all before it throw;
      an answer of null, like any other, ends the probing. */
  lemma HealthyExactlyWhen(health: Health, msUrl: string)
    ensures Healthy(health, msUrl) <==>
              exists n: nat | 1 <= n <= 3 ::
                health(msUrl, n) == Answer(Some("OK")) && forall m: nat | 1 <= m < n :: health(msUrl, m) == Threw
  {
    var ok := Answer(Some("OK"));
    assert FirstAnswer(health, msUrl, 4) == None;
    assert Healthy(health, msUrl) ==>
        || health(msUrl, 1) == ok
        || (health(msUrl, 1) == Threw && health(msUrl, 2) == ok)
        || (health(msUrl, 1) == Threw && health(msUrl, 2) == Threw && health(msUrl, 3) == ok);
    if n: nat :| 1 <= n <= 3 && health(msUrl, n) == ok && forall m: nat | 1 <= m < n :: health(msUrl, m) == Threw {
      assert n == 1 || n == 2 || n == 3;
      assert n >= 2 ==> health(msUrl, 1) == Threw;
      assert n == 3 ==> health(msUrl, 2) == Threw;
    }
  }

  /** A name with a space passes the validation of a registration, but no URI contains a space: from
      then on some key does not parse, and RemoveDeadMicroservices removes nothing. */
  lemma SpaceInNameStopsTheSweep(parses: string -> bool, v: View, i: Info)
    requires forall url :: ' ' in url ==> !parses(url)
    requires ' ' in i.name && Registered(v, i).1
    ensures exists key :: key in Registered(v, i).0 && !parses(key)
  {
    var at :| 0 <= at < |i.name| && i.name[at] == ' ';
    assert KeyOf(i)[|SCHEME| + at] == ' ';
    assert KeyOf(i) in Registered(v, i).0;
  }

  lemma HealthyAreLeft(m: Services, dead: seq<string>, health: Health)
    requires forall k :: k in dead <==> k in m && !Healthy(health, k)
    ensures (map k | k in m && k !in dead :: m[k]) == map k | k in m && Healthy(health, k) :: m[k]
  {}

  /** Keeping the healthy keys is taking the dead ones away. */
  lemma SweptContent(m: Services, m': Services, health: Health)
    requires Separate(m) && m' == map k | k in m && Healthy(health, k) :: m[k]
    ensures Separate(m') && ContentOf(m') == ContentOf(m) - DeadKeys(m, health)
  {
    assert m' == m - DeadKeys(m, health);
    RemovedContent(m, m', DeadKeys(m, health));
  }

  class Controller {
    const fold: char -> char
    var registered: Services

    constructor (fold: char -> char)
      ensures this.fold == fold && registered == map[]
      ensures Valid() && Content() == map[]
    {
      this.fold := fold;
      registered := map[];
    }

    ghost function Objects(): set<MicroserviceInfo>
      reads this
    {
      ObjectsIn(registered)
    }

    ghost predicate Valid()
      reads this
    {
      Separate(registered)
    }

    ghost function Content(): View
      reads this, Objects()
    {
      ContentOf(registered)
    }

    // ---------------------------------------------------------------- registration

    /** isServiceRegistered: an entry with equal fields is listed under the URL. */
    method IsServiceRegistered(msInfo: MicroserviceInfo, msUrl: string) returns (found: bool)
      ensures found <==> msUrl in registered && msInfo.Value() in Values(registered[msUrl])
    {
      if msUrl !in registered {
        return false;
      }
      var list := registered[msUrl];
      found := exists i :: 0 <= i < |list| && list[i].Value() == msInfo.Value();
    }

    /** registerMs, called once isServiceRegistered has found no equal entry. */
    method RegisterMs(msInfo: MicroserviceInfo, msUrl: string)
      requires msUrl == KeyOf(msInfo.Value())
      requires msUrl in registered ==> msInfo.Value() !in Values(registered[msUrl])
      modifies this`registered
      ensures registered == Added(old(registered), msUrl, msInfo)
      ensures (Content(), true) == Registered(old(Content()), old(msInfo.Value()))
    {
      ghost var added, outcome := Added(registered, msUrl, msInfo), Registered(Content(), msInfo.Value());
      AddedContent(registered, msInfo);
      AddedObjects(registered, msUrl, msInfo);
      assert outcome == (ContentOf(added), true);
      var list := if msUrl in registered then registered[msUrl] else [];
      registered := registered[msUrl := list + [msInfo]];
      assert registered == added;
    }

    /** registerMicroservice; `accepted` is false where the source throws ServiceAlreadyRegisteredException. */
    method RegisterMicroservice(msInfo: MicroserviceInfo) returns (accepted: bool)
      requires Valid() && msInfo !in Objects()
      modifies this`registered
      ensures Valid()
      ensures (Content(), accepted) == Registered(old(Content()), old(msInfo.Value()))
      ensures Objects() == old(Objects()) + if accepted then {msInfo} else {}
      ensures var key := KeyOf(old(msInfo.Value()));
              registered == if !accepted then old(registered)
                            else old(registered)[key := (if key in old(registered) then old(registered)[key] else [])
                                                        + [msInfo]]
    {
      var msUrl := Render(msInfo.name, msInfo.port);
      var found := IsServiceRegistered(msInfo, msUrl);
      if found {
        return false;
      }
      AddedObjects(registered, msUrl, msInfo);
      RegisterMs(msInfo, msUrl);
      accepted := true;
    }

    // ---------------------------------------------------------------- refresh

    /** The loop of getRegisteredServicesByFunction. Probe number j answers for the j-th service of the
        flattened registry, with a workload or (None) an exception, as setWorkload makes of a null. */
    method RefreshWorkloads(flat: seq<MicroserviceInfo>, probe: nat -> Option<int>)
        returns (found: seq<MicroserviceInfo>)
      requires Distinct(flat)
      modifies flat`workload
      ensures found == flat[..FirstFailure(fold, flat, probe, 0)]
      ensures forall j | 0 <= j < |found| ::
              flat[j].workload == Reported(fold, flat[j], probe(j), old(flat[j].workload))
      ensures forall j | |found| <= j < |flat| :: flat[j].workload == old(flat[j].workload)
    {
      found := [];
      var j := 0;
      while j < |flat|
        invariant 0 <= j <= |flat| && found == flat[..j]
        invariant FirstFailure(fold, flat, probe, 0) == FirstFailure(fold, flat, probe, j)
        invariant forall i | 0 <= i < j :: flat[i].workload == Reported(fold, flat[i], probe(i), old(flat[i].workload))
        invariant forall i | j <= i < |flat| :: flat[i].workload == old(flat[i].workload)
      {
        var msInfo := flat[j];
        if IsCalculation(fold, msInfo.type_) {
          var workload := probe(j);
          if workload == None {
            return;
          }
          msInfo.SetWorkload(workload.value);
        }
        found := found + [msInfo];
        j := j + 1;
      }
    }

    /** getRegisteredServices and the loop over it: only workloads of calculation services change. */
    method RefreshRegistry(order: seq<string>, probe: nat -> Option<int>)
        returns (flat: seq<MicroserviceInfo>, found: seq<MicroserviceInfo>)
      requires Valid() && IterationOrder(registered, order)
      modifies Objects()`workload
      ensures flat == Flattened(registered, order) && Distinct(flat)
      ensures found == flat[..FirstFailure(fold, flat, probe, 0)]
      ensures forall j | 0 <= j < |found| ::
              flat[j].workload == Reported(fold, flat[j], probe(j), old(flat[j].workload))
      ensures forall j | |found| <= j < |flat| :: flat[j].workload == old(flat[j].workload)
      ensures WorkloadsRefreshed(fold, old(Content()), Content())
    {
      flat := Flattened(registered, order);
      FlattenedIsDistinct(registered, order);
      FlattenedObjects(registered, order);
      found := RefreshWorkloads(flat, probe);
      forall k, i | k in registered && 0 <= i < |registered[k]|
        ensures Content()[k][i] == old(Content()[k][i]).(workload := Content()[k][i].workload)
        ensures !IsCalculation(fold, registered[k][i].type_) ==> Content()[k][i] == old(Content()[k][i])
      {
        assert registered[k][i] in flat;
      }
    }

    /** The filter at the end of getRegisteredServicesByFunction. */
    method FilterByFunction(function_: string, es: seq<MicroserviceInfo>) returns (matching: seq<MicroserviceInfo>)
      requires Distinct(es)
      ensures matching == Matching(fold, function_, es) && FoundByFunction(fold, function_, es, matching)
    {
      MatchingPlaces(fold, function_, es);
      matching := Matching(fold, function_, es);
    }

    /** getRegisteredServicesByFunction for a function that is not null. */
    method LookUp(function_: string, order: seq<string>, probe: nat -> Option<int>)
        returns (result: Option<seq<MicroserviceInfo>>)
      requires Valid() && IterationOrder(registered, order)
      modifies Objects()`workload
      ensures var flat := Flattened(registered, order);
              var stop := FirstFailure(fold, flat, probe, 0);
              && (forall j | 0 <= j < stop ::
                     flat[j].workload == Reported(fold, flat[j], probe(j), old(flat[j].workload)))
              && (forall j | stop <= j < |flat| :: flat[j].workload == old(flat[j].workload))
              && (result == None <==> stop < |flat|)
              && (result.Some? ==> FoundByFunction(fold, function_, flat, result.value))
      ensures WorkloadsRefreshed(fold, old(Content()), Content())
    {
      var flat, found := RefreshRegistry(order, probe);
      if |found| < |flat| {
        return None;
      }
      assert found == flat;
      var matching := FilterByFunction(function_, found);
      result := Some(matching);
    }

    /** getRegisteredServicesByFunction: up to the first failing probe, the workloads of calculation services
        are set to what their probes report; without a failing probe the services of this function are
        returned, else the exception reaches the caller, who gets no result. */
    method GetRegisteredServicesByFunction(
        function_: Option<string>, order: seq<string>, probe: nat -> Option<int>)
        returns (result: Option<seq<MicroserviceInfo>>)
      requires Valid() && IterationOrder(registered, order)
      modifies Objects()`workload
      ensures Valid()
      ensures function_ == None ==> result == Some([])
      ensures var flat := Flattened(registered, order);
              var stop := if function_ == None then 0 else FirstFailure(fold, flat, probe, 0);
              && (forall j | 0 <= j < stop ::
                     flat[j].workload == Reported(fold, flat[j], probe(j), old(flat[j].workload)))
              && (forall j | stop <= j < |flat| :: flat[j].workload == old(flat[j].workload))
              && (function_.Some? ==> (result == None <==> stop < |flat|))
              && (function_.Some? && result.Some? ==> FoundByFunction(fold, function_.value, flat, result.value))
      ensures WorkloadsRefreshed(fold, old(Content()), Content())
    {
      if function_ == None {
        assert WorkloadsRefreshed(fold, Content(), Content());
        return Some([]);
      }
      result := LookUp(function_.value, order, probe);
    }

    // ---------------------------------------------------------------- health

    /** retryWhenError: the first of at most three probes that does not throw, or recover's null. */
    method RetryWhenError(health: Health, msUrl: string) returns (answer: Option<string>)
      ensures answer == FirstAnswer(health, msUrl, 1)
      ensures match health(msUrl, 1)
              case Answer(body) => answer == body
              case Threw =>
                match health(msUrl, 2)
                case Answer(body) => answer == body
                case Threw => answer == if health(msUrl, 3).Threw? then None else health(msUrl, 3).body
    {
      var attempt := 0;
      while attempt < 3
        invariant 0 <= attempt <= 3
        invariant FirstAnswer(health, msUrl, 1) == FirstAnswer(health, msUrl, attempt + 1)
      {
        attempt := attempt + 1;
        var probe := health(msUrl, attempt);
        if probe.Answer? {
          return probe.body;
        }
      }
      answer := None;
    }

    method DeregisterMicroservice(msUrl: string)
      requires msUrl in registered
      modifies this`registered
      ensures registered == old(registered) - {msUrl}
    {
      registered := registered - {msUrl};
    }

    /** The second loop of the sweep; deregistration never meets a missing key. */
    method DeregisterAll(toRemove: seq<string>)
      requires forall k :: k in toRemove ==> k in registered
      requires forall a, b :: 0 <= a < b < |toRemove| ==> toRemove[a] != toRemove[b]
      modifies this`registered
      ensures registered == map k | k in old(registered) && k !in toRemove :: old(registered)[k]
    {
      var i := 0;
      while i < |toRemove|
        invariant 0 <= i <= |toRemove|
        invariant registered == map k | k in old(registered) && k !in toRemove[..i] :: old(registered)[k]
      {
        assert toRemove[i] !in toRemove[..i];
        DeregisterMicroservice(toRemove[i]);
        assert toRemove[..i + 1] == toRemove[..i] + [toRemove[i]];
        i := i + 1;
      }
      assert toRemove[..i] == toRemove;
    }

    /** The first loop of the sweep: the keys to remove, or None where URI.create throws for a key. */
    method FindDead(order: seq<string>, parses: string -> bool, health: Health)
        returns (dead: Option<seq<string>>)
      requires IterationOrder(registered, order)
      ensures dead.Some? <==> forall k :: k in registered ==> parses(k)
      ensures dead.Some? ==> forall k :: k in dead.value <==> k in registered && !Healthy(health, k)
      ensures dead.Some? ==> forall a, b :: 0 <= a < b < |dead.value| ==> dead.value[a] != dead.value[b]
    {
      var toRemove: seq<string> := [];
      var i := 0;
      while i < |order|
        invariant 0 <= i <= |order|
        invariant forall k :: k in toRemove <==> k in order[..i] && !Healthy(health, k)
        invariant forall a, b :: 0 <= a < b < |toRemove| ==> toRemove[a] != toRemove[b]
        invariant forall k :: k in order[..i] ==> parses(k)
      {
        var msUrl := order[i];
        if !parses(msUrl) {
          return None;
        }
        var answer := RetryWhenError(health, msUrl);
        assert order[..i + 1] == order[..i] + [msUrl] && msUrl !in order[..i];
        if answer != Some("OK") {
          toRemove := toRemove + [msUrl];
        }
        i := i + 1;
      }
      assert order[..i] == order;
      dead := Some(toRemove);
    }

    /** The second loop, for all dead keys: the healthy ones are left. */
    method DeregisterDead(dead: seq<string>, health: Health)
      requires Valid()
      requires forall k :: k in dead <==> k in registered && !Healthy(health, k)
      requires forall a, b :: 0 <= a < b < |dead| ==> dead[a] != dead[b]
      modifies this`registered
      ensures Valid() && Content() == old(Content()) - DeadKeys(old(registered), health)
      ensures registered == map k | k in old(registered) && Healthy(health, k) :: old(registered)[k]
    {
      ghost var m := registered;
      HealthyAreLeft(m, dead, health);
      DeregisterAll(dead);
      SweptContent(m, registered, health);
    }

    /** removeDeadMicroservices, with no other call running. `parses` says which URLs URI.create takes;
        it throws for the others, which ends the sweep (completed is false). */
    method RemoveDeadMicroservices(
        order: seq<string>, parses: string -> bool, health: Health) returns (completed: bool)
      requires Valid() && IterationOrder(registered, order)
      modifies this`registered
      ensures Valid()
      ensures completed <==> forall k :: k in old(registered) ==> parses(k)
      ensures completed ==> registered == map k | k in old(registered) && Healthy(health, k) :: old(registered)[k]
      ensures !completed ==> registered == old(registered)
      ensures completed ==> Content() == old(Content()) - DeadKeys(old(registered), health)
    {
      var dead := FindDead(order, parses, health);
      if dead == None {
        return false;
      }
      DeregisterDead(dead.value, health);
      completed := true;
    }
  }
}
