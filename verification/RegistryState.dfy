/** The service registry as values: what it holds, and what every operation keeps. */
module RegistryState {
  import opened ServiceUrl

  /** The fields of a MicroserviceInfo; its generated equals compares all six. */
  datatype Info = Info(
    name: string, port: int, description: string, function_: string, type_: string, workload: int)

  type View = map<string, seq<Info>>

  /** equalsIgnoreCase; fold stands for Character.toLowerCase after Character.toUpperCase. */
  predicate EqualsIgnoreCase(fold: char -> char, a: string, b: string) {
    |a| == |b| && forall i :: 0 <= i < |a| ==> fold(a[i]) == fold(b[i])
  }

  predicate IsCalculation(fold: char -> char, type_: string) {
    EqualsIgnoreCase(fold, "calculation", type_)
  }

  function KeyOf(i: Info): string {
    Render(i.name, i.port)
  }

  /** registerMicroservice, and whether it was accepted. */
  function Registered(v: View, i: Info): (View, bool) {
    var key := KeyOf(i);
    if key !in v then (v[key := [i]], true)
    else if i in v[key] then (v, false)
    else (v[key := v[key] + [i]], true)
  }

  /** Accepted exactly if no entry under the URL agrees in all six fields; it is added at the end of that
      list, the first one makes a list, and no other list changes. */
  lemma RegisteredIs(v: View, i: Info)
    ensures var key := "http://" + i.name + ":" + Text(i.port);
            var (v', accepted) := Registered(v, i);
            && (accepted <==>
                  key in v ==>
                    forall n :: 0 <= n < |v[key]| ==>
                      var e := v[key][n];
                      || e.name != i.name || e.port != i.port || e.description != i.description
                      || e.function_ != i.function_ || e.type_ != i.type_ || e.workload != i.workload)
            && v' == if !accepted then v else v[key := (if key in v then v[key] else []) + [i]]
  {
    var key := KeyOf(i);
    assert key !in v ==> [] + [i] == [i];
    assert key in v ==> (i in v[key] <==> exists n :: 0 <= n < |v[key]| && v[key][n] == i);
  }

  /** Which types are of calculation services. */
  lemma CalculationIs(fold: char -> char, type_: string)
    ensures IsCalculation(fold, type_) <==>
              && |type_| == 11
              && fold(type_[0]) == fold('c') && fold(type_[1]) == fold('a') && fold(type_[2]) == fold('l')
              && fold(type_[3]) == fold('c') && fold(type_[4]) == fold('u') && fold(type_[5]) == fold('l')
              && fold(type_[6]) == fold('a') && fold(type_[7]) == fold('t') && fold(type_[8]) == fold('i')
              && fold(type_[9]) == fold('o') && fold(type_[10]) == fold('n')
  {}

  // ---------------------------------------------------------------- what a refresh may change

  predicate SameButWorkload(a: Info, b: Info) {
    a == b.(workload := a.workload)
  }

  /** v' is v with other workloads in some entries of type "calculation". */
  ghost predicate WorkloadsRefreshed(fold: char -> char, v: View, v': View) {
    && v'.Keys == v.Keys
    && forall k :: k in v ==>
         && |v'[k]| == |v[k]|
         && forall i :: 0 <= i < |v[k]| ==>
              SameButWorkload(v'[k][i], v[k][i]) && (!IsCalculation(fold, v[k][i].type_) ==> v'[k][i] == v[k][i])
  }

  /** A refresh changes workloads only, and those of calculation services only. */
  lemma RefreshedIs(fold: char -> char, v: View, v': View, k: string, n: nat)
    requires WorkloadsRefreshed(fold, v, v')
    ensures k in v' <==> k in v
    ensures k in v ==> |v'[k]| == |v[k]|
    ensures k in v && n < |v[k]| ==>
              var e, was := v'[k][n], v[k][n];
              && e.name == was.name && e.port == was.port && e.description == was.description
              && e.function_ == was.function_ && e.type_ == was.type_
              && (e.workload == was.workload || IsCalculation(fold, e.type_))
  {}

  // ---------------------------------------------------------------- the representation invariant

  ghost predicate WellFormed(v: View) {
    forall k :: k in v ==> v[k] != [] && forall i :: 0 <= i < |v[k]| ==> KeyOf(v[k][i]) == k
  }

  /** No two of the chosen entries are equal, in one list or in two. */
  ghost predicate Unique(v: View, chosen: Info -> bool) {
    forall k, i, k', i' |
      && k in v && k' in v && 0 <= i < |v[k]| && 0 <= i' < |v[k']| && (k, i) != (k', i')
      && chosen(v[k][i]) && chosen(v[k'][i']) :: v[k][i] != v[k'][i']
  }

  const EVERYTHING: Info -> bool := _ => true

  function NonCalculations(fold: char -> char): Info -> bool {
    (i: Info) => !IsCalculation(fold, i.type_)
  }

  lemma RegisterKeepsForm(v: View, i: Info)
    requires WellFormed(v)
    ensures WellFormed(Registered(v, i).0)
  {}

  /** An equal entry could only stand under the same key, where it would be found. */
  lemma RegisterKeepsUnique(v: View, i: Info, chosen: Info -> bool)
    requires WellFormed(v) && Unique(v, chosen)
    ensures Unique(Registered(v, i).0, chosen)
  {
    var v' := Registered(v, i).0;
    forall k, n | k in v && 0 <= n < |v[k]|
      ensures v'[k][n] == v[k][n]
      ensures Registered(v, i).1 ==> v[k][n] != i
    {
      assert KeyOf(v[k][n]) == k;
    }
  }

  lemma RegisterKeeps(v: View, i: Info, chosen: Info -> bool)
    requires WellFormed(v) && Unique(v, chosen)
    ensures WellFormed(Registered(v, i).0) && Unique(Registered(v, i).0, chosen)
  {
    RegisterKeepsForm(v, i);
    RegisterKeepsUnique(v, i, chosen);
  }

  lemma RemovalKeeps(v: View, dead: set<string>, chosen: Info -> bool)
    requires WellFormed(v) && Unique(v, chosen)
    ensures WellFormed(v - dead) && Unique(v - dead, chosen)
  {}

  lemma RefreshKeeps(fold: char -> char, v: View, v': View)
    requires WellFormed(v) && Unique(v, NonCalculations(fold)) && WorkloadsRefreshed(fold, v, v')
    ensures WellFormed(v') && Unique(v', NonCalculations(fold))
  {
    forall k, i | k in v && 0 <= i < |v[k]|
      ensures KeyOf(v'[k][i]) == k && IsCalculation(fold, v'[k][i].type_) == IsCalculation(fold, v[k][i].type_)
    {
      assert SameButWorkload(v'[k][i], v[k][i]);
    }
  }
}
