/**
 * The four headline cards (`MetricsGrid.tsx`): herd size, males and females,
 * and pregnant versus not pregnant. The cards keep their previous values
 * when there is no user, the query fails or the herd is empty.
 */
module MetricsGrid {
  import opened Optional
  import opened Seqs
  import opened Records

  /** The metrics shown; `notPregnant` is an `int` because, as written, it can fall below zero. */
  datatype Metrics = Metrics(totalCattle: nat, males: nat, females: nat, pregnant: nat, notPregnant: int)

  /** The initial state: every card at zero. */
  const InitialMetrics := Metrics(0, 0, 0, 0, 0)

  predicate IsMale(a: Animal) {
    a.gender == "male"
  }

  predicate IsFemale(a: Animal) {
    a.gender == "female"
  }

  predicate IsPregnant(a: Animal) {
    a.status == "pregnant"
  }

  predicate IsOpenFemale(a: Animal) {
    a.gender == "female" && a.status != "pregnant"
  }

  /**
   * The metrics as the code computes them: "No Preñadas" is the females less
   * every pregnant animal, whatever its gender.
   */
  function MetricsAsWritten(animals: seq<Animal>): Metrics {
    var females := Count(animals, IsFemale);
    var pregnant := Count(animals, IsPregnant);
    Metrics(|animals|, Count(animals, IsMale), females, pregnant, females - pregnant)
  }

  /** A male recorded as pregnant, which the animal form accepts, makes "No Preñadas" negative. */
  lemma NotPregnantNegative()
    ensures var bull := Animal("1", "u", "T-01", "Toro", "male", "2020-01-01", "Angus", "pregnant",
        None, None, None, None, None, None, None, None, None);
      MetricsAsWritten([bull]).notPregnant == -1
  {
  }

  /** The metrics with "No Preñadas" counted as the females that are not pregnant. */
  function ComputeMetrics(animals: seq<Animal>): Metrics {
    Metrics(|animals|, Count(animals, IsMale), Count(animals, IsFemale), Count(animals, IsPregnant),
      Count(animals, IsOpenFemale))
  }

  /**
   * The total is the herd size; males and females together never exceed it,
   * nor do the pregnant animals; "No Preñadas" is never negative and never
   * more than the females; and it agrees with the code whenever every
   * pregnant animal is female.
   */
  lemma ComputeMetricsBounds(animals: seq<Animal>)
    ensures var m := ComputeMetrics(animals);
      && m.totalCattle == |animals|
      && m.males + m.females <= m.totalCattle
      && m.pregnant <= m.totalCattle
      && 0 <= m.notPregnant <= m.females
      && ((forall a :: a in animals && IsPregnant(a) ==> IsFemale(a)) ==>
            m.notPregnant == MetricsAsWritten(animals).notPregnant)
  {
    CountDisjoint(animals, IsMale, IsFemale);
    if forall a :: a in animals && IsPregnant(a) ==> IsFemale(a) {
      OpenFemales(animals);
    }
    OpenFemalesAtMost(animals);
  }

  /** When every pregnant animal is female, the open females are the females less the pregnant ones. */
  lemma {:induction false} OpenFemales(animals: seq<Animal>)
    requires forall a :: a in animals && IsPregnant(a) ==> IsFemale(a)
    ensures Count(animals, IsOpenFemale) == Count(animals, IsFemale) - Count(animals, IsPregnant)
  {
    if animals != [] {
      OpenFemales(animals[1..]);
    }
  }

  lemma {:induction false} OpenFemalesAtMost(animals: seq<Animal>)
    ensures Count(animals, IsOpenFemale) <= Count(animals, IsFemale)
  {
    if animals != [] {
      OpenFemalesAtMost(animals[1..]);
    }
  }

  /**
   * `fetchMetrics`: with a user, a successful query and at least one of the
   * user's animals (the `eq`), the cards show that herd's metrics as the code
   * computes them, so "No Preñadas" is the females less every pregnant animal
   * and falls below zero when a male is recorded as pregnant; otherwise the
   * cards keep what they showed.
   */
  function NextMetrics(shown: Metrics, user: Option<string>, fetched: Result<seq<Animal>>): (m: Metrics)
    ensures user.None? || fetched.Err? || AnimalsOf(fetched.value, user.value) == [] ==> m == shown
    ensures user.Some? && fetched.Ok? && AnimalsOf(fetched.value, user.value) != [] ==>
      var herd := AnimalsOf(fetched.value, user.value);
      && m.totalCattle == |herd| > 0
      && m.males == Count(herd, IsMale)
      && m.females == Count(herd, IsFemale)
      && m.pregnant == Count(herd, IsPregnant)
      && m.notPregnant == m.females - m.pregnant
      && m.males + m.females <= m.totalCattle
      && ((forall a :: a in herd && IsPregnant(a) ==> IsFemale(a)) ==>
            0 <= m.notPregnant == ComputeMetrics(herd).notPregnant)
  {
    if user.Some? && fetched.Ok? && AnimalsOf(fetched.value, user.value) != [] then
      var herd := AnimalsOf(fetched.value, user.value);
      ComputeMetricsBounds(herd);
      MetricsAsWritten(herd)
    else shown
  }
}
