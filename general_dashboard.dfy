/**
 * The figures of the general dashboard (`GeneralDashboard.tsx`), computed from
 * the fetched `animals` and `vaccines` rows and the clock: the status KPIs and
 * their percentages, the per-owner distribution, the gender by age-group
 * table, the vaccination partition, and the list of upcoming events with its
 * two vaccination tabs.
 *
 * The two averages (age and weight) and the simulated weight series are
 * floating-point figures and are not modelled. `Math.random()` is replaced by
 * the whole random offsets it produces, given as inputs.
 */
module GeneralDashboard {
  import opened Optional
  import opened Text
  import opened Seqs
  import opened Calendar
  import opened Records

  // ---------------------------------------------------------------------------
  // Status KPIs

  predicate IsHealthy(a: Animal) { a.status == "healthy" }
  predicate IsSick(a: Animal) { a.status == "sick" }
  predicate IsPregnant(a: Animal) { a.status == "pregnant" }

  /** One of the three statuses the dashboard knows. */
  predicate HasKnownStatus(a: Animal) { IsHealthy(a) || IsSick(a) || IsPregnant(a) }

  /** The integer KPIs of the dashboard (the two averages are not modelled). */
  datatype Kpi = Kpi(
    totalAnimals: nat,
    healthyAnimals: nat,
    sickAnimals: nat,
    criticalAnimals: nat,
    pregnantCows: nat,
    upToDateVaccinations: nat,
    pendingVaccinations: nat)

  /** A vaccine row with a next dose (`v.next_date` is truthy). */
  predicate HasNextDate(v: Vaccine) {
    v.next_date.Some? && v.next_date.value != ""
  }

  /** Up to date: the vaccine has a non-empty next date that sorts after today's date as text. */
  predicate IsUpToDate(v: Vaccine, todayStr: string) {
    HasNextDate(v) && StrLess(todayStr, v.next_date.value)
  }

  /** Pending: the vaccine has a non-empty next date that is today's date or sorts before it as text. */
  predicate IsPendingVaccination(v: Vaccine, todayStr: string) {
    HasNextDate(v) && !StrLess(todayStr, v.next_date.value)
  }

  /** The KPIs of a herd and its vaccines on the day whose ISO text is `todayStr`. */
  function ComputeKpi(animals: seq<Animal>, vaccines: seq<Vaccine>, todayStr: string): (k: Kpi)
    ensures k.totalAnimals == |animals|
    ensures k.criticalAnimals == 0
    ensures k.healthyAnimals <= k.totalAnimals && k.sickAnimals <= k.totalAnimals && k.pregnantCows <= k.totalAnimals
    ensures k.healthyAnimals + k.sickAnimals + k.pregnantCows <= k.totalAnimals
    ensures k.upToDateVaccinations + k.pendingVaccinations == Count(vaccines, HasNextDate)
  {
    StatusCountsSum(animals);
    VaccinationPartition(vaccines, todayStr);
    Kpi(
      |animals|,
      Count(animals, IsHealthy),
      Count(animals, IsSick),
      0,
      Count(animals, IsPregnant),
      Count(vaccines, v => IsUpToDate(v, todayStr)),
      Count(vaccines, v => IsPendingVaccination(v, todayStr)))
  }

  /** The three status counts add up to the number of animals with a known status. */
  lemma StatusCountsSum(animals: seq<Animal>)
    ensures Count(animals, IsHealthy) + Count(animals, IsSick) + Count(animals, IsPregnant)
      == Count(animals, HasKnownStatus)
  {
    CountOr(animals, IsHealthy, IsSick);
    CountOr(animals, a => IsHealthy(a) || IsSick(a), IsPregnant);
    CountCongruent(animals, a => (IsHealthy(a) || IsSick(a)) || IsPregnant(a), HasKnownStatus);
  }

  /**
   * Every vaccine with a next date is either up to date or pending, never
   * both; a vaccine without one is in neither count.
   */
  lemma VaccinationPartition(vaccines: seq<Vaccine>, todayStr: string)
    ensures Count(vaccines, v => IsUpToDate(v, todayStr)) + Count(vaccines, v => IsPendingVaccination(v, todayStr))
      == Count(vaccines, HasNextDate)
  {
    var up := v => IsUpToDate(v, todayStr);
    var pending := v => IsPendingVaccination(v, todayStr);
    CountOr(vaccines, up, pending);
    CountCongruent(vaccines, v => up(v) || pending(v), HasNextDate);
  }

  /**
   * With today's ISO text, comparing strings is comparing days: a next date
   * that is a real date is up to date exactly when it is after today, and
   * pending exactly when it is today or earlier.
   */
  lemma VaccinationStatusByDay(v: Vaccine, c: Clock, next: Date)
    requires ValidClock(c)
    requires ValidDate(next) && next.year <= 9999 && v.next_date == Some(FormatIsoDate(next))
    ensures IsUpToDate(v, TodayString(c)) <==> DayNumber(c.today) < DayNumber(next)
    ensures IsPendingVaccination(v, TodayString(c)) <==> DayNumber(next) <= DayNumber(c.today)
  {
    IsoOrder(c.today, next);
  }

  // ---------------------------------------------------------------------------
  // Health percentages

  /** A slice of a pie chart: label, percentage, colour. */
  datatype Slice = Slice(name: string, value: real, color: string)

  /** The count as a percentage of the total (of 1 when the total is 0), in exact arithmetic. */
  function Percent(count: nat, total: nat): real {
    count as real / (if total < 1 then 1 else total) as real * 100.0
  }

  /** The three health slices. */
  function HealthStatusData(k: Kpi): (r: seq<Slice>)
    ensures |r| == 3
  {
    [ Slice("Saludable", Percent(k.healthyAnimals, k.totalAnimals), "#22c55e"),
      Slice("Enfermo", Percent(k.sickAnimals, k.totalAnimals), "#f97316"),
      Slice("Preñada", Percent(k.pregnantCows, k.totalAnimals), "#3b82f6") ]
  }

  lemma PercentAdd(a: nat, b: nat, total: nat)
    ensures Percent(a, total) + Percent(b, total) == Percent(a + b, total)
  {
  }

  lemma PercentOfTotal(n: nat, total: nat)
    requires total > 0 && n <= total
    ensures Percent(n, total) <= 100.0
    ensures Percent(n, total) == 100.0 <==> n == total
  {
    var t := total as real;
    var q := n as real / t;
    assert Percent(n, total) == q * 100.0;
    assert q * t == n as real;
    if n < total {
      assert q < 1.0;
      assert q * 100.0 < 100.0;
    } else {
      assert q == 1.0;
    }
  }

  /**
   * The health percentages: each is its count over the herd size, an empty
   * herd gives three zeros, and together they make at most 100, exactly 100
   * when the herd is non-empty and every animal has a known status.
   */
  lemma HealthPercentages(animals: seq<Animal>, vaccines: seq<Vaccine>, todayStr: string)
    ensures var r := HealthStatusData(ComputeKpi(animals, vaccines, todayStr));
      && r[0].value == Percent(Count(animals, IsHealthy), |animals|)
      && r[1].value == Percent(Count(animals, IsSick), |animals|)
      && r[2].value == Percent(Count(animals, IsPregnant), |animals|)
      && (|animals| == 0 ==> r[0].value == 0.0 && r[1].value == 0.0 && r[2].value == 0.0)
      && r[0].value + r[1].value + r[2].value <= 100.0
      && (|animals| > 0 ==>
            (r[0].value + r[1].value + r[2].value == 100.0 <==> forall i :: 0 <= i < |animals| ==> HasKnownStatus(animals[i])))
  {
    var h, s, p := Count(animals, IsHealthy), Count(animals, IsSick), Count(animals, IsPregnant);
    StatusCountsSum(animals);
    PercentTriple(h, s, p, |animals|);
    if |animals| > 0 {
      CountAll(animals, HasKnownStatus);
    }
  }

  lemma PercentTriple(h: nat, s: nat, p: nat, total: nat)
    requires h + s + p <= total
    ensures total == 0 ==> Percent(h, total) == 0.0 && Percent(s, total) == 0.0 && Percent(p, total) == 0.0
    ensures Percent(h, total) + Percent(s, total) + Percent(p, total) <= 100.0
    ensures total > 0 ==> (Percent(h, total) + Percent(s, total) + Percent(p, total) == 100.0 <==> h + s + p == total)
  {
    PercentAdd(h, s, total);
    PercentAdd(h + s, p, total);
    if total > 0 {
      PercentOfTotal(h + s + p, total);
    }
  }

  // ---------------------------------------------------------------------------
  // Ownership distribution

  /** An entry of the `ownerCounts` object: an owner and its number of animals. */
  datatype OwnerCount = OwnerCount(owner: string, count: nat)

  const OwnerColors: seq<string> := ["#3b82f6", "#8b5cf6", "#10b981", "#f59e0b", "#ef4444", "#6b7280"]

  /** The animal has an owner: neither null nor empty. */
  predicate HasOwner(a: Animal) {
    a.owner.Some? && a.owner.value != ""
  }

  /**
   * The one owner that never becomes a key: the assignment
   * `ownerCounts["__proto__"] = …` goes to the prototype setter, which ignores
   * a value that is not an object.
   */
  const ProtoKey := "__proto__"

  /** The animal's owner becomes a key of `ownerCounts`. */
  predicate Keyed(a: Animal) {
    HasOwner(a) && a.owner.value != ProtoKey
  }

  /** The count stored under `o`, or 0 when `o` is not a key (a missing key reads as 0). */
  function CountFor(t: seq<OwnerCount>, o: string): nat {
    if t == [] then 0 else if t[0].owner == o then t[0].count else CountFor(t[1..], o)
  }

  predicate DistinctOwners(t: seq<OwnerCount>) {
    forall i, j :: 0 <= i < j < |t| ==> t[i].owner != t[j].owner
  }

  /** Every key is a non-empty owner other than `__proto__`, with at least one animal. */
  predicate Positive(t: seq<OwnerCount>) {
    forall i :: 0 <= i < |t| ==> t[i].count >= 1 && t[i].owner != "" && t[i].owner != ProtoKey
  }

  /**
   * One more animal for owner `o`. The keys are kept in the order they were
   * created, so an owner not seen before goes last; `Entries` gives the order
   * in which `Object.entries` then lists them.
   */
  function Bump(t: seq<OwnerCount>, o: string): (r: seq<OwnerCount>)
    ensures |r| == |t| ==> exists j :: 0 <= j < |t| && t[j].owner == o
    ensures |r| == |t| || (|r| == |t| + 1 && r[|t|] == OwnerCount(o, 1) && forall j :: 0 <= j < |t| ==> t[j].owner != o)
    ensures forall i :: 0 <= i < |t| ==> r[i].owner == t[i].owner && r[i].count >= t[i].count
  {
    if t == [] then [OwnerCount(o, 1)]
    else if t[0].owner == o then [t[0].(count := t[0].count + 1)] + t[1..]
    else
      var rest := Bump(t[1..], o);
      var r := [t[0]] + rest;
      assert forall i :: 1 <= i < |r| ==> r[i] == rest[i - 1];
      assert forall j :: 0 <= j < |t[1..]| ==> t[1..][j] == t[j + 1];
      r
  }

  /**
   * Bumping `o` adds one to the count stored under `o` and leaves every other
   * owner's count alone; every key is `o` or an old key; distinct keys stay
   * distinct, and so do non-empty keys with positive counts.
   */
  lemma BumpMeaning(t: seq<OwnerCount>, o: string)
    ensures var r := Bump(t, o);
      && (forall o' :: CountFor(r, o') == CountFor(t, o') + (if o' == o then 1 else 0))
      && (forall i :: 0 <= i < |r| ==> r[i].owner == o || (exists j :: 0 <= j < |t| && t[j].owner == r[i].owner))
      && (DistinctOwners(t) ==> DistinctOwners(r))
      && (Positive(t) && o != "" && o != ProtoKey ==> Positive(r))
  {
    var r := Bump(t, o);
    forall o' ensures CountFor(r, o') == CountFor(t, o') + (if o' == o then 1 else 0) {
      BumpCount(t, o, o');
    }
    BumpOwners(t, o);
    if DistinctOwners(t) {
      BumpDistinct(t, o);
    }
    if Positive(t) && o != "" && o != ProtoKey {
      BumpPositive(t, o);
    }
  }

  lemma BumpOwners(t: seq<OwnerCount>, o: string)
    ensures var r := Bump(t, o);
      forall i :: 0 <= i < |r| ==> r[i].owner == o || (exists j :: 0 <= j < |t| && t[j].owner == r[i].owner)
  {
    var r := Bump(t, o);
    forall i | 0 <= i < |r| ensures r[i].owner == o || (exists j :: 0 <= j < |t| && t[j].owner == r[i].owner) {
      if i < |t| {
        assert t[i].owner == r[i].owner;
      }
    }
  }

  lemma BumpDistinct(t: seq<OwnerCount>, o: string)
    requires DistinctOwners(t)
    ensures DistinctOwners(Bump(t, o))
  {
    var r := Bump(t, o);
    forall i, j | 0 <= i < j < |r| ensures r[i].owner != r[j].owner {
      if j < |t| {
        assert r[i].owner == t[i].owner && r[j].owner == t[j].owner;
      } else {
        assert r[j].owner == o && r[i].owner == t[i].owner;
      }
    }
  }

  lemma BumpPositive(t: seq<OwnerCount>, o: string)
    requires Positive(t) && o != "" && o != ProtoKey
    ensures Positive(Bump(t, o))
  {
    var r := Bump(t, o);
    forall i | 0 <= i < |r| ensures r[i].count >= 1 && r[i].owner != "" && r[i].owner != ProtoKey {
      if i < |t| {
        assert r[i].owner == t[i].owner && r[i].count >= t[i].count;
      } else {
        assert r[i] == OwnerCount(o, 1);
      }
    }
  }

  lemma {:induction false} BumpCount(t: seq<OwnerCount>, o: string, o': string)
    ensures CountFor(Bump(t, o), o') == CountFor(t, o') + (if o' == o then 1 else 0)
    decreases |t|
  {
    if t != [] && t[0].owner != o {
      BumpCount(t[1..], o, o');
      var rest := Bump(t[1..], o);
      assert Bump(t, o) == [t[0]] + rest;
      assert ([t[0]] + rest)[1..] == rest;
    }
  }

  /** The `ownerCounts` object after the `forEach` has seen the animals of `s`. */
  function Tally(s: seq<Animal>): seq<OwnerCount>
    decreases |s|
  {
    if s == [] then []
    else
      var t := Tally(s[..|s| - 1]);
      var a := s[|s| - 1];
      if Keyed(a) then Bump(t, a.owner.value) else t
  }

  /** Counting the `forEach` loop of `ownerCounts`. */
  method OwnerCounts(animals: seq<Animal>) returns (t: seq<OwnerCount>)
    ensures t == Tally(animals)
  {
    t := [];
    var i := 0;
    while i < |animals|
      invariant 0 <= i <= |animals|
      invariant t == Tally(animals[..i])
    {
      var animal := animals[i];
      if HasOwner(animal) {
        // A number assigned to `__proto__` creates no key.
        if animal.owner.value != ProtoKey {
          t := Bump(t, animal.owner.value);
        }
      }
      assert animals[..i + 1][..i] == animals[..i];
      i := i + 1;
    }
    assert animals[..|animals|] == animals;
  }

  /** The animals counted under key `o`. */
  predicate OwnedBy(a: Animal, o: string) {
    Keyed(a) && a.owner.value == o
  }

  /**
   * Each owner's bucket holds exactly that owner's animals, every key is a
   * non-empty owner other than `__proto__` with at least one animal, and no
   * key repeats.
   */
  lemma TallyMeaning(s: seq<Animal>)
    ensures forall o :: CountFor(Tally(s), o) == Count(s, a => OwnedBy(a, o))
    ensures DistinctOwners(Tally(s))
    ensures forall i :: 0 <= i < |Tally(s)| ==>
      Tally(s)[i].count >= 1 && Tally(s)[i].owner != "" && Tally(s)[i].owner != ProtoKey
  {
    forall o ensures CountFor(Tally(s), o) == Count(s, a => OwnedBy(a, o)) {
      TallyCounts(s, o);
    }
    TallyDistinct(s);
    TallyPositive(s);
  }

  lemma {:induction false} TallyCounts(s: seq<Animal>, o: string)
    ensures CountFor(Tally(s), o) == Count(s, a => OwnedBy(a, o))
    decreases |s|
  {
    if s != [] {
      var init, a := s[..|s| - 1], s[|s| - 1];
      assert s == init + [a];
      TallyCounts(init, o);
      CountAppend(init, a, a => OwnedBy(a, o));
      if Keyed(a) {
        BumpMeaning(Tally(init), a.owner.value);
      }
    }
  }

  lemma {:induction false} TallyDistinct(s: seq<Animal>)
    ensures DistinctOwners(Tally(s))
    decreases |s|
  {
    if s != [] {
      var init, a := s[..|s| - 1], s[|s| - 1];
      TallyDistinct(init);
      if Keyed(a) {
        BumpMeaning(Tally(init), a.owner.value);
      }
    }
  }

  lemma {:induction false} TallyPositive(s: seq<Animal>)
    ensures Positive(Tally(s))
    decreases |s|
  {
    if s != [] {
      var init, a := s[..|s| - 1], s[|s| - 1];
      TallyPositive(init);
      if Keyed(a) {
        BumpMeaning(Tally(init), a.owner.value);
      }
    }
  }

  /** No bucket results exactly when no animal has an owner that becomes a key. */
  lemma {:induction false} TallyEmpty(s: seq<Animal>)
    ensures |Tally(s)| == 0 <==> Count(s, Keyed) == 0
    decreases |s|
  {
    if s != [] {
      var init, a := s[..|s| - 1], s[|s| - 1];
      assert s == init + [a];
      TallyEmpty(init);
      CountAppend(init, a, Keyed);
    }
  }

  /** A key created before another: `x` sits before `y` in creation order. */
  ghost predicate KeyBefore(t: seq<OwnerCount>, x: string, y: string) {
    exists p, q :: 0 <= p < q < |t| && t[p].owner == x && t[q].owner == y
  }

  /** Some animal counted under `x` comes before every animal counted under `y`. */
  ghost predicate FirstSeenBefore(s: seq<Animal>, x: string, y: string) {
    exists k :: 0 <= k < |s| && OwnedBy(s[k], x) && forall k' :: 0 <= k' <= k ==> !OwnedBy(s[k'], y)
  }

  /** The keys of the tally come in the order their owners' first animals do. */
  lemma {:induction false} TallyOrder(s: seq<Animal>)
    ensures forall p, q :: 0 <= p < q < |Tally(s)| ==> FirstSeenBefore(s, Tally(s)[p].owner, Tally(s)[q].owner)
    decreases |s|
  {
    if s != [] {
      var init, a := s[..|s| - 1], s[|s| - 1];
      assert s == init + [a];
      var t0, t := Tally(init), Tally(s);
      TallyOrder(init);
      forall p, q | 0 <= p < q < |t| ensures FirstSeenBefore(s, t[p].owner, t[q].owner) {
        if q < |t0| {
          assert t[p].owner == t0[p].owner && t[q].owner == t0[q].owner;
          FirstSeenGrows(init, a, t0[p].owner, t0[q].owner);
        } else {
          NewKeyFirstSeen(init, a, p);
        }
      }
    }
  }

  lemma FirstSeenGrows(init: seq<Animal>, a: Animal, x: string, y: string)
    requires FirstSeenBefore(init, x, y)
    ensures FirstSeenBefore(init + [a], x, y)
  {
    var k :| 0 <= k < |init| && OwnedBy(init[k], x) && forall k' :: 0 <= k' <= k ==> !OwnedBy(init[k'], y);
    var s := init + [a];
    assert forall k' :: 0 <= k' <= k ==> s[k'] == init[k'];
    assert OwnedBy(s[k], x);
  }

  /** The key an animal creates comes after the owners of all animals before it. */
  lemma NewKeyFirstSeen(init: seq<Animal>, a: Animal, p: nat)
    requires p < |Tally(init)| < |Tally(init + [a])|
    ensures FirstSeenBefore(init + [a], Tally(init)[p].owner, Tally(init + [a])[|Tally(init)|].owner)
  {
    var s := init + [a];
    assert s[..|s| - 1] == init;
    var t0 := Tally(init);
    var o := a.owner.value;
    assert Keyed(a) && Tally(s) == Bump(t0, o);
    assert Tally(s)[|t0|].owner == o;
    // `o` was no key yet, so no earlier animal is counted under it.
    CountForMissing(t0, o);
    TallyCounts(init, o);
    CountPositive(init, b => OwnedBy(b, o));
    // The owner at position `p` has an animal among the earlier ones.
    var x := t0[p].owner;
    TallyDistinct(init);
    TallyPositive(init);
    CountForDistinct(t0, p);
    TallyCounts(init, x);
    CountPositive(init, b => OwnedBy(b, x));
    var k :| 0 <= k < |init| && OwnedBy(init[k], x);
    assert forall k' :: 0 <= k' <= k ==> s[k'] == init[k'];
    assert OwnedBy(s[k], x);
  }

  /** A name that is no key reads as 0. */
  lemma {:induction false} CountForMissing(t: seq<OwnerCount>, o: string)
    requires forall j :: 0 <= j < |t| ==> t[j].owner != o
    ensures CountFor(t, o) == 0
    decreases |t|
  {
    if t != [] {
      assert forall j :: 0 <= j < |t[1..]| ==> t[1..][j] == t[j + 1];
      CountForMissing(t[1..], o);
    }
  }

  // `Object.entries` lists the keys that are array indices first, in
  // ascending numeric order, and then the other keys in creation order.

  /** An array index: the decimal text, without a leading zero, of an integer below 2^32 - 1. */
  predicate IsIndexKey(k: string) {
    |k| >= 1 && AllDigits(k) && (|k| == 1 || k[0] != '0') && DigitsValue(k) < 0xFFFF_FFFF
  }

  predicate IsIndexEntry(e: OwnerCount) {
    IsIndexKey(e.owner)
  }

  predicate IsNamedEntry(e: OwnerCount) {
    !IsIndexKey(e.owner)
  }

  /** The position of an index entry among the indices. */
  function EntryIndex(e: OwnerCount): int {
    if IsIndexKey(e.owner) then DigitsValue(e.owner) else 0
  }

  /** `Object.entries(ownerCounts)` for the keys `t`, given in creation order. */
  function Entries(t: seq<OwnerCount>): seq<OwnerCount> {
    SortBy(Filter(t, IsIndexEntry), EntryIndex) + Filter(t, IsNamedEntry)
  }

  /** Two index keys with the same number are the same key. */
  lemma IndexKeyInjective(x: string, y: string)
    requires IsIndexKey(x) && IsIndexKey(y)
    ensures DigitsValue(x) == DigitsValue(y) ==> x == y
  {
    CanonicalDigits(x);
    CanonicalDigits(y);
  }

  /** The entries are the keys, each once. */
  lemma EntriesPermutation(t: seq<OwnerCount>)
    requires DistinctOwners(t)
    ensures |Entries(t)| == |t|
    ensures forall e :: e in Entries(t) <==> e in t
    ensures DistinctOwners(Entries(t))
  {
    EntriesLength(t);
    EntriesMembers(t);
    forall i, j | 0 <= i < j < |Entries(t)| ensures Entries(t)[i].owner != Entries(t)[j].owner {
      EntryPairDistinct(t, i, j);
    }
  }

  lemma EntriesLength(t: seq<OwnerCount>)
    ensures |Entries(t)| == |t|
  {
    CountComplement(t, IsIndexEntry, IsNamedEntry);
    CountIsFilterLength(t, IsIndexEntry);
    CountIsFilterLength(t, IsNamedEntry);
  }

  lemma EntriesMembers(t: seq<OwnerCount>)
    ensures forall e :: e in Entries(t) <==> e in t
  {
    var indexed, named := Filter(t, IsIndexEntry), Filter(t, IsNamedEntry);
    var r := Entries(t);
    assert r == SortBy(indexed, EntryIndex) + named;
    SortByMembers(indexed, EntryIndex);
    forall e | e in t ensures e in r {
      assert IsIndexEntry(e) ==> e in indexed;
      assert IsNamedEntry(e) ==> e in named;
    }
  }

  /** Two entries have different owners. */
  lemma EntryPairDistinct(t: seq<OwnerCount>, i: nat, j: nat)
    requires DistinctOwners(t) && i < j < |Entries(t)|
    ensures Entries(t)[i].owner != Entries(t)[j].owner
  {
    var indexed, named := Filter(t, IsIndexEntry), Filter(t, IsNamedEntry);
    var sorted := SortBy(indexed, EntryIndex);
    var r := Entries(t);
    var m := |sorted|;
    assert r == sorted + named;
    if j < m {
      FilterDistinct(t, IsIndexEntry);
      PermutedDistinct(sorted, indexed);
      assert r[i] == sorted[i] && r[j] == sorted[j];
    } else if m <= i {
      FilterDistinct(t, IsNamedEntry);
      assert r[i] == named[i - m] && r[j] == named[j - m];
    } else {
      // An index key and a key that is no index.
      SortedIndexKeys(t);
      assert r[i] == sorted[i] && r[j] == named[j - m];
      assert r[i] in sorted;
    }
  }

  /** Keeping some of the keys keeps them distinct. */
  lemma FilterDistinct(t: seq<OwnerCount>, p: OwnerCount -> bool)
    requires DistinctOwners(t)
    ensures DistinctOwners(Filter(t, p))
  {
    var f := Filter(t, p);
    var idx := FilterEmbedding(t, p);
    forall i, j | 0 <= i < j < |f| ensures f[i].owner != f[j].owner {
      assert f[i] == t[idx[i]] && f[j] == t[idx[j]];
    }
  }

  /** A reordering of keys that are distinct is distinct. */
  lemma PermutedDistinct(a: seq<OwnerCount>, b: seq<OwnerCount>)
    requires multiset(a) == multiset(b) && DistinctOwners(b)
    ensures DistinctOwners(a)
  {
    forall i, j | 0 <= i < j < |a| ensures a[i].owner != a[j].owner {
      assert a[i] in multiset(b) && a[j] in multiset(b);
      var k :| 0 <= k < |b| && b[k] == a[i];
      var l :| 0 <= l < |b| && b[l] == a[j];
      OnceInDistinct(b, k);
      TwiceInSeq(a, i, j);
    }
  }

  lemma OnceInDistinct(b: seq<OwnerCount>, k: nat)
    requires DistinctOwners(b) && k < |b|
    ensures multiset(b)[b[k]] == 1
  {
    assert b == b[..k] + [b[k]] + b[k + 1..];
    assert b[k] !in b[..k] by {
      forall p | 0 <= p < k ensures b[..k][p] != b[k] {
        assert b[..k][p] == b[p];
      }
    }
    assert b[k] !in b[k + 1..] by {
      forall p | k < p < |b| ensures b[p] != b[k] {
      }
    }
  }

  lemma SortedIndexKeys(t: seq<OwnerCount>)
    ensures forall x :: x in SortBy(Filter(t, IsIndexEntry), EntryIndex) ==> IsIndexKey(x.owner)
  {
    SortByMembers(Filter(t, IsIndexEntry), EntryIndex);
  }

  /** The entries before position `m` are the index keys, the others are not. */
  lemma EntriesParts(t: seq<OwnerCount>) returns (m: nat)
    ensures m <= |Entries(t)|
    ensures forall i :: 0 <= i < m ==> IsIndexKey(Entries(t)[i].owner)
    ensures forall i :: m <= i < |Entries(t)| ==> !IsIndexKey(Entries(t)[i].owner)
    ensures Entries(t)[m..] == Filter(t, IsNamedEntry)
    ensures SortedBy(Entries(t)[..m], EntryIndex)
  {
    var indexed := Filter(t, IsIndexEntry);
    var sorted := SortBy(indexed, EntryIndex);
    var named := Filter(t, IsNamedEntry);
    var r := Entries(t);
    m := |sorted|;
    assert r == sorted + named;
    assert r[..m] == sorted && r[m..] == named;
    SortedIndexKeys(t);
    forall i | 0 <= i < m ensures IsIndexKey(r[i].owner) {
      assert r[i] == sorted[i];
    }
    forall i | m <= i < |r| ensures !IsIndexKey(r[i].owner) {
      assert r[i] == named[i - m];
    }
  }

  /** Index keys come first, in strictly ascending numeric order. */
  lemma EntriesIndexFirst(t: seq<OwnerCount>)
    requires DistinctOwners(t)
    ensures var r := Entries(t);
      forall i, j :: 0 <= i < j < |r| && IsIndexKey(r[j].owner) ==>
        IsIndexKey(r[i].owner) && DigitsValue(r[i].owner) < DigitsValue(r[j].owner)
  {
    var r := Entries(t);
    var m := EntriesParts(t);
    EntriesPermutation(t);
    forall i, j | 0 <= i < j < |r| && IsIndexKey(r[j].owner)
      ensures IsIndexKey(r[i].owner) && DigitsValue(r[i].owner) < DigitsValue(r[j].owner)
    {
      assert j < m;
      assert r[..m][i] == r[i] && r[..m][j] == r[j];
      IndexKeyInjective(r[i].owner, r[j].owner);
    }
  }

  /** The other keys keep their creation order. */
  lemma EntriesNamedOrder(t: seq<OwnerCount>)
    ensures var r := Entries(t);
      forall i, j :: 0 <= i < j < |r| && !IsIndexKey(r[i].owner) && !IsIndexKey(r[j].owner) ==>
        KeyBefore(t, r[i].owner, r[j].owner)
  {
    var r := Entries(t);
    forall i, j | 0 <= i < j < |r| && !IsIndexKey(r[i].owner) && !IsIndexKey(r[j].owner)
      ensures KeyBefore(t, r[i].owner, r[j].owner)
    {
      IndexEntryAt(t, i);
      NamedPairBefore(t, i, j);
    }
  }

  /** The first `|Filter(t, IsIndexEntry)|` entries are index keys. */
  lemma IndexEntryAt(t: seq<OwnerCount>, i: nat)
    requires i < |Entries(t)|
    ensures i < |Filter(t, IsIndexEntry)| ==> IsIndexKey(Entries(t)[i].owner)
  {
    var m := EntriesParts(t);
  }

  /** Two entries past the index keys come in creation order. */
  lemma NamedPairBefore(t: seq<OwnerCount>, i: nat, j: nat)
    requires |Filter(t, IsIndexEntry)| <= i < j < |Entries(t)|
    ensures KeyBefore(t, Entries(t)[i].owner, Entries(t)[j].owner)
  {
    var sorted := SortBy(Filter(t, IsIndexEntry), EntryIndex);
    var p, q := TailPairBefore(sorted, t, IsNamedEntry, i, j);
    assert t[p] == Entries(t)[i] && t[q] == Entries(t)[j];
  }

  /** The ownership chart: a slice per entry of `ownerCounts`, or the "Sin datos" slice. */
  function OwnershipData(t: seq<OwnerCount>, totalAnimals: nat): (r: seq<Slice>)
    ensures |r| >= 1
  {
    var e := Entries(t);
    if |e| == 0 then [Slice("Sin datos", 100.0, "#6b7280")]
    else seq(|e|, i requires 0 <= i < |e| => Slice(e[i].owner, Percent(e[i].count, totalAnimals), OwnerColors[i % 6]))
  }

  /**
   * The chart is the single ("Sin datos", 100) slice exactly when no animal
   * has an owner that becomes a key. Otherwise there is one slice per such
   * owner, none of them `__proto__`; each holds the share of the herd that
   * owner has and is coloured `colors[i % 6]`; owners that are array indices
   * come first, in ascending numeric order, and the others follow in the
   * order of their first animals.
   */
  lemma OwnershipChart(animals: seq<Animal>)
    ensures var r := OwnershipData(Tally(animals), |animals|);
      && (Count(animals, Keyed) == 0 <==> r == [Slice("Sin datos", 100.0, "#6b7280")])
      && (Count(animals, Keyed) > 0 ==>
            && (forall i :: 0 <= i < |r| ==>
                  && r[i].name != "" && r[i].name != ProtoKey
                  && r[i].value == Percent(Count(animals, a => OwnedBy(a, r[i].name)), |animals|)
                  && r[i].color == OwnerColors[i % 6])
            && (forall k :: 0 <= k < |animals| && Keyed(animals[k]) ==>
                  exists i :: 0 <= i < |r| && r[i].name == animals[k].owner.value)
            && (forall i, j :: 0 <= i < j < |r| && IsIndexKey(r[j].name) ==>
                  IsIndexKey(r[i].name) && DigitsValue(r[i].name) < DigitsValue(r[j].name))
            && (forall i, j :: 0 <= i < j < |r| && !IsIndexKey(r[i].name) && !IsIndexKey(r[j].name) ==>
                  FirstSeenBefore(animals, r[i].name, r[j].name)))
      && (forall i, j :: 0 <= i < j < |r| ==> r[i].name != r[j].name)
  {
    ChartEmpty(animals);
    if Count(animals, Keyed) > 0 {
      ChartSlices(animals);
      ChartCoversOwners(animals);
    }
    ChartOrder(animals);
  }

  lemma ChartEmpty(animals: seq<Animal>)
    ensures Count(animals, Keyed) == 0 <==>
      OwnershipData(Tally(animals), |animals|) == [Slice("Sin datos", 100.0, "#6b7280")]
  {
    var t := Tally(animals);
    var r := OwnershipData(t, |animals|);
    TallyEmpty(animals);
    TallyDistinct(animals);
    EntriesPermutation(t);
    if |t| > 0 {
      assert r[0].color == OwnerColors[0];
    } else {
      assert Entries(t) == [];
    }
  }

  /** Index-named slices first and ascending, the others by first animal; no name twice. */
  lemma ChartOrder(animals: seq<Animal>)
    ensures var r := OwnershipData(Tally(animals), |animals|);
      && (Count(animals, Keyed) > 0 ==>
            && (forall i, j :: 0 <= i < j < |r| && IsIndexKey(r[j].name) ==>
                  IsIndexKey(r[i].name) && DigitsValue(r[i].name) < DigitsValue(r[j].name))
            && (forall i, j :: 0 <= i < j < |r| && !IsIndexKey(r[i].name) && !IsIndexKey(r[j].name) ==>
                  FirstSeenBefore(animals, r[i].name, r[j].name)))
      && (forall i, j :: 0 <= i < j < |r| ==> r[i].name != r[j].name)
  {
    var t := Tally(animals);
    var e := Entries(t);
    var r := OwnershipData(t, |animals|);
    TallyEmpty(animals);
    TallyDistinct(animals);
    EntriesPermutation(t);
    if |e| > 0 {
      assert forall i :: 0 <= i < |r| ==> r[i].name == e[i].owner;
      EntriesIndexFirst(t);
      EntriesNamedOrder(t);
      TallyOrder(animals);
      forall i, j | 0 <= i < j < |r| && !IsIndexKey(r[i].name) && !IsIndexKey(r[j].name)
        ensures FirstSeenBefore(animals, r[i].name, r[j].name)
      {
        assert KeyBefore(t, e[i].owner, e[j].owner);
        var p, q :| 0 <= p < q < |t| && t[p].owner == e[i].owner && t[q].owner == e[j].owner;
      }
    }
  }

  /** Each slice is an owner's share of the herd. */
  lemma ChartSlices(animals: seq<Animal>)
    requires Count(animals, Keyed) > 0
    ensures var r := OwnershipData(Tally(animals), |animals|);
      forall i :: 0 <= i < |r| ==>
        && r[i].name != "" && r[i].name != ProtoKey
        && r[i].value == Percent(Count(animals, a => OwnedBy(a, r[i].name)), |animals|)
        && r[i].color == OwnerColors[i % 6]
  {
    var t := Tally(animals);
    var e := Entries(t);
    var r := OwnershipData(t, |animals|);
    TallyEmpty(animals);
    TallyMeaning(animals);
    EntriesPermutation(t);
    forall i | 0 <= i < |r|
      ensures r[i].name != "" && r[i].name != ProtoKey
      ensures r[i].value == Percent(Count(animals, a => OwnedBy(a, r[i].name)), |animals|)
      ensures r[i].color == OwnerColors[i % 6]
    {
      assert r[i] == Slice(e[i].owner, Percent(e[i].count, |animals|), OwnerColors[i % 6]);
      assert e[i] in t;
      var p :| 0 <= p < |t| && t[p] == e[i];
      CountForDistinct(t, p);
    }
  }

  /** Every owner that becomes a key has a slice. */
  lemma ChartCoversOwners(animals: seq<Animal>)
    requires Count(animals, Keyed) > 0
    ensures var r := OwnershipData(Tally(animals), |animals|);
      forall k :: 0 <= k < |animals| && Keyed(animals[k]) ==>
        exists i :: 0 <= i < |r| && r[i].name == animals[k].owner.value
  {
    var t := Tally(animals);
    var e := Entries(t);
    var r := OwnershipData(t, |animals|);
    TallyEmpty(animals);
    TallyDistinct(animals);
    EntriesPermutation(t);
    forall k | 0 <= k < |animals| && Keyed(animals[k])
      ensures exists i :: 0 <= i < |r| && r[i].name == animals[k].owner.value
    {
      var i := OwnerSlice(animals, k);
    }
  }

  lemma OwnerSlice(animals: seq<Animal>, k: nat) returns (i: nat)
    requires k < |animals| && Keyed(animals[k])
    ensures var r := OwnershipData(Tally(animals), |animals|);
      i < |r| && r[i].name == animals[k].owner.value
  {
    var t := Tally(animals);
    var e := Entries(t);
    TallyDistinct(animals);
    EntriesPermutation(t);
    var p := OwnerIsKey(animals, k);
    assert t[p] in e;
    i :| 0 <= i < |e| && e[i] == t[p];
  }

  /** The owner of an animal that is counted is a key of the tally. */
  lemma OwnerIsKey(animals: seq<Animal>, k: nat) returns (p: nat)
    requires k < |animals| && Keyed(animals[k])
    ensures p < |Tally(animals)| && Tally(animals)[p].owner == animals[k].owner.value
  {
    var t := Tally(animals);
    var o := animals[k].owner.value;
    TallyCounts(animals, o);
    CountPositive(animals, a => OwnedBy(a, o));
    assert OwnedBy(animals[k], o);
    // A name that is no key would read as 0.
    if forall j :: 0 <= j < |t| ==> t[j].owner != o {
      CountForMissing(t, o);
    }
    p :| p < |t| && t[p].owner == o;
  }

  lemma {:induction false} CountForDistinct(t: seq<OwnerCount>, i: nat)
    requires DistinctOwners(t) && i < |t|
    ensures CountFor(t, t[i].owner) == t[i].count
    decreases i
  {
    if i > 0 {
      assert t[1..][i - 1] == t[i];
      CountForDistinct(t[1..], i - 1);
    }
  }

  // ---------------------------------------------------------------------------
  // Gender by age group

  datatype AgeGroup = UpToOne | OneToThree | ThreePlus

  /** `ageInYears`: elapsed time over years of 365.25 days, in exact arithmetic. */
  function AgeInYears(birth: Date, now: int): real
    requires ValidDate(birth)
  {
    (now - DayStart(birth)) as real / (365.25 * MsPerDay as real)
  }

  /**
   * The age group of a birth date at instant `now`. A string that is not a
   * date gives `NaN`, for which both `< 1` and `< 3` are false: "3+ años".
   */
  function AgeGroupOf(birthDate: string, now: int): AgeGroup {
    match ParseIsoDate(birthDate)
    case None => ThreePlus
    case Some(birth) =>
      var elapsed := now - DayStart(birth);
      if 4 * elapsed < 1461 * MsPerDay then UpToOne
      else if 4 * elapsed < 3 * 1461 * MsPerDay then OneToThree
      else ThreePlus
  }

  /** The integer test agrees with the source's real-valued thresholds on the age in years. */
  lemma AgeGroupByYears(birth: Date, now: int)
    requires ValidDate(birth) && birth.year <= 9999
    ensures AgeGroupOf(FormatIsoDate(birth), now) == UpToOne <==> AgeInYears(birth, now) < 1.0
    ensures AgeGroupOf(FormatIsoDate(birth), now) == OneToThree <==> 1.0 <= AgeInYears(birth, now) < 3.0
    ensures AgeGroupOf(FormatIsoDate(birth), now) == ThreePlus <==> 3.0 <= AgeInYears(birth, now)
  {
    ParseFormat(birth);
    var e := (now - DayStart(birth)) as real;
    var y := 365.25 * MsPerDay as real;
    assert AgeInYears(birth, now) == e / y;
    assert e / y < 1.0 <==> e < y;
    assert e / y < 3.0 <==> e < 3.0 * y;
  }

  /** Counts of one gender row: `{ "0-1 año", "1-3 años", "3+ años" }`. */
  datatype AgeCounts = AgeCounts(upToOne: nat, oneToThree: nat, threePlus: nat)

  function Total(ac: AgeCounts): nat {
    ac.upToOne + ac.oneToThree + ac.threePlus
  }

  /** An animal the table counts, in the row of `gender` and the column of `group`. */
  predicate InCell(a: Animal, gender: string, group: AgeGroup, now: int) {
    a.birth_date != "" && a.gender == gender && AgeGroupOf(a.birth_date, now) == group
  }

  function InCellOf(gender: string, group: AgeGroup, now: int): Animal -> bool {
    a => InCell(a, gender, group, now)
  }

  /** The row of `gender`: how many of `s` fall in each age group. */
  function RowCounts(s: seq<Animal>, gender: string, now: int): AgeCounts {
    AgeCounts(
      Count(s, InCellOf(gender, UpToOne, now)),
      Count(s, InCellOf(gender, OneToThree, now)),
      Count(s, InCellOf(gender, ThreePlus, now)))
  }

  /** The `malesByAge` / `femalesByAge` `forEach` loop. */
  method GenderAgeCounts(animals: seq<Animal>, now: int) returns (males: AgeCounts, females: AgeCounts)
    ensures males == RowCounts(animals, "male", now)
    ensures females == RowCounts(animals, "female", now)
  {
    males, females := AgeCounts(0, 0, 0), AgeCounts(0, 0, 0);
    var i := 0;
    while i < |animals|
      invariant 0 <= i <= |animals|
      invariant males == RowCounts(animals[..i], "male", now)
      invariant females == RowCounts(animals[..i], "female", now)
    {
      var animal := animals[i];
      assert animals[..i + 1] == animals[..i] + [animal];
      RowCountsAppend(animals[..i], animal, "male", now);
      RowCountsAppend(animals[..i], animal, "female", now);
      if animal.birth_date != "" {
        var group := AgeGroupOf(animal.birth_date, now);
        if animal.gender == "male" {
          males := Increment(males, group);
        } else if animal.gender == "female" {
          females := Increment(females, group);
        }
      }
      i := i + 1;
    }
    assert animals[..|animals|] == animals;
  }

  /** `byAge[group]++` */
  function Increment(ac: AgeCounts, group: AgeGroup): AgeCounts {
    match group
    case UpToOne => ac.(upToOne := ac.upToOne + 1)
    case OneToThree => ac.(oneToThree := ac.oneToThree + 1)
    case ThreePlus => ac.(threePlus := ac.threePlus + 1)
  }

  lemma RowCountsAppend(s: seq<Animal>, a: Animal, gender: string, now: int)
    ensures RowCounts(s + [a], gender, now) ==
      if InCell(a, gender, AgeGroupOf(a.birth_date, now), now)
      then Increment(RowCounts(s, gender, now), AgeGroupOf(a.birth_date, now))
      else RowCounts(s, gender, now)
  {
    CountAppend(s, a, InCellOf(gender, UpToOne, now));
    CountAppend(s, a, InCellOf(gender, OneToThree, now));
    CountAppend(s, a, InCellOf(gender, ThreePlus, now));
  }

  /** Counted by the table: a birth date and a gender of "male" or "female". */
  predicate Charted(a: Animal) {
    a.birth_date != "" && (a.gender == "male" || a.gender == "female")
  }

  /**
   * The six cells together count exactly the animals with a birth date and a
   * gender of "male" or "female", so never more than the herd.
   */
  lemma GenderAgeTotal(s: seq<Animal>, now: int)
    ensures Total(RowCounts(s, "male", now)) + Total(RowCounts(s, "female", now)) == Count(s, Charted)
    ensures Count(s, Charted) <= |s|
  {
    RowTotal(s, "male", now);
    RowTotal(s, "female", now);
    CountOr(s, a => Dated(a, "male"), a => Dated(a, "female"));
    CountCongruent(s, a => Dated(a, "male") || Dated(a, "female"), Charted);
  }

  predicate Dated(a: Animal, gender: string) {
    a.birth_date != "" && a.gender == gender
  }

  /** A row counts each animal of its gender with a birth date once, in whichever age group it falls. */
  lemma {:induction false} RowTotal(s: seq<Animal>, gender: string, now: int)
    ensures Total(RowCounts(s, gender, now)) == Count(s, a => Dated(a, gender))
  {
    forall x | x in s
      ensures (if InCellOf(gender, UpToOne, now)(x) then 1 else 0) + (if InCellOf(gender, OneToThree, now)(x) then 1 else 0)
        + (if InCellOf(gender, ThreePlus, now)(x) then 1 else 0) == (if Dated(x, gender) then 1 else 0)
    {
      OneCell(x, gender, now);
    }
    CountSum3(s, InCellOf(gender, UpToOne, now), InCellOf(gender, OneToThree, now), InCellOf(gender, ThreePlus, now),
      a => Dated(a, gender));
  }

  /** An animal is in at most one cell of its row, and in one exactly when it is dated. */
  lemma OneCell(a: Animal, gender: string, now: int)
    ensures (if InCell(a, gender, UpToOne, now) then 1 else 0)
      + (if InCell(a, gender, OneToThree, now) then 1 else 0)
      + (if InCell(a, gender, ThreePlus, now) then 1 else 0)
      == if Dated(a, gender) then 1 else 0
  {
    var g := AgeGroupOf(a.birth_date, now);
    assert g == UpToOne || g == OneToThree || g == ThreePlus;
  }

  // ---------------------------------------------------------------------------
  // Upcoming events

  datatype EventType = Vaccination | Birth | Checkup

  datatype UpcomingEvent = UpcomingEvent(
    id: string,
    kind: EventType,
    animalName: string,
    animalTag: string,
    date: string,
    description: string)

  /**
   * Due soon: the next date's midnight is before the instant 30 days from
   * now; a next date that is not a date never is.
   */
  predicate IsDueSoon(v: Vaccine, now: int) {
    HasNextDate(v) &&
    match ParseIsoDate(v.next_date.value)
    case None => false
    case Some(next) => DayStart(next) < now + 30 * MsPerDay
  }

  function VaccineEvent(v: Vaccine): UpcomingEvent {
    UpcomingEvent("vaccine-" + v.id, Vaccination, v.animals.name, v.animals.tag,
      v.next_date.GetOr(""), "Vacuna " + v.vaccine_type + " pendiente")
  }

  function BirthEvent(a: Animal, offset: nat, today: Date): UpcomingEvent
    requires ValidDate(today)
  {
    UpcomingEvent("birth-" + a.id, Birth, a.name, a.tag,
      FormatIsoDate(AddDays(today, offset)), "Fecha estimada de parto")
  }

  function CheckupEvent(a: Animal, offset: nat, today: Date): UpcomingEvent
    requires ValidDate(today)
  {
    UpcomingEvent("checkup-" + a.id, Checkup, a.name, a.tag,
      FormatIsoDate(AddDays(today, offset)), "Revisión veterinaria programada")
  }

  /** The vaccination events, one per vaccine due within 30 days, in vaccine order. */
  function VaccineEvents(vaccines: seq<Vaccine>, now: int): seq<UpcomingEvent> {
    Map(Filter(vaccines, v => IsDueSoon(v, now)), VaccineEvent)
  }

  /** The birth events: for the i-th animal, if pregnant, a date `rolls[i] + 30` days ahead. */
  function BirthEvents(animals: seq<Animal>, rolls: seq<nat>, today: Date): seq<UpcomingEvent>
    requires |rolls| == |animals| && ValidDate(today)
    decreases |animals|
  {
    if animals == [] then []
    else
      var n := |animals| - 1;
      BirthEvents(animals[..n], rolls[..n], today)
        + (if IsPregnant(animals[n]) then [BirthEvent(animals[n], rolls[n] + 30, today)] else [])
  }

  /** The checkup events: for each of the first five animals, a date `rolls[i] + 1` days ahead. */
  function CheckupEvents(animals: seq<Animal>, rolls: seq<nat>, today: Date): (r: seq<UpcomingEvent>)
    requires |rolls| == |animals| && ValidDate(today)
  {
    var n := if |animals| < 5 then |animals| else 5;
    seq(n, i requires 0 <= i < n => CheckupEvent(animals[i], rolls[i] + 1, today))
  }

  /**
   * The event's instant, the sort key. 0 stands for the `NaN` of a date that
   * does not parse; `BuiltDatesParse` shows built events never have one.
   */
  function EventTime(e: UpcomingEvent): int {
    match ParseIsoDate(e.date)
    case None => 0
    case Some(d) => DayStart(d)
  }

  ghost predicate ValidRolls(animals: seq<Animal>, birthRolls: seq<nat>, checkupRolls: seq<nat>) {
    && |birthRolls| == |animals| && |checkupRolls| == |animals|
    && (forall i :: 0 <= i < |birthRolls| ==> birthRolls[i] < 60)
    && (forall i :: 0 <= i < |checkupRolls| ==> checkupRolls[i] < 20)
  }

  /**
   * Building the event list: the three `forEach` loops push vaccination,
   * birth and checkup events, and `events.sort` orders them by date.
   * `birthRolls[i]` and `checkupRolls[i]` are the random whole offsets, below
   * 60 and below 20 days, drawn for the i-th animal.
   */
  method BuildEvents(animals: seq<Animal>, vaccines: seq<Vaccine>, c: Clock, birthRolls: seq<nat>, checkupRolls: seq<nat>)
    returns (events: seq<UpcomingEvent>)
    requires ValidClock(c) && ValidRolls(animals, birthRolls, checkupRolls)
    ensures events == SortBy(
      VaccineEvents(vaccines, Now(c)) + BirthEvents(animals, birthRolls, c.today) + CheckupEvents(animals, checkupRolls, c.today),
      EventTime)
  {
    ghost var ve := VaccineEvents(vaccines, Now(c));
    ghost var be := BirthEvents(animals, birthRolls, c.today);
    ghost var ce := CheckupEvents(animals, checkupRolls, c.today);
    var pushed := PushVaccinationEvents([], vaccines, Now(c));
    assert pushed == ve;
    pushed := PushBirthEvents(pushed, animals, birthRolls, c.today);
    assert pushed == ve + be;
    pushed := PushCheckupEvents(pushed, animals, checkupRolls, c.today);
    assert pushed == ve + be + ce;
    events := SortBy(pushed, EventTime);
  }

  /**
   * Every built event's date parses, so the sort never compares `NaN`: a
   * vaccination event carries a next date that parsed, and birth and checkup
   * dates are the ISO text of a day at most 89 days ahead, which stays within
   * four-digit years when today's year is at most 9998.
   */
  lemma BuiltDatesParse(animals: seq<Animal>, vaccines: seq<Vaccine>, c: Clock, birthRolls: seq<nat>, checkupRolls: seq<nat>)
    requires ValidClock(c) && ValidRolls(animals, birthRolls, checkupRolls) && c.today.year <= 9998
    ensures forall e :: e in SortBy(
      VaccineEvents(vaccines, Now(c)) + BirthEvents(animals, birthRolls, c.today) + CheckupEvents(animals, checkupRolls, c.today),
      EventTime) ==> ParseIsoDate(e.date).Some?
  {
    var ve := VaccineEvents(vaccines, Now(c));
    var be := BirthEvents(animals, birthRolls, c.today);
    var ce := CheckupEvents(animals, checkupRolls, c.today);
    var all := ve + be + ce;
    SortByMembers(all, EventTime);
    VaccineEventsExact(vaccines, Now(c));
    BirthEventsDated(animals, birthRolls, c.today);
    CheckupEventsExact(animals, checkupRolls, c.today);
    forall e: UpcomingEvent | e in all ensures ParseIsoDate(e.date).Some? {
      if e in ve {
        var v :| v in vaccines && IsDueSoon(v, Now(c)) && e == VaccineEvent(v);
      } else if e in be {
        DatedAheadParses(e.date, c.today, 30, 89);
      } else {
        assert e in ce;
        var i :| 0 <= i < |ce| && ce[i] == e;
        DatedAheadParses(e.date, c.today, 1, 20);
      }
    }
  }

  lemma DatedAheadParses(date: string, today: Date, lo: nat, hi: nat)
    requires ValidDate(today) && today.year <= 9998 && hi <= 365 && DatedAhead(date, today, lo, hi)
    ensures ParseIsoDate(date).Some?
  {
    var k: nat :| lo <= k <= hi && date == FormatIsoDate(AddDays(today, k));
    AddDaysYear(today, k);
    ParseFormat(AddDays(today, k));
  }

  /** `vaccines.forEach(...)`: push an event for each vaccine due within 30 days. */
  method PushVaccinationEvents(events0: seq<UpcomingEvent>, vaccines: seq<Vaccine>, now: int)
    returns (events: seq<UpcomingEvent>)
    ensures events == events0 + VaccineEvents(vaccines, now)
  {
    events := events0;
    var i := 0;
    while i < |vaccines|
      invariant 0 <= i <= |vaccines|
      invariant events == events0 + VaccineEvents(vaccines[..i], now)
    {
      var vaccine := vaccines[i];
      assert vaccines[..i + 1] == vaccines[..i] + [vaccine];
      FilterAppend(vaccines[..i], vaccine, v => IsDueSoon(v, now));
      MapAppend(Filter(vaccines[..i], v => IsDueSoon(v, now)), if IsDueSoon(vaccine, now) then [vaccine] else [], VaccineEvent);
      if HasNextDate(vaccine) {
        var next := ParseIsoDate(vaccine.next_date.value);
        if next.Some? && DayStart(next.value) < now + 30 * MsPerDay {
          events := events + [VaccineEvent(vaccine)];
        }
      }
      i := i + 1;
    }
    assert vaccines[..|vaccines|] == vaccines;
  }

  /** `animals.forEach(...)`: push a birth event for each pregnant animal. */
  method PushBirthEvents(events0: seq<UpcomingEvent>, animals: seq<Animal>, rolls: seq<nat>, today: Date)
    returns (events: seq<UpcomingEvent>)
    requires |rolls| == |animals| && ValidDate(today)
    ensures events == events0 + BirthEvents(animals, rolls, today)
  {
    events := events0;
    var i := 0;
    while i < |animals|
      invariant 0 <= i <= |animals|
      invariant events == events0 + BirthEvents(animals[..i], rolls[..i], today)
    {
      var animal := animals[i];
      BirthEventsStep(animals, rolls, today, i);
      if animal.status == "pregnant" {
        events := events + [BirthEvent(animal, rolls[i] + 30, today)];
      }
      i := i + 1;
    }
    assert animals[..|animals|] == animals && rolls[..|rolls|] == rolls;
  }

  lemma {:induction false} BirthEventsStep(animals: seq<Animal>, rolls: seq<nat>, today: Date, i: nat)
    requires |rolls| == |animals| && ValidDate(today) && i < |animals|
    ensures BirthEvents(animals[..i + 1], rolls[..i + 1], today)
      == BirthEvents(animals[..i], rolls[..i], today)
        + (if IsPregnant(animals[i]) then [BirthEvent(animals[i], rolls[i] + 30, today)] else [])
  {
    var a, r := animals[..i + 1], rolls[..i + 1];
    assert a[..i] == animals[..i] && r[..i] == rolls[..i];
    assert a[i] == animals[i] && r[i] == rolls[i];
    BirthEventsLast(a, r, today);
  }

  /** The birth events of a non-empty list end with the last animal's. */
  lemma BirthEventsLast(animals: seq<Animal>, rolls: seq<nat>, today: Date)
    requires |rolls| == |animals| > 0 && ValidDate(today)
    ensures var n := |animals| - 1;
      BirthEvents(animals, rolls, today) == BirthEvents(animals[..n], rolls[..n], today)
        + (if IsPregnant(animals[n]) then [BirthEvent(animals[n], rolls[n] + 30, today)] else [])
  {
  }

  /** Push a checkup event for each of the first five animals. */
  method PushCheckupEvents(events0: seq<UpcomingEvent>, animals: seq<Animal>, rolls: seq<nat>, today: Date)
    returns (events: seq<UpcomingEvent>)
    requires |rolls| == |animals| && ValidDate(today)
    ensures events == events0 + CheckupEvents(animals, rolls, today)
  {
    var checkups := CheckupEvents(animals, rolls, today);
    var n := if |animals| < 5 then |animals| else 5;
    events := events0;
    var i := 0;
    while i < n
      invariant 0 <= i <= n
      invariant events == events0 + checkups[..i]
    {
      assert checkups[..i + 1] == checkups[..i] + [CheckupEvent(animals[i], rolls[i] + 1, today)];
      events := events + [CheckupEvent(animals[i], rolls[i] + 1, today)];
      i := i + 1;
    }
    assert checkups[..n] == checkups;
  }

  /** The vaccination events are exactly the vaccines due within 30 days, one each. */
  lemma VaccineEventsExact(vaccines: seq<Vaccine>, now: int)
    ensures |VaccineEvents(vaccines, now)| == Count(vaccines, v => IsDueSoon(v, now))
    ensures forall e :: e in VaccineEvents(vaccines, now) ==>
      e.kind == Vaccination && exists v :: v in vaccines && IsDueSoon(v, now) && e == VaccineEvent(v)
    ensures forall v :: v in vaccines && IsDueSoon(v, now) ==> VaccineEvent(v) in VaccineEvents(vaccines, now)
  {
    var f := Filter(vaccines, v => IsDueSoon(v, now));
    CountIsFilterLength(vaccines, v => IsDueSoon(v, now));
    forall v | v in vaccines && IsDueSoon(v, now) ensures VaccineEvent(v) in VaccineEvents(vaccines, now) {
      var k :| 0 <= k < |vaccines| && vaccines[k] == v;
      var j :| 0 <= j < |f| && f[j] == v;
      assert VaccineEvents(vaccines, now)[j] == VaccineEvent(v);
    }
  }

  /**
   * "Due within 30 days" by day: a next date up to 29 days ahead always
   * qualifies, one exactly 30 days ahead qualifies once today's midnight has
   * passed, and later ones never do.
   */
  lemma DueSoonByDay(v: Vaccine, c: Clock, next: Date)
    requires ValidClock(c) && ValidDate(next) && next.year <= 9999 && v.next_date == Some(FormatIsoDate(next))
    ensures IsDueSoon(v, Now(c)) <==>
      DayNumber(next) - DayNumber(c.today) < 30 || (DayNumber(next) - DayNumber(c.today) == 30 && c.msOfDay > 0)
  {
    ParseFormat(next);
    var k := DayNumber(next) - DayNumber(c.today);
    assert DayStart(next) - Now(c) == k * MsPerDay - c.msOfDay;
  }

  /** `date` is the ISO text of a day between `lo` and `hi` days after `today`. */
  ghost predicate DatedAhead(date: string, today: Date, lo: nat, hi: nat)
    requires ValidDate(today)
  {
    exists k: nat :: lo <= k <= hi && date == FormatIsoDate(AddDays(today, k))
  }

  /** There is one birth event per pregnant animal. */
  lemma {:induction false} BirthEventsCount(animals: seq<Animal>, rolls: seq<nat>, today: Date)
    requires |rolls| == |animals| && ValidDate(today)
    ensures |BirthEvents(animals, rolls, today)| == Count(animals, IsPregnant)
    decreases |animals|
  {
    if animals != [] {
      var n := |animals| - 1;
      assert animals == animals[..n] + [animals[n]];
      BirthEventsCount(animals[..n], rolls[..n], today);
      CountAppend(animals[..n], animals[n], IsPregnant);
    }
  }

  /** Every birth event is dated 30 to 89 days after today. */
  lemma {:induction false} BirthEventsDated(animals: seq<Animal>, rolls: seq<nat>, today: Date)
    requires |rolls| == |animals| && ValidDate(today)
    requires forall i :: 0 <= i < |rolls| ==> rolls[i] < 60
    ensures forall e :: e in BirthEvents(animals, rolls, today) ==>
      e.kind == Birth && DatedAhead(e.date, today, 30, 89)
    decreases |animals|
  {
    if animals != [] {
      var n := |animals| - 1;
      assert forall i :: 0 <= i < |rolls[..n]| ==> rolls[..n][i] == rolls[i];
      BirthEventsDated(animals[..n], rolls[..n], today);
      BirthEventsStep(animals, rolls, today, n);
      assert animals[..n + 1] == animals && rolls[..n + 1] == rolls;
      BirthEventDated(animals[n], rolls[n] + 30, today);
    }
  }

  lemma BirthEventDated(a: Animal, k: nat, today: Date)
    requires ValidDate(today) && 30 <= k <= 89
    ensures BirthEvent(a, k, today).kind == Birth && DatedAhead(BirthEvent(a, k, today).date, today, 30, 89)
  {
    assert BirthEvent(a, k, today).date == FormatIsoDate(AddDays(today, k));
  }

  /** There are min(5, animals) checkup events, the i-th for the i-th animal, dated 1 to 20 days after today. */
  lemma CheckupEventsExact(animals: seq<Animal>, rolls: seq<nat>, today: Date)
    requires |rolls| == |animals| && ValidDate(today)
    requires forall i :: 0 <= i < |rolls| ==> rolls[i] < 20
    ensures |CheckupEvents(animals, rolls, today)| == if |animals| < 5 then |animals| else 5
    ensures forall i :: 0 <= i < |CheckupEvents(animals, rolls, today)| ==>
      CheckupEvents(animals, rolls, today)[i].kind == Checkup &&
      CheckupEvents(animals, rolls, today)[i].id == "checkup-" + animals[i].id &&
      DatedAhead(CheckupEvents(animals, rolls, today)[i].date, today, 1, 20)
  {
    var r := CheckupEvents(animals, rolls, today);
    forall i | 0 <= i < |r|
      ensures r[i].kind == Checkup && r[i].id == "checkup-" + animals[i].id
      ensures DatedAhead(r[i].date, today, 1, 20)
    {
      var k: nat := rolls[i] + 1;
      assert r[i] == CheckupEvent(animals[i], k, today);
      assert r[i].date == FormatIsoDate(AddDays(today, k));
    }
  }

  /**
   * After the sort the list is in date order and holds exactly the events
   * pushed, and events of the same day keep the order they were pushed in.
   */
  lemma EventsSorted(unsorted: seq<UpcomingEvent>, t: int)
    ensures var events := SortBy(unsorted, EventTime);
      && (forall i, j :: 0 <= i < j < |events| ==> EventTime(events[i]) <= EventTime(events[j]))
      && multiset(events) == multiset(unsorted)
      && WithKey(events, EventTime, t) == WithKey(unsorted, EventTime, t)
  {
    SortByStable(unsorted, EventTime, t);
  }

  // ---------------------------------------------------------------------------
  // The two vaccination tabs

  /** "Pendientes": a vaccination event whose date is now or earlier. */
  predicate InPendingTab(e: UpcomingEvent, now: int) {
    e.kind == Vaccination &&
    match ParseIsoDate(e.date)
    case None => false
    case Some(d) => DayStart(d) <= now
  }

  /** "Próximas": a vaccination event whose date is later than now. */
  predicate InUpcomingTab(e: UpcomingEvent, now: int) {
    e.kind == Vaccination &&
    match ParseIsoDate(e.date)
    case None => false
    case Some(d) => DayStart(d) > now
  }

  predicate IsDatedVaccination(e: UpcomingEvent) {
    e.kind == Vaccination && ParseIsoDate(e.date).Some?
  }

  /** Every dated vaccination event is in exactly one of the two tabs; nothing else is in either. */
  lemma TabsPartition(events: seq<UpcomingEvent>, now: int)
    ensures forall e :: IsDatedVaccination(e) ==> (InPendingTab(e, now) <==> !InUpcomingTab(e, now))
    ensures forall e :: !IsDatedVaccination(e) ==> !InPendingTab(e, now) && !InUpcomingTab(e, now)
    ensures Count(events, e => InPendingTab(e, now)) + Count(events, e => InUpcomingTab(e, now))
      == Count(events, IsDatedVaccination)
  {
    var p := e => InPendingTab(e, now);
    var u := e => InUpcomingTab(e, now);
    CountOr(events, p, u);
    CountCongruent(events, e => p(e) || u(e), IsDatedVaccination);
  }

  /** A vaccination event is "pending" exactly when its day is today or earlier. */
  lemma PendingTabByDay(e: UpcomingEvent, c: Clock, d: Date)
    requires ValidClock(c) && ValidDate(d) && d.year <= 9999
    requires e.kind == Vaccination && e.date == FormatIsoDate(d)
    ensures InPendingTab(e, Now(c)) <==> DayNumber(d) <= DayNumber(c.today)
    ensures InUpcomingTab(e, Now(c)) <==> DayNumber(c.today) < DayNumber(d)
  {
    ParseFormat(d);
    assert DayStart(d) - Now(c) == (DayNumber(d) - DayNumber(c.today)) * MsPerDay - c.msOfDay;
  }
}
