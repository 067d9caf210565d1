/**
 * The activity report (`Reports.tsx`): animals and vaccines registered in a
 * chosen period become activities, merged by kind, newest first; the page
 * shows their totals and the PDF export draws a table of at most 19 of them.
 */
module Reports {
  import opened Optional
  import opened Text
  import opened Seqs
  import opened Calendar
  import opened Records
  import opened AnimalCard

  datatype DateRange = Today | Week | Month | AllTime
  datatype TypeFilter = AllTypes | AnimalsOnly | VaccinesOnly
  datatype ReportFilter = ReportFilter(dateRange: DateRange, kind: TypeFilter)

  datatype ActivityType = AnimalActivity | VaccineActivity

  /** `details`: the fetched row the activity was made from. */
  datatype Details = AnimalDetails(animal: Animal) | VaccineDetails(vaccine: Vaccine)

  /** An activity; `date` is its instant in milliseconds (its creation instant, where `null` is the epoch). */
  datatype Activity = Activity(
    id: string,
    kind: ActivityType,
    description: string,
    date: int,
    details: Details)

  // ---------------------------------------------------------------------------
  // The period

  /**
   * `startDate`: midnight today for "today"; for "week" and "month", the end
   * of today (23:59:59.999) moved back 7 or 30 days; the epoch for "all".
   */
  function RangeStart(range: DateRange, c: Clock): int
    requires ValidClock(c)
  {
    var endOfToday := DayStart(c.today) + MsPerDay - 1;
    match range
    case Today => DayStart(c.today)
    case Week => endOfToday - 7 * MsPerDay
    case Month => endOfToday - 30 * MsPerDay
    case AllTime => 0
  }

  /** The creation-time lower bound the query gets for every period but "all"; SQL `null` fails it. */
  predicate InRange(createdAt: Option<int>, range: DateRange, c: Clock)
    requires ValidClock(c)
  {
    range == AllTime || (createdAt.Some? && createdAt.value >= RangeStart(range, c))
  }

  /**
   * "week" and "month" start at the last millisecond of the day 7 or 30 days
   * before today, so they take in today, the 6 or 29 days before it, and one
   * millisecond of the day before those.
   */
  lemma RangeStartByDay(c: Clock)
    requires ValidClock(c)
    ensures RangeStart(Today, c) == (DayNumber(c.today) - EpochDay()) * MsPerDay
    ensures RangeStart(Week, c) == (DayNumber(c.today) - 7 - EpochDay()) * MsPerDay + MsPerDay - 1
    ensures RangeStart(Month, c) == (DayNumber(c.today) - 30 - EpochDay()) * MsPerDay + MsPerDay - 1
  {
  }

  /** The periods are nested: a row of today is in the week, a row of the week in the month, every row in "all". */
  lemma RangesNested(createdAt: Option<int>, c: Clock)
    requires ValidClock(c)
    ensures InRange(createdAt, Today, c) ==> InRange(createdAt, Week, c)
    ensures InRange(createdAt, Week, c) ==> InRange(createdAt, Month, c)
    ensures InRange(createdAt, AllTime, c)
  {
  }

  /** The rows a query returns: those created in the period, in the order given. */
  function AnimalsInRange(animals: seq<Animal>, range: DateRange, c: Clock): seq<Animal>
    requires ValidClock(c)
  {
    Filter(animals, (a: Animal) => InRange(a.created_at, range, c))
  }

  function VaccinesInRange(vaccines: seq<Vaccine>, range: DateRange, c: Clock): seq<Vaccine>
    requires ValidClock(c)
  {
    Filter(vaccines, (v: Vaccine) => InRange(v.created_at, range, c))
  }

  // ---------------------------------------------------------------------------
  // Activities

  function AnimalToActivity(a: Animal): Activity {
    Activity("animal-" + a.id, AnimalActivity,
      "Nuevo animal registrado: " + a.name + " (" + a.tag + ")",
      a.created_at.GetOr(0), AnimalDetails(a))
  }

  function VaccineToActivity(v: Vaccine): Activity {
    Activity("vaccine-" + v.id, VaccineActivity,
      "Vacuna " + v.vaccine_type + " aplicada: " + v.animals.name,
      v.created_at.GetOr(0), VaccineDetails(v))
  }

  predicate IncludesAnimals(t: TypeFilter) {
    t == AllTypes || t == AnimalsOnly
  }

  predicate IncludesVaccines(t: TypeFilter) {
    t == AllTypes || t == VaccinesOnly
  }

  /** `allActivities` before the sort: animal activities (if the type allows), then vaccine ones. */
  function Merged(animals: seq<Animal>, vaccines: seq<Vaccine>, f: ReportFilter, c: Clock): seq<Activity>
    requires ValidClock(c)
  {
    (if IncludesAnimals(f.kind) then Map(AnimalsInRange(animals, f.dateRange, c), AnimalToActivity) else [])
    + (if IncludesVaccines(f.kind) then Map(VaccinesInRange(vaccines, f.dateRange, c), VaccineToActivity) else [])
  }

  /** The sort key that puts later instants first. */
  function NewestFirst(a: Activity): int {
    -a.date
  }

  /**
   * One run of `fetchActivities`, given the list `shown` so far, the signed-in
   * user and what the two queries return. With nobody signed in it returns
   * at once, and a failed query is thrown to a catch that only logs: either
   * way the list shown stays. Otherwise `startDate` is set by the switch on
   * the period, each query keeps the user's rows (the `eq`) and drops those
   * outside the period (the `gte`), the activities of the allowed kinds are
   * appended, and the list is sorted.
   */
  method FetchActivities(shown: seq<Activity>, user: Option<string>,
                         animalTable: Result<seq<Animal>>, vaccineTable: Result<seq<Vaccine>>,
                         f: ReportFilter, c: Clock)
    returns (activities: seq<Activity>)
    requires ValidClock(c)
    ensures user.None? || animalTable.Err? || vaccineTable.Err? ==> activities == shown
    ensures user.Some? && animalTable.Ok? && vaccineTable.Ok? ==>
      activities == SortBy(Merged(AnimalsOf(animalTable.value, user.value),
                                  VaccinesOf(vaccineTable.value, user.value), f, c), NewestFirst)
  {
    if user.None? || animalTable.Err? || vaccineTable.Err? {
      return shown;
    }
    var animals := AnimalsOf(animalTable.value, user.value);
    var vaccines := VaccinesOf(vaccineTable.value, user.value);
    var startDate := StartDate(f.dateRange, c);
    var animalRows := if f.dateRange != AllTime then CreatedSince(animals, startDate) else animals;
    var vaccineRows := if f.dateRange != AllTime then VaccinesCreatedSince(vaccines, startDate) else vaccines;
    QueryIsInRange(animals, vaccines, f.dateRange, c);
    ghost var ma := if IncludesAnimals(f.kind) then Map(animalRows, AnimalToActivity) else [];
    ghost var mv := if IncludesVaccines(f.kind) then Map(vaccineRows, VaccineToActivity) else [];
    assert Merged(animals, vaccines, f, c) == ma + mv;
    var allActivities: seq<Activity> := [];
    if IncludesAnimals(f.kind) {
      allActivities := allActivities + Map(animalRows, AnimalToActivity);
    }
    assert allActivities == ma;
    if IncludesVaccines(f.kind) {
      allActivities := allActivities + Map(vaccineRows, VaccineToActivity);
    }
    assert allActivities == ma + mv;
    activities := SortBy(allActivities, NewestFirst);
  }

  /** The `switch (filter.dateRange)` that sets `startDate`. */
  method StartDate(range: DateRange, c: Clock) returns (startDate: int)
    requires ValidClock(c)
    ensures startDate == RangeStart(range, c)
  {
    var endOfToday := DayStart(c.today) + MsPerDay - 1;
    startDate := Now(c);
    match range {
      case Today => startDate := DayStart(c.today);
      case Week => startDate := endOfToday - 7 * MsPerDay;
      case Month => startDate := endOfToday - 30 * MsPerDay;
      case AllTime => startDate := 0;
    }
  }

  /** `.gte("created_at", start)` on the animals. */
  function CreatedSince(animals: seq<Animal>, start: int): seq<Animal> {
    Filter(animals, (a: Animal) => a.created_at.Some? && a.created_at.value >= start)
  }

  /** `.gte("created_at", start)` on the vaccines. */
  function VaccinesCreatedSince(vaccines: seq<Vaccine>, start: int): seq<Vaccine> {
    Filter(vaccines, (v: Vaccine) => v.created_at.Some? && v.created_at.value >= start)
  }

  /** The queries, with their `gte` added for every period but "all", return the rows in the period. */
  lemma QueryIsInRange(animals: seq<Animal>, vaccines: seq<Vaccine>, range: DateRange, c: Clock)
    requires ValidClock(c)
    ensures (if range != AllTime then CreatedSince(animals, RangeStart(range, c)) else animals)
      == AnimalsInRange(animals, range, c)
    ensures (if range != AllTime then VaccinesCreatedSince(vaccines, RangeStart(range, c)) else vaccines)
      == VaccinesInRange(vaccines, range, c)
  {
    if range == AllTime {
      FilterAll(animals, (a: Animal) => InRange(a.created_at, range, c));
      FilterAll(vaccines, (v: Vaccine) => InRange(v.created_at, range, c));
    } else {
      AnimalsSince(animals, range, c);
      VaccinesSince(vaccines, range, c);
    }
  }

  lemma AnimalsSince(animals: seq<Animal>, range: DateRange, c: Clock)
    requires ValidClock(c) && range != AllTime
    ensures CreatedSince(animals, RangeStart(range, c)) == AnimalsInRange(animals, range, c)
  {
    var start := RangeStart(range, c);
    FilterCongruent(animals, (a: Animal) => a.created_at.Some? && a.created_at.value >= start,
      (a: Animal) => InRange(a.created_at, range, c));
  }

  lemma VaccinesSince(vaccines: seq<Vaccine>, range: DateRange, c: Clock)
    requires ValidClock(c) && range != AllTime
    ensures VaccinesCreatedSince(vaccines, RangeStart(range, c)) == VaccinesInRange(vaccines, range, c)
  {
    var start := RangeStart(range, c);
    FilterCongruent(vaccines, (v: Vaccine) => v.created_at.Some? && v.created_at.value >= start,
      (v: Vaccine) => InRange(v.created_at, range, c));
  }

  predicate IsAnimalActivity(a: Activity) {
    a.kind == AnimalActivity
  }

  predicate IsVaccineActivity(a: Activity) {
    a.kind == VaccineActivity
  }

  /** The list is newest first and holds exactly the merged activities. */
  lemma ActivitiesNewestFirst(animals: seq<Animal>, vaccines: seq<Vaccine>, f: ReportFilter, c: Clock)
    requires ValidClock(c)
    ensures var r := SortBy(Merged(animals, vaccines, f, c), NewestFirst);
      && (forall i, j :: 0 <= i < j < |r| ==> r[i].date >= r[j].date)
      && multiset(r) == multiset(Merged(animals, vaccines, f, c))
  {
    var r := SortBy(Merged(animals, vaccines, f, c), NewestFirst);
    assert forall i, j :: 0 <= i < j < |r| ==> NewestFirst(r[i]) <= NewestFirst(r[j]);
  }

  /**
   * An animal activity exists only when the type filter allows animals, and
   * then it is made from an animal created in the period; likewise for
   * vaccines. Animal activity ids start "animal-", vaccine ones "vaccine-".
   */
  lemma ActivitiesFromRows(animals: seq<Animal>, vaccines: seq<Vaccine>, f: ReportFilter, c: Clock)
    requires ValidClock(c)
    ensures forall act :: act in SortBy(Merged(animals, vaccines, f, c), NewestFirst) && act.kind == AnimalActivity ==>
      IncludesAnimals(f.kind) && IsPrefix("animal-", act.id) &&
      exists a :: a in animals && InRange(a.created_at, f.dateRange, c) && act == AnimalToActivity(a)
    ensures forall act :: act in SortBy(Merged(animals, vaccines, f, c), NewestFirst) && act.kind == VaccineActivity ==>
      IncludesVaccines(f.kind) && IsPrefix("vaccine-", act.id) &&
      exists v :: v in vaccines && InRange(v.created_at, f.dateRange, c) && act == VaccineToActivity(v)
  {
    var m := Merged(animals, vaccines, f, c);
    SortByMembers(m, NewestFirst);
    var ma := if IncludesAnimals(f.kind) then Map(AnimalsInRange(animals, f.dateRange, c), AnimalToActivity) else [];
    var mv := if IncludesVaccines(f.kind) then Map(VaccinesInRange(vaccines, f.dateRange, c), VaccineToActivity) else [];
    assert m == ma + mv;
    AnimalActivitiesFrom(animals, f.dateRange, c);
    VaccineActivitiesFrom(vaccines, f.dateRange, c);
  }

  /** A signed-in user's report is made of that user's rows only. */
  lemma ActivitiesOfUser(animalRows: seq<Animal>, vaccineRows: seq<Vaccine>, user: string, f: ReportFilter, c: Clock)
    requires ValidClock(c)
    ensures forall act :: act in SortBy(Merged(AnimalsOf(animalRows, user), VaccinesOf(vaccineRows, user), f, c), NewestFirst) ==>
      (exists a :: a in animalRows && a.user_id == user && act == AnimalToActivity(a))
      || (exists v :: v in vaccineRows && v.user_id == user && act == VaccineToActivity(v))
  {
    ActivitiesFromRows(AnimalsOf(animalRows, user), VaccinesOf(vaccineRows, user), f, c);
  }

  lemma AnimalActivitiesFrom(animals: seq<Animal>, range: DateRange, c: Clock)
    requires ValidClock(c)
    ensures forall act :: act in Map(AnimalsInRange(animals, range, c), AnimalToActivity) ==>
      act.kind == AnimalActivity && IsPrefix("animal-", act.id) &&
      exists a :: a in animals && InRange(a.created_at, range, c) && act == AnimalToActivity(a)
  {
    var rows := AnimalsInRange(animals, range, c);
    forall act | act in Map(rows, AnimalToActivity)
      ensures act.kind == AnimalActivity && IsPrefix("animal-", act.id)
      ensures exists a :: a in animals && InRange(a.created_at, range, c) && act == AnimalToActivity(a)
    {
      var k :| 0 <= k < |rows| && Map(rows, AnimalToActivity)[k] == act;
      assert act == AnimalToActivity(rows[k]);
      assert rows[k] in animals && InRange(rows[k].created_at, range, c);
    }
  }

  lemma VaccineActivitiesFrom(vaccines: seq<Vaccine>, range: DateRange, c: Clock)
    requires ValidClock(c)
    ensures forall act :: act in Map(VaccinesInRange(vaccines, range, c), VaccineToActivity) ==>
      act.kind == VaccineActivity && IsPrefix("vaccine-", act.id) &&
      exists v :: v in vaccines && InRange(v.created_at, range, c) && act == VaccineToActivity(v)
  {
    var rows := VaccinesInRange(vaccines, range, c);
    forall act | act in Map(rows, VaccineToActivity)
      ensures act.kind == VaccineActivity && IsPrefix("vaccine-", act.id)
      ensures exists v :: v in vaccines && InRange(v.created_at, range, c) && act == VaccineToActivity(v)
    {
      var k :| 0 <= k < |rows| && Map(rows, VaccineToActivity)[k] == act;
      assert act == VaccineToActivity(rows[k]);
      assert rows[k] in vaccines && InRange(rows[k].created_at, range, c);
    }
  }

  // ---------------------------------------------------------------------------
  // Summary and labels

  /** "Total Registros", "Animales Registrados" and "Vacunas Aplicadas". */
  datatype Summary = Summary(total: nat, animals: nat, vaccines: nat)

  function Summarize(activities: seq<Activity>): Summary {
    Summary(|activities|, Count(activities, IsAnimalActivity), Count(activities, IsVaccineActivity))
  }

  /**
   * The total is the animals plus the vaccines; the animals are the animal
   * rows of the period when the type filter allows them and zero otherwise,
   * and the same for vaccines.
   */
  lemma SummaryCounts(animals: seq<Animal>, vaccines: seq<Vaccine>, f: ReportFilter, c: Clock)
    requires ValidClock(c)
    ensures var s := Summarize(SortBy(Merged(animals, vaccines, f, c), NewestFirst));
      && s.total == s.animals + s.vaccines
      && s.animals == (if IncludesAnimals(f.kind) then |AnimalsInRange(animals, f.dateRange, c)| else 0)
      && s.vaccines == (if IncludesVaccines(f.kind) then |VaccinesInRange(vaccines, f.dateRange, c)| else 0)
  {
    var m := Merged(animals, vaccines, f, c);
    var r := SortBy(m, NewestFirst);
    var ma := if IncludesAnimals(f.kind) then Map(AnimalsInRange(animals, f.dateRange, c), AnimalToActivity) else [];
    var mv := if IncludesVaccines(f.kind) then Map(VaccinesInRange(vaccines, f.dateRange, c), VaccineToActivity) else [];
    assert m == ma + mv;
    KindCounts(ma, mv);
    CountComplement(r, IsAnimalActivity, IsVaccineActivity);
    CountPermutation(r, m, IsAnimalActivity);
    CountPermutation(r, m, IsVaccineActivity);
  }

  /** Animal rows followed by vaccine rows: the kind counts are the two lengths. */
  lemma KindCounts(ma: seq<Activity>, mv: seq<Activity>)
    requires forall i :: 0 <= i < |ma| ==> IsAnimalActivity(ma[i])
    requires forall i :: 0 <= i < |mv| ==> IsVaccineActivity(mv[i])
    ensures Count(ma + mv, IsAnimalActivity) == |ma|
    ensures Count(ma + mv, IsVaccineActivity) == |mv|
  {
    CountConcat(ma, mv, IsAnimalActivity);
    CountConcat(ma, mv, IsVaccineActivity);
    CountAll(ma, IsAnimalActivity);
    CountAll(mv, IsVaccineActivity);
    CountComplement(ma, IsAnimalActivity, IsVaccineActivity);
    CountComplement(mv, IsAnimalActivity, IsVaccineActivity);
  }

  /** The "Periodo" line of the PDF. */
  function PeriodLabel(range: DateRange): string {
    match range
    case Today => "Hoy"
    case Week => "Última semana"
    case Month => "Último mes"
    case AllTime => "Todo"
  }

  /** The "Tipo" line of the PDF. */
  function TypeLabel(t: TypeFilter): string {
    match t
    case AllTypes => "Todos"
    case AnimalsOnly => "Animales"
    case VaccinesOnly => "Vacunas"
  }

  /** The badge and the PDF "Tipo" cell of an activity. */
  function KindLabel(k: ActivityType): string {
    if k == AnimalActivity then "Animal" else "Vacuna"
  }

  /** Each label names one choice: different choices print differently. */
  lemma LabelsDistinct(r1: DateRange, r2: DateRange, t1: TypeFilter, t2: TypeFilter, k1: ActivityType, k2: ActivityType)
    ensures PeriodLabel(r1) == PeriodLabel(r2) ==> r1 == r2
    ensures TypeLabel(t1) == TypeLabel(t2) ==> t1 == t2
    ensures KindLabel(k1) == KindLabel(k2) ==> k1 == k2
  {
  }

  /** The "Estado" detail of an animal activity: only "healthy" and "sick" are recognised. */
  function DetailsStatus(status: string): string {
    if status == "healthy" then "Saludable"
    else if status == "sick" then "Enfermo"
    else "Preñada"
  }

  /**
   * For the three stored codes the report shows the animal card's label;
   * every other status is reported as pregnant.
   */
  lemma DetailsStatusAgreesWithCard(status: string)
    ensures IsKnownStatus(status) ==> DetailsStatus(status) == StatusText(status)
    ensures !IsKnownStatus(status) ==> DetailsStatus(status) == "Preñada"
  {
  }

  // ---------------------------------------------------------------------------
  // The PDF table

  /**
   * `tableData`: the header row, then one row per activity; `dateText` stands
   * for the date-fns day/month/year format.
   */
  function TableData(activities: seq<Activity>, dateText: int -> string): seq<seq<string>> {
    [["Fecha", "Tipo", "Descripción"]]
      + Map(activities, (a: Activity) => [dateText(a.date), KindLabel(a.kind), a.description])
  }

  /** The PDF's drawing loop: the data rows it draws, from the second row to at most the twentieth. */
  method DrawnRows(tableData: seq<seq<string>>) returns (drawn: seq<seq<string>>)
    ensures |tableData| <= 20 ==> drawn == (if tableData == [] then [] else tableData[1..])
    ensures |tableData| > 20 ==> drawn == tableData[1..20]
  {
    drawn := [];
    var i := 1;
    while i < |tableData| && i < 20
      invariant 1 <= i <= 20
      invariant i <= |tableData| || tableData == []
      invariant tableData != [] ==> drawn == tableData[1..i]
      invariant tableData == [] ==> drawn == []
    {
      drawn := drawn + [tableData[i]];
      i := i + 1;
    }
  }

  /** The PDF draws the first 19 activities, or all of them when there are fewer. */
  lemma DrawnActivities(activities: seq<Activity>, dateText: int -> string)
    ensures var t := TableData(activities, dateText);
      var n := if |activities| < 19 then |activities| else 19;
      |t| == |activities| + 1 &&
      (if |t| <= 20 then t[1..] else t[1..20]) == Map(activities[..n], (a: Activity) => [dateText(a.date), KindLabel(a.kind), a.description])
  {
  }
}
