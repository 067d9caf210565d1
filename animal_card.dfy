/**
 * The display logic of the animal card (`AnimalCard.tsx`): the age text and
 * the tables that turn stored codes into Spanish labels and colour classes.
 * The ear-tag and gender tables are shared with the cattle table, which has
 * identical copies of them.
 */
module AnimalCard {
  import opened Optional
  import opened Text
  import opened Calendar

  // ---------------------------------------------------------------------------
  // Label and colour tables

  /** `getStatusText` */
  function StatusText(status: string): string {
    match status
    case "healthy" => "Saludable"
    case "sick" => "Enfermo"
    case "pregnant" => "Preñada"
    case _ => status
  }

  /** `getStatusColor` */
  function StatusColor(status: string): string {
    match status
    case "healthy" => "bg-green-100 text-green-800"
    case "sick" => "bg-red-100 text-red-800"
    case "pregnant" => "bg-blue-100 text-blue-800"
    case _ => "bg-gray-100 text-gray-800"
  }

  /** `getEarTagColor` */
  function EarTagColor(earTag: string): string {
    match earTag
    case "red" => "bg-red-500"
    case "green" => "bg-green-500"
    case "yellow" => "bg-yellow-500"
    case "sky" => "bg-sky-500"
    case _ => "bg-gray-500"
  }

  /** `getEarTagName` */
  function EarTagName(earTag: string): string {
    match earTag
    case "red" => "Roja"
    case "green" => "Verde"
    case "yellow" => "Amarilla"
    case "sky" => "Celeste"
    case _ => earTag
  }

  /** The gender as the card shows it: "Macho" for "male", "Hembra" for anything else. */
  function GenderLabel(gender: string): string {
    if gender == "male" then "Macho" else "Hembra"
  }

  predicate IsKnownStatus(status: string) {
    status == "healthy" || status == "sick" || status == "pregnant"
  }

  predicate IsKnownEarTag(earTag: string) {
    earTag == "red" || earTag == "green" || earTag == "yellow" || earTag == "sky"
  }

  /**
   * A status is shown verbatim exactly when it is not one of the three codes,
   * and exactly then it gets the gray colour; the three codes get three
   * different labels.
   */
  lemma StatusTable(status: string, other: string)
    ensures StatusText(status) == status <==> !IsKnownStatus(status)
    ensures StatusColor(status) == "bg-gray-100 text-gray-800" <==> !IsKnownStatus(status)
    ensures IsKnownStatus(status) && IsKnownStatus(other) && status != other ==> StatusText(status) != StatusText(other)
  {
  }

  /**
   * An ear tag is named verbatim exactly when it is not one of the four colours,
   * and exactly then it gets the gray dot; the four colours get four different names.
   */
  lemma EarTagTable(earTag: string, other: string)
    ensures EarTagName(earTag) == earTag <==> !IsKnownEarTag(earTag)
    ensures EarTagColor(earTag) == "bg-gray-500" <==> !IsKnownEarTag(earTag)
    ensures IsKnownEarTag(earTag) && IsKnownEarTag(other) && earTag != other ==> EarTagName(earTag) != EarTagName(other)
  {
  }

  /** Only `"male"` reads "Macho"; every other value, however spelt, reads "Hembra". */
  lemma GenderLabelIff(gender: string)
    ensures GenderLabel(gender) == "Macho" <==> gender == "male"
    ensures GenderLabel(gender) == "Hembra" <==> gender != "male"
  {
  }

  // ---------------------------------------------------------------------------
  // Age

  /**
   * Whole years from `birth` to `today` by the calendar fields: the difference
   * of the years, less one while this year's birthday is still to come.
   */
  function AgeYears(birth: Date, today: Date): int {
    var years := today.year - birth.year;
    var months := today.month - birth.month;
    if months < 0 || (months == 0 && today.day < birth.day) then years - 1 else years
  }

  /** The day, month and year `n` years after `birth` (not necessarily a real date: 29 February). */
  function Anniversary(birth: Date, n: int): Date {
    Date(birth.year + n, birth.month, birth.day)
  }

  /**
   * `AgeYears` counts completed years: today is on or after the anniversary of
   * that many years and before the next one.
   */
  lemma AgeYearsCompleted(birth: Date, today: Date)
    ensures !DateBefore(today, Anniversary(birth, AgeYears(birth, today)))
    ensures DateBefore(today, Anniversary(birth, AgeYears(birth, today) + 1))
  {
  }

  /** ... and it is the only count of years with that property. */
  lemma AgeYearsUnique(birth: Date, today: Date, n: int)
    requires !DateBefore(today, Anniversary(birth, n))
    requires DateBefore(today, Anniversary(birth, n + 1))
    ensures n == AgeYears(birth, today)
  {
    AgeYearsCompleted(birth, today);
  }

  /** The time elapsed since the birth, in whole 30-day months, rounded down. */
  function ElapsedMonths(birth: Date, c: Clock): int
    requires ValidDate(birth) && ValidClock(c)
  {
    (Now(c) - DayStart(birth)) / (30 * MsPerDay)
  }

  /** The months count depends only on the two days: whole days elapsed, divided by 30, rounded down. */
  lemma ElapsedMonthsByDays(birth: Date, c: Clock)
    requires ValidDate(birth) && ValidClock(c)
    ensures ElapsedMonths(birth, c) == (DayNumber(c.today) - DayNumber(birth)) / 30
  {
    var k := DayNumber(c.today) - DayNumber(birth);
    var q, r := k / 30, k % 30;
    var x := r * MsPerDay + c.msOfDay;
    assert Now(c) - DayStart(birth) == k * MsPerDay + c.msOfDay;
    assert k * MsPerDay + c.msOfDay == q * (30 * MsPerDay) + x;
    assert 0 <= x < 30 * MsPerDay;
  }

  /**
   * `calculateAge`: "" for an empty date, otherwise "N años", or "N meses"
   * when fewer than a whole year has passed. A string that is not a date
   * makes every calendar field `NaN`, and the text reads "NaN años".
   */
  function CalculateAge(birthDate: string, c: Clock): (r: string)
    requires ValidClock(c)
  {
    if birthDate == "" then ""
    else match ParseIsoDate(birthDate)
      case None => "NaN años"
      case Some(birth) =>
        var years := AgeYears(birth, c.today);
        if years == 0 then IntToString(ElapsedMonths(birth, c)) + " meses"
        else IntToString(years) + " años"
  }

  /** Only the empty birth date gives the empty text. */
  lemma CalculateAgeEmpty(birthDate: string, c: Clock)
    requires ValidClock(c)
    ensures CalculateAge(birthDate, c) == "" <==> birthDate == ""
  {
  }

  /** The text for a birth date string that parses. */
  lemma CalculateAgeParsed(birthDate: string, birth: Date, c: Clock)
    requires ValidClock(c) && birthDate != "" && ParseIsoDate(birthDate) == Some(birth)
    ensures CalculateAge(birthDate, c) ==
      if AgeYears(birth, c.today) == 0 then IntToString(ElapsedMonths(birth, c)) + " meses"
      else IntToString(AgeYears(birth, c.today)) + " años"
  {
  }

  /**
   * For a born animal, the text is its completed years when there is at least
   * one, and otherwise the number of whole 30-day periods it has lived.
   */
  lemma CalculateAgeOfDate(birth: Date, c: Clock)
    requires ValidDate(birth) && birth.year <= 9999 && ValidClock(c)
    requires DayNumber(birth) <= DayNumber(c.today)
    ensures var n := AgeYears(birth, c.today);
      n >= 0 &&
      CalculateAge(FormatIsoDate(birth), c) ==
        if n == 0 then NatToString((DayNumber(c.today) - DayNumber(birth)) / 30) + " meses"
        else NatToString(n) + " años"
  {
    var n := AgeYears(birth, c.today);
    var s := FormatIsoDate(birth);
    ParseFormat(birth);
    assert |s| == 10;
    CalculateAgeParsed(s, birth, c);
    DayNumberOrder(c.today, birth);
    if n == 0 {
      ElapsedMonthsByDays(birth, c);
    }
  }
}
