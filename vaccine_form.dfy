/**
 * The "register vaccine" form (`VaccineForm.tsx`): the animal picker's
 * options, the schema, and the `vaccines` row inserted for the signed-in
 * user, with an empty next date or note stored as `null`.
 */
module VaccineForm {
  import opened Optional
  import opened Calendar
  import opened Records
  import opened FormKit

  datatype Field = AnimalId | VaccineType | ApplicationDate | NextDate | Notes

  /** The form values; `nextDate` and `notes` are optional (`None` is `undefined`). */
  datatype Values = Values(
    animalId: string,
    vaccineType: string,
    date: string,
    nextDate: Option<string>,
    notes: Option<string>)

  /** `vaccineFormSchema`, field by field. */
  predicate FieldOk(v: Values, f: Field) {
    match f
    case AnimalId => MinLength(v.animalId, 1)
    case VaccineType => MinLength(v.vaccineType, 2)
    case ApplicationDate => true
    case NextDate => true
    case Notes => true
  }

  function IssueOf(v: Values, f: Field): seq<Field> {
    if FieldOk(v, f) then [] else [f]
  }

  /** The fields the schema rejects, in schema order. */
  function Issues(v: Values): (r: seq<Field>)
    ensures forall f :: f in r <==> !FieldOk(v, f)
  {
    IssueOf(v, AnimalId) + IssueOf(v, VaccineType) + IssueOf(v, ApplicationDate) + IssueOf(v, NextDate) + IssueOf(v, Notes)
  }

  /** `defaultValues`: no animal, no type, today's UTC date, and empty next date and notes. */
  function Defaults(c: Clock): Values
    requires ValidClock(c)
  {
    Values("", "", TodayString(c), Some(""), Some(""))
  }

  /**
   * A form passes exactly when an animal is chosen and the vaccine type has
   * two characters or more; so the untouched form is rejected on both.
   */
  lemma IssuesEmptyIff(v: Values, c: Clock)
    requires ValidClock(c)
    ensures Issues(v) == [] <==> |v.animalId| >= 1 && |v.vaccineType| >= 2
    ensures Issues(Defaults(c)) == [AnimalId, VaccineType]
  {
    if Issues(v) == [] {
      assert FieldOk(v, AnimalId) && FieldOk(v, VaccineType);
    }
  }

  /** `value || null` on an optional string: `undefined` and `""` become `null`. */
  function NullIfEmpty(o: Option<string>): (r: Option<string>)
    ensures r.None? <==> o.None? || o.value == ""
    ensures r.Some? ==> r == o
  {
    match o
    case None => None
    case Some(s) => if s == "" then None else Some(s)
  }

  /** The stored value is never the empty string, and normalising twice is normalising once. */
  lemma NullIfEmptyNormal(o: Option<string>)
    ensures NullIfEmpty(o) != Some("")
    ensures NullIfEmpty(NullIfEmpty(o)) == NullIfEmpty(o)
  {
  }

  /** The insert payload, stamped with the user's id. */
  function InsertRow(v: Values, userId: string): VaccineInsert {
    VaccineInsert(userId, v.animalId, v.vaccineType, v.date, NullIfEmpty(v.nextDate), NullIfEmpty(v.notes))
  }

  /**
   * The payload keeps the animal, type and date as typed, a non-empty next
   * date or note as typed, and neither is ever stored as "".
   */
  lemma InsertRowColumns(v: Values, userId: string)
    ensures var p := InsertRow(v, userId);
      && p.user_id == userId && p.animal_id == v.animalId && p.vaccine_type == v.vaccineType && p.date == v.date
      && (p.next_date.Some? <==> v.nextDate.Some? && v.nextDate.value != "")
      && (p.next_date.Some? ==> p.next_date == v.nextDate)
      && (p.notes.Some? <==> v.notes.Some? && v.notes.value != "")
      && (p.notes.Some? ==> p.notes == v.notes)
      && p.next_date != Some("") && p.notes != Some("")
  {
    NullIfEmptyNormal(v.nextDate);
    NullIfEmptyNormal(v.notes);
  }

  /**
   * `fetchAnimals`: with nobody signed in nothing is fetched; a failed query
   * keeps the options shown; otherwise the options are the user's animals
   * (the `eq`) among the fetched rows.
   */
  function LoadedOptions(shown: seq<AnimalOption>, user: User, fetched: Result<seq<Animal>>): (r: seq<AnimalOption>)
    ensures user.None? || fetched.Err? ==> r == shown
    ensures user.Some? && fetched.Ok? ==>
      var mine := AnimalsOf(fetched.value, user.value);
      |r| == |mine| && forall i :: 0 <= i < |r| ==> r[i].id == mine[i].id && r[i].name == OptionLabel(mine[i].name, mine[i].tag)
  {
    if user.Some? && fetched.Ok? then AnimalOptions(AnimalsOf(fetched.value, user.value)) else shown
  }

  /** `handleSubmit(onSubmit)` with the user signed in (or not) and the insert's error, if any. */
  function Submit(v: Values, user: User, dbError: Option<string>): Submission<Field, VaccineInsert> {
    if Issues(v) != [] then Invalid(Issues(v))
    else if user.None? then NotSignedIn(Toast(true, "Error", "Debes iniciar sesión para registrar una vacuna"))
    else Sent(InsertRow(v, user.value), dbError.None?,
      WriteToast(dbError, Toast(false, "Vacuna registrada", "La vacuna ha sido registrada correctamente"),
        "Error al registrar", "Ha ocurrido un error al registrar la vacuna"))
  }

  /**
   * Nothing is sent for a rejected form or with nobody signed in; otherwise
   * the payload is the form's row for that user, and `onSuccess` runs (and
   * the form resets) exactly when the insert succeeds.
   */
  lemma SubmitFlow(v: Values, user: User, dbError: Option<string>)
    ensures var s := Submit(v, user, dbError);
      && (s.Invalid? <==> Issues(v) != [])
      && (s.Sent? <==> Issues(v) == [] && user.Some?)
      && (s.Sent? ==> s.payload == InsertRow(v, user.value))
      && (CallsOnSuccess(s) <==> Issues(v) == [] && user.Some? && dbError.None?)
  {
  }
}
