/**
 * The "health" form (`HealthForm.tsx`): it asks for an animal, a status and
 * six optional health notes, but saves only the status of the chosen animal.
 */
module HealthForm {
  import opened Optional
  import opened Records
  import opened FormKit

  datatype Field = AnimalId | Status | DewormingDate | Professional | Medications | LastVetCheck | CheckupNotes | Notes

  /** The form values; the six notes are optional (`None` is `undefined`). */
  datatype Values = Values(
    animalId: string,
    status: string,
    dewormingDate: Option<string>,
    professional: Option<string>,
    medications: Option<string>,
    lastVetCheck: Option<string>,
    checkupNotes: Option<string>,
    notes: Option<string>)

  const Statuses: seq<string> := ["healthy", "sick", "pregnant"]

  /** `healthFormSchema`, field by field; the six notes take any string. */
  predicate FieldOk(v: Values, f: Field) {
    match f
    case AnimalId => MinLength(v.animalId, 1)
    case Status => OneOf(v.status, Statuses)
    case _ => true
  }

  function IssueOf(v: Values, f: Field): seq<Field> {
    if FieldOk(v, f) then [] else [f]
  }

  /** The fields the schema rejects, in schema order. */
  function Issues(v: Values): (r: seq<Field>)
    ensures forall f :: f in r <==> !FieldOk(v, f)
  {
    IssueOf(v, AnimalId) + IssueOf(v, Status) + IssueOf(v, DewormingDate) + IssueOf(v, Professional)
      + IssueOf(v, Medications) + IssueOf(v, LastVetCheck) + IssueOf(v, CheckupNotes) + IssueOf(v, Notes)
  }

  /** `defaultValues` */
  const Defaults := Values("", "healthy", Some(""), Some(""), Some(""), Some(""), Some(""), Some(""))

  /**
   * A form passes exactly when an animal is chosen and the status is one of
   * the three codes, whatever the notes hold; the untouched form lacks only
   * the animal.
   */
  lemma IssuesEmptyIff(v: Values)
    ensures Issues(v) == [] <==> |v.animalId| >= 1 && v.status in {"healthy", "sick", "pregnant"}
    ensures Issues(Defaults) == [AnimalId]
  {
    if Issues(v) == [] {
      assert FieldOk(v, AnimalId) && FieldOk(v, Status);
    }
  }

  /** The update payload: the status alone. */
  function Update(v: Values): AnimalUpdate {
    NoUpdate.(status := Some(v.status))
  }

  /**
   * The payload depends on the status alone, so none of the six notes is
   * ever written; on the table, only the chosen animal's status changes.
   */
  lemma UpdateOnlyStatus(v: Values, w: Values, rows: seq<Animal>)
    ensures v.status == w.status ==> Update(v) == Update(w)
    ensures var r := UpdateWhereId(rows, v.animalId, Update(v));
      && |r| == |rows|
      && forall i :: 0 <= i < |rows| ==>
           r[i] == if rows[i].id == v.animalId then rows[i].(status := v.status) else rows[i]
  {
  }

  /**
   * `fetchAnimals`: the query is not limited to the signed-in user's animals;
   * a failed query keeps the options shown.
   */
  function LoadedOptions(shown: seq<AnimalOption>, fetched: Result<seq<Animal>>): (r: seq<AnimalOption>)
    ensures fetched.Err? ==> r == shown
    ensures fetched.Ok? ==> |r| == |fetched.value| && forall i :: 0 <= i < |r| ==>
      r[i].id == fetched.value[i].id && r[i].name == OptionLabel(fetched.value[i].name, fetched.value[i].tag)
  {
    if fetched.Ok? then AnimalOptions(fetched.value) else shown
  }

  /** `handleSubmit(onSubmit)`: there is no sign-in check. */
  function Submit(v: Values, dbError: Option<string>): Submission<Field, AnimalUpdate> {
    if Issues(v) != [] then Invalid(Issues(v))
    else Sent(Update(v), dbError.None?,
      WriteToast(dbError, Toast(false, "Estado actualizado", "El estado del animal ha sido actualizado correctamente"),
        "Error al actualizar", "Ha ocurrido un error al actualizar el estado"))
  }

  /** A valid form is always sent; the form resets and `onSuccess` runs exactly when the update has no error. */
  lemma SubmitFlow(v: Values, dbError: Option<string>)
    ensures var s := Submit(v, dbError);
      && !s.NotSignedIn?
      && (s.Invalid? <==> Issues(v) != [])
      && (s.Sent? ==> s.payload == Update(v))
      && (CallsOnSuccess(s) <==> Issues(v) == [] && dbError.None?)
  {
  }
}
