/**
 * The "edit animal" form (`EditAnimalForm.tsx`): its schema over the seven
 * editable fields, the prefill from the fetched row, and the update it sends
 * for the row with the edited animal's id.
 *
 * The prefill copies the row's nullable columns as they are, so a field may
 * hold `null` (here `None`) until the user types into it; `z.string()` and
 * `z.enum` reject `null`.
 */
module EditAnimalForm {
  import opened Optional
  import opened Records
  import opened FormKit

  datatype Field = Name | Gender | BirthDate | EntryDate | Breed | EarTag | Farm

  datatype Values = Values(
    name: string,
    gender: string,
    birthDate: string,
    entryDate: Option<string>,
    breed: string,
    earTag: Option<string>,
    farm: Option<string>)

  const Genders: seq<string> := ["male", "female"]
  const EarTags: seq<string> := ["red", "green", "yellow", "sky"]

  /** `editAnimalFormSchema`, field by field: the dates take any string, but not `null`. */
  predicate FieldOk(v: Values, f: Field) {
    match f
    case Name => MinLength(v.name, 2)
    case Gender => OneOf(v.gender, Genders)
    case BirthDate => true
    case EntryDate => v.entryDate.Some?
    case Breed => MinLength(v.breed, 2)
    case EarTag => v.earTag.Some? && OneOf(v.earTag.value, EarTags)
    case Farm => v.farm.Some? && MinLength(v.farm.value, 2)
  }

  function IssueOf(v: Values, f: Field): seq<Field> {
    if FieldOk(v, f) then [] else [f]
  }

  /** The fields the schema rejects, in schema order. */
  function Issues(v: Values): (r: seq<Field>)
    ensures forall f :: f in r <==> !FieldOk(v, f)
  {
    IssueOf(v, Name) + IssueOf(v, Gender) + IssueOf(v, BirthDate) + IssueOf(v, EntryDate)
      + IssueOf(v, Breed) + IssueOf(v, EarTag) + IssueOf(v, Farm)
  }

  /** `defaultValues`: what the form holds until the row arrives, and keeps if it never does. */
  const Defaults := Values("", "male", "", Some(""), "", Some("red"), Some(""))

  /** `form.reset({...})` with the fetched row: the seven editable columns, copied as they are. */
  function Prefill(row: Animal): Values {
    Values(row.name, row.gender, row.birth_date, row.entry_date, row.breed, row.ear_tag, row.farm)
  }

  /**
   * `fetchAnimal`: with no animal id nothing is fetched; a failed fetch
   * (`single()` also fails unless exactly one row matches) leaves the form
   * as it was; otherwise the form takes the row's values.
   */
  function Loaded(shown: Values, animalId: string, fetched: Result<Animal>): (v: Values)
    ensures animalId == "" || fetched.Err? ==> v == shown
    ensures animalId != "" && fetched.Ok? ==> v == Prefill(fetched.value)
  {
    if animalId == "" then shown
    else match fetched
      case Err(_) => shown
      case Ok(row) => Prefill(row)
  }

  /**
   * A fetched row can be saved back exactly when its name and breed have two
   * characters or more, its gender is "male" or "female", it has an entry
   * date, its ear tag is one of the four colours, and its farm has two
   * characters or more; an animal with a null entry date, ear tag or farm
   * cannot be saved until those fields are filled in.
   */
  lemma PrefillValidIff(row: Animal)
    ensures Issues(Prefill(row)) == [] <==>
      && |row.name| >= 2 && |row.breed| >= 2
      && row.gender in {"male", "female"}
      && row.entry_date.Some?
      && row.ear_tag.Some? && row.ear_tag.value in {"red", "green", "yellow", "sky"}
      && row.farm.Some? && |row.farm.value| >= 2
  {
    var v := Prefill(row);
    if Issues(v) == [] {
      assert FieldOk(v, Name) && FieldOk(v, Gender) && FieldOk(v, EntryDate) && FieldOk(v, Breed);
      assert FieldOk(v, EarTag) && FieldOk(v, Farm);
    }
  }

  /** The update payload: exactly the seven editable columns. */
  function Update(v: Values): AnimalUpdate {
    NoUpdate.(
      name := Some(v.name),
      gender := Some(v.gender),
      birth_date := Some(v.birthDate),
      entry_date := Some(v.entryDate),
      breed := Some(v.breed),
      ear_tag := Some(v.earTag),
      farm := Some(v.farm))
  }

  /**
   * The update filtered by the animal's id: rows with another id are unchanged; the
   * row with that id takes the seven edited columns and keeps its tag,
   * status, category, owner, paddock, purpose, weight, user and creation time.
   */
  lemma UpdateTouchesSevenColumns(rows: seq<Animal>, animalId: string, v: Values)
    ensures var r := UpdateWhereId(rows, animalId, Update(v));
      && |r| == |rows|
      && (forall i :: 0 <= i < |rows| && rows[i].id != animalId ==> r[i] == rows[i])
      && (forall i :: 0 <= i < |rows| && rows[i].id == animalId ==>
            && Prefill(r[i]) == v
            && r[i].(name := rows[i].name, gender := rows[i].gender, birth_date := rows[i].birth_date,
                     entry_date := rows[i].entry_date, breed := rows[i].breed, ear_tag := rows[i].ear_tag,
                     farm := rows[i].farm) == rows[i])
  {
  }

  /** Saving a prefilled form without editing it leaves the row as it was. */
  lemma SaveUnchanged(row: Animal)
    ensures ApplyUpdate(row, Update(Prefill(row))) == row
  {
  }

  /**
   * `handleSubmit(onSubmit)`: no sign-in check here; a valid form is sent as
   * the update, and `onSuccess` runs only when the database reports no error.
   * The form is not reset.
   */
  function Submit(v: Values, dbError: Option<string>): Submission<Field, AnimalUpdate> {
    if Issues(v) != [] then Invalid(Issues(v))
    else Sent(Update(v), dbError.None?,
      WriteToast(dbError, Toast(false, "Animal actualizado", v.name + " ha sido actualizado correctamente"),
        "Error al actualizar", "Ha ocurrido un error al actualizar el animal"))
  }

  /** A valid form is always sent; `onSuccess` runs exactly when the update has no error. */
  lemma SubmitFlow(v: Values, dbError: Option<string>)
    ensures var s := Submit(v, dbError);
      && !s.NotSignedIn?
      && (s.Invalid? <==> Issues(v) != [])
      && (s.Sent? ==> s.payload == Update(v))
      && (CallsOnSuccess(s) <==> Issues(v) == [] && dbError.None?)
  {
  }
}
