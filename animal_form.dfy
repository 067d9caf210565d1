/**
 * The "register animal" form (`AnimalForm.tsx`): its zod schema, its default
 * values, and the `animals` row that `onSubmit` inserts for the signed-in user.
 */
module AnimalForm {
  import opened Optional
  import opened Calendar
  import opened Records
  import opened FormKit
  import AnimalCard

  /** The form's fields, in the order the schema declares them. */
  datatype Field = Tag | Name | Gender | BirthDate | EntryDate | Breed | Status | EarTag | Weight | Owner | Purpose | Farm | Category

  datatype Values = Values(
    tag: string,
    name: string,
    gender: string,
    birthDate: string,
    entryDate: string,
    breed: string,
    status: string,
    earTag: string,
    weight: string,
    owner: string,
    purpose: string,
    farm: string,
    category: string)

  const Genders: seq<string> := ["male", "female"]
  const Statuses: seq<string> := ["healthy", "sick", "pregnant"]
  const EarTags: seq<string> := ["red", "green", "yellow", "sky"]
  const Purposes: seq<string> := ["fattening", "breeding", "sale"]
  const Categories: seq<string> :=
    ["vaca", "vaquilla", "novillo", "toro", "desmamante_macho", "desmamante_hembra", "ternero", "bueye"]

  /** `animalFormSchema`, field by field; the two dates take any string. */
  predicate FieldOk(v: Values, f: Field) {
    match f
    case Tag => MinLength(v.tag, 3)
    case Name => MinLength(v.name, 2)
    case Gender => OneOf(v.gender, Genders)
    case BirthDate => true
    case EntryDate => true
    case Breed => MinLength(v.breed, 2)
    case Status => OneOf(v.status, Statuses)
    case EarTag => OneOf(v.earTag, EarTags)
    case Weight => MinLength(v.weight, 1)
    case Owner => MinLength(v.owner, 2)
    case Purpose => OneOf(v.purpose, Purposes)
    case Farm => MinLength(v.farm, 2)
    case Category => OneOf(v.category, Categories)
  }

  /** `[f]` when field `f` fails, `[]` when it passes. */
  function IssueOf(v: Values, f: Field): seq<Field> {
    if FieldOk(v, f) then [] else [f]
  }

  /** The fields the schema rejects, in schema order. */
  function Issues(v: Values): (r: seq<Field>)
    ensures forall f :: f in r <==> !FieldOk(v, f)
  {
    IssueOf(v, Tag) + IssueOf(v, Name) + IssueOf(v, Gender) + IssueOf(v, BirthDate) + IssueOf(v, EntryDate)
      + IssueOf(v, Breed) + IssueOf(v, Status) + IssueOf(v, EarTag) + IssueOf(v, Weight) + IssueOf(v, Owner)
      + IssueOf(v, Purpose) + IssueOf(v, Farm) + IssueOf(v, Category)
  }

  /**
   * A form passes exactly when the tag has three characters or more; name,
   * breed, owner and farm two or more; the weight one or more; and gender,
   * status, ear tag, purpose and category are among their listed codes.
   */
  lemma IssuesEmptyIff(v: Values)
    ensures Issues(v) == [] <==>
      && |v.tag| >= 3 && |v.name| >= 2 && |v.breed| >= 2 && |v.weight| >= 1 && |v.owner| >= 2 && |v.farm| >= 2
      && v.gender in {"male", "female"}
      && v.status in {"healthy", "sick", "pregnant"}
      && v.earTag in {"red", "green", "yellow", "sky"}
      && v.purpose in {"fattening", "breeding", "sale"}
      && v.category in {"vaca", "vaquilla", "novillo", "toro", "desmamante_macho", "desmamante_hembra", "ternero", "bueye"}
  {
    if Issues(v) != [] {
      assert Issues(v)[0] in Issues(v);
    } else {
      forall f ensures FieldOk(v, f) {
        assert f !in Issues(v);
      }
      assert FieldOk(v, Tag) && FieldOk(v, Name) && FieldOk(v, Gender) && FieldOk(v, Breed) && FieldOk(v, Status);
      assert FieldOk(v, EarTag) && FieldOk(v, Weight) && FieldOk(v, Owner) && FieldOk(v, Purpose);
      assert FieldOk(v, Farm) && FieldOk(v, Category);
    }
  }

  /** `defaultValues`, with both dates today's UTC date (the date part of the current instant). */
  function Defaults(c: Clock): Values
    requires ValidClock(c)
  {
    Values("", "", "male", TodayString(c), TodayString(c), "", "healthy", "red", "", "", "fattening", "", "vaca")
  }

  /** The untouched form is rejected on exactly its six empty text fields. */
  lemma DefaultsIssues(c: Clock)
    requires ValidClock(c)
    ensures Issues(Defaults(c)) == [Tag, Name, Breed, Weight, Owner, Farm]
  {
  }

  /** The insert payload: every field in its snake_case column, stamped with the user's id. */
  function InsertRow(v: Values, userId: string): AnimalInsert {
    AnimalInsert(userId, v.tag, v.name, v.gender, v.birthDate, v.breed, v.status,
      Some(v.category), Some(v.earTag), Some(v.entryDate), Some(v.farm), Some(v.owner),
      None, Some(v.purpose), Some(v.weight))
  }

  /** The row the database stores for an insert payload, with the id and creation time it assigns. */
  function Stored(p: AnimalInsert, id: string, createdAt: int): (row: Animal)
    ensures row.id == id && row.user_id == p.user_id && row.created_at == Some(createdAt)
  {
    Animal(id, p.user_id, p.tag, p.name, p.gender, p.birth_date, p.breed, p.status, p.category,
      Some(createdAt), p.ear_tag, p.entry_date, p.farm, p.owner, p.paddock, p.purpose, p.weight)
  }

  /** The form values a stored row holds, a null column read as "". */
  function ValuesOf(row: Animal): Values {
    Values(row.tag, row.name, row.gender, row.birth_date, row.entry_date.GetOr(""), row.breed, row.status,
      row.ear_tag.GetOr(""), row.weight.GetOr(""), row.owner.GetOr(""), row.purpose.GetOr(""),
      row.farm.GetOr(""), row.category.GetOr(""))
  }

  /**
   * The stored row gives back exactly the values submitted, belongs to the
   * user, has no paddock, and fills every column the form has (none null).
   */
  lemma InsertRoundTrip(v: Values, userId: string, id: string, createdAt: int)
    ensures var row := Stored(InsertRow(v, userId), id, createdAt);
      && ValuesOf(row) == v
      && row.user_id == userId
      && row.paddock.None?
      && row.category.Some? && row.ear_tag.Some? && row.entry_date.Some? && row.farm.Some?
      && row.owner.Some? && row.purpose.Some? && row.weight.Some?
  {
  }

  /**
   * A row inserted from a valid form has a status and an ear tag the animal
   * card knows, so neither falls back to the gray colour.
   */
  lemma ValidRowDisplays(v: Values, userId: string, id: string, createdAt: int)
    requires Issues(v) == []
    ensures var row := Stored(InsertRow(v, userId), id, createdAt);
      && AnimalCard.IsKnownStatus(row.status)
      && AnimalCard.IsKnownEarTag(row.ear_tag.value)
      && AnimalCard.StatusColor(row.status) != "bg-gray-100 text-gray-800"
      && AnimalCard.EarTagColor(row.ear_tag.value) != "bg-gray-500"
  {
    IssuesEmptyIff(v);
  }

  /** `handleSubmit(onSubmit)` with the user signed in (or not) and the insert's error, if any. */
  function Submit(v: Values, user: User, dbError: Option<string>): Submission<Field, AnimalInsert> {
    if Issues(v) != [] then Invalid(Issues(v))
    else if user.None? then NotSignedIn(Toast(true, "Error", "Debes iniciar sesión para registrar un animal"))
    else Sent(InsertRow(v, user.value), dbError.None?,
      WriteToast(dbError, Toast(false, "Animal registrado", v.name + " ha sido registrado correctamente"),
        "Error al registrar", "Ha ocurrido un error al registrar el animal"))
  }

  /** The form's values after a submission: back to the defaults after a successful insert, otherwise as they were. */
  function ValuesAfter(v: Values, s: Submission<Field, AnimalInsert>, defaults: Values): Values {
    if CallsOnSuccess(s) then defaults else v
  }

  /**
   * A rejected form lists its failing fields and sends nothing; with nobody
   * signed in nothing is sent; otherwise the payload is the form's row for
   * that user. The form resets and `onSuccess` runs exactly when the insert
   * succeeds.
   */
  lemma SubmitFlow(v: Values, user: User, dbError: Option<string>, defaults: Values)
    ensures var s := Submit(v, user, dbError);
      && (s.Invalid? <==> Issues(v) != [])
      && (s.Invalid? ==> s.issues == Issues(v))
      && (s.Sent? <==> Issues(v) == [] && user.Some?)
      && (s.Sent? ==> s.payload == InsertRow(v, user.value) && s.payload.user_id == user.value)
      && (CallsOnSuccess(s) <==> Issues(v) == [] && user.Some? && dbError.None?)
      && (s.Sent? ==> (s.toast.destructive <==> !s.saved))
      && ValuesAfter(v, s, defaults) == (if CallsOnSuccess(s) then defaults else v)
  {
  }
}
