/**
 * The "register reproduction" form (`ReproductionForm.tsx`): a mother picked
 * among the user's females, a father among the user's males, the service
 * method and date, and an expected birth date that an effect keeps 278 days
 * after the service date. The expected birth date is a disabled input: only
 * the effect writes it.
 */
module ReproductionForm {
  import opened Optional
  import opened Seqs
  import opened Text
  import opened Calendar
  import opened Records
  import opened FormKit

  /** The gestation the form assumes, in days. */
  const GestationDays: nat := 278

  datatype Field = MotherId | FatherId | ServiceMethod | ServiceDate | ExpectedBirthDate

  datatype Values = Values(
    motherId: string,
    fatherId: string,
    serviceMethod: string,
    serviceDate: string,
    expectedBirthDate: string)

  const ServiceMethods: seq<string> := ["natural", "artificial"]

  /** `reproductionFormSchema`, field by field; the dates take any string. */
  predicate FieldOk(v: Values, f: Field) {
    match f
    case MotherId => MinLength(v.motherId, 1)
    case FatherId => MinLength(v.fatherId, 1)
    case ServiceMethod => OneOf(v.serviceMethod, ServiceMethods)
    case ServiceDate => true
    case ExpectedBirthDate => true
  }

  function IssueOf(v: Values, f: Field): seq<Field> {
    if FieldOk(v, f) then [] else [f]
  }

  /** The fields the schema rejects, in schema order. */
  function Issues(v: Values): (r: seq<Field>)
    ensures forall f :: f in r <==> !FieldOk(v, f)
  {
    IssueOf(v, MotherId) + IssueOf(v, FatherId) + IssueOf(v, ServiceMethod) + IssueOf(v, ServiceDate)
      + IssueOf(v, ExpectedBirthDate)
  }

  /** A form passes exactly when both parents are chosen and the method is "natural" or "artificial". */
  lemma IssuesEmptyIff(v: Values)
    ensures Issues(v) == [] <==>
      |v.motherId| >= 1 && |v.fatherId| >= 1 && v.serviceMethod in {"natural", "artificial"}
  {
    if Issues(v) == [] {
      assert FieldOk(v, MotherId) && FieldOk(v, FatherId) && FieldOk(v, ServiceMethod);
    }
  }

  /**
   * What the effect writes into the expected birth date when the service date
   * is `serviceDate`: nothing for the empty text, nothing for text that is not
   * a date (there `toISOString` throws), otherwise the date 278 days later.
   */
  function ExpectedBirth(serviceDate: string): Option<string> {
    if serviceDate == "" then None
    else match ParseIsoDate(serviceDate)
      case None => None
      case Some(d) => Some(FormatIsoDate(AddDays(d, GestationDays)))
  }

  /**
   * The effect fires exactly for a service date that is a date; the date it
   * writes reads back as the day 278 days after the service, and sorts after
   * it as text, as long as that day is before the year 10000.
   */
  lemma ExpectedBirthDays(serviceDate: string)
    ensures ExpectedBirth(serviceDate).Some? <==> ParseIsoDate(serviceDate).Some?
    ensures ExpectedBirth(serviceDate).Some? && AddDays(ParseIsoDate(serviceDate).value, GestationDays).year <= 9999 ==>
      var s := ParseIsoDate(serviceDate).value;
      var e := ParseIsoDate(ExpectedBirth(serviceDate).value);
      && e.Some?
      && DayNumber(e.value) == DayNumber(s) + GestationDays
      && StrLess(serviceDate, ExpectedBirth(serviceDate).value)
  {
    if ParseIsoDate(serviceDate).Some? {
      var s := ParseIsoDate(serviceDate).value;
      var e := AddDays(s, GestationDays);
      if e.year <= 9999 {
        ParseFormat(e);
        FormatParse(serviceDate);
        IsoOrder(s, e);
      }
    }
  }

  /** The expected birth date follows the service date, as the effect leaves it. */
  predicate Consistent(v: Values) {
    ExpectedBirth(v.serviceDate).Some? ==> v.expectedBirthDate == ExpectedBirth(v.serviceDate).value
  }

  /** `defaultValues`: no parents, natural service today, and the birth expected 278 days from today. */
  function Defaults(c: Clock): (v: Values)
    requires ValidClock(c)
    ensures Consistent(v)
  {
    ParseFormat(c.today);
    Values("", "", "natural", TodayString(c), FormatIsoDate(AddDays(c.today, GestationDays)))
  }

  /** The form's values after the user sets field `f` to `text`, and after the effect has run. */
  function Edited(v: Values, f: Field, text: string): (r: Values)
    requires f != ExpectedBirthDate
    requires Consistent(v)
    ensures Consistent(r)
  {
    match f
    case MotherId => v.(motherId := text)
    case FatherId => v.(fatherId := text)
    case ServiceMethod => v.(serviceMethod := text)
    case ServiceDate =>
      v.(serviceDate := text, expectedBirthDate := ExpectedBirth(text).GetOr(v.expectedBirthDate))
  }

  /** The parents' query: the user's animals of one gender, in the order the database returns them. */
  function OfGender(herd: seq<Animal>, userId: string, gender: string): (r: seq<Animal>)
    ensures forall a :: a in r <==> a in herd && a.user_id == userId && a.gender == gender
  {
    Filter(herd, (a: Animal) => a.user_id == userId && a.gender == gender)
  }

  /** Each listed parent is one of the user's animals of the gender asked for, and every such animal is listed. */
  lemma ParentOptions(herd: seq<Animal>, userId: string, gender: string)
    ensures forall o :: o in AnimalOptions(OfGender(herd, userId, gender)) <==>
      exists a :: a in herd && a.user_id == userId && a.gender == gender && o == AnimalOption(a.id, OptionLabel(a.name, a.tag))
  {
    AnimalOptionsCover(OfGender(herd, userId, gender));
  }

  /** `handleSubmit(onSubmit)` with the user signed in (or not) and the insert's error, if any. */
  function Submit(v: Values, user: User, dbError: Option<string>): Submission<Field, ReproductionInsert> {
    if Issues(v) != [] then Invalid(Issues(v))
    else if user.None? then NotSignedIn(Toast(true, "Error", "Debes iniciar sesión para registrar una reproducción"))
    else Sent(ReproductionInsert(user.value, v.motherId, v.fatherId, v.serviceMethod, v.serviceDate, v.expectedBirthDate),
      dbError.None?,
      WriteToast(dbError, Toast(false, "Reproducción registrada", "La reproducción ha sido registrada correctamente"),
        "Error al registrar", "Ha ocurrido un error al registrar la reproducción"))
  }

  /**
   * Nothing is sent for a rejected form or with nobody signed in; otherwise
   * the payload copies all five fields and the user's id, so a consistent
   * form sends an expected birth date 278 days after its service date.
   */
  lemma SubmitFlow(v: Values, user: User, dbError: Option<string>)
    requires Consistent(v)
    ensures var s := Submit(v, user, dbError);
      && (s.Invalid? <==> Issues(v) != [])
      && (s.Sent? <==> Issues(v) == [] && user.Some?)
      && (s.Sent? ==> s.payload == ReproductionInsert(user.value, v.motherId, v.fatherId, v.serviceMethod,
                                      v.serviceDate, v.expectedBirthDate))
      && (s.Sent? && ExpectedBirth(v.serviceDate).Some? ==>
            s.payload.expected_birth_date == ExpectedBirth(v.serviceDate).value)
      && (CallsOnSuccess(s) <==> Issues(v) == [] && user.Some? && dbError.None?)
  {
  }

  /** The component: the form's values, the two parent lists and the loading flag. */
  class Form {
    var values: Values
    const defaults: Values
    var mothers: seq<AnimalOption>
    var fathers: seq<AnimalOption>
    var isLoading: bool

    /** The expected birth date follows the service date, and so do the defaults a reset returns to. */
    predicate Valid()
      reads this
    {
      Consistent(values) && Consistent(defaults)
    }

    /** Mounting: the defaults of the moment, no parents yet, loading. */
    constructor(c: Clock)
      requires ValidClock(c)
      ensures values == defaults == Defaults(c)
      ensures mothers == [] && fathers == [] && isLoading
      ensures Valid()
    {
      values := Defaults(c);
      defaults := Defaults(c);
      mothers := [];
      fathers := [];
      isLoading := true;
    }

    /** The submit button and the parent pickers are enabled only once loading has finished. */
    predicate CanSubmit()
      reads this
    {
      !isLoading
    }

    /** The user sets one of the fields that are not disabled; a new service date moves the expected birth date. */
    method Edit(f: Field, text: string)
      requires Valid() && f != ExpectedBirthDate
      modifies this
      ensures values == Edited(old(values), f, text)
      ensures mothers == old(mothers) && fathers == old(fathers) && isLoading == old(isLoading)
      ensures Valid()
    {
      values := Edited(values, f, text);
    }

    /**
     * `fetchAnimals`: with nobody signed in it returns at once and the form
     * stays loading; a failed query for either gender leaves both lists as
     * they were; otherwise the mothers are the user's females and the fathers
     * the user's males. Loading ends in both of those cases.
     */
    method Load(user: User, herd: seq<Animal>, femaleError: Option<string>, maleError: Option<string>)
      requires Valid()
      modifies this
      ensures values == old(values)
      ensures Valid()
      ensures user.None? ==> mothers == old(mothers) && fathers == old(fathers) && isLoading == old(isLoading)
      ensures user.Some? ==> !isLoading
      ensures user.Some? && (femaleError.Some? || maleError.Some?) ==>
        mothers == old(mothers) && fathers == old(fathers)
      ensures user.Some? && femaleError.None? && maleError.None? ==>
        && mothers == AnimalOptions(OfGender(herd, user.value, "female"))
        && fathers == AnimalOptions(OfGender(herd, user.value, "male"))
    {
      if user.None? {
        return;
      }
      if femaleError.None? && maleError.None? {
        mothers := AnimalOptions(OfGender(herd, user.value, "female"));
        fathers := AnimalOptions(OfGender(herd, user.value, "male"));
      }
      isLoading := false;
    }

    /** Submitting: the form returns to its defaults exactly when the insert succeeds. */
    method SubmitForm(user: User, dbError: Option<string>) returns (s: Submission<Field, ReproductionInsert>)
      requires Valid()
      modifies this
      ensures s == Submit(old(values), user, dbError)
      ensures values == if CallsOnSuccess(s) then defaults else old(values)
      ensures mothers == old(mothers) && fathers == old(fathers) && isLoading == old(isLoading)
      ensures Valid()
    {
      s := Submit(values, user, dbError);
      if CallsOnSuccess(s) {
        values := defaults;
      }
    }
  }
}
