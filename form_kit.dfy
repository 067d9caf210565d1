/**
 * What the five dashboard forms share: zod's string checks, the toast a
 * submission shows, the outcome of `handleSubmit(onSubmit)`, and the
 * id-and-label options the animal pickers list.
 *
 * `handleSubmit` runs the schema first and calls `onSubmit` only when no
 * field fails; so a submission is either rejected with the failing fields,
 * stopped for want of a signed-in user, or sent to the database, where it
 * is saved or fails with an error.
 */
module FormKit {
  import opened Optional
  import opened Seqs
  import opened Records

  /** `z.string().min(n)` */
  predicate MinLength(s: string, n: nat) {
    |s| >= n
  }

  /** `z.enum(options)` */
  predicate OneOf(s: string, options: seq<string>) {
    s in options
  }

  /** A toast: `variant: "destructive"` or the default one, a title and a description. */
  datatype Toast = Toast(destructive: bool, title: string, description: string)

  /** `error.message || fallback`: an empty message falls back to the form's own text. */
  function ErrorDescription(message: string, fallback: string): (r: string)
    ensures r == message || r == fallback
    ensures r == fallback <==> message == "" || message == fallback
  {
    if message == "" then fallback else message
  }

  /**
   * What `handleSubmit(onSubmit)` comes to: the schema rejects some fields
   * (`issues`, in schema order, and `onSubmit` never runs); `onSubmit` stops
   * because nobody is signed in; or the payload is sent, and `saved` says
   * whether the write succeeded.
   */
  datatype Submission<F, P> =
    | Invalid(issues: seq<F>)
    | NotSignedIn(toast: Toast)
    | Sent(payload: P, saved: bool, toast: Toast)

  /** Whether the form's `onSuccess` callback runs: only after a write that succeeded. */
  predicate CallsOnSuccess<F, P>(s: Submission<F, P>) {
    s.Sent? && s.saved
  }

  /**
   * The toast after the write: the success toast when the database reports
   * no error, otherwise a destructive "Error al ..." toast with the error's
   * message, or `fallback` when the message is empty.
   */
  function WriteToast(dbError: Option<string>, success: Toast, failureTitle: string, fallback: string): (t: Toast)
    requires !success.destructive
    ensures t.destructive <==> dbError.Some?
    ensures dbError.None? ==> t == success
    ensures dbError.Some? ==> t.title == failureTitle && t.description == ErrorDescription(dbError.value, fallback)
  {
    match dbError
    case None => success
    case Some(message) => Toast(true, failureTitle, ErrorDescription(message, fallback))
  }

  /** The signed-in user's id, if anyone is signed in. */
  type User = Option<string>

  /** A picker entry: the animal's id and the label `name (tag)`. */
  datatype AnimalOption = AnimalOption(id: string, name: string)

  /** An option's label: the animal's name, then its tag in parentheses. */
  function OptionLabel(name: string, tag: string): string {
    name + " (" + tag + ")"
  }

  /** A label starts with the animal's name and ends with its tag in parentheses. */
  lemma OptionLabelParts(name: string, tag: string)
    ensures var l := OptionLabel(name, tag);
      && |l| == |name| + |tag| + 3
      && l[..|name|] == name
      && l[|name| + 2..|l| - 1] == tag
      && l[|name|..|name| + 2] == " (" && l[|l| - 1] == ')'
  {
  }

  /** The picker's options: one per fetched animal, in order, with its id and label. */
  function AnimalOptions(rows: seq<Animal>): (r: seq<AnimalOption>)
    ensures |r| == |rows|
    ensures forall i :: 0 <= i < |rows| ==> r[i] == AnimalOption(rows[i].id, OptionLabel(rows[i].name, rows[i].tag))
  {
    Map(rows, (a: Animal) => AnimalOption(a.id, OptionLabel(a.name, a.tag)))
  }

  /** Options are listed in fetch order: each option is some row's, and each row has its option. */
  lemma AnimalOptionsCover(rows: seq<Animal>)
    ensures forall o :: o in AnimalOptions(rows) <==>
      exists a :: a in rows && o == AnimalOption(a.id, OptionLabel(a.name, a.tag))
  {
    var r := AnimalOptions(rows);
    forall o | o in r
      ensures exists a :: a in rows && o == AnimalOption(a.id, OptionLabel(a.name, a.tag))
    {
      var i :| 0 <= i < |r| && r[i] == o;
      assert rows[i] in rows;
    }
    forall o | exists a :: a in rows && o == AnimalOption(a.id, OptionLabel(a.name, a.tag))
      ensures o in r
    {
      var a :| a in rows && o == AnimalOption(a.id, OptionLabel(a.name, a.tag));
      var i :| 0 <= i < |rows| && rows[i] == a;
      assert r[i] == o;
    }
  }
}
