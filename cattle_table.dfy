/**
 * The herd register (`CattleTable.tsx`): fetched rows are mapped to table
 * rows, filtered by a free-text search and an optional per-column filter, and
 * a successful delete drops the deleted animal from the list held in state.
 */
module CattleTable {
  import opened Optional
  import opened Text
  import opened Seqs
  import opened Records
  import opened AnimalCard

  /**
   * A table row. `entryDate` and `earTag` are copied from nullable columns
   * without a default, so they may be null even though the row type says
   * `string`.
   */
  datatype Cattle = Cattle(
    id: string,
    tag: string,
    name: string,
    gender: string,
    birthDate: string,
    entryDate: Option<string>,
    breed: string,
    status: string,
    earTag: Option<string>,
    owner: string)

  /** The `data.map(...)` of the fetch: status capitalised, a missing or empty owner shown as "-". */
  function ToCattle(a: Animal): (c: Cattle)
    ensures c.id == a.id && c.tag == a.tag && c.name == a.name && c.breed == a.breed
    ensures c.gender == a.gender && c.birthDate == a.birth_date
    ensures c.entryDate == a.entry_date && c.earTag == a.ear_tag
    ensures ToLower(c.status) == ToLower(a.status) && |c.status| == |a.status|
    ensures |a.status| > 0 ==> c.status[0] == UpperChar(a.status[0]) && c.status[1..] == a.status[1..]
    ensures c.owner != ""
    ensures c.owner == "-" <==> a.owner.None? || a.owner.value == "" || a.owner.value == "-"
    ensures a.owner.Some? && a.owner.value != "" ==> c.owner == a.owner.value
  {
    LowerOfCapitalize(a.status);
    Cattle(a.id, a.tag, a.name, a.gender, a.birth_date, a.entry_date, a.breed,
      Capitalize(a.status), a.ear_tag,
      if a.owner.Some? && a.owner.value != "" then a.owner.value else "-")
  }

  // ---------------------------------------------------------------------------
  // Search and column filter

  /** The search box: the lower-cased term occurs in the lower-cased name, tag or breed. */
  predicate MatchesSearch(c: Cattle, term: string) {
    Contains(ToLower(c.name), ToLower(term))
    || Contains(ToLower(c.tag), ToLower(term))
    || Contains(ToLower(c.breed), ToLower(term))
  }

  /** `filterColumn && filterValue`: a column is chosen and a value typed. */
  predicate FilterActive(column: Option<string>, value: string) {
    column.Some? && column.value != "" && value != ""
  }

  /** What reading a null column with `.toLowerCase()` or `.includes(...)` throws. */
  const NullColumnError := "TypeError: cannot read properties of null"

  /** The `switch (filterColumn)` for an active filter; reading a null column throws. */
  function ColumnMatch(c: Cattle, column: string, value: string): Result<bool> {
    var v := ToLower(value);
    match column
    case "tag" => Ok(Contains(ToLower(c.tag), v))
    case "name" => Ok(Contains(ToLower(c.name), v))
    case "gender" =>
      Ok(ToLower(c.gender) == v || (c.gender == "male" && v == "macho") || (c.gender == "female" && v == "hembra"))
    case "birthDate" => Ok(Contains(c.birthDate, value))
    case "entryDate" =>
      if c.entryDate.None? then Err(NullColumnError) else Ok(Contains(c.entryDate.value, value))
    case "breed" => Ok(Contains(ToLower(c.breed), v))
    case "earTag" =>
      if c.earTag.None? then Err(NullColumnError)
      else
        var e := c.earTag.value;
        Ok(Contains(ToLower(e), v)
          || (e == "red" && v == "roja") || (e == "green" && v == "verde")
          || (e == "yellow" && v == "amarilla") || (e == "sky" && v == "celeste"))
    case "status" =>
      Ok(Contains(ToLower(c.status), v)
        || (c.status == "Healthy" && v == "saludable")
        || (c.status == "Pregnant" && v == "preñada")
        || (c.status == "Sick" && v == "enfermo"))
    case _ => Ok(true)
  }

  /** The `cattle.filter` callback: the search first, then the column filter if one is active. */
  function Accepts(c: Cattle, term: string, column: Option<string>, value: string): Result<bool> {
    if !MatchesSearch(c, term) then Ok(false)
    else if !FilterActive(column, value) then Ok(true)
    else ColumnMatch(c, column.value, value)
  }

  /** The rows the callback keeps. */
  function Keeps(term: string, column: Option<string>, value: string): Cattle -> bool {
    c => Accepts(c, term, column, value) == Ok(true)
  }

  /** `filteredCattle`: the first row whose callback throws aborts the whole filter. */
  function FilteredCattle(cattle: seq<Cattle>, term: string, column: Option<string>, value: string): Result<seq<Cattle>> {
    if cattle == [] then Ok([])
    else
      match Accepts(cattle[0], term, column, value)
      case Err(m) => Err(m)
      case Ok(keep) =>
        match FilteredCattle(cattle[1..], term, column, value)
        case Err(m) => Err(m)
        case Ok(rest) => Ok(if keep then [cattle[0]] + rest else rest)
  }

  /**
   * The filter fails exactly when some row's callback throws; otherwise it
   * keeps, in order, exactly the rows the callback accepts.
   */
  lemma {:induction false} FilteredCattleMeaning(cattle: seq<Cattle>, term: string, column: Option<string>, value: string)
    ensures FilteredCattle(cattle, term, column, value).Err? <==>
      exists i :: 0 <= i < |cattle| && Accepts(cattle[i], term, column, value).Err?
    ensures FilteredCattle(cattle, term, column, value).Ok? ==>
      FilteredCattle(cattle, term, column, value).value == Filter(cattle, Keeps(term, column, value))
  {
    if cattle != [] {
      var rest := cattle[1..];
      FilteredCattleMeaning(rest, term, column, value);
      assert Filter(cattle, Keeps(term, column, value))
        == (if Keeps(term, column, value)(cattle[0]) then [cattle[0]] else []) + Filter(rest, Keeps(term, column, value));
      if exists i :: 0 <= i < |cattle[1..]| && Accepts(cattle[1..][i], term, column, value).Err? {
        var i :| 0 <= i < |cattle[1..]| && Accepts(cattle[1..][i], term, column, value).Err?;
        assert cattle[i + 1] == cattle[1..][i];
      }
      if i :| 1 <= i < |cattle| && Accepts(cattle[i], term, column, value).Err? {
        assert cattle[1..][i - 1] == cattle[i];
      }
    }
  }

  /** A callback throws only for a searched row whose filtered column is null. */
  lemma AcceptsErr(c: Cattle, term: string, column: Option<string>, value: string)
    ensures Accepts(c, term, column, value).Err? <==>
      MatchesSearch(c, term) && FilterActive(column, value) &&
      ((column.value == "entryDate" && c.entryDate.None?) || (column.value == "earTag" && c.earTag.None?))
  {
  }

  /** The shown rows are the register with some rows left out and the rest in order. */
  lemma FilteredIsSubsequence(cattle: seq<Cattle>, term: string, column: Option<string>, value: string)
    requires FilteredCattle(cattle, term, column, value).Ok?
    ensures IsSubsequence(FilteredCattle(cattle, term, column, value).value, cattle)
  {
    FilteredCattleMeaning(cattle, term, column, value);
    FilterIsSubsequence(cattle, Keeps(term, column, value));
  }

  /** Filtering the shown rows again with the same search and filter shows the same rows. */
  lemma FilteredIdempotent(cattle: seq<Cattle>, term: string, column: Option<string>, value: string)
    requires FilteredCattle(cattle, term, column, value).Ok?
    ensures var shown := FilteredCattle(cattle, term, column, value).value;
      FilteredCattle(shown, term, column, value) == Ok(shown)
  {
    var p := Keeps(term, column, value);
    var shown := FilteredCattle(cattle, term, column, value).value;
    FilteredCattleMeaning(cattle, term, column, value);
    FilteredCattleMeaning(shown, term, column, value);
    FilterIdempotent(cattle, p);
    forall i | 0 <= i < |shown| ensures Accepts(shown[i], term, column, value).Ok? {
      assert p(shown[i]);
    }
  }

  /** The empty search term matches every row, and the search ignores the case of the term. */
  lemma SearchProperties(c: Cattle, term: string)
    ensures MatchesSearch(c, "")
    ensures MatchesSearch(c, ToLower(term)) == MatchesSearch(c, term)
  {
    ContainsEmpty(ToLower(c.name));
    assert ToLower("") == "";
    ToLowerIdempotent(term);
  }

  /**
   * With no column or no value, or with a column the switch does not know,
   * only the search decides.
   */
  lemma SearchAloneDecides(c: Cattle, term: string, column: Option<string>, value: string)
    requires !FilterActive(column, value) ||
      column.value !in {"tag", "name", "gender", "birthDate", "entryDate", "breed", "earTag", "status"}
    ensures Accepts(c, term, column, value) == Ok(MatchesSearch(c, term))
  {
  }

  /**
   * The gender filter on a male row accepts "male" or "macho" in any case, on
   * a female row "female" or "hembra"; otherwise only the stored value itself.
   */
  lemma GenderFilter(c: Cattle, value: string)
    ensures c.gender == "male" ==>
      (ColumnMatch(c, "gender", value) == Ok(true) <==> ToLower(value) == "male" || ToLower(value) == "macho")
    ensures c.gender == "female" ==>
      (ColumnMatch(c, "gender", value) == Ok(true) <==> ToLower(value) == "female" || ToLower(value) == "hembra")
    ensures c.gender != "male" && c.gender != "female" ==>
      (ColumnMatch(c, "gender", value) == Ok(true) <==> ToLower(value) == ToLower(c.gender))
  {
    assert ToLower("male") == "male";
    assert ToLower("female") == "female";
  }

  /**
   * Every column but the two dates ignores the case of the value typed; the
   * date columns do not lower-case anything.
   */
  lemma ColumnCaseInsensitive(c: Cattle, column: string, value: string)
    requires column != "birthDate" && column != "entryDate"
    ensures ColumnMatch(c, column, ToLower(value)) == ColumnMatch(c, column, value)
  {
    ToLowerIdempotent(value);
  }

  /** Typing the ear-tag name the table shows, in any case, finds the row. */
  lemma EarTagAlias(c: Cattle, value: string)
    requires c.earTag.Some? && IsKnownEarTag(c.earTag.value)
    requires ToLower(value) == ToLower(EarTagName(c.earTag.value))
    ensures ColumnMatch(c, "earTag", value) == Ok(true)
  {
    assert ToLower("Roja") == "roja";
    assert ToLower("Verde") == "verde";
    assert ToLower("Amarilla") == "amarilla";
    assert ToLower("Celeste") == "celeste";
  }

  // ---------------------------------------------------------------------------
  // Status and ear-tag cells

  /** The status badge text: only the capitalised "Healthy" and "Pregnant" are recognised. */
  function TableStatusLabel(status: string): string {
    if status == "Healthy" then "Saludable"
    else if status == "Pregnant" then "Preñada"
    else "Enfermo"
  }

  function TableStatusColor(status: string): string {
    if status == "Healthy" then "bg-green-100 text-green-800"
    else if status == "Pregnant" then "bg-blue-100 text-blue-800"
    else "bg-red-100 text-red-800"
  }

  /**
   * For the three stored codes the register shows the same label as the
   * animal card; any other status is shown as sick, in red.
   */
  lemma TableStatusAgreesWithCard(a: Animal)
    ensures IsKnownStatus(a.status) ==> TableStatusLabel(ToCattle(a).status) == StatusText(a.status)
    ensures !IsKnownStatus(a.status) && a.status != "Healthy" && a.status != "Pregnant" ==>
      TableStatusLabel(ToCattle(a).status) == "Enfermo" && TableStatusColor(ToCattle(a).status) == "bg-red-100 text-red-800"
  {
    var s := ToCattle(a).status;
    if |a.status| > 0 {
      assert s == [UpperChar(a.status[0])] + a.status[1..];
    }
  }

  /**
   * A searched row whose status is typed as the label the register shows
   * for it is found by the status filter.
   */
  lemma StatusAlias(c: Cattle, value: string)
    requires c.status == "Healthy" || c.status == "Pregnant" || c.status == "Sick"
    requires ToLower(value) == ToLower(TableStatusLabel(c.status))
    ensures ColumnMatch(c, "status", value) == Ok(true)
  {
    assert ToLower("Saludable") == "saludable";
    assert ToLower("Preñada") == "preñada";
    assert ToLower("Enfermo") == "enfermo";
  }

  // ---------------------------------------------------------------------------
  // The register held in state

  /** The table after a deletion: every row with another id, in order. */
  function RemoveId(cattle: seq<Cattle>, id: string): seq<Cattle> {
    Filter(cattle, (c: Cattle) => c.id != id)
  }

  /**
   * After a delete no row has the deleted id, every other row is kept, in
   * order, and the list is shorter by the number of rows that had the id.
   */
  lemma RemoveIdExact(cattle: seq<Cattle>, id: string)
    ensures forall c :: c in RemoveId(cattle, id) ==> c.id != id
    ensures forall c :: c in cattle && c.id != id ==> c in RemoveId(cattle, id)
    ensures IsSubsequence(RemoveId(cattle, id), cattle)
    ensures |RemoveId(cattle, id)| == |cattle| - Count(cattle, (c: Cattle) => c.id == id)
  {
    var p := (c: Cattle) => c.id != id;
    FilterIsSubsequence(cattle, p);
    CountIsFilterLength(cattle, p);
    CountComplement(cattle, p, (c: Cattle) => c.id == id);
  }

  /** The component state `cattle`. */
  class Register {
    var cattle: seq<Cattle>

    constructor()
      ensures cattle == []
    {
      cattle := [];
    }

    /**
     * `fetchCattle`: with nobody signed in nothing is fetched; a successful
     * fetch replaces the list with the user's rows (the `eq`), mapped; a
     * failed one keeps it.
     */
    method Load(user: Option<string>, fetched: Result<seq<Animal>>)
      modifies this
      ensures user.Some? && fetched.Ok? ==> cattle == Map(AnimalsOf(fetched.value, user.value), ToCattle)
      ensures user.None? || fetched.Err? ==> cattle == old(cattle)
    {
      if user.Some? && fetched.Ok? {
        cattle := Map(AnimalsOf(fetched.value, user.value), ToCattle);
      }
    }

    /** The delete action: when the database reports no error, the row leaves the list. */
    method Delete(id: string, deleteError: Option<string>)
      modifies this
      ensures deleteError.None? ==> cattle == RemoveId(old(cattle), id)
      ensures deleteError.Some? ==> cattle == old(cattle)
    {
      if deleteError.None? {
        cattle := RemoveId(cattle, id);
      }
    }
  }
}
