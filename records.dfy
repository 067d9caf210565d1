/**
 * Rows of the three database tables the dashboard reads and writes, shaped
 * like the generated types of `src/types/supabase.ts`: a nullable column is an
 * `Option`, and an optional key of an insert or update payload is an `Option`
 * whose `None` means "key absent". Column names keep the database's snake_case.
 *
 * `gender` and `status` stay strings, as in `supabase.ts`; the narrower enums of
 * `src/lib/database.types.ts` are what the forms' validators enforce.
 *
 * `created_at` is a timestamp column; it is carried here as the instant it
 * denotes (milliseconds since the Unix epoch), `None` for SQL null.
 */
module Records {
  import opened Optional
  import opened Seqs

  /** A row of `animals`. */
  datatype Animal = Animal(
    id: string,
    user_id: string,
    tag: string,
    name: string,
    gender: string,
    birth_date: string,
    breed: string,
    status: string,
    category: Option<string>,
    created_at: Option<int>,
    ear_tag: Option<string>,
    entry_date: Option<string>,
    farm: Option<string>,
    owner: Option<string>,
    paddock: Option<string>,
    purpose: Option<string>,
    weight: Option<string>)

  /** The `animals(name, tag)` part of a vaccine row fetched with its animal. */
  datatype AnimalRef = AnimalRef(name: string, tag: string)

  /** A row of `vaccines`, with the name and tag of the joined animal. */
  datatype Vaccine = Vaccine(
    id: string,
    user_id: string,
    animal_id: string,
    vaccine_type: string,
    date: string,
    next_date: Option<string>,
    notes: Option<string>,
    created_at: Option<int>,
    animals: AnimalRef)

  /** The payload of `insert` into `animals`: the optional keys of the insert type. */
  datatype AnimalInsert = AnimalInsert(
    user_id: string,
    tag: string,
    name: string,
    gender: string,
    birth_date: string,
    breed: string,
    status: string,
    category: Option<string>,
    ear_tag: Option<string>,
    entry_date: Option<string>,
    farm: Option<string>,
    owner: Option<string>,
    paddock: Option<string>,
    purpose: Option<string>,
    weight: Option<string>)

  /**
   * The payload of `update` on `animals`: every key is optional. For a nullable
   * column the key's value is itself an `Option` (a string or `null`).
   */
  datatype AnimalUpdate = AnimalUpdate(
    tag: Option<string>,
    name: Option<string>,
    gender: Option<string>,
    birth_date: Option<string>,
    breed: Option<string>,
    status: Option<string>,
    category: Option<Option<string>>,
    ear_tag: Option<Option<string>>,
    entry_date: Option<Option<string>>,
    farm: Option<Option<string>>,
    owner: Option<Option<string>>,
    paddock: Option<Option<string>>,
    purpose: Option<Option<string>>,
    weight: Option<Option<string>>)

  /** An update that sets no column. */
  const NoUpdate := AnimalUpdate(None, None, None, None, None, None, None, None, None, None, None, None, None, None)

  /** The payload of `insert` into `vaccines`. */
  datatype VaccineInsert = VaccineInsert(
    user_id: string,
    animal_id: string,
    vaccine_type: string,
    date: string,
    next_date: Option<string>,
    notes: Option<string>)

  /** The payload of `insert` into `reproductions`. */
  datatype ReproductionInsert = ReproductionInsert(
    user_id: string,
    mother_id: string,
    father_id: string,
    service_method: string,
    service_date: string,
    expected_birth_date: string)

  /** An update filtered by id, as it acts on one row: the row with that id takes each column `u` names. */
  function ApplyUpdate(row: Animal, u: AnimalUpdate): (r: Animal)
    ensures r.id == row.id && r.user_id == row.user_id && r.created_at == row.created_at
  {
    row.(
      tag := u.tag.GetOr(row.tag),
      name := u.name.GetOr(row.name),
      gender := u.gender.GetOr(row.gender),
      birth_date := u.birth_date.GetOr(row.birth_date),
      breed := u.breed.GetOr(row.breed),
      status := u.status.GetOr(row.status),
      category := u.category.GetOr(row.category),
      ear_tag := u.ear_tag.GetOr(row.ear_tag),
      entry_date := u.entry_date.GetOr(row.entry_date),
      farm := u.farm.GetOr(row.farm),
      owner := u.owner.GetOr(row.owner),
      paddock := u.paddock.GetOr(row.paddock),
      purpose := u.purpose.GetOr(row.purpose),
      weight := u.weight.GetOr(row.weight))
  }

  /** An update that names no column leaves the row as it was. */
  lemma ApplyNoUpdate(row: Animal)
    ensures ApplyUpdate(row, NoUpdate) == row
  {
  }

  /** `update(u).eq("id", id)` on a table: only rows with that id change. */
  function UpdateWhereId(rows: seq<Animal>, id: string, u: AnimalUpdate): (r: seq<Animal>)
    ensures |r| == |rows|
    ensures forall i :: 0 <= i < |rows| && rows[i].id != id ==> r[i] == rows[i]
    ensures forall i :: 0 <= i < |rows| && rows[i].id == id ==> r[i] == ApplyUpdate(rows[i], u)
  {
    seq(|rows|, i requires 0 <= i < |rows| => if rows[i].id == id then ApplyUpdate(rows[i], u) else rows[i])
  }

  /** `.eq("user_id", user)` on the animals: the rows of that user, in the order they come. */
  function AnimalsOf(rows: seq<Animal>, user: string): (r: seq<Animal>)
    ensures forall a :: a in r <==> a in rows && a.user_id == user
  {
    Filter(rows, (a: Animal) => a.user_id == user)
  }

  /** `.eq("user_id", user)` on the vaccines. */
  function VaccinesOf(rows: seq<Vaccine>, user: string): (r: seq<Vaccine>)
    ensures forall v :: v in r <==> v in rows && v.user_id == user
  {
    Filter(rows, (v: Vaccine) => v.user_id == user)
  }
}
