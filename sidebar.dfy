/**
 * The "recent activity" feed of the sidebar (`Sidebar.tsx`): the first three
 * rows of each query (its `limit(3)`, in the order the rows are given), merged,
 * newest first, cut to five, each with a relative time text.
 */
module Sidebar {
  import opened Optional
  import opened Text
  import opened Seqs
  import opened Records

  /** A feed entry; `date` is `new Date(created_at)` in milliseconds (`null` is the epoch). */
  datatype FeedEntry = FeedEntry(id: string, description: string, time: string, date: int)

  /**
   * `formatTimeAgo` after date-fns has produced the Spanish distance text
   * `distance`: the first "hace" becomes "Hace" and the first
   * "menos de un minuto" becomes "1 minuto".
   */
  function FormatTimeAgo(distance: string): string {
    ReplaceFirst(ReplaceFirst(distance, "hace", "Hace"), "menos de un minuto", "1 minuto")
  }

  const JustNow := "menos de un minuto"

  /**
   * A distance with neither phrase is left alone; "hace ..." is capitalised
   * when the rest holds neither phrase; and "hace menos de un minuto" reads
   * "Hace 1 minuto".
   */
  lemma FormatTimeAgoCases(distance: string, rest: string)
    ensures !Contains(distance, "hace") && !Contains(distance, JustNow) ==> FormatTimeAgo(distance) == distance
    ensures !Contains(rest, JustNow) ==> FormatTimeAgo("hace " + rest) == "Hace " + rest
    ensures FormatTimeAgo("hace " + JustNow) == "Hace 1 minuto"
  {
    if !Contains(rest, JustNow) {
      HaceReplaced(rest);
      NoPhraseAfterHace(rest);
    }
    HaceReplaced(JustNow);
    JustNowAfterHace();
  }

  lemma HaceReplaced(rest: string)
    ensures ReplaceFirst("hace " + rest, "hace", "Hace") == "Hace " + rest
  {
    var s := "hace " + rest;
    assert OccursAt(s, "hace", 0);
  }

  lemma NoPhraseAfterHace(rest: string)
    requires !Contains(rest, JustNow)
    ensures !Contains("Hace " + rest, JustNow)
  {
    var t := "Hace " + rest;
    ContainsIff(rest, JustNow);
    ContainsIff(t, JustNow);
    NotInHace(t);
    if i :| OccursAt(t, JustNow, i) {
      if i >= 5 {
        assert t[i..i + |JustNow|] == rest[i - 5..i - 5 + |JustNow|];
        assert OccursAt(rest, JustNow, i - 5);
      }
    }
  }

  /** The phrase cannot start inside a leading "Hace ". */
  lemma NotInHace(t: string)
    requires |t| >= 5 && t[..5] == "Hace "
    ensures forall j :: 0 <= j < 5 ==> !OccursAt(t, JustNow, j)
  {
    forall j | 0 <= j < 5 ensures !OccursAt(t, JustNow, j) {
      assert t[j] != JustNow[0];
    }
  }

  lemma JustNowAfterHace()
    ensures ReplaceFirst("Hace " + JustNow, JustNow, "1 minuto") == "Hace 1 minuto"
  {
    var t := "Hace " + JustNow;
    assert |t| == 23 && t[5..] == JustNow && t[..5] == "Hace ";
    assert OccursAt(t, JustNow, 5);
    ContainsIff(t, JustNow);
    var r := IndexOf(t, JustNow);
    assert r.Some?;
    var k := r.value;
    NotInHace(t);
    assert k == 5;
    assert t[..k] + "1 minuto" + t[k + |JustNow|..] == "Hace 1 minuto";
  }

  function AnimalEntry(a: Animal, ago: int -> string): FeedEntry {
    var date := a.created_at.GetOr(0);
    FeedEntry("animal-" + a.id, "Nuevo animal registrado: " + a.name + " (" + a.tag + ")",
      FormatTimeAgo(ago(date)), date)
  }

  function VaccineEntry(v: Vaccine, ago: int -> string): FeedEntry {
    var date := v.created_at.GetOr(0);
    FeedEntry("vaccine-" + v.id, "Vacuna " + v.vaccine_type + " aplicada: " + v.animals.name,
      FormatTimeAgo(ago(date)), date)
  }

  /** The sort key that puts the later entry first. */
  function NewestFirst(e: FeedEntry): int {
    -e.date
  }

  /**
   * The merged entries before the cut: the `limit(3)` of each query (the
   * rows come in the order the database returns them), animals first.
   */
  function Merged(animals: seq<Animal>, vaccines: seq<Vaccine>, ago: int -> string): seq<FeedEntry> {
    Map(Take(animals, 3), a => AnimalEntry(a, ago)) + Map(Take(vaccines, 3), v => VaccineEntry(v, ago))
  }

  /** The feed: the merged entries, newest first, cut to five. */
  function Feed(animals: seq<Animal>, vaccines: seq<Vaccine>, ago: int -> string): seq<FeedEntry> {
    Take(SortBy(Merged(animals, vaccines, ago), NewestFirst), 5)
  }

  /**
   * One run of `fetchActivities`, given the feed `shown` so far, the signed-in
   * user and what the two queries return. With nobody signed in it returns at
   * once, and a failed query is thrown to a catch that only logs: either way
   * the feed stays. Otherwise each query keeps the user's rows (the `eq`)
   * before its `limit(3)`, and the feed is made from them.
   */
  function NextFeed(shown: seq<FeedEntry>, user: Option<string>,
                    animalTable: Result<seq<Animal>>, vaccineTable: Result<seq<Vaccine>>,
                    ago: int -> string): (r: seq<FeedEntry>)
    ensures user.None? || animalTable.Err? || vaccineTable.Err? ==> r == shown
    ensures user.Some? && animalTable.Ok? && vaccineTable.Ok? ==>
      r == Feed(AnimalsOf(animalTable.value, user.value), VaccinesOf(vaccineTable.value, user.value), ago)
  {
    if user.None? || animalTable.Err? || vaccineTable.Err? then shown
    else Feed(AnimalsOf(animalTable.value, user.value), VaccinesOf(vaccineTable.value, user.value), ago)
  }

  /** A refreshed feed has at most five entries, each made from a row of the signed-in user. */
  lemma NextFeedOfUser(shown: seq<FeedEntry>, user: Option<string>,
                       animalTable: Result<seq<Animal>>, vaccineTable: Result<seq<Vaccine>>, ago: int -> string)
    requires user.Some? && animalTable.Ok? && vaccineTable.Ok?
    ensures var r := NextFeed(shown, user, animalTable, vaccineTable, ago);
      && |r| <= 5
      && forall e :: e in r ==>
        (exists a :: a in animalTable.value && a.user_id == user.value && e == AnimalEntry(a, ago))
        || (exists v :: v in vaccineTable.value && v.user_id == user.value && e == VaccineEntry(v, ago))
  {
    var animals := AnimalsOf(animalTable.value, user.value);
    var vaccines := VaccinesOf(vaccineTable.value, user.value);
    FeedSize(animals, vaccines, ago);
    FeedFromInputs(animals, vaccines, ago);
    assert forall a :: a in Take(animals, 3) ==> a in animals;
    assert forall v :: v in Take(vaccines, 3) ==> v in vaccines;
  }

  /** The feed has five entries, or all of them when there are fewer, out of at most three animals and three vaccines. */
  lemma FeedSize(animals: seq<Animal>, vaccines: seq<Vaccine>, ago: int -> string)
    ensures |Merged(animals, vaccines, ago)| <= 6
    ensures var n := |Merged(animals, vaccines, ago)|; |Feed(animals, vaccines, ago)| == if n < 5 then n else 5
  {
  }

  /**
   * The feed is newest first and holds the newest of the merged entries:
   * it is drawn from them, and none of the entries left out is newer than
   * an entry shown.
   */
  lemma FeedNewest(animals: seq<Animal>, vaccines: seq<Vaccine>, ago: int -> string)
    ensures var feed := Feed(animals, vaccines, ago);
      forall i, j :: 0 <= i < j < |feed| ==> feed[i].date >= feed[j].date
    ensures var feed := Feed(animals, vaccines, ago);
      && multiset(feed) <= multiset(Merged(animals, vaccines, ago))
      && NoneNewer(feed, multiset(Merged(animals, vaccines, ago)) - multiset(feed))
  {
    NewestCut(Merged(animals, vaccines, ago), 5);
  }

  /** Cutting a newest-first sort after `n` entries keeps entries at least as new as every one cut. */
  lemma NewestCut(m: seq<FeedEntry>, n: nat)
    ensures var top := Take(SortBy(m, NewestFirst), n);
      forall i, j :: 0 <= i < j < |top| ==> top[i].date >= top[j].date
    ensures var top := Take(SortBy(m, NewestFirst), n);
      multiset(top) <= multiset(m) && NoneNewer(top, multiset(m) - multiset(top))
  {
    var sorted := SortBy(m, NewestFirst);
    var top := Take(sorted, n);
    var k := |top|;
    assert top == sorted[..k];
    TopOfSorted(sorted, k);
    var cut := sorted[k..];
    assert multiset(m) - multiset(top) == multiset(cut);
  }

  /** No entry left in `rest` is newer than an entry of `shown`. */
  ghost predicate NoneNewer(shown: seq<FeedEntry>, rest: multiset<FeedEntry>) {
    forall x, y :: x in shown && y in rest ==> x.date >= y.date
  }

  /** The first `n` entries of a newest-first list are ordered and at least as new as the rest. */
  lemma TopOfSorted(sorted: seq<FeedEntry>, n: nat)
    requires SortedBy(sorted, NewestFirst) && n <= |sorted|
    ensures forall i, j :: 0 <= i < j < n ==> sorted[i].date >= sorted[j].date
    ensures multiset(sorted[..n]) + multiset(sorted[n..]) == multiset(sorted)
    ensures forall x, y :: x in sorted[..n] && y in sorted[n..] ==> x.date >= y.date
  {
    forall i, j | 0 <= i < j < n ensures sorted[i].date >= sorted[j].date {
      assert NewestFirst(sorted[i]) <= NewestFirst(sorted[j]);
    }
    forall x, y | x in sorted[..n] && y in sorted[n..] ensures x.date >= y.date {
      var i :| 0 <= i < n && sorted[..n][i] == x;
      var j :| 0 <= j < |sorted| - n && sorted[n..][j] == y;
      assert NewestFirst(sorted[i]) <= NewestFirst(sorted[n + j]);
    }
    assert sorted == sorted[..n] + sorted[n..];
  }

  /** Every feed entry is an animal entry of one of the first three animals or a vaccine entry of one of the first three vaccines. */
  lemma FeedFromInputs(animals: seq<Animal>, vaccines: seq<Vaccine>, ago: int -> string)
    ensures forall e :: e in Feed(animals, vaccines, ago) ==>
      (IsPrefix("animal-", e.id) && exists a :: a in Take(animals, 3) && e == AnimalEntry(a, ago))
      || (IsPrefix("vaccine-", e.id) && exists v :: v in Take(vaccines, 3) && e == VaccineEntry(v, ago))
  {
    var m := Merged(animals, vaccines, ago);
    var sorted := SortBy(m, NewestFirst);
    SortByMembers(m, NewestFirst);
    var ma := Map(Take(animals, 3), a => AnimalEntry(a, ago));
    var mv := Map(Take(vaccines, 3), v => VaccineEntry(v, ago));
    forall e | e in Feed(animals, vaccines, ago)
      ensures (IsPrefix("animal-", e.id) && exists a :: a in Take(animals, 3) && e == AnimalEntry(a, ago))
        || (IsPrefix("vaccine-", e.id) && exists v :: v in Take(vaccines, 3) && e == VaccineEntry(v, ago))
    {
      assert e in sorted;
      assert e in ma + mv;
      if e in ma {
        var k :| 0 <= k < |ma| && ma[k] == e;
        assert e == AnimalEntry(Take(animals, 3)[k], ago);
      } else {
        var k :| 0 <= k < |mv| && mv[k] == e;
        assert e == VaccineEntry(Take(vaccines, 3)[k], ago);
      }
    }
  }
}
