/**
 * The notification bell (`Notifications.tsx`): vaccines due in the coming
 * week become unread notifications labelled by the days left, a fixed demo
 * notification follows them, and the list's read flags are changed by
 * "mark as read" and "mark all as read".
 */
module Notifications {
  import opened Optional
  import opened Text
  import opened Seqs
  import opened Calendar
  import opened Records

  datatype NotificationType = VaccineNote | EventNote

  datatype Notification = Notification(
    id: string,
    kind: NotificationType,
    title: string,
    description: string,
    date: string,
    isRead: bool)

  // ---------------------------------------------------------------------------
  // Building the list

  /**
   * The query's `gte(today)` and `lte(today + 7 days)` on the `next_date`
   * column: a next date from today to a week ahead, both days included.
   */
  predicate InComingWeek(v: Vaccine, today: Date)
    requires ValidDate(today)
  {
    v.next_date.Some? &&
    match ParseIsoDate(v.next_date.value)
    case None => false
    case Some(d) => DayNumber(today) <= DayNumber(d) <= DayNumber(today) + 7
  }

  /** The rows the query selects: the user's vaccines whose next date is in the coming week. */
  predicate Queried(v: Vaccine, userId: string, today: Date) {
    ValidDate(today) && v.user_id == userId && InComingWeek(v, today)
  }

  /**
   * The query on the `vaccines` table: `eq("user_id")`, `gte` and `lte` on
   * `next_date`, the rows in the order the table holds them.
   */
  function DueThisWeek(vaccines: seq<Vaccine>, userId: string, today: Date): (r: seq<Vaccine>)
    ensures forall v :: v in r <==> v in vaccines && Queried(v, userId, today)
    ensures |r| == Count(vaccines, (v: Vaccine) => Queried(v, userId, today))
  {
    CountIsFilterLength(vaccines, (v: Vaccine) => Queried(v, userId, today));
    Filter(vaccines, (v: Vaccine) => Queried(v, userId, today))
  }

  /** Days from today to a next date in the coming week. */
  function DaysAhead(v: Vaccine, today: Date): int
    requires ValidDate(today) && InComingWeek(v, today)
  {
    DayNumber(ParseIsoDate(v.next_date.value).value) - DayNumber(today)
  }

  /** `Math.ceil(a / b)` for a positive divisor. */
  function CeilDiv(a: int, b: int): (q: int)
    requires b > 0
    ensures (q - 1) * b < a <= q * b
  {
    -((-a) / b)
  }

  /**
   * The next date as an instant: `null` reads as the epoch, text that is
   * not a date as `NaN` (here `None`).
   */
  function NextDateTime(next: Option<string>): Option<int> {
    match next
    case None => Some(0)
    case Some(s) =>
      match ParseIsoDate(s)
      case None => None
      case Some(d) => Some(DayStart(d))
  }

  /** `daysUntil`: whole days to the next date, rounded up; `None` for `NaN`. */
  function DaysUntil(next: Option<string>, c: Clock): Option<int>
    requires ValidClock(c)
  {
    match NextDateTime(next)
    case None => None
    case Some(t) => Some(CeilDiv(t - Now(c), MsPerDay))
  }

  /** Rounding up the time left gives the number of calendar days between today and the next date. */
  lemma DaysUntilByDay(next: Date, c: Clock)
    requires ValidClock(c) && ValidDate(next) && next.year <= 9999
    ensures DaysUntil(Some(FormatIsoDate(next)), c) == Some(DayNumber(next) - DayNumber(c.today))
  {
    ParseFormat(next);
    var k := DayNumber(next) - DayNumber(c.today);
    assert DayStart(next) - Now(c) == k * MsPerDay - c.msOfDay;
    var q := CeilDiv(k * MsPerDay - c.msOfDay, MsPerDay);
    assert (q - 1) * MsPerDay < k * MsPerDay - c.msOfDay <= q * MsPerDay;
    assert (q - 1) * MsPerDay < k * MsPerDay && (k - 1) * MsPerDay < q * MsPerDay;
  }

  /** The `date` text: "Hoy", "Mañana", or "En n días" (`NaN` reads "En NaN días"). */
  function DayLabel(days: Option<int>): string {
    match days
    case None => "En NaN días"
    case Some(n) => if n == 0 then "Hoy" else if n == 1 then "Mañana" else "En " + IntToString(n) + " días"
  }

  /** Different day counts from today on get different labels. */
  lemma DayLabelInjective(n: nat, m: nat)
    requires DayLabel(Some(n)) == DayLabel(Some(m))
    ensures n == m
  {
    if n > 1 && m > 1 {
      var s, t := NatToString(n), NatToString(m);
      var a, b := "En " + s + " días", "En " + t + " días";
      assert |s| == |t|;
      assert s == a[3..3 + |s|] && t == b[3..3 + |t|];
      NatToStringValue(n);
      NatToStringValue(m);
    }
  }

  /** A vaccine's notification: unread, with who needs which vaccine and when. */
  function VaccineNotification(v: Vaccine, c: Clock): Notification
    requires ValidClock(c)
  {
    Notification(v.id, VaccineNote, "Vacunación Pendiente",
      v.animals.name + " (" + v.animals.tag + ") necesita " + v.vaccine_type,
      DayLabel(DaysUntil(v.next_date, c)), false)
  }

  /** The one demo notification, already read. */
  const StaticNotification := Notification("static-1", EventNote, "Revisión Veterinaria",
    "Visita programada del veterinario para chequeo general", "En 3 días", true)

  /** The list: one notification per fetched vaccine, then the static one. */
  function BuildNotifications(fetched: seq<Vaccine>, c: Clock): seq<Notification>
    requires ValidClock(c)
  {
    Map(fetched, v => VaccineNotification(v, c)) + [StaticNotification]
  }

  /**
   * One unread vaccine notification per fetched vaccine, in fetch order, then
   * the demo notification, which is read; so the unread count is the number
   * of vaccines.
   */
  lemma BuildNotificationsShape(fetched: seq<Vaccine>, c: Clock)
    requires ValidClock(c)
    ensures var ns := BuildNotifications(fetched, c);
      && |ns| == |fetched| + 1
      && (forall i :: 0 <= i < |fetched| ==> ns[i].id == fetched[i].id && ns[i].kind == VaccineNote && !ns[i].isRead)
      && ns[|fetched|] == StaticNotification && ns[|fetched|].isRead
      && UnreadCount(ns) == |fetched|
  {
    var ns := BuildNotifications(fetched, c);
    CountAppend(ns[..|fetched|], StaticNotification, (n: Notification) => !n.isRead);
    assert ns == ns[..|fetched|] + [StaticNotification];
    CountAll(ns[..|fetched|], (n: Notification) => !n.isRead);
  }

  /**
   * Every vaccine notification of the week's list is labelled with the days
   * from today to its next date: "Hoy", "Mañana", or "En n días" with n up to 7.
   */
  lemma WeekLabels(v: Vaccine, c: Clock)
    requires ValidClock(c) && InComingWeek(v, c.today)
    ensures 0 <= DaysAhead(v, c.today) <= 7
    ensures VaccineNotification(v, c).date == DayLabel(Some(DaysAhead(v, c.today)))
  {
    var d := ParseIsoDate(v.next_date.value).value;
    FormatParse(v.next_date.value);
    DaysUntilByDay(d, c);
  }

  /** `n` is the notification of `v`, labelled with the days left, from 0 to 7. */
  predicate LabelledNote(n: Notification, v: Vaccine, c: Clock) {
    && ValidClock(c)
    && InComingWeek(v, c.today)
    && n == VaccineNotification(v, c)
    && 0 <= DaysAhead(v, c.today) <= 7
    && n.date == DayLabel(Some(DaysAhead(v, c.today)))
  }

  /** `n` is the labelled notification of one of the user's vaccines due in the coming week. */
  predicate NoteOfWeek(n: Notification, vaccines: seq<Vaccine>, userId: string, c: Clock) {
    exists v :: v in vaccines && Queried(v, userId, c.today) && LabelledNote(n, v, c)
  }

  /**
   * The list built from the query: one unread notification per vaccine of
   * the user due in the coming week, none for any other row, each labelled
   * with the days left, from 0 to 7.
   */
  lemma WeekNotifications(vaccines: seq<Vaccine>, userId: string, c: Clock)
    requires ValidClock(c)
    ensures var ns := BuildNotifications(DueThisWeek(vaccines, userId, c.today), c);
      && UnreadCount(ns) == Count(vaccines, (v: Vaccine) => Queried(v, userId, c.today))
      && (forall i :: 0 <= i < |ns| - 1 ==> NoteOfWeek(ns[i], vaccines, userId, c))
      && (forall v :: v in vaccines && Queried(v, userId, c.today) ==> VaccineNotification(v, c) in ns)
  {
    var due := DueThisWeek(vaccines, userId, c.today);
    BuildNotificationsShape(due, c);
    WeekNotesFrom(vaccines, userId, c);
    WeekNotesCover(vaccines, userId, c);
  }

  lemma WeekNotesFrom(vaccines: seq<Vaccine>, userId: string, c: Clock)
    requires ValidClock(c)
    ensures var ns := BuildNotifications(DueThisWeek(vaccines, userId, c.today), c);
      forall i :: 0 <= i < |ns| - 1 ==> NoteOfWeek(ns[i], vaccines, userId, c)
  {
    var due := DueThisWeek(vaccines, userId, c.today);
    var ns := BuildNotifications(due, c);
    forall i | 0 <= i < |ns| - 1
      ensures NoteOfWeek(ns[i], vaccines, userId, c)
    {
      assert due[i] in due;
      NoteOfDue(due, c, i);
      assert due[i] in vaccines && Queried(due[i], userId, c.today) && LabelledNote(ns[i], due[i], c);
    }
  }

  lemma WeekNotesCover(vaccines: seq<Vaccine>, userId: string, c: Clock)
    requires ValidClock(c)
    ensures var ns := BuildNotifications(DueThisWeek(vaccines, userId, c.today), c);
      forall v :: v in vaccines && Queried(v, userId, c.today) ==> VaccineNotification(v, c) in ns
  {
    var due := DueThisWeek(vaccines, userId, c.today);
    var ns := BuildNotifications(due, c);
    forall v | v in vaccines && Queried(v, userId, c.today) ensures VaccineNotification(v, c) in ns {
      var j :| 0 <= j < |due| && due[j] == v;
      assert ns[j] == VaccineNotification(v, c);
    }
  }

  lemma NoteOfDue(due: seq<Vaccine>, c: Clock, i: nat)
    requires ValidClock(c) && i < |due| && InComingWeek(due[i], c.today)
    ensures LabelledNote(BuildNotifications(due, c)[i], due[i], c)
  {
    WeekLabels(due[i], c);
  }

  // ---------------------------------------------------------------------------
  // Read state

  /** The number of unread notifications. */
  function UnreadCount(ns: seq<Notification>): nat {
    Count(ns, (n: Notification) => !n.isRead)
  }

  /** Every notification, marked read. */
  function MarkAll(ns: seq<Notification>): seq<Notification> {
    seq(|ns|, i requires 0 <= i < |ns| => ns[i].(isRead := true))
  }

  /** The notifications with that id marked read, the others as they were. */
  function MarkOne(ns: seq<Notification>, id: string): seq<Notification> {
    seq(|ns|, i requires 0 <= i < |ns| => if ns[i].id == id then ns[i].(isRead := true) else ns[i])
  }

  /** After "mark all", nothing is unread and every other field is unchanged. */
  lemma MarkAllExact(ns: seq<Notification>)
    ensures |MarkAll(ns)| == |ns|
    ensures UnreadCount(MarkAll(ns)) == 0
    ensures forall i :: 0 <= i < |ns| ==>
      MarkAll(ns)[i].isRead && MarkAll(ns)[i].(isRead := ns[i].isRead) == ns[i]
    ensures MarkAll(MarkAll(ns)) == MarkAll(ns)
  {
    CountAll(MarkAll(ns), (n: Notification) => n.isRead);
    CountComplement(MarkAll(ns), (n: Notification) => n.isRead, (n: Notification) => !n.isRead);
  }

  /**
   * "Mark as read" sets the flag on the notifications with that id only;
   * marking the same id twice is marking it once; marking two ids in either
   * order gives the same list; and a later "mark all" makes it irrelevant.
   */
  lemma MarkOneExact(ns: seq<Notification>, id: string, other: string)
    ensures |MarkOne(ns, id)| == |ns|
    ensures forall i :: 0 <= i < |ns| ==> (MarkOne(ns, id)[i].isRead <==> ns[i].isRead || ns[i].id == id)
    ensures forall i :: 0 <= i < |ns| ==> MarkOne(ns, id)[i].(isRead := ns[i].isRead) == ns[i]
    ensures MarkOne(MarkOne(ns, id), id) == MarkOne(ns, id)
    ensures MarkOne(MarkOne(ns, id), other) == MarkOne(MarkOne(ns, other), id)
    ensures MarkAll(MarkOne(ns, id)) == MarkAll(ns)
  {
  }

  /** "Mark as read" lowers the unread count by the unread notifications with that id, and never raises it. */
  lemma {:induction false} MarkOneUnread(ns: seq<Notification>, id: string)
    ensures UnreadCount(MarkOne(ns, id)) == UnreadCount(ns) - Count(ns, (n: Notification) => n.id == id && !n.isRead)
    ensures UnreadCount(MarkOne(ns, id)) <= UnreadCount(ns)
  {
    if ns != [] {
      MarkOneUnread(ns[1..], id);
      assert MarkOne(ns, id)[1..] == MarkOne(ns[1..], id);
    }
  }

  /** The component state `notifications`. */
  class NotificationCenter {
    var notifications: seq<Notification>

    constructor()
      ensures notifications == []
    {
      notifications := [];
    }

    function Unread(): nat
      reads this
    {
      UnreadCount(notifications)
    }

    /**
     * `fetchNotifications`: with a signed-in user and a successful read of the
     * `vaccines` table, the list becomes the notifications of that user's
     * vaccines due in the coming week, then the demo one; with no user or a
     * failed query it stays as it was.
     */
    method Refresh(user: Option<string>, table: Result<seq<Vaccine>>, c: Clock)
      requires ValidClock(c)
      modifies this
      ensures user.Some? && table.Ok? ==>
        notifications == BuildNotifications(DueThisWeek(table.value, user.value, c.today), c)
      ensures user.None? || table.Err? ==> notifications == old(notifications)
    {
      if user.Some? && table.Ok? {
        notifications := BuildNotifications(DueThisWeek(table.value, user.value, c.today), c);
      }
    }

    method MarkAllAsRead()
      modifies this
      ensures notifications == MarkAll(old(notifications))
      ensures Unread() == 0
    {
      notifications := MarkAll(notifications);
      MarkAllExact(old(notifications));
    }

    method MarkAsRead(id: string)
      modifies this
      ensures notifications == MarkOne(old(notifications), id)
      ensures Unread() <= old(Unread())
    {
      MarkOneUnread(notifications, id);
      notifications := MarkOne(notifications, id);
    }
  }
}
