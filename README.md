# Livestock dashboard — a verified model of its client-side logic

The dashboard is a React single-page application for cattle ranchers. A signed-in
user keeps a herd (`animals`), its vaccinations (`vaccines`) and its reproduction
records (`reproductions`) in a hosted database. The screens modelled here are:

- the general dashboard, with its KPI cards, charts and upcoming events;
- the cattle register, with its search and column filter;
- the notification bell;
- the activity report;
- the metrics cards;
- the sidebar's recent-activity feed;
- the animal card;
- the five data-entry forms (new animal, edit animal, vaccine, health, reproduction);
- the searchable select (combobox) that the forms use to pick animals.

Each screen fetches rows, derives what it shows from them and the current time,
and changes its own state in response to the user. This project keeps all of that
except the network and the rendering:

- fetched rows, database errors, the signed-in user and the clock are parameters;
- every derivation is a Dafny function, proved against what the screen promises;
- state the source changes step by step is a Dafny class whose methods state the
  new state exactly.

Module by module:

- `Records` holds the rows of the three tables and the insert and update payloads.
- `Calendar` holds civil dates, ISO `YYYY-MM-DD` text, day numbers, instants and the clock.
- `Text` and `Seqs` hold the string and sequence operations the screens use:
  - lower-casing, substring search and capitalising;
  - filter, count and the stable JavaScript sort.
- `Optional` holds the `Option` and `Result` types.
- `FormKit` holds what the five forms share:
  - zod's string checks;
  - the toast a submission shows;
  - the outcome of `handleSubmit(onSubmit)`;
  - the `name (tag)` options of the animal pickers.
- Every other module is one source file: `GeneralDashboard`, `CattleTable`,
  `Notifications`, `Reports`, `MetricsGrid`, `Sidebar`, `AnimalCard`, `AnimalForm`,
  `EditAnimalForm`, `VaccineForm`, `HealthForm`, `ReproductionForm` and `Combobox`.

Conventions:

- The browser's time zone is UTC.
- The clock is today's civil date plus the milliseconds elapsed since midnight.
- A date string is a date only when it is well-formed `YYYY-MM-DD` text of a real day.
  Any other text is JavaScript's `Invalid Date`, and arithmetic on it gives `NaN`.
- Percentages are exact rationals (`real`).
- `Math.random()` is replaced by the whole offsets it produces, given as inputs with
  their ranges.

The model follows the code on these points, where its behaviour is not what the
dashboard's labels suggest:

- Vaccination status compares the next date with today's date as strings, not as instants.
- The status chart counts only "healthy", "sick" and "pregnant". Animals with any other
  status are not shown, so the percentages add up to 100 only when every status is
  known (`GeneralDashboard.HealthPercentages`).
- Age buckets use the unrounded age in years.
- The health form does not pre-populate from the animal's record. It fetches only the
  list of animals, and that query is not limited to the signed-in user's animals.
- The edit form does not reset after saving.
- The ownership chart lists owners whose names are array indices ("7", "42") first, in
  numeric order, before the other owners. An owner named `__proto__` is never counted.

## Model

| member | source | states |
|---|---|---|
| GeneralDashboard.ComputeKpi | src/components/dashboard/GeneralDashboard.tsx:122-129 | The total is the herd size; "critical" is always 0; healthy, sick and pregnant together never exceed the total; up-to-date plus pending vaccinations are exactly the vaccines with a next date |
| GeneralDashboard.StatusCountsSum | src/components/dashboard/GeneralDashboard.tsx:123-129 | The three status counts add up to the number of animals whose status is one of the three, never counting an animal twice |
| GeneralDashboard.VaccinationPartition | src/components/dashboard/GeneralDashboard.tsx:266-272 | Every vaccine with a next date is counted either as up to date or as pending, never both |
| GeneralDashboard.VaccinationStatusByDay | src/components/dashboard/GeneralDashboard.tsx:266-272 | For a well-formed next date, "up to date" means its day is after today and "pending" means it is today or earlier, so a vaccine due today is pending |
| GeneralDashboard.HealthStatusData | src/components/dashboard/GeneralDashboard.tsx:132-148 | The status chart always has three slices |
| GeneralDashboard.PercentAdd | src/components/dashboard/GeneralDashboard.tsx:135-145 | Percentages over the same total add like their counts |
| GeneralDashboard.PercentOfTotal | src/components/dashboard/GeneralDashboard.tsx:135-145 | A part of the total is at most 100 percent, and exactly 100 iff it is the whole total |
| GeneralDashboard.HealthPercentages | src/components/dashboard/GeneralDashboard.tsx:132-148 | Each slice is its status count over the herd size; an empty herd gives three zeros instead of a division by zero; the slices add up to at most 100, and to exactly 100 for a non-empty herd iff every status is known |
| GeneralDashboard.PercentTriple | src/components/dashboard/GeneralDashboard.tsx:132-148 | Three percentages of disjoint parts of one total add up to at most 100, exactly 100 iff the parts cover the total, and are all 0 for a zero total |
| GeneralDashboard.Bump | src/components/dashboard/GeneralDashboard.tsx:161-165 | An owner already present keeps the table's length and every entry's owner, with no count lowered; an owner not yet present is appended with count 1, after every existing key |
| GeneralDashboard.BumpMeaning | src/components/dashboard/GeneralDashboard.tsx:161-165 | Counting one more animal for an owner raises that owner's count by one and leaves every other owner's count as it was; every key is that owner or an old key; distinct keys stay distinct, and keys stay non-empty, other than `__proto__`, with positive counts |
| GeneralDashboard.OwnerCounts | src/components/dashboard/GeneralDashboard.tsx:151-165 | The counting loop produces the owner tally of the herd, skipping animals without an owner and the owner `__proto__` |
| GeneralDashboard.TallyMeaning | src/components/dashboard/GeneralDashboard.tsx:151-165 | The tally's count for each owner is the number of animals counted under that owner; owners appear once each, with counts of at least 1, non-empty names and never `__proto__` |
| GeneralDashboard.TallyEmpty | src/components/dashboard/GeneralDashboard.tsx:161-165 | The tally is empty exactly when no animal has an owner that becomes a key |
| GeneralDashboard.TallyOrder | src/components/dashboard/GeneralDashboard.tsx:161-165 | The keys are created in the order of their owners' first animals: for two keys, an animal of the earlier one comes before every animal of the later one |
| GeneralDashboard.EntriesPermutation | src/components/dashboard/GeneralDashboard.tsx:167 | `Object.entries` lists every key exactly once: same length, same entries, no owner twice |
| GeneralDashboard.EntriesIndexFirst | src/components/dashboard/GeneralDashboard.tsx:167 | Keys that are array indices (canonical decimal text below 2^32 - 1) come before all other keys, in strictly ascending numeric order |
| GeneralDashboard.EntriesNamedOrder | src/components/dashboard/GeneralDashboard.tsx:167 | The keys that are not array indices keep their creation order |
| GeneralDashboard.IndexKeyInjective | src/components/dashboard/GeneralDashboard.tsx:167 | Two array-index keys with the same number are the same key, so the numeric order is strict |
| GeneralDashboard.OwnershipData | src/components/dashboard/GeneralDashboard.tsx:167-179 | The ownership chart is never empty |
| GeneralDashboard.OwnershipChart | src/components/dashboard/GeneralDashboard.tsx:151-179 | With no owner that becomes a key the chart is the single grey "Sin datos" slice at 100; otherwise there is one slice per such owner and never one for `__proto__`; each slice holds that owner's share of the herd and the colour at its index modulo 6; array-index owners come first in ascending order and the others follow in the order of their first animals; no owner appears twice |
| GeneralDashboard.CountForDistinct | src/components/dashboard/GeneralDashboard.tsx:167-172 | In a tally with distinct owners, looking up an entry's owner gives that entry's count |
| GeneralDashboard.AgeGroupByYears | src/components/dashboard/GeneralDashboard.tsx:240-251 | An animal falls in "0-1 año", "1-3 años" or "3+ años" exactly when its age in years is under 1, from 1 to under 3, or 3 and over |
| GeneralDashboard.GenderAgeCounts | src/components/dashboard/GeneralDashboard.tsx:235-262 | The loop's male and female rows are the per-bucket counts of the herd's dated males and females |
| GeneralDashboard.RowCountsAppend | src/components/dashboard/GeneralDashboard.tsx:238-257 | Adding one animal raises its age bucket by one in its gender's row when it has a birth date and that gender, and changes nothing otherwise |
| GeneralDashboard.GenderAgeTotal | src/components/dashboard/GeneralDashboard.tsx:235-262 | The two rows together count exactly the animals that have a birth date and are male or female, which is at most the herd |
| GeneralDashboard.RowTotal | src/components/dashboard/GeneralDashboard.tsx:238-257 | A gender's row totals the animals of that gender that have a birth date |
| GeneralDashboard.OneCell | src/components/dashboard/GeneralDashboard.tsx:246-257 | A dated animal of the row's gender lands in exactly one age bucket |
| GeneralDashboard.BuildEvents | src/components/dashboard/GeneralDashboard.tsx:286-349 | The event list is the due-soon vaccinations, then the birth estimates, then the checkups, stably sorted by date |
| GeneralDashboard.PushVaccinationEvents | src/components/dashboard/GeneralDashboard.tsx:290-307 | The loop appends the events of the vaccines due within 30 days, in order |
| GeneralDashboard.PushBirthEvents | src/components/dashboard/GeneralDashboard.tsx:310-327 | The loop appends one birth estimate per pregnant animal, in order |
| GeneralDashboard.PushCheckupEvents | src/components/dashboard/GeneralDashboard.tsx:330-344 | The loop appends a checkup for each of the first five animals |
| GeneralDashboard.VaccineEventsExact | src/components/dashboard/GeneralDashboard.tsx:290-307 | There is one vaccination event per vaccine due soon, each is a due-soon vaccine's event, and every due-soon vaccine has its event |
| GeneralDashboard.DueSoonByDay | src/components/dashboard/GeneralDashboard.tsx:291-296 | A vaccine is due soon exactly when its next day is fewer than 30 days after today, or exactly 30 days after once today's midnight has passed |
| GeneralDashboard.BirthEventsCount | src/components/dashboard/GeneralDashboard.tsx:310-327 | There are exactly as many birth events as pregnant animals |
| GeneralDashboard.BirthEventsDated | src/components/dashboard/GeneralDashboard.tsx:312-323 | Every birth estimate is dated from 30 to 89 days after today |
| GeneralDashboard.BuiltDatesParse | src/components/dashboard/GeneralDashboard.tsx:286-349 | For a clock before year 9999, every event the dashboard builds carries a date that parses, so the sort's comparator never meets `NaN` |
| GeneralDashboard.CheckupEventsExact | src/components/dashboard/GeneralDashboard.tsx:330-344 | There are min(herd size, 5) checkups; the i-th is for the i-th animal and is dated 1 to 20 days after today |
| GeneralDashboard.EventsSorted | src/components/dashboard/GeneralDashboard.tsx:347-349 | The sorted events are in ascending date order, are a permutation of the unsorted ones, and keep the insertion order of events with the same date |
| GeneralDashboard.TabsPartition | src/components/dashboard/GeneralDashboard.tsx:966-1035 | Every dated vaccination event is in exactly one of the "Pendientes" and "Próximas" tabs; other events are in neither; the two tab counts add up to the dated vaccinations |
| GeneralDashboard.PendingTabByDay | src/components/dashboard/GeneralDashboard.tsx:966-1035 | A vaccination event is pending exactly when its day is today or earlier, and upcoming exactly when its day is later |
| CattleTable.ToCattle | src/components/dashboard/CattleTable.tsx:95-107 | A table row keeps the animal's id, tag, name, gender, breed, birth and entry dates and ear tag; its status is the capitalised status, equal ignoring case; its owner is "-" exactly when the owner is missing or empty, otherwise the owner |
| CattleTable.FilteredCattleMeaning | src/components/dashboard/CattleTable.tsx:124-174 | Filtering fails exactly when some row makes the callback throw; otherwise it keeps, in order, exactly the rows the callback accepts |
| CattleTable.AcceptsErr | src/components/dashboard/CattleTable.tsx:146-161 | The callback throws only for a row that passes the search while an active entry-date or ear-tag filter reads that row's null column |
| CattleTable.FilteredIsSubsequence | src/components/dashboard/CattleTable.tsx:124-174 | The filtered rows are a subsequence of the table |
| CattleTable.FilteredIdempotent | src/components/dashboard/CattleTable.tsx:124-174 | Filtering the filtered rows again with the same inputs changes nothing |
| CattleTable.SearchProperties | src/components/dashboard/CattleTable.tsx:126-129 | The empty search matches every row, and the search ignores the case of the term |
| CattleTable.SearchAloneDecides | src/components/dashboard/CattleTable.tsx:132-173 | With no column, an empty value or an unknown column, the search alone decides |
| CattleTable.GenderFilter | src/components/dashboard/CattleTable.tsx:140-145 | The gender filter accepts a male exactly for "male" or "macho" and a female exactly for "female" or "hembra", in any case; any other gender only for itself, ignoring case |
| CattleTable.ColumnCaseInsensitive | src/components/dashboard/CattleTable.tsx:136-170 | Every column except the two dates ignores the case of the value typed |
| CattleTable.EarTagAlias | src/components/dashboard/CattleTable.tsx:152-161 | Typing the Spanish colour name the table shows, in any case, finds the row |
| CattleTable.TableStatusAgreesWithCard | src/components/dashboard/CattleTable.tsx:336-348 | For the three known statuses the table's badge text equals the animal card's; any other status reads "Enfermo" in the table |
| CattleTable.StatusAlias | src/components/dashboard/CattleTable.tsx:162-170 | Typing the Spanish status name the table shows, in any case, finds the row |
| CattleTable.RemoveIdExact | src/components/dashboard/CattleTable.tsx:411-413 | After a delete no row has that id, every other row remains in order, and the table shrinks by the number of rows with that id |
| CattleTable.Register.constructor | src/components/dashboard/CattleTable.tsx:71 | The table starts empty |
| CattleTable.Register.Load | src/components/dashboard/CattleTable.tsx:80-108 | With a user and a successful fetch, the table is the user's rows, mapped; otherwise it is unchanged |
| CattleTable.Register.Delete | src/components/dashboard/CattleTable.tsx:403-418 | A delete without a database error removes the rows with that id; a failed one changes nothing |
| Notifications.CeilDiv | src/components/dashboard/Notifications.tsx:45-48 | The quotient is rounded up: the least q with a <= q * b |
| Notifications.DaysUntilByDay | src/components/dashboard/Notifications.tsx:45-48 | For a well-formed next date, the days until it are its day number minus today's, whatever the time of day |
| Notifications.DayLabelInjective | src/components/dashboard/Notifications.tsx:55-60 | Different day counts get different labels |
| Notifications.BuildNotificationsShape | src/components/dashboard/Notifications.tsx:43-78 | The list has one unread notification per fetched vaccine, with its id, followed by the read demo notification, so the unread count is the number of vaccines |
| Notifications.DueThisWeek | src/components/dashboard/Notifications.tsx:29-39 | The query keeps exactly the user's vaccines whose next date lies from today to seven days ahead, in order, as many as the rows that qualify |
| Notifications.WeekNotifications | src/components/dashboard/Notifications.tsx:24-88 | After a refresh the unread count is the number of the user's vaccines due this week; every unread notification comes from such a vaccine and is labelled with its day count; every such vaccine has its notification |
| Notifications.WeekLabels | src/components/dashboard/Notifications.tsx:29-60 | A vaccine in the queried week is from 0 to 7 days away and is labelled with that count |
| Notifications.MarkAllExact | src/components/dashboard/Notifications.tsx:93-96 | Marking all read keeps the list and its contents, leaves no unread notification, and is idempotent |
| Notifications.MarkOneExact | src/components/dashboard/Notifications.tsx:98-103 | Marking one read sets the read flag of exactly the notifications with that id and changes nothing else; it is idempotent, commutes with itself and is absorbed by marking all |
| Notifications.MarkOneUnread | src/components/dashboard/Notifications.tsx:91-103 | Marking one read lowers the unread count by the number of unread notifications with that id, and never raises it |
| Notifications.NotificationCenter.constructor | src/components/dashboard/Notifications.tsx:19 | The list starts empty |
| Notifications.NotificationCenter.Refresh | src/components/dashboard/Notifications.tsx:24-88 | With a user and a successful query the list is rebuilt from the user's vaccines whose next date lies from today to seven days ahead, in table order; otherwise it is unchanged |
| Notifications.NotificationCenter.MarkAllAsRead | src/components/dashboard/Notifications.tsx:93-96 | Afterwards nothing is unread |
| Notifications.NotificationCenter.MarkAsRead | src/components/dashboard/Notifications.tsx:98-103 | The notifications with that id become read, and the unread count does not grow |
| Reports.RangeStartByDay | src/components/dashboard/Reports.tsx:73-90 | "Hoy" starts at today's midnight; "Última semana" and "Último mes" start at the last millisecond of the day 7 or 30 days ago |
| Reports.RangesNested | src/components/dashboard/Reports.tsx:73-101 | Whatever is in today's range is in the week's, whatever is in the week's is in the month's, and everything is in "all" |
| Reports.FetchActivities | src/components/dashboard/Reports.tsx:66-158 | With nobody signed in or either query failing the list shown stays; otherwise it is the allowed kinds' activities for the user's rows in the period, sorted newest first |
| Reports.StartDate | src/components/dashboard/Reports.tsx:73-90 | The switch sets the start of the chosen period |
| Reports.QueryIsInRange | src/components/dashboard/Reports.tsx:99-119 | The query's created-at bound, applied for every period but "all", keeps exactly the rows in the period |
| Reports.AnimalsSince | src/components/dashboard/Reports.tsx:99-101 | The animals created since the period's start are the animals in the period |
| Reports.VaccinesSince | src/components/dashboard/Reports.tsx:114-119 | The vaccines created since the period's start are the vaccines in the period |
| Reports.ActivitiesNewestFirst | src/components/dashboard/Reports.tsx:153 | The list is in descending date order and is a permutation of the merged activities |
| Reports.ActivitiesOfUser | src/components/dashboard/Reports.tsx:92-150 | Every activity of a signed-in user's report is made from one of that user's animals or vaccines |
| Reports.ActivitiesFromRows | src/components/dashboard/Reports.tsx:128-150 | An animal activity appears only when the type filter allows animals, comes from an animal created in the period and has an "animal-" id; likewise for vaccines with "vaccine-" |
| Reports.AnimalActivitiesFrom | src/components/dashboard/Reports.tsx:128-138 | Every animal activity is made from an animal created in the period |
| Reports.VaccineActivitiesFrom | src/components/dashboard/Reports.tsx:140-150 | Every vaccine activity is made from a vaccine created in the period |
| Reports.SummaryCounts | src/components/dashboard/Reports.tsx:548-567 | The total is the animals plus the vaccines; each kind counts its rows in the period when the type filter allows it, and 0 otherwise |
| Reports.LabelsDistinct | src/components/dashboard/Reports.tsx:210-248 | Different periods, types and kinds get different labels in the PDF |
| Reports.DetailsStatusAgreesWithCard | src/components/dashboard/Reports.tsx:490-494 | For the three known statuses the report's status text equals the animal card's; any other status reads "Preñada" |
| Reports.DrawnRows | src/components/dashboard/Reports.tsx:290-318 | The drawing loop draws the data rows of the table from the second to at most the twentieth |
| Reports.DrawnActivities | src/components/dashboard/Reports.tsx:237-318 | The PDF draws the first 19 activities, or all of them when there are fewer, each as its date, kind label and description |
| MetricsGrid.NotPregnantNegative | src/components/dashboard/MetricsGrid.tsx:37-38 | As written, a herd of one male recorded as pregnant shows -1 "No Preñadas" |
| MetricsGrid.ComputeMetricsBounds | src/components/dashboard/MetricsGrid.tsx:32-38 | The total is the herd size; males and females together and the pregnant animals never exceed it; "No Preñadas" is between 0 and the females, and agrees with the code whenever every pregnant animal is female |
| MetricsGrid.OpenFemales | src/components/dashboard/MetricsGrid.tsx:34-38 | When every pregnant animal is female, the open females are the females less the pregnant ones |
| MetricsGrid.OpenFemalesAtMost | src/components/dashboard/MetricsGrid.tsx:35-38 | The open females are at most the females |
| MetricsGrid.NextMetrics | src/components/dashboard/MetricsGrid.tsx:16-38 | With no user, a failed query or no animal of the user the cards keep what they showed; otherwise they show the herd size, the males, the females, the pregnant animals of any gender and the females less those, as the code computes them; that last card is the number of open females, and never negative, whenever every pregnant animal is female |
| Sidebar.FormatTimeAgoCases | src/components/dashboard/Sidebar.tsx:83-88 | A phrase "hace …" is capitalised once, "hace menos de un minuto" becomes "Hace 1 minuto", and a phrase with neither part is unchanged |
| Sidebar.NextFeed | src/components/dashboard/Sidebar.tsx:23-73 | With nobody signed in or either query failing the feed shown stays; otherwise it becomes the feed of the user's rows |
| Sidebar.NextFeedOfUser | src/components/dashboard/Sidebar.tsx:26-67 | A refreshed feed has at most five entries, each made from one of the signed-in user's animals or vaccines |
| Sidebar.FeedSize | src/components/dashboard/Sidebar.tsx:28-67 | With at most three rows from each query, the feed shows min(merged entries, 5) entries |
| Sidebar.FeedNewest | src/components/dashboard/Sidebar.tsx:65-67 | The feed is newest first, is drawn from the merged entries, and no entry left out is newer than one shown |
| Sidebar.NewestCut | src/components/dashboard/Sidebar.tsx:65-67 | The first n entries after sorting newest first are in order, are a sub-multiset of the input, and none of the rest is newer |
| Sidebar.TopOfSorted | src/components/dashboard/Sidebar.tsx:66-67 | Cutting a newest-first list keeps its order, splits its entries, and puts no later entry before an earlier cut |
| Sidebar.FeedFromInputs | src/components/dashboard/Sidebar.tsx:50-67 | Every feed entry is an "animal-" entry from one of the first three animal rows or a "vaccine-" entry from one of the first three vaccine rows, the `limit(3)` of each query, in the order the rows are given |
| AnimalCard.StatusTable | src/components/dashboard/AnimalCard.tsx:135-159 | The status text is the status itself and the colour grey exactly for an unknown status; the three known statuses have distinct texts |
| AnimalCard.EarTagTable | src/components/dashboard/AnimalCard.tsx:161-189 | The ear-tag name is the code itself and the colour grey exactly for an unknown colour; the four known colours have distinct names |
| AnimalCard.GenderLabelIff | src/components/dashboard/AnimalCard.tsx:233 | "Macho" exactly for "male", "Hembra" for every other value |
| AnimalCard.AgeYearsCompleted | src/components/dashboard/AnimalCard.tsx:123-128 | The years are completed years: today is on or after that anniversary and before the next one |
| AnimalCard.AgeYearsUnique | src/components/dashboard/AnimalCard.tsx:123-128 | Only one number of years satisfies the anniversary bounds |
| AnimalCard.ElapsedMonthsByDays | src/components/dashboard/AnimalCard.tsx:131 | The months are the whole days lived divided by 30, rounded down, whatever the time of day |
| AnimalCard.CalculateAgeEmpty | src/components/dashboard/AnimalCard.tsx:120 | The age text is empty exactly for an empty birth date |
| AnimalCard.CalculateAgeParsed | src/components/dashboard/AnimalCard.tsx:119-133 | For a birth date that parses, the text is "N meses" when no year is complete and "N años" otherwise |
| AnimalCard.CalculateAgeOfDate | src/components/dashboard/AnimalCard.tsx:119-133 | For a birth on or before today, the text is the completed years, or the whole 30-day periods lived when there are none |
| AnimalForm.Issues | src/components/dashboard/forms/AnimalForm.tsx:29-52 | A field is listed exactly when the schema rejects it |
| AnimalForm.IssuesEmptyIff | src/components/dashboard/forms/AnimalForm.tsx:29-52 | The form passes exactly when the tag has 3 characters or more; the name, breed, owner and farm have 2 or more; the weight is non-empty; and the gender, status, ear tag, purpose and category are in their lists |
| AnimalForm.DefaultsIssues | src/components/dashboard/forms/AnimalForm.tsx:63-77 | The untouched form is rejected on exactly the tag, name, breed, weight, owner and farm |
| AnimalForm.Stored | src/components/dashboard/forms/AnimalForm.tsx:94-109 | The stored row gets the database's id and creation time and keeps the payload's user |
| AnimalForm.InsertRoundTrip | src/components/dashboard/forms/AnimalForm.tsx:94-109 | The stored row gives back exactly the submitted values, belongs to the user, has no paddock and fills every column the form has |
| AnimalForm.ValidRowDisplays | src/components/dashboard/forms/AnimalForm.tsx:36-37 | A row from a valid form has a status and an ear tag the animal card knows, so neither shows grey |
| AnimalForm.SubmitFlow | src/components/dashboard/forms/AnimalForm.tsx:80-128 | A rejected form sends nothing and lists its failing fields; with nobody signed in nothing is sent; otherwise the user's row is sent; the form resets and `onSuccess` runs exactly when the insert succeeds; the toast is destructive exactly when the insert fails |
| EditAnimalForm.Issues | src/components/dashboard/forms/EditAnimalForm.tsx:26-34 | A field is listed exactly when the schema rejects it |
| EditAnimalForm.Loaded | src/components/dashboard/forms/EditAnimalForm.tsx:61-97 | With no animal id or a failed fetch the form keeps its values; otherwise it takes the row's seven columns |
| EditAnimalForm.PrefillValidIff | src/components/dashboard/forms/EditAnimalForm.tsx:26-34 | A prefilled row can be saved as is exactly when its name and breed have 2 characters or more, its gender is known, it has an entry date, its ear tag is a known colour and its farm has 2 characters or more |
| EditAnimalForm.UpdateTouchesSevenColumns | src/components/dashboard/forms/EditAnimalForm.tsx:103-114 | Rows with another id are unchanged; the edited row takes the seven form values and keeps every other column |
| EditAnimalForm.SaveUnchanged | src/components/dashboard/forms/EditAnimalForm.tsx:75-114 | Saving a prefilled form without edits leaves the row as it was |
| EditAnimalForm.SubmitFlow | src/components/dashboard/forms/EditAnimalForm.tsx:99-134 | There is no sign-in check: a valid form is always sent as the update, and `onSuccess` runs exactly when the update has no error |
| VaccineForm.Issues | src/components/dashboard/forms/VaccineForm.tsx:27-33 | A field is listed exactly when the schema rejects it |
| VaccineForm.IssuesEmptyIff | src/components/dashboard/forms/VaccineForm.tsx:27-33 | The form passes exactly when an animal is chosen and the vaccine type has 2 characters or more; the untouched form fails on both |
| VaccineForm.NullIfEmpty | src/components/dashboard/forms/VaccineForm.tsx:105-106 | A missing or empty optional value is stored as null, any other value as typed |
| VaccineForm.NullIfEmptyNormal | src/components/dashboard/forms/VaccineForm.tsx:105-106 | The empty string is never stored, and normalising twice is normalising once |
| VaccineForm.InsertRowColumns | src/components/dashboard/forms/VaccineForm.tsx:101-108 | The row keeps the user, animal, type and date; it keeps a non-empty next date or note as typed and stores a missing or empty one as null |
| VaccineForm.LoadedOptions | src/components/dashboard/forms/VaccineForm.tsx:44-75 | With nobody signed in or a failed query the options stay; otherwise there is one option per animal of the user, in order, with its id and its "name (tag)" label |
| VaccineForm.SubmitFlow | src/components/dashboard/forms/VaccineForm.tsx:88-128 | Nothing is sent for a rejected form or with nobody signed in; otherwise the user's row is sent, and the form resets exactly when the insert succeeds |
| HealthForm.Issues | src/components/dashboard/forms/HealthForm.tsx:26-35 | A field is listed exactly when the schema rejects it |
| HealthForm.IssuesEmptyIff | src/components/dashboard/forms/HealthForm.tsx:26-57 | The form passes exactly when an animal is chosen and the status is one of the three codes, whatever the notes say; the untouched form lacks only the animal |
| HealthForm.UpdateOnlyStatus | src/components/dashboard/forms/HealthForm.tsx:94-99 | The update depends on the status alone, so the six notes are never saved; only the chosen animal's status changes |
| HealthForm.LoadedOptions | src/components/dashboard/forms/HealthForm.tsx:59-88 | A failed query keeps the options; otherwise there is one option per fetched animal, in order, with its id and its "name (tag)" label, and no filter on the user |
| HealthForm.SubmitFlow | src/components/dashboard/forms/HealthForm.tsx:90-120 | There is no sign-in check; a valid form is always sent, and it resets exactly when the update succeeds |
| ReproductionForm.Issues | src/components/dashboard/forms/ReproductionForm.tsx:30-36 | A field is listed exactly when the schema rejects it |
| ReproductionForm.IssuesEmptyIff | src/components/dashboard/forms/ReproductionForm.tsx:30-36 | The form passes exactly when both parents are chosen and the method is "natural" or "artificial" |
| ReproductionForm.ExpectedBirthDays | src/components/dashboard/forms/ReproductionForm.tsx:62-71 | The effect fires exactly for a service date that parses; up to year 9999, the date it writes reads back as 278 days after the service and sorts after it as text |
| ReproductionForm.Defaults | src/components/dashboard/forms/ReproductionForm.tsx:50-56 | The defaults already have the expected birth date 278 days after the service date |
| ReproductionForm.Edited | src/components/dashboard/forms/ReproductionForm.tsx:59-71 | Editing any field but the disabled expected birth date keeps the expected birth date in step with the service date |
| ReproductionForm.OfGender | src/components/dashboard/forms/ReproductionForm.tsx:80-93 | A parent query returns exactly the user's animals of that gender |
| ReproductionForm.ParentOptions | src/components/dashboard/forms/ReproductionForm.tsx:80-109 | Each listed parent is one of the user's animals of that gender, labelled "name (tag)", and every such animal is listed |
| ReproductionForm.SubmitFlow | src/components/dashboard/forms/ReproductionForm.tsx:125-166 | Nothing is sent for a rejected form or with nobody signed in; otherwise all five fields and the user are sent, so a consistent form sends the birth 278 days after the service; `onSuccess` runs exactly when the insert succeeds |
| ReproductionForm.Form.constructor | src/components/dashboard/forms/ReproductionForm.tsx:44-56 | The form starts at its defaults, with no parents, loading |
| ReproductionForm.Form.Edit | src/components/dashboard/forms/ReproductionForm.tsx:59-71 | An edit followed by the effect keeps the expected birth date in step with the service date and leaves the lists alone |
| ReproductionForm.Form.Load | src/components/dashboard/forms/ReproductionForm.tsx:73-123 | With nobody signed in nothing changes and the form stays loading; a failed query for either gender keeps both lists; otherwise the lists are the user's females and males; loading ends in both of those cases |
| ReproductionForm.Form.SubmitForm | src/components/dashboard/forms/ReproductionForm.tsx:125-166 | The form returns to its defaults exactly when the insert succeeds, and stays consistent |
| FormKit.ErrorDescription | src/components/dashboard/forms/AnimalForm.tsx:125 | The toast shows the database's message, or the fallback when the message is empty |
| FormKit.WriteToast | src/components/dashboard/forms/AnimalForm.tsx:111-127 | The toast is destructive exactly when the database reports an error; without one it is the success toast; with one it has the failure title and the error description |
| FormKit.OptionLabelParts | src/components/dashboard/forms/VaccineForm.tsx:56-61 | A picker label is the animal's name, then its tag in parentheses |
| FormKit.AnimalOptions | src/components/dashboard/forms/VaccineForm.tsx:56-61 | There is one option per fetched animal, in order, with its id and its label |
| FormKit.AnimalOptionsCover | src/components/dashboard/forms/VaccineForm.tsx:56-61 | An option is listed exactly when some fetched animal has its id and label |
| Records.AnimalsOf | src/components/dashboard/CattleTable.tsx:87-90 | The query's user filter keeps exactly the animals of that user |
| Records.VaccinesOf | src/components/dashboard/Sidebar.tsx:40-43 | The query's user filter keeps exactly the vaccines of that user |
| Records.ApplyUpdate | src/components/dashboard/forms/EditAnimalForm.tsx:103-114 | An update never changes a row's id, owner user or creation time |
| Records.UpdateWhereId | src/components/dashboard/forms/HealthForm.tsx:94-99 | An update filtered by id changes exactly the rows with that id and no other |
| Combobox.FilteredOptionsMeaning | src/components/ui/combobox.tsx:37-39 | The list shows, in order, exactly the options whose label contains the query, ignoring case; the empty query shows all; filtering again changes nothing |
| Combobox.TypingNarrows | src/components/ui/combobox.tsx:37-39 | Typing more only narrows the list |
| Combobox.FirstWithValue | src/components/ui/combobox.tsx:34 | The position found holds the value, and no earlier option does |
| Combobox.SelectedOption | src/components/ui/combobox.tsx:34 | There is no selection exactly when no option has the value; otherwise the selection is the first option with that value |
| Combobox.ButtonLabel | src/components/ui/combobox.tsx:69 | The button shows the placeholder when no option has the value, and otherwise the label of an option with that value |
| Combobox.CurrentIsSelected | src/components/ui/combobox.tsx:96-111 | The check mark shows exactly on highlighted rows; with distinct values, the highlighted row is the selected option and no other |
| Combobox.Combo.constructor | src/components/ui/combobox.tsx:30-31 | The list starts closed with an empty search |
| Combobox.Combo.ClickButton | src/components/ui/combobox.tsx:66-67 | A click flips the list open or closed unless the button is disabled; the search is kept |
| Combobox.Combo.ClickOutside | src/components/ui/combobox.tsx:42-56 | A click outside closes the list and shows no rows |
| Combobox.Combo.Search | src/components/ui/combobox.tsx:77-80 | Typing sets the query and the list shows the options it matches |
| Combobox.Combo.Receive | src/components/ui/combobox.tsx:34-39 | New options from the parent replace the old ones and keep the list's state |
| Combobox.Combo.Choose | src/components/ui/combobox.tsx:101-105 | Choosing a listed row reports its value, clears the search and closes the list; reopened, it lists every option |
| Calendar.ParseFormat | src/components/dashboard/GeneralDashboard.tsx:266 | The ISO text of a date up to year 9999 reads back as that date |
| Calendar.FormatParse | src/components/dashboard/GeneralDashboard.tsx:266 | Text that parses is the ISO text of its date |
| Calendar.IsoStringOrder | src/components/dashboard/GeneralDashboard.tsx:268-271 | For two well-formed date strings, comparing the text agrees with comparing the days |
| Calendar.AddDays | src/components/dashboard/forms/ReproductionForm.tsx:65 | Adding k days gives a real date whose day number is k more |

## Left out

- Database access, authentication and toasts are not modelled as services. A query's outcome is a `Result` of rows, the signed-in user an `Option` and the toast contents values. The query filters are functions on the rows passed in:
  - the user filter, `Records.AnimalsOf` and `Records.VaccinesOf`, in the table, the report, the sidebar, the metrics and the vaccine picker; `Notifications.DueThisWeek` and `ReproductionForm.OfGender` apply it with their own filters;
  - the report's creation-time bound (`Reports.CreatedSince`), the gender filter of the reproduction pickers, the notifications' seven-day window on the next date, and the sidebar's `limit(3)` (`Seqs.Take`).
- `GeneralDashboard`: its derivations take the rows its two queries return, that is the user's animals (of the chosen owner, when one is picked) and the user's vaccines. The user and owner filters, and the no-user and failed-query paths that keep the screen as it was, are not restated there.
- The row order the database returns (`order("created_at")`) is not modelled. The sidebar and the report take the rows in whatever order they are given, so `Sidebar.NextFeed` and `Sidebar.FeedFromInputs` state that the feed draws on the first three rows of each query, not that these are the three newest.
- The five-minute polling of the notifications and the sidebar, effect re-runs, and races between overlapping fetches are left out. Concurrency and timers are out of scope.
- The loading flags are left out (`isLoading` in the table, the vaccine and health forms, and the edit form; `isSubmitting` everywhere). `ReproductionForm.Form` is the exception, because its loading flag gates the pickers and the submit button. This leaves out two details:
  - the edit form with an empty animal id stays loading for ever;
  - the vaccine form with nobody signed in stays loading for ever.
- Floating-point arithmetic is left out. Percentages and ages are exact rationals, and `Math.round` on the KPI cards is not modelled. The dashboard's averages, weight chart, SVG geometry and chart layout are not modelled either.
- `Sidebar.FormatTimeAgoCases`: date-fns' relative-time phrase is an input (`ago`). Only the two replacements applied to it are modelled.
- Locale formatting is left out. This covers `toLocaleDateString` in the table and the report, date-fns `format` in the PDF (a parameter `dateText`), and the jsPDF page coordinates and fonts.
- Only strict `YYYY-MM-DD` text is parsed as a date. JavaScript's lenient parsing of other date formats is left out, and such text is treated as `Invalid Date`. Full ISO timestamps in `created_at` are instants (`Option<int>`, where `null` is the epoch), not parsed text.
- `ReproductionForm.Edited`: a service date that is not a date leaves the expected birth date as it was. In the source, `toISOString` throws inside the effect.
- `ReproductionForm.ExpectedBirthDays`: states the read-back only for results up to year 9999. Later years are written with a "+" and six digits, as `toISOString` does, and the strict parser does not read those back.
- `FormKit.MinLength`: zod counts UTF-16 code units. The model counts characters, which differs only outside the Basic Multilingual Plane.
- `Text.ToLower`: covers ASCII and Latin-1 letters only, not full Unicode case mapping.
- `Text.UpperChar`: covers ASCII and Latin-1 letters only. JavaScript's `toUpperCase` maps 'ß' to "SS", 'ÿ' to "Ÿ" and 'µ' to "Μ"; the model leaves these three unchanged.
- `Text.Capitalize`: inherits `Text.UpperChar`'s range, so a status starting with 'ß' keeps its length in the model (`CattleTable.ToCattle`'s length clause) but grows by one in JavaScript.
- The random offsets of the dashboard's birth and checkup estimates are inputs within the ranges `Math.random()` gives.
- The user menu, header, layout and routing files are not part of this model.
- `GeneralDashboard.OwnershipChart`: an owner named after a member every object inherits (`toString`, `constructor`, `valueOf`, `hasOwnProperty` and the like) starts from that inherited function instead of 0. Its count becomes a string and its slice's value `NaN`. The model counts such an owner like any other, because it has no prototype chain.

## Findings

| source | as written | input that shows it | evidently intended | confidence | as-written member | corrected member |
|---|---|---|---|---|---|---|
| src/components/dashboard/MetricsGrid.tsx:37-38 | "No Preñadas" is the number of females minus the number of animals of any gender whose status is "pregnant" | a herd of one male whose status is "pregnant" (the animal form accepts it) gives -1 | the number of females that are not pregnant, never negative and at most the females | not executed | MetricsGrid.NotPregnantNegative | MetricsGrid.ComputeMetricsBounds |
