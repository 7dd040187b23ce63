# skyExperience booking server: a Dafny model of its core

This project models the server side of the skyExperience flight-booking
application, which is an Express application backed by MongoDB. It covers
five parts:

- **The reservation controller.** The nine-rule validator of public
  booking submissions. Record construction on `createReservation`. The
  administrative operations `getAllReservations`, `getReservationById`,
  `deleteReservation` and `updateReservationStatus`.
  - Modules `ReservationValidation` and `ReservationStore`.
  - The collection is a class holding a `map` from reservation id to
    record, beside the set of existing flight ids.
- **The dashboard overview.**
  - Headline totals and 30-day growth figures (`Metrics`,
    `DashboardRecords`).
  - The five most recent reservations (`NewestFirst`).
  - The top-five flights with their catalogue join (`TopFlights`).
  - The per-category table merged from two grouping stages
    (`CategoryStats`).
  - All of it assembled in `DashboardOverview`.
- **The server's CORS policy and error handler** (`Cors`):
  - the allowed-origin list read from a comma-separated setting;
  - the origin callback, with its production widening for hosted domains;
  - the error handler that turns a refused origin into a 403.
- **The authentication middleware** (`Auth`). It picks a token from the
  cookie or the `Bearer` header and answers 401, answers 403, or records the
  verified payload on the request.
- **JavaScript semantics the code relies on** (`Js`): dynamic values and
  truthiness, `Number(...)`, and the string built-ins `trim`,
  `toLowerCase`, `includes`, `startsWith` and `split`.

MongoDB queries are modelled on sequences of documents:

- `$group` becomes `GroupBy`, which lists groups in order of first
  appearance and gives each its count and sum.
- `$sort`/`$limit` become a newest-first or rank sort followed by `Take`.
- `$lookup` + `$unwind` become `Lookup`/`Unwound`.
- `distinct` becomes a set.

What the code cannot compute itself is passed in as a parameter:

- the clock;
- `new Date(...)`, `Number(string)` and `ObjectId.isValid`, bundled in `Env`;
- the JWT signature check, as a `verify` function;
- `process.env.ORIGIN` and `NODE_ENV`, as plain values.

The validator reports `Message` values. The response carries each one's
`Text`, which holds the exact message strings of the source.

Two behaviours of the code are easy to misread, and the model keeps them
as written:

- An email with surrounding whitespace fails the email rule (lemma
  `PaddedEmailRejected`). It is therefore never trimmed and stored, even
  though the record-building code trims it.
- In the per-category table, a flight-count group or revenue group whose
  name collides with an earlier one **overwrites** that entry. This happens
  for a missing category, an empty one and one literally named
  `"uncategorized"`. The entries are not added up, so the table depends on
  the order of the grouping output (lemma `UncategorizedCollide`).

## Model

| member | source | states |
|---|---|---|
| Js.ToNumber | server/controllers/ReservationController.js:76-77 | `Number(v)` leaves numbers unchanged, maps undefined to NaN and null to 0 |
| Js.Truthy | server/controllers/ReservationController.js:12 | a value is falsy exactly when it is undefined, null, false, NaN, 0 or the empty string |
| Js.TrimStart | server/index.js:30 | the result is a suffix of the input, everything dropped is whitespace, and the result does not start with whitespace |
| Js.TrimEnd | server/index.js:30 | the result is a prefix of the input, everything dropped is whitespace, and the result does not end with whitespace |
| Js.Trim | server/index.js:30 | `trim()` returns a string with no whitespace at either end and no longer than the input |
| Js.TrimIsCut | server/controllers/ReservationController.js:97-100 | the trimmed string is a contiguous piece of the input with only whitespace cut off on either side |
| Js.TrimOfTrimmed | server/index.js:30 | trimming an already trimmed string changes nothing |
| Js.TrimIdempotent | server/index.js:30 | `trim()` is idempotent |
| Js.TrimKeeps | server/controllers/ReservationController.js:97-100 | every character of the trimmed string occurs in the input |
| Js.Utf16Length | server/controllers/ReservationController.js:38-40 | `.length` counts UTF-16 code units: between one and two per character, and exactly one per character inside the Basic Multilingual Plane |
| Js.Utf16LengthAppend | server/controllers/ReservationController.js:54-56 | the code-unit length of a concatenation is the sum of the lengths |
| Js.ToLower | server/controllers/ReservationController.js:98 | `toLowerCase()` keeps the length, maps each character on its own, and leaves no upper-case ASCII letter |
| Js.ContainsAt | server/index.js:50-51 | `includes(sub)` holds exactly when `sub` occurs at some index |
| Js.Split | server/index.js:29 | `split(',')` yields at least one part, no part holds the separator, and joining the parts gives the input back |
| Js.SplitJoin | server/index.js:29 | splitting joined separator-free parts gives the parts back (the other half of the round trip) |
| ReservationValidation.ParseStatus | server/controllers/ReservationController.js:5 | `RESERVATION_STATUSES.includes(v)` recognises exactly the three status strings, compared without coercion |
| ReservationValidation.MatchesEmail | server/controllers/ReservationController.js:43 | a match has a non-empty local part, one '@', a dot inside the domain, no whitespace and no second '@'; hence at least five characters containing '@' and '.' |
| ReservationValidation.EmailTest | server/controllers/ReservationController.js:44 | `test` matches the string form of the value; only a truthy string or object can match |
| ReservationValidation.DateError | server/controllers/ReservationController.js:12-25 | the date passes exactly when it is truthy, parses, and its day is not before today's; otherwise the message is 'date is required' or 'date cannot be in the past' |
| ReservationValidation.TravelersError | server/controllers/ReservationController.js:28-30 | travelers passes exactly when it is a finite number from 1 to 20; otherwise the range message |
| ReservationValidation.TotalError | server/controllers/ReservationController.js:33-35 | total passes exactly when it is a number above zero (positive infinity included); otherwise the total message |
| ReservationValidation.FullNameError | server/controllers/ReservationController.js:38-40 | the name passes exactly when it is a string whose trimmed UTF-16 length is at least 2 |
| ReservationValidation.EmailError | server/controllers/ReservationController.js:43-46 | the email passes exactly when the pattern test succeeds |
| ReservationValidation.PhoneError | server/controllers/ReservationController.js:49-51 | the phone passes exactly when it is falsy or a string |
| ReservationValidation.PickupError | server/controllers/ReservationController.js:54-56 | the pick-up location passes exactly when it is a string whose trimmed UTF-16 length is at least 3 |
| ReservationValidation.FlightError | server/controllers/ReservationController.js:59-61 | the flight passes exactly when it is truthy and a valid ObjectId |
| ReservationValidation.StatusError | server/controllers/ReservationController.js:64-66 | the status passes exactly when it is falsy or one of pending, confirmed and cancelled |
| ReservationValidation.ValidateReservationData | server/controllers/ReservationController.js:8-69 | the validator runs every rule, pushes each failing rule's message, and returns null exactly when the error list is empty |
| ReservationValidation.PushStep | server/controllers/ReservationController.js:8-69 | each push leaves the messages of the rules checked so far, in rule order |
| ReservationValidation.ErrorsInRuleOrder | server/controllers/ReservationController.js:11-66 | at most one message per rule, in the order date, travelers, total, full name, email, phone, pickup, flight, status |
| ReservationValidation.CollectOrdered | server/controllers/ReservationController.js:11-66 | rules checked in increasing order yield messages in increasing order |
| ReservationValidation.CollectRanks | server/controllers/ReservationController.js:11-66 | every reported message comes from a rule that failed |
| ReservationValidation.ErrorsAreFailingRules | server/controllers/ReservationController.js:11-66 | no short-circuit: a message is reported if and only if some rule produces it |
| ReservationValidation.FailingRuleReported | server/controllers/ReservationController.js:11-66 | a failing rule's message is always in the list, whatever the other rules say |
| ReservationValidation.NoErrorsIffAccepted | server/controllers/ReservationController.js:68 | the error list is empty if and only if every rule passes |
| ReservationValidation.TravelersRange | server/controllers/ReservationController.js:28-30 | `travelers` passes exactly when it is a finite number in [1, 20] |
| ReservationValidation.TotalPositive | server/controllers/ReservationController.js:33-35 | `total` passes exactly when it is a number above 0, positive infinity included |
| ReservationValidation.DateMissingOrInvalid | server/controllers/ReservationController.js:12-14 | a missing or unparseable date yields the "required" message and never the "past" one |
| ReservationValidation.DateDayGranularity | server/controllers/ReservationController.js:15-25 | a parseable date is refused exactly when its day is before today's, whatever the time of day |
| ReservationValidation.EmailRejectsWhitespace | server/controllers/ReservationController.js:43-46 | any whitespace anywhere in the email makes the pattern fail |
| ReservationValidation.EmailHasNoWhitespace | server/controllers/ReservationController.js:43-46 | a matching email has no whitespace, so `trim()` leaves it unchanged |
| ReservationValidation.EmailLowerCase | server/controllers/ReservationController.js:98 | lower-casing keeps a matching email matching |
| ReservationValidation.RuleReadsOnlyItsField | server/controllers/ReservationController.js:11-66 | each rule's outcome depends on its own field only |
| ReservationValidation.MissingFieldReported | server/controllers/ReservationController.js:13-61 | an undefined required field is reported with its rule's message |
| ReservationValidation.AcceptedDate | server/controllers/ReservationController.js:12-25 | an accepted submission has a parseable date not before today |
| ReservationValidation.AcceptedNumbers | server/controllers/ReservationController.js:28-35 | an accepted submission has travelers in [1, 20] and a positive total |
| ReservationValidation.AcceptedName | server/controllers/ReservationController.js:38-40 | an accepted full name is a string whose trimmed form is at least 2 UTF-16 code units long (`.length`) |
| ReservationValidation.AstralNameAccepted | server/controllers/ReservationController.js:38-40 | a full name of one character outside the Basic Multilingual Plane passes, since `.length` counts it as 2 |
| ReservationValidation.AcceptedPickup | server/controllers/ReservationController.js:54-56 | an accepted pickup location is a string whose trimmed form is at least 3 UTF-16 code units long |
| ReservationValidation.AcceptedContact | server/controllers/ReservationController.js:43-51 | an accepted email matches the pattern, and an accepted truthy phone number is a string |
| ReservationStore.Normalize | server/controllers/ReservationController.js:74-78 | the normalised payload has numeric `travelers` and `total` and is otherwise the body |
| ReservationStore.NoErrorsAdmissible | server/controllers/ReservationController.js:81-84 | a submission with no errors has every field the record is built from |
| ReservationStore.FlightExists | server/controllers/ReservationController.js:87-89 | a flight reference exists exactly when it is a string naming a stored flight |
| ReservationStore.DateOf | server/controllers/ReservationController.js:94 | the stored date is the parsed date, and its day is not before today |
| ReservationStore.TravelersOf | server/controllers/ReservationController.js:95 | the stored traveler count is the submitted number, in [1, 20] |
| ReservationStore.TotalOf | server/controllers/ReservationController.js:96 | the stored total is the submitted number, above 0 |
| ReservationStore.FullNameOf | server/controllers/ReservationController.js:97 | the stored name is the trimmed submission, at least 2 UTF-16 code units long |
| ReservationStore.PickupOf | server/controllers/ReservationController.js:100 | the stored pickup location is the trimmed submission, at least 3 UTF-16 code units long |
| ReservationStore.PhoneOf | server/controllers/ReservationController.js:99 | a phone number is stored, trimmed, exactly when one was submitted (truthy) |
| ReservationStore.StatusOf | server/controllers/ReservationController.js:102-104 | the stored status is the submitted one when it is one of the three, otherwise `pending` |
| ReservationStore.NormalizedEmail | server/controllers/ReservationController.js:98 | the stored email is the lower-cased input; it still matches the pattern and is lower case |
| ReservationStore.BuildRecord | server/controllers/ReservationController.js:93-105 | a record is built exactly when the email is a string (`trim()` throws otherwise), and every built record satisfies the stored-record invariant |
| ReservationStore.ReservationCollection.CreateReservation | server/controllers/ReservationController.js:72-119 | in order: 400 with the errors, 400 for a missing flight, 400 on failure, else 201; only 201 changes the collection, by the new record alone; the invariant is kept |
| ReservationStore.ReservationCollection.Insert | server/controllers/ReservationController.js:108 | storing a well-formed record of an existing flight under a fresh id adds exactly that entry and keeps the invariant (every stored record is well formed and refers to a known flight) |
| ReservationStore.ReservationCollection.ListNewestFirst | server/controllers/ReservationController.js:122-136 | every stored reservation appears exactly once, newest first |
| ReservationStore.ReservationCollection.GetReservationById | server/controllers/ReservationController.js:139-161 | 400 for a malformed id, 404 for an unknown one, otherwise the stored record, which is well formed and refers to a known flight |
| ReservationStore.ReservationCollection.DeleteReservation | server/controllers/ReservationController.js:164-186 | 400 and 404 change nothing; otherwise exactly the named reservation is removed and its id returned |
| ReservationStore.ReservationCollection.UpdateReservationStatus | server/controllers/ReservationController.js:189-225 | 400 for a bad id or status, 404 for an unknown id, otherwise only that record's status changes |
| ReservationStore.ListedEntries | server/controllers/ReservationController.js:122-136 | listing all entries of a valid collection yields only well-formed records of known flights |
| ReservationStore.PaddedEmailRejected | server/controllers/ReservationController.js:43-46 | an email with surrounding spaces fails validation, so it is never trimmed and stored |
| ReservationStore.UnknownStatusRefused | server/controllers/ReservationController.js:196-202 | ParseStatus refuses "shipped" and accepts "confirmed", and the invalid-status reply carries code 400 |
| DashboardRecords.CurrentWindow | server/controllers/DashboardController.js:15-17 | the current period holds exactly the instants at most 30 days old |
| DashboardRecords.PreviousWindow | server/controllers/DashboardController.js:19-20 | the previous period holds exactly the instants 30 to 60 days old, the 30-day boundary excluded |
| DashboardRecords.WindowsDisjoint | server/controllers/DashboardController.js:44-51 | no record falls into both periods |
| DashboardRecords.WindowsCoverSixtyDays | server/controllers/DashboardController.js:44-51 | the two periods together cover exactly the last 60 days |
| DashboardRecords.SumAppend | server/controllers/DashboardController.js:42 | a `$sum` over a concatenation is the sum of the parts |
| DashboardRecords.In | server/controllers/DashboardController.js:45 | the `$match` on `createdAt` keeps exactly the documents created in the window, each as many times as it occurs in the input |
| DashboardRecords.InAppend | server/controllers/DashboardController.js:88-89 | matching distributes over concatenation, so the kept documents stay in input order |
| DashboardRecords.DistinctEmails | server/controllers/DashboardController.js:43 | `distinct('email')` holds exactly the emails that occur |
| DashboardRecords.DistinctEmailsBound | server/controllers/DashboardController.js:43 | there are no more distinct customers than reservations |
| DashboardRecords.Find | server/controllers/DashboardController.js:58-64 | finding a key gives a group with that key exactly when one exists |
| DashboardRecords.AddItemSpec | server/controllers/DashboardController.js:58-64 | adding an item changes only its key's group (count + 1, sum + amount) and keeps keys distinct |
| DashboardRecords.GroupBy | server/controllers/DashboardController.js:58-64 | `$group` yields one group per distinct key, each with the count and sum of exactly its items |
| DashboardRecords.GroupByGroups | server/controllers/DashboardController.js:58-64 | each output group carries its key's count and sum |
| DashboardRecords.CountOfPositive | server/controllers/DashboardController.js:61 | a key that occurs is counted at least once |
| Metrics.SumAll | server/controllers/DashboardController.js:42 | the null-key group yields one row, or no row when there are no documents |
| Metrics.GetAggregateTotal | server/controllers/DashboardController.js:4 | no row reads as 0 |
| Metrics.AggregateTotalIsSum | server/controllers/DashboardController.js:4 | reading back the null-key group gives the sum of all totals, 0 for none |
| Metrics.WindowRevenueBounded | server/controllers/DashboardController.js:44-47 | with non-negative totals, a period's revenue lies between 0 and the total revenue |
| Metrics.PeriodRevenuesBounded | server/controllers/DashboardController.js:44-51 | the two periods' revenues add up to at most the total revenue |
| Metrics.PeriodCountsBounded | server/controllers/DashboardController.js:90-91 | the two periods' reservation counts add up to at most the total count |
| Metrics.CalculateGrowth | server/controllers/DashboardController.js:6-11 | with previous 0, the growth is 100 for a positive current value and 0 otherwise; else it is the percentage change rounded half up |
| Metrics.GrowthExamples | server/controllers/DashboardController.js:6-11 | worked values, including -2.5 rounding up to -2 |
| Metrics.GrowthAtLeastMinusHundred | server/controllers/DashboardController.js:10 | for non-negative values the growth is at least -100 |
| Metrics.GrowthNonNegative | server/controllers/DashboardController.js:6-11 | no decrease gives no negative growth |
| Metrics.GrowthMonotone | server/controllers/DashboardController.js:10 | for a fixed positive previous value, growth never falls as the current value rises |
| Metrics.GrowthOfEqual | server/controllers/DashboardController.js:6-11 | equal values give zero growth |
| NewestFirst.Insert | server/controllers/ReservationController.js:127 | inserting keeps the sequence newest first and adds exactly one element |
| NewestFirst.Sort | server/controllers/DashboardController.js:54 | `sort({ createdAt: -1 })` yields a newest-first permutation of its input |
| NewestFirst.Take | server/controllers/DashboardController.js:55 | `limit(n)` is a prefix of length min(n, size) |
| NewestFirst.NewestTaken | server/controllers/DashboardController.js:52-56 | the limited list is newest first, drawn from the input, and nothing left out is newer than anything kept |
| NewestFirst.TakeNewest | server/controllers/DashboardController.js:54-55 | cutting a newest-first list keeps it newest first and leaves out nothing newer |
| TopFlights.FlightItems | server/controllers/DashboardController.js:60-62 | one (flight, total) item per reservation, in order |
| TopFlights.RankInsert | server/controllers/DashboardController.js:65 | inserting keeps groups in rank order and adds exactly one group |
| TopFlights.RankSort | server/controllers/DashboardController.js:65 | `$sort` by count then revenue, both descending, yields a rank-ordered permutation |
| TopFlights.TopFlightsAgg | server/controllers/DashboardController.js:57-67 | at most five groups, rank-ordered, each one drawn from the grouping |
| TopFlights.TopFlightsRanked | server/controllers/DashboardController.js:57-67 | at most five groups, rank-ordered, drawn from the grouping, and no group left out ranks above one kept |
| TopFlights.TopFlightsCounted | server/controllers/DashboardController.js:57-67 | every top group carries the reservation count and summed revenue of its flight, and the count is positive |
| TopFlights.TieBrokenByRevenue | server/controllers/DashboardController.js:65 | equal counts are ordered by revenue |
| TopFlights.FlightIds | server/controllers/DashboardController.js:96-98 | the ids are exactly the non-null keys of the top groups |
| TopFlights.Fetched | server/controllers/DashboardController.js:102-104 | `Flight.find({ _id: { $in } })` returns exactly the catalogue flights with those ids |
| TopFlights.FlightIndex | server/controllers/DashboardController.js:106 | the `Map` is keyed by exactly the fetched ids, each mapped to a flight with that id |
| TopFlights.RowFor | server/controllers/DashboardController.js:109-123 | a group yields a row exactly when its key is in the index; the row carries the flight's id, title and category and the group's count and revenue |
| TopFlights.JoinRows | server/controllers/DashboardController.js:108-124 | the join yields at most one row per top group |
| TopFlights.JoinRowsAppend | server/controllers/DashboardController.js:108-124 | the join maps group by group, so it keeps the ranking order |
| TopFlights.JoinTopFlights | server/controllers/DashboardController.js:96-125 | no more rows than groups, and no rows when no group has a flight id |
| TopFlights.JoinRowsMembers | server/controllers/DashboardController.js:108-124 | a row exists for a group exactly when its flight was found |
| TopFlights.JoinIsLookup | server/controllers/DashboardController.js:100-125 | the guarded fetch and join equals a lookup of each group in the catalogue |
| TopFlights.NoIdsNoRows | server/controllers/DashboardController.js:100-101 | no ids means no rows |
| TopFlights.TopFlightRows | server/controllers/DashboardController.js:96-125 | at most five rows |
| TopFlights.TopFlightRowsCounted | server/controllers/DashboardController.js:108-124 | each row describes a catalogue flight and carries that flight's positive reservation count and its revenue |
| CategoryStats.CategoryName | server/controllers/DashboardController.js:129 | `_id \|\| 'uncategorized'`: a missing or empty category becomes `uncategorized`, any other name is kept |
| CategoryStats.LastWith | server/controllers/DashboardController.js:128-142 | the group whose assignment survives for a name exists exactly when some group has that name |
| CategoryStats.LastWithIsLast | server/controllers/DashboardController.js:128-142 | the surviving group is the last one with that name |
| CategoryStats.Stats | server/controllers/DashboardController.js:127-142 | the table's keys are the names of both groupings, and each entry takes the last count group and the last revenue group, 0 when missing |
| CategoryStats.MergeCategoryStats | server/controllers/DashboardController.js:127-142 | the two `forEach` passes build exactly `Stats` |
| CategoryStats.CountStep | server/controllers/DashboardController.js:128-134 | a count group resets its entry to its count with revenue 0 |
| CategoryStats.RevenueStep | server/controllers/DashboardController.js:136-142 | a revenue group creates a zero entry when its name is new, then sets the revenue |
| CategoryStats.ZeroDefaults | server/controllers/DashboardController.js:132-139 | a category with flights but no revenue shows revenue 0, and one with revenue but no flights shows count 0 |
| CategoryStats.UncategorizedCollide | server/controllers/DashboardController.js:129-141 | colliding names overwrite rather than add up |
| CategoryStats.Lookup | server/controllers/DashboardController.js:70-75 | `$lookup` finds exactly the catalogue flights with the referenced id |
| CategoryStats.CategoryItems | server/controllers/DashboardController.js:85-87 | one zero-revenue item per flight, carrying that flight's category, in catalog order |
| CategoryStats.RevenueItems | server/controllers/DashboardController.js:68-84 | every revenue item pairs a reservation's total with the category of a catalog flight the reservation references |
| CategoryStats.CategoryStatsOf | server/controllers/DashboardController.js:68-87 | the per-category table is the merge of the two groupings |
| CategoryStats.MissingFlightNoRevenue | server/controllers/DashboardController.js:77 | `$unwind` drops a reservation whose flight is missing |
| CategoryStats.RevenueItemsSum | server/controllers/DashboardController.js:68-84 | a category's revenue sums the totals of the reservations whose flight has that category |
| CategoryStats.NamedCategoryStat | server/controllers/DashboardController.js:127-142 | for a named category, the entry holds its flight count and its reservation revenue, and exists exactly when the category occurs |
| DashboardOverview.BuildStats | server/controllers/DashboardController.js:144-157 | total revenue is the sum of all totals, the counts are the collection sizes, and the customer count is the number of distinct emails, no more than the reservations |
| DashboardOverview.GetDashboardOverview | server/controllers/DashboardController.js:13-164 | the response carries those statistics (the customer count being the number of distinct emails), min(5, n) recent reservations and at most five top flights |
| DashboardOverview.GrowthFigures | server/controllers/DashboardController.js:145-156 | each growth figure compares the current 30 days with the 30 before, on revenue, flights, reservations and distinct customers |
| DashboardOverview.RecentReservations | server/controllers/DashboardController.js:52-56 | at most five reservations, newest first, drawn from the input, and none left out is newer than one kept |
| DashboardOverview.CountGrowthBounded | server/controllers/DashboardController.js:154-156 | count-based growth figures are never below -100 |
| DashboardOverview.RecentAreNewest | server/controllers/DashboardController.js:52-56 | the recent reservations are the newest ones, newest first |
| DashboardOverview.EmptyOverview | server/controllers/DashboardController.js:13-164 | with no data every figure is 0 and every list is empty |
| Cors.OriginSetting | server/index.js:28 | an unset or empty `ORIGIN` falls back to the two local origins |
| Cors.TrimEach | server/index.js:30 | each entry is trimmed, in place |
| Cors.NonEmpty | server/index.js:31 | `filter(Boolean)` keeps exactly the non-empty entries, never more than it was given, and all of them when none is empty |
| Cors.NonEmptyAppend | server/index.js:31 | `filter(Boolean)` distributes over concatenation, so the kept entries stay in order |
| Cors.OriginList | server/index.js:28-31 | an origin is listed exactly when it is a non-empty trimmed entry of the comma-split setting; every entry is trimmed and comma-free |
| Cors.AllowedOrigins | server/index.js:28-31 | the list holds exactly the non-empty trimmed entries of the configured or default setting |
| Cors.OriginListEntries | server/index.js:28-31 | an origin is allowed exactly when it is a non-empty trimmed entry of the setting; every entry is clean |
| Cors.ListedOrigins | server/index.js:28-31 | a comma-joined list of clean origins reads back as that list |
| Cors.DefaultOrigins | server/index.js:28-31 | with no setting the list is the two local origins |
| Cors.PaddedSetting | server/index.js:28-31 | blanks around entries and empty entries are ignored |
| Cors.OriginCallback | server/index.js:37-62 | no origin is allowed; outside production exactly the listed origins are allowed; in production exactly the listed origins and those containing a Render or Vercel domain are allowed; every refusal mentions CORS |
| Cors.ProductionWidens | server/index.js:48-57 | production allows everything the other modes allow |
| Cors.HostedAllowedInProduction | server/index.js:48-57 | in production, an origin containing `.onrender.com` or `.vercel.app` is allowed |
| Cors.DomainAnywhere | server/index.js:50-51 | the hosted-domain test is a substring test, so the domain may sit anywhere in the origin |
| Cors.HostedDomain | server/index.js:50-51 | the origin is hosted exactly when `.onrender.com` or `.vercel.app` occurs somewhere in it |
| Cors.ErrorHandler | server/index.js:82-88 | 403 with the message exactly when it mentions CORS, otherwise 500 with the generic message and the error |
| Cors.RefusalIsForbidden | server/index.js:82-86 | a refused origin always ends as a 403 |
| Auth.HeaderToken | server/middlewares/AuthMiddleware.js:10-13 | a header token exists exactly for a `Bearer ` header and is what follows the prefix |
| Auth.UserIdOf | server/middlewares/AuthMiddleware.js:22 | the id is the payload's `userId` when it has one, undefined otherwise |
| Auth.SelectToken | server/middlewares/AuthMiddleware.js:6-14 | a non-empty cookie wins; otherwise a non-empty token after `Bearer `; an empty token counts as none |
| Auth.Authenticate | server/middlewares/AuthMiddleware.js:16-25 | 401 exactly without a token, 403 exactly when verification fails, otherwise next with the payload |
| Auth.Request.VerifyToken | server/middlewares/AuthMiddleware.js:3-28 | the outcome is `Authenticate`'s; a refusal leaves the request unchanged; passing on sets `userId` and `user` from the payload |
| Auth.CookieWins | server/middlewares/AuthMiddleware.js:6-14 | with a non-empty cookie the header is never consulted |
| Auth.EmptyCookieFallsBack | server/middlewares/AuthMiddleware.js:9-13 | an empty or missing cookie falls back to the `Bearer` header |
| Auth.LowercaseBearerRefused | server/middlewares/AuthMiddleware.js:11 | the prefix test is case-sensitive |
| Auth.BarePrefixRefused | server/middlewares/AuthMiddleware.js:12-17 | a header holding only the prefix gives 401 |
| Auth.RawTokenRefused | server/middlewares/AuthMiddleware.js:11 | a bare token without the prefix gives 401 |
| Auth.RefusalStatuses | server/middlewares/AuthMiddleware.js:16-21 | every refusal is a 401 or a 403 |

## Left out

- Storage failures: the 500 replies of the reservation handlers, the 500 of `getDashboardOverview`, and the catch-all 500 of the authentication middleware are not modelled. The one exception is the create path's catch, which is modelled as `CreateFailed` (a non-string email, or a duplicate id).
- `populate`, `select` and `lean` projections, and the HTTP serialisation of documents: a stored record stands for what is returned.
- Schema validation in the Mongoose models: the model files are not part of this model. Records hold only the fields the controller writes.
- The race between the flight-existence check and the insert. Flight deletion belongs to the flight controller, which is not part of this model. The set of flights is therefore fixed, and the collection invariant that every stored record refers to a known flight relies on that.
- Flight references that are not strings: `Flight.exists` is modelled as a lookup of a string id.
- Dates: parsing and the clock are parameters. Day boundaries are whole days of UTC milliseconds, so time zones and daylight saving time are not modelled.
- Calendar arithmetic: `setDate(getDate() - 30)` is taken as exactly 30 × 24 hours.
- Numbers are exact reals: floating-point rounding of sums and of the growth percentage is not modelled. Infinite and NaN totals are left out of the dashboard records.
- Js.ToLower: only ASCII letters are mapped. Unicode case mapping is not modelled.
- Unpaired surrogates: a JavaScript string can hold a lone surrogate code unit such as `"\uD800"`, but a Dafny `char` is a Unicode scalar value and cannot. The FullNameError, PickupError and EmailError rules are therefore modelled only on strings without lone surrogates.
- Grouping order: MongoDB does not specify the order of `$group` output. `GroupBy` fixes first-appearance order. Groups tied on both count and revenue come out of the top-flights sort in reverse order of first appearance; MongoDB leaves the order of such ties unspecified.
- Category keys that clash with `Object.prototype` properties (such as `constructor`): the plain-object lookup semantics are not modelled.
- ObjectId values are modelled as strings. Only their string form is used for the join, and a non-null id is taken as truthy.
- `Promise.all` is modelled as reading one snapshot of both collections. Concurrent writes between the queries are not modelled.
- Console logging in the CORS callback and the error handler.
- The `cookie-parser` middleware is assumed present, so `req.cookies` always exists. JSON cookies (`j:` prefix) are not modelled. The cookie is a string or absent.
- The JWT signature and expiry check is an opaque `verify` function.
- Routing and the other middleware, the health endpoint, database connection and server start-up, the admin-creation script and the client pages are not part of this model.
