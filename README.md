# Ballet studio booking back end, modelled in Dafny

This project models the server side of a ballet studio's booking app, a Next.js
application whose route handlers work on a Prisma database.

- **The data.** Users, customers with a credit balance and a membership status,
  class templates with a recurrence, dated class instances, bookings, a credit
  ledger, attendance records, milestone checkpoints and notifications.
- **The handlers.** Customers book classes, paying with credits. Marking
  attendance awards milestones at 1, 3 and 10 classes. A generator expands
  a template's weekly or daily recurrence into instances. The admin views list
  customers, summarise the week and rank customers on a leaderboard. A
  recommendation endpoint prepares the context for a language-model call.

## Layout

- `common.dfy` (`Common`): the shared pieces.
  - Option and Result types, and HTTP errors.
  - Time as integer milliseconds (`DayStart`, `Weekday`, `HourOfDay`).
  - The sequence operations the queries are made of: filter, take, and sort by a
    total preorder. `TopBy` is `orderBy` followed by `take`.
  - JavaScript's `Math.round` of a ratio, `parseInt`, and ASCII case mapping.
- `schema.dfy` (`Schema`): one datatype per table row, plus the clock-time
  pattern of the class schema.
- `store.dfy` (`Store`): the class `Db`, with one `seq` field per table, where
  row `i` has id `i`. `Db.Valid()` holds four things:
  - referential integrity;
  - one attendance per booking;
  - one checkpoint per customer and milestone;
  - every customer's ledger is chained. Each entry closes at its opening balance
    plus its amount, the next entry opens where the last one closed, and the last
    entry closes at the current balance.
- One module per route file:
  - `Bookings` is `app/api/bookings/route.ts`.
  - `AttendanceRoute` is `app/api/attendance/route.ts`.
  - `ClassInstances` is `lib/class-instances.ts`.
  - `ClassInstancesRoute` is `app/api/class-instances/route.ts`.
  - `ClassesRoute` is `app/api/classes/route.ts`.
  - `AdminStats`, `Leaderboard` and `AdminCustomers` are the three admin routes.
  - `Notifications` is `app/api/notifications/route.ts`.
  - `CustomerProfile` is `app/api/customers/me/route.ts`.
  - `Recommendations` is `app/api/ai/recommendations/route.ts`.
  - `ApiUtils` is `lib/api-utils.ts`.

## How handlers are modelled

- **Handlers that write** are methods with `modifies db`. Each states its whole
  new state: what changed and that every other table is unchanged. It also
  states that `Db.Valid()` is kept.
- **Read-only handlers** are functions over the table values.
- **Authentication.** Every handler receives the identity `authenticateRequest`
  produced. That step is modelled on its own, in `ApiUtils.Authenticate`.
- **Parameters.** The clock `now`, the token verifier and the recommender are
  parameters.
- **The generator** is split in two:
  - `ClassInstances.QueueInstances` is the day loop, cursor updates included,
    proved equal to the recursive specification `Planned`;
  - `GenerateClassInstances` appends its rows, as `createMany` does.

A consequence of the generator's cursor update: after the first qualifying day,
the cursor sits at 23:59:59.999. Over a range of `n` whole days starting before
that time, it therefore queues only `n` instances for `n + 1` calendar days
(`ClassInstances.FinalDaySkipped`).

## Model

| member | source | states |
|---|---|---|
| Common.DayStart | lib/class-instances.ts:60 | `setHours(0,0,0,0)`: the midnight at or before `t`, less than a day earlier, a multiple of a day |
| Common.Weekday | lib/class-instances.ts:37 | `getDay`: a weekday 0..6 with 0 = Sunday |
| Common.WeekdayAnchors | lib/class-instances.ts:37 | the epoch day 1970-01-01 is a Thursday (4) and 1970-01-04 a Sunday; a moment falls on a Sunday exactly when its day number is 3 modulo 7 |
| Common.WeekdayNextDay | lib/class-instances.ts:78 | moving the cursor one day on moves the weekday on by one, modulo 7 |
| Common.HourOfDay | app/api/ai/recommendations/route.ts:84-88 | `getHours`: the hour 0..23 whose hour-long slot of the day holds `t` |
| Common.QueryFlag | app/api/notifications/route.ts:17 | a query flag is on exactly when the parameter is the string "true" |
| Common.ParseNat | app/api/admin/leaderboard/route.ts:18 | `parseInt` without a radix: after "0x" or "0X" a number exactly when a hexadecimal digit follows, and then the value of those digits; otherwise a number exactly when the string starts with a digit, and then the value of its leading digits |
| Common.HexLimitExample | app/api/admin/leaderboard/route.ts:18 | "0x10" reads as 16 |
| Common.UpperHexLimitExample | app/api/admin/leaderboard/route.ts:18 | "0X1f" reads as 31 |
| Common.BareHexMarkExample | app/api/admin/leaderboard/route.ts:18 | a bare "0x" is NaN |
| Common.PartialLimitExample | app/api/admin/leaderboard/route.ts:18 | "10abc" reads as 10, its leading digits |
| Common.ParseNatToString | app/api/admin/leaderboard/route.ts:18 | `parseInt` reads back every number printed in decimal |
| Common.RoundRatio | app/api/admin/stats/route.ts:66-68 | `Math.round(scale * a / t)`: 0 for no total, else the integer nearest the ratio (halves up), between 0 and `scale` |
| Common.TopBy | app/api/admin/stats/route.ts:71-75 | `orderBy` plus `take n`: `min(n, size)` rows, sorted, drawn from the input, and no row left out ranks above a row taken |
| Common.LexLeTotal | app/api/classes/route.ts:33-35 | the name order compares every two names |
| Common.LexLeTransitive | app/api/classes/route.ts:33-35 | the name order is transitive |
| Schema.FindCustomer | app/api/bookings/route.ts:97-99 | `findUnique({ userId })`: a row of that user with no earlier one, or none when no row has that user |
| Schema.NewCustomer | lib/auth.ts:51-62 | a new customer account is ACTIVE, MONTHLY, with zero credits, streak and classes |
| Schema.SeatsTaken | app/api/bookings/route.ts:121-127 | the instance's CONFIRMED or ATTENDED bookings, counted, never more than the table holds |
| Schema.ParseClock | lib/class-instances.ts:33-34 | an accepted clock string gives an hour below 24 and a minute below 60 |
| Schema.ClockOffset | lib/class-instances.ts:49-53 | `setHours(h, m, 0, 0)` lands inside the day, `h` hours and `m` minutes after midnight |
| Store.ChainedTelescopes | app/api/bookings/route.ts:216-225 | in a chained ledger the balance is the first opening balance plus the sum of all amounts |
| Store.ChainedAppend | app/api/bookings/route.ts:216-225 | an entry that opens at the current balance and closes at opening plus amount keeps the ledger chained |
| Store.LedgerAfterEntry | app/api/bookings/route.ts:205-225 | recording such an entry and moving the balance to its close keeps every customer's ledger chained |
| ApiUtils.BearerToken | lib/api-utils.ts:11-20 | a token exists exactly when the header is present and starts with "Bearer "; the header is then "Bearer " followed by the token |
| ApiUtils.BearerRoundTrip | lib/api-utils.ts:20 | the header `Bearer <t>` yields exactly `t` |
| ApiUtils.Authenticate | lib/api-utils.ts:8-31 | 401 "Unauthorized" without a bearer header, 401 "Invalid or expired token" when verification fails, else the verified identity |
| ApiUtils.AuthenticatedIff | lib/api-utils.ts:8-31 | a caller is admitted as `u` exactly when the header is `Bearer <t>` and the verifier maps `t` to `u` |
| ApiUtils.RejectsBeforeVerifying | lib/api-utils.ts:13-18 | without the bearer scheme the answer is 401 whatever the verifier would say |
| ApiUtils.LowerCaseSchemeRefused | lib/api-utils.ts:13 | the scheme is case-sensitive: "bearer <t>" is refused |
| ApiUtils.ApiResponse | lib/api-utils.ts:33-35 | the body is the data; the status is the one given, else 200 |
| ApiUtils.ErrorResponse | lib/api-utils.ts:37-39 | the body is `{ error: message }`; the status is the one given, else 400 |
| ApiUtils.ErrorResponseDefaults | lib/api-utils.ts:33-39 | the two helpers agree when a status is given and differ only in their default |
| ApiUtils.RefusalsAre401 | lib/api-utils.ts:13-30 | both refusals of authentication reply with status 401 |
| Bookings.ListBookings | app/api/bookings/route.ts:11-80 | 404 exactly when the user has no customer row; otherwise exactly the customer's bookings the status filter keeps (a permutation of them), newest first |
| Bookings.ListedBookingsMatchFilter | app/api/bookings/route.ts:40-51 | each listed booking is the customer's; "upcoming" ones start at or after now and hold a seat; "past" ones started before now |
| Bookings.ErrorOf | app/api/bookings/route.ts:101-178 | a missing customer or instance is 404; every other refusal is 400 |
| Bookings.BookingCheck | app/api/bookings/route.ts:97-179 | the first failing guard in source order decides the error; no error exactly when all seven guards pass |
| Bookings.InactiveRejectedBeforeInstanceLookup | app/api/bookings/route.ts:108-136 | an inactive membership is refused before the instance is looked up, whatever instance is asked for |
| Bookings.StartingNowIsNotPast | app/api/bookings/route.ts:139 | a class starting exactly now can still be booked |
| Bookings.CancelledBookingDoesNotBlock | app/api/bookings/route.ts:121-127 | a CANCELLED booking neither takes a seat nor counts as already booked |
| Bookings.SeatsAfterBooking | app/api/bookings/route.ts:147-152 | a new CONFIRMED booking takes exactly one more seat on its instance |
| Bookings.SeatsElsewhere | app/api/bookings/route.ts:147-152 | a booking on another instance leaves this instance's seat count unchanged |
| Bookings.ChargeEntry | app/api/bookings/route.ts:216-225 | a CLASS_BOOKING entry of minus the price, opening at the old balance and closing at old balance minus price |
| Bookings.CreateBooking | app/api/bookings/route.ts:83-244 | a refusal changes nothing and returns the first failing guard's error; otherwise one CONFIRMED booking, the balance lowered by the price, one ledger entry, no overbooking, the invariant kept |
| Bookings.Commit | app/api/bookings/route.ts:182-228 | the transaction appends the booking, debits the customer and appends the matching ledger entry, keeping the ledger chained |
| AttendanceRoute.ErrorOf | app/api/attendance/route.ts:36-62 | a missing booking is 404; an attendance already marked and a class not yet started are 400 |
| AttendanceRoute.CheckInOrDefault | app/api/attendance/route.ts:8 | the check-in method defaults to MANUAL |
| AttendanceRoute.AttendanceCheck | app/api/attendance/route.ts:28-62 | each error exactly in its case: unknown booking, attendance already recorded, class starting after now; accepted exactly otherwise |
| AttendanceRoute.StatusNotChecked | app/api/attendance/route.ts:28-62 | the booking's status is not consulted: a CANCELLED booking can be marked attended |
| AttendanceRoute.Threshold | app/api/attendance/route.ts:126-130 | every milestone needs at least one class |
| AttendanceRoute.CheckpointRows | app/api/attendance/route.ts:143-149 | one new checkpoint row per due milestone, with the count and time of the award |
| AttendanceRoute.DueIff | app/api/attendance/route.ts:132-152 | a milestone is awarded exactly when the new total equals its threshold and the customer does not hold it yet |
| AttendanceRoute.AtMostOneDue | app/api/attendance/route.ts:126-152 | one check-in awards at most one milestone, and none at totals other than 1, 3 and 10 |
| AttendanceRoute.HeldMilestoneNotDueAgain | app/api/attendance/route.ts:135-142 | a milestone already held is never awarded again |
| AttendanceRoute.CheckAndCreateCheckpoints | app/api/attendance/route.ts:121-153 | the loop appends exactly the due milestones' rows, keeps one checkpoint per customer and milestone, and changes nothing else |
| AttendanceRoute.CheckpointsStayUnique | app/api/attendance/route.ts:135-149 | inserting a milestone the customer does not hold keeps checkpoints unique |
| AttendanceRoute.RecordAttendance | app/api/attendance/route.ts:65-101 | the transaction adds one attendance row, sets the booking ATTENDED, adds one to the count, awards the milestones due at the new count, and keeps every table invariant |
| AttendanceRoute.MarkAttendance | app/api/attendance/route.ts:13-118 | a refusal changes nothing; otherwise one attendance row, the booking ATTENDED, the count up by one, the due milestones awarded, and a second check-in refused |
| AttendanceRoute.SameBalances | app/api/attendance/route.ts:86-93 | changing a customer's class count, not the balance, keeps the ledger invariant |
| ClassInstances.DraftOn | lib/class-instances.ts:49-73 | the queued instance is dated 23:59:59.999 of its day, starts and ends at the template's clock times within that day, status "scheduled" |
| ClassInstances.PlannedDrafts | lib/class-instances.ts:36-79 | each queued instance is on a qualifying day between the first day and the end, free of any instance of the class in the dedup window, with the template's times |
| ClassInstances.PlannedComplete | lib/class-instances.ts:36-79 | every day in the range whose weekday the pattern selects and which holds no instance of the class in the dedup window gets a queued instance |
| ClassInstances.NoRecurrencePlansNothing | lib/class-instances.ts:40-46 | a pattern other than "daily" and "weekly", or a weekly one without `daysOfWeek`, queues nothing over any range |
| ClassInstances.PlannedIncreasing | lib/class-instances.ts:36-79 | one run queues at most one instance per calendar day, in date order |
| ClassInstances.QueueInstances | lib/class-instances.ts:29-79 | the day loop, cursor updates as written, queues exactly `Planned` |
| ClassInstances.Materialize | lib/class-instances.ts:82-87 | `createMany` stores each queued instance under the next id |
| ClassInstances.GenerateClassInstances | lib/class-instances.ts:15-90 | corrected (whole-day dedup window, see Findings): an unknown class fails with "Class not found" and no change; otherwise the rows planned with `DayWindow` are appended and their number returned |
| ClassInstances.MaterializedRowsOk | lib/class-instances.ts:82-87 | the appended rows, planned with any dedup window, keep the instance table consistent |
| ClassInstances.Horizon | lib/class-instances.ts:95-101 | from now to now plus `weeks` weeks, 4 by default |
| ClassInstances.GenerateWeeklyInstances | lib/class-instances.ts:95-104 | corrected (whole-day dedup window, see Findings): generation over that horizon |
| ClassInstances.AsWrittenRerunRequeues | lib/class-instances.ts:59-61 | with the window as written, a second run over the same range queues everything again |
| ClassInstances.AsWrittenDuplicatesDay | lib/class-instances.ts:59-69 | concretely, a daily class generated twice for the first day has two instances dated the same moment |
| ClassInstances.WholeDayRerunPlansNothing | lib/class-instances.ts:56-64 | with the window over the whole day, a second run over the same range queues nothing |
| ClassInstances.LateRowsOutsideShortWindow | lib/class-instances.ts:59-61 | rows dated 23:59:59.999 never fall in the window as written |
| ClassInstances.FinalDaySkipped | lib/class-instances.ts:36-78 | a daily class over `n` whole days, started before the day's last millisecond, gets `n` instances and none on the last calendar day |
| ClassInstances.DailyFromLateCursor | lib/class-instances.ts:36-78 | from a 23:59:59.999 cursor a daily class gets one instance per whole day up to the end |
| ClassInstancesRoute.Matching | app/api/class-instances/route.ts:14-51 | the instances the `where` clause selects (a permutation of them), earliest start first |
| ClassInstancesRoute.ListInstances | app/api/class-instances/route.ts:29-72 | corrected (`maxCapacity` selected, see Findings; the as-written listing is `InstanceRows(..., false)`, stated by `AsWrittenAvailableListsNothing`): rows of selected instances, by start time; seat count and spots remaining per row; with `available=true` only rows with a free seat, and every selected instance with room is listed |
| ClassInstancesRoute.ListedOnce | app/api/class-instances/route.ts:29-70 | each selected instance is listed as often as the selection holds it: the listing is the start-ordered matching instances, less those without a free seat with `available=true`, and exactly the matching instances without it |
| ClassInstancesRoute.RowsSound | app/api/class-instances/route.ts:54-70 | every row is a selected instance with its computed fields; with `available=true` every row is available |
| ClassInstancesRoute.RowsSorted | app/api/class-instances/route.ts:48-50 | rows are by start time ascending |
| ClassInstancesRoute.RowsComplete | app/api/class-instances/route.ts:54-70 | every selected instance is listed unless `available=true` and it has no room |
| ClassInstancesRoute.AvailableIsSubsequence | app/api/class-instances/route.ts:54-70 | the `available=true` list is the full list with some instances dropped, order kept |
| ClassInstancesRoute.AsWrittenAvailableListsNothing | app/api/class-instances/route.ts:32-38 | as written, without `maxCapacity` selected, `available=true` lists nothing |
| ClassInstancesRoute.AsWrittenSpotsUnknown | app/api/class-instances/route.ts:61 | as written, every `spotsRemaining` is NaN |
| ClassInstancesRoute.GenerateRoute | app/api/class-instances/route.ts:82-107 | corrected (whole-day dedup window, see Findings): 400 without `classId`; 500 "Class not found" for an unknown class; else the instances appended and "Generated N class instances" |
| ClassesRoute.ValidateClass | app/api/classes/route.ts:5-21 | rejected with 400 "Invalid input" exactly when a schema rule fails; an accepted body is a template the schema describes |
| ClassesRoute.ValidateAcceptsValid | app/api/classes/route.ts:5-21 | every template the schema describes is accepted back unchanged |
| ClassesRoute.ValidateDefaults | app/api/classes/route.ts:11-20 | `priceCredits` defaults to 1 and `isActive` to true |
| ClassesRoute.ValidateChecksNoOrder | app/api/classes/route.ts:12-18 | an end time before the start time, and a weekly pattern without weekdays, are accepted |
| ClassesRoute.FormatClockRoundTrip | app/api/classes/route.ts:17-18 | "H:MM" matches the clock pattern and parses back to the same time |
| ClassesRoute.FormatClockPaddedRoundTrip | app/api/classes/route.ts:17-18 | "HH:MM" matches the clock pattern and parses back to the same time |
| ClassesRoute.ClockPatternExact | app/api/classes/route.ts:17-18 | the clock pattern admits nothing but those two spellings |
| ClassesRoute.ListClasses | app/api/classes/route.ts:24-45 | the templates (the active ones with `available=true`), a permutation of them, ordered by name |
| ClassesRoute.CreateClass | app/api/classes/route.ts:48-84 | a rejected body creates nothing; an accepted one is appended as the next row |
| AdminStats.WeekStart | app/api/admin/stats/route.ts:23-26 | a Sunday midnight at most seven days before now |
| AdminStats.ThisWeekIsSundayToSunday | app/api/admin/stats/route.ts:39-49 | this week's classes are exactly those on one of the seven days from that Sunday |
| AdminStats.WeekCount | app/api/admin/stats/route.ts:42-49 | the count of this week's instances is at most the number of instances |
| AdminStats.AverageAttendance | app/api/admin/stats/route.ts:52-68 | 0..100; 0 with no seat-holding booking; else the percentage of ATTENDED among CONFIRMED and ATTENDED, rounded |
| AdminStats.AllAttendedIsHundred | app/api/admin/stats/route.ts:66-68 | when all seat-holding bookings were attended the rate is 100 |
| AdminStats.NoneAttendedIsZero | app/api/admin/stats/route.ts:66-68 | when none was attended the rate is 0 |
| AdminStats.RecentBookings | app/api/admin/stats/route.ts:71-97 | the five newest bookings, newest first, none left out newer than one listed |
| AdminStats.Entry | app/api/admin/stats/route.ts:104-110 | a recent-activity line carries the booking's id, time and status, the customer's full name and the class name |
| AdminStats.GetStats | app/api/admin/stats/route.ts:13-111 | 403 exactly for a non-admin; otherwise the head counts, this week's classes, the attendance rate and the recent activity |
| Leaderboard.BoardType | app/api/admin/leaderboard/route.ts:17 | the type parameter, "classes" when absent or empty |
| Leaderboard.BoardLimit | app/api/admin/leaderboard/route.ts:18 | the limit parameter read by `parseInt`, 10 when absent or empty |
| Leaderboard.LimitRoundTrip | app/api/admin/leaderboard/route.ts:18 | a limit written in decimal is read back as that number |
| Leaderboard.RateTenths | app/api/admin/leaderboard/route.ts:81-89 | the attendance rate in tenths of a percent: 0 without bookings, else the nearest whole number of tenths, within 0..1000 |
| Leaderboard.FullAttendanceRate | app/api/admin/leaderboard/route.ts:81-89 | a customer who attended every booking has a rate of 100.0 |
| Leaderboard.RankedRows | app/api/admin/leaderboard/route.ts:22-55 | `min(limit, customers)` customers with their user details, each drawn from the table (as a multiset), best first, none left out ranking above one listed |
| Leaderboard.RatedBoard | app/api/admin/leaderboard/route.ts:56-90 | the customers of the classes board, each with their rate, highest rate first |
| Leaderboard.GetLeaderboard | app/api/admin/leaderboard/route.ts:15-107 | 400 for an unknown type, 500 for a limit that is not a number, else the board of that type |
| AdminCustomers.StatusFilter | app/api/admin/customers/route.ts:27-29 | no filter for an absent or empty status or "all"; else the membership status the upper-cased value names, and a failure when it names none |
| AdminCustomers.StatusIgnoresCase | app/api/admin/customers/route.ts:27-29 | a status value and its lower-case form filter alike |
| AdminCustomers.UpperAllFails | app/api/admin/customers/route.ts:27-29 | only the lower-case "all" means no filter; "ALL" fails |
| AdminCustomers.SearchIgnoresCase | app/api/admin/customers/route.ts:31-37 | the search does not see case |
| AdminCustomers.SearchFindsEmail | app/api/admin/customers/route.ts:31-37 | searching for a user's own email, in any case, finds them |
| AdminCustomers.LastBooking | app/api/admin/customers/route.ts:51-68 | none exactly when the customer has no booking; else one of the customer's bookings, none booked later |
| AdminCustomers.AttendanceOf | app/api/admin/customers/route.ts:58-62 | the booking's attendance row, present exactly when one exists |
| AdminCustomers.LastClassAttended | app/api/admin/customers/route.ts:76-87 | none without a booking; the check-in time when the latest booking was attended; else that booking's class start |
| AdminCustomers.LastClassIsTheCheckIn | app/api/admin/customers/route.ts:81-87 | with one attendance per booking, the time is that attendance's check-in |
| AdminCustomers.RowOf | app/api/admin/customers/route.ts:76-90 | a line is the customer, the selected user fields, the latest booking and the last-class time |
| AdminCustomers.Matching | app/api/admin/customers/route.ts:39-73 | the customers the status filter and the search keep (a permutation of them), newest first |
| AdminCustomers.ListCustomers | app/api/admin/customers/route.ts:6-99 | 500 "Failed to fetch customers" exactly for an unknown status; otherwise one line per matching customer, in order |
| AdminCustomers.NoParametersListsAll | app/api/admin/customers/route.ts:25-37 | without parameters every customer is listed |
| AdminCustomers.StatusFilterExact | app/api/admin/customers/route.ts:27-37 | a status lists only customers of that status, and every one of them that the search keeps |
| Notifications.Inbox | app/api/notifications/route.ts:19-23 | exactly the caller's notifications, unread only with `unread=true` |
| Notifications.ListNotifications | app/api/notifications/route.ts:15-43 | at most 50 of those (as a multiset, part of them), newest first, none left out newer than one listed; `unreadCount` counts all the caller's unread ones |
| Notifications.UnreadPageWithinCount | app/api/notifications/route.ts:17-38 | with `unread=true` the page never holds more than `unreadCount` |
| Notifications.UnreadCountIgnoresFilter | app/api/notifications/route.ts:33-38 | the count does not depend on the `unread` parameter |
| Notifications.Patched | app/api/notifications/route.ts:66-86 | a notification becomes read exactly when it was read or the update selects it; nothing else changes |
| Notifications.OthersUntouched | app/api/notifications/route.ts:68-80 | other users' notifications are never changed, whatever ids are sent |
| Notifications.MarkAllClearsUnread | app/api/notifications/route.ts:66-75 | marking all leaves the caller with no unread notification |
| Notifications.MarkIdsExactly | app/api/notifications/route.ts:76-86 | with ids, exactly the caller's notifications among them become read |
| Notifications.MarkAllPrecedence | app/api/notifications/route.ts:66-76 | with `markAllRead` the ids are ignored |
| Notifications.NeitherChangesNothing | app/api/notifications/route.ts:66-86 | with neither `markAllRead` nor an id array nothing changes |
| Notifications.PatchIdempotent | app/api/notifications/route.ts:66-86 | sending the same update twice has the effect of sending it once |
| Notifications.PatchedStaysValid | app/api/notifications/route.ts:66-86 | the update keeps the notification table consistent |
| Notifications.MarkRead | app/api/notifications/route.ts:53-88 | the table becomes the patched table and nothing else changes; the reply is "Notifications updated" |
| CustomerProfile.LoadedBookings | app/api/customers/me/route.ts:29-51 | at most 5 of the customer's CONFIRMED or ATTENDED bookings (as a multiset, part of them), oldest first, none left out booked earlier than one listed |
| CustomerProfile.UpcomingOf | app/api/customers/me/route.ts:68-72 | those loaded bookings whose class starts after now, in order, and all of them |
| CustomerProfile.StartingNowNotUpcoming | app/api/customers/me/route.ts:71 | a class starting exactly now is not upcoming |
| CustomerProfile.CheckpointsOf | app/api/customers/me/route.ts:52-56 | the customer's checkpoints (a permutation of them), latest first |
| CustomerProfile.GetProfile | app/api/customers/me/route.ts:6-85 | 404 exactly when the user has no customer row; else the customer, the user, the loaded bookings, the checkpoints and the upcoming classes |
| CustomerProfile.ApplyEdit | app/api/customers/me/route.ts:115-121 | the fields given replace the user's, the fields left out are kept, id, email and role untouched |
| CustomerProfile.ApplyEditIdempotent | app/api/customers/me/route.ts:115-121 | applying the same edit twice is applying it once |
| CustomerProfile.EmptyEditKeepsUser | app/api/customers/me/route.ts:115-121 | a body without the three fields changes nothing |
| CustomerProfile.UpdateProfile | app/api/customers/me/route.ts:88-131 | 404 and no change without a customer row; else only that user's row is edited and its selected fields returned |
| Recommendations.Candidates | app/api/ai/recommendations/route.ts:46-72 | `min(20, n)` of the `n` scheduled instances starting within the next 30 days, drawn from them as a multiset, earliest first, none left out starting before one taken |
| Recommendations.AvailableOf | app/api/ai/recommendations/route.ts:75-77 | `min(10, n)` of the `n` candidates with a free seat, in candidate order; a candidate with a seat is kept exactly when fewer than ten before it have one |
| Recommendations.IndexOf | app/api/ai/recommendations/route.ts:82 | `indexOf`: -1 exactly when absent, else the first position holding the value |
| Recommendations.KeepFirstSpec | app/api/ai/recommendations/route.ts:80-82 | the past classes have no repeats, hold every name of the bookings, and keep their first-occurrence order |
| Recommendations.RecentBookingsOf | app/api/ai/recommendations/route.ts:22-34 | `min(10, n)` of the customer's `n` bookings, drawn from them as a multiset, newest first, none left out newer than one kept |
| Recommendations.HourCount | app/api/ai/recommendations/route.ts:89-92 | how often an hour occurs, positive exactly when it occurs |
| Recommendations.TopHours | app/api/ai/recommendations/route.ts:94-96 | `min(3, n)` of the `n` distinct hours of the bookings, without repeats, most frequent first; no hour left out is more frequent, or as frequent and earlier |
| Recommendations.PreferredTimes | app/api/ai/recommendations/route.ts:94-103 | the defaults exactly when there are no bookings, else one to three `${hour}:00` labels of the top hours |
| Recommendations.LabelNotPadded | app/api/ai/recommendations/route.ts:97-103 | no hour label equals the default "09:00", so the defaults mean no bookings |
| Recommendations.Difficulty | app/api/ai/recommendations/route.ts:112-116 | "beginner" exactly when the lower-cased name contains it; else "advanced" exactly when it contains that; else "intermediate" |
| Recommendations.DifficultyIgnoresCase | app/api/ai/recommendations/route.ts:112-116 | upper-casing a name does not change its difficulty |
| Recommendations.OpenClasses | app/api/ai/recommendations/route.ts:46-77 | `min(10, n)` of the `n` candidates with a free seat, in candidate order; a candidate with a seat is kept exactly when fewer than ten before it have one |
| Recommendations.ContextOf | app/api/ai/recommendations/route.ts:99-118 | the context: full name, unique past classes, total classes, preferred times and the open classes with their difficulty |
| Recommendations.GetRecommendations | app/api/ai/recommendations/route.ts:18-132 | 404 exactly when the user has no customer row; else the first three recommendations for that context and the open classes |

## Left out

- Cancelling a booking, admin credit adjustments and the other routes under `[id]`
  are outside this core. Because an admin adjustment can make a balance
  negative, `Db.Valid()` has no `credits >= 0` clause. `Bookings.Charged` states
  that a booking keeps a balance non-negative when it covered the price.
- `PATCH /api/classes/[id]` stores unvalidated fields. `Db.Valid()` assumes every
  stored template passes the class schema.
- The identity is passed to each handler. Signing and verifying tokens (JWT) is a
  parameter `verify` of `ApiUtils.Authenticate`, and so is its clock.
- The language-model call of `lib/ai.ts` is a parameter `recommend`. Its thrown
  errors and the generic 500 replies of every `catch` block are not modelled.
- Prisma's query engine is modelled by its observable result on table values.
  Queries run one after another; concurrent requests and transaction isolation
  are not modelled.
- Time is UTC milliseconds: local time zones, daylight saving and the `timezone`
  fields have no effect.
- Floating point: rates are computed exactly on integers and rounded to the
  nearest, with halves up. This matches `Math.round` on the exact ratio, not on
  its binary rounding.
- Ids are table positions (`nat`) where the source uses UUID strings and the
  token carries a string `userId`. Zod's UUID check and the lookup of a malformed
  id are not modelled. A missing id is modelled by an out-of-range number.
- Request bodies that are not JSON, and JSON values of the wrong type, are not
  modelled. `CustomerProfile.UpdateProfile` takes each field as given or left out.
- Leaderboard.BoardLimit: `parseInt`'s leading white space and sign are not
  modelled. A limit such as "-5" is treated like a non-number, giving 500. A
  partial parse reads the leading digits ("10abc" is 10), and "0x" starts a
  hexadecimal limit, as in `parseInt`. With a real non-number, the 500 carries
  the database client's message, which the model replaces with "Failed to fetch
  leaderboard".
- AdminCustomers.StatusFilter: an unknown status makes the database client reject
  the query. The model gives that failure as 500 "Failed to fetch customers", not
  the client's own message.
- Leaderboard.RatedBoard: states that its customers are the same set as those of
  the classes board, not the same multiset. The table's rows are distinct, so the
  two agree there.
- Ordering ties: `SortBy` is an insertion sort that is not proved stable. Among
  rows with equal keys, the model fixes no order (the database fixes none
  either). On the attendance board, the source's stable re-sort keeps the
  database order for equal rates; the model leaves it open.
- Database collation: `orderBy: name` compares character codes (`Common.LexLe`).
  Case mapping covers ASCII letters only.
- The `startDate` and `endDate` query parameters arrive as parsed times
  (`ClassInstancesRoute.Window`). A string that `new Date` cannot read
  (app/api/class-instances/route.ts:16, 26) gives an Invalid Date and a failed
  query; that path is not modelled.
- The Prisma schema is not part of this model. The model assumes it declares no
  unique key on an instance's class and date, so `createMany`'s
  `skipDuplicates` (lib/class-instances.ts:85) never drops a queued row.
- The included relations are not copied into the model's replies. For example,
  a booking's class name is not copied into the booking listing. Rows carry the
  booking or instance, and the joined fields where the reply depends on them.
- `toLocaleTimeString` and `toLocaleDateString` in the context handed to the
  recommender are given as the instance's start time.
- Missing admin checks: the customers, leaderboard, classes, class-instances and
  attendance handlers do not check the role. Their models take no role
  parameter. Only `AdminStats.GetStats` checks it.
- The weekly-streak counter is never updated by any handler in this core, so it
  is only read, by the streak board.
- ClassInstances.GenerateClassInstances: plans with the whole-day dedup window
  `DayWindow`, the corrected behaviour of the Findings row. The source's window
  ends at 23:59:59.999 (lib/class-instances.ts:59-61); `Planned` with
  `AsWrittenWindow` models it, and `AsWrittenRerunRequeues` states what it does.
- ClassInstances.GenerateWeeklyInstances: plans with `DayWindow`, as
  `GenerateClassInstances` does, not with the source's window.
- ClassInstancesRoute.GenerateRoute: plans with `DayWindow`, as
  `GenerateClassInstances` does, not with the source's window.
- Bookings.CreateBooking: a success is returned as `Ok(...)`; the 201 Created
  status of app/api/bookings/route.ts:230 is not part of the reply.
- AttendanceRoute.MarkAttendance: a success is returned as `Ok(...)`; the 201
  Created status of app/api/attendance/route.ts:104 is not part of the reply.
- ClassesRoute.CreateClass: a success is returned as `Ok(...)`; the 201 Created
  status of app/api/classes/route.ts:70 is not part of the reply.
- The pages and components of the front end, the progress reports and
  `next.config.js` are not part of this model.

## Findings

| source | as written | input that shows it | evidently intended | confidence | as-written member | corrected member |
|---|---|---|---|---|---|---|
| lib/class-instances.ts:59-61 | the dedup query looks for an instance dated in `[00:00, 23:59:59.999)` of the day, but line 69 dates the new instance at 23:59:59.999, outside that window | generate a daily class for one day, then generate it again for the same day: the second run queues the same day again | a rerun over the same range queues nothing | not executed | ClassInstances.AsWrittenRerunRequeues | ClassInstances.WholeDayRerunPlansNothing |
| app/api/class-instances/route.ts:32-38 | the class `select` leaves out `maxCapacity`, so lines 57 and 61 compare with and subtract from `undefined` | any request with `available=true`: nothing is listed, and `spotsRemaining` is NaN in every request | rows with a free seat are listed, with capacity minus seats taken | not executed | ClassInstancesRoute.AsWrittenAvailableListsNothing | ClassInstancesRoute.ListInstances |
