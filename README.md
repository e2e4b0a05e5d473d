# Time-Tracker pay engine, in Dafny

This project models the calculation core of the Time-Tracker app: the time and pay engine of
`src/utils/time.ts`, the CSV exports of `src/utils/export.ts`, the company defaults of
`src/config/rules.ts`, and the helpers in `App.tsx` that feed the engine. The last group covers:

- settings normalization and the settings form;
- the holiday list;
- per-user overrides;
- the viewer's rules and sessions;
- the check-in and check-out buttons.

The modules follow the program:

- `Calendar` (calendar.dfy): the date arithmetic, in UTC. A moment is an integer number of
  milliseconds since 1970-01-01T00:00:00Z, and a day is an integer day number. `toYMD` is
  `Ymd(DayOf(t))`, a proleptic Gregorian rendering proved to round-trip and to be injective.
  `getMonday` and `getWeekDays` are methods proved against `WeekStartMs` and `DayKeys`.
- `Time` (time.ts): sessions, settings, overrides, `mergeRules`, `hoursBetween`, `isHoliday`,
  `summarizeDay`, `dayBreakdown` and `summarizeWeek`, as functions.
- `PayWeek` (payweek.dfy): `summarizePayWeek`. Its two loops are methods: bucketing hours by date,
  and the seven-day walk with its five running totals. Both are proved equal to the pure
  `PayWeek`, which the lemmas reason about.
- `Export` (export.dfy): the two CSV builders. Each is a method that pushes one line per session
  or user and is proved equal to a pure definition. Lemmas read the text back: the header first,
  then one line per item in order, and the fields of each line.
- `Defaults` (defaults.dfy): `defaultRules` and scenario lemmas about it.
- `App` (app.dfy):
  - the pure helpers of `App.tsx`;
  - `saveUserOverrides`'s `maybeSet` steps, as a method;
  - a `Tracker` class holding the app state that `checkIn`, `checkOut`, `saveRules`, `addHoliday`,
    `removeHoliday` and `saveUserOverrides` update.
- `Strings`, `Seqs`, `Options`: decimal text, join/split, string order, sorting, filtering,
  de-duplication and mapping, with the facts the other modules use.

Outside inputs are parameters:

- the clock is `now`: milliseconds for `new Date()` and `Date.now()`, one value per call;
- `toFixed(2)` is `fixed2: real -> string`;
- `Number(text)` is `num: string -> JsNumber`, whose result is finite, `NaN` or an infinity.

Hours and money are `real`.

## Model

| member | source | states |
|---|---|---|
| Time.HoursBetween | src/utils/time.ts:54-59 | No check-out gives 0. A check-out at or before the check-in gives 0. Otherwise the result is the elapsed milliseconds over 3,600,000. It is never negative. |
| Time.IsHoliday | src/utils/time.ts:61-63 | Holds exactly when the date is in the holiday list. |
| Time.SumHours | src/utils/time.ts:72 | The `reduce` of session hours is never negative. |
| Time.SumHoursAppend | src/utils/time.ts:72 | The hours of two lists put together are the sum of their hours. |
| Time.SumHoursOpen | src/utils/time.ts:70-72 | Sessions that are all still open add up to no hours. |
| Time.SummarizeDay | src/utils/time.ts:65-76 | The date is echoed and the total is non-negative. The holiday flag holds iff the date is a holiday. The early flag holds iff the day is not a holiday and 0 < total < expected hours. A holiday is never early, and a non-positive expected day is never early. |
| Time.DayTotalIsOwnSessions | src/utils/time.ts:70-72 | The day total is the sum of hours over exactly the sessions whose check-in date is that date. |
| Time.DayTotalAppend | src/utils/time.ts:70-72 | The day total over two lists put together is the sum of their day totals. |
| Time.DayTotalSingle | src/utils/time.ts:70-72 | One session counts its hours on its own check-in date and nothing on any other date. |
| Time.DayIgnoresOtherDates | src/utils/time.ts:70-75 | Adding a session that starts on another date leaves the day summary unchanged. |
| Time.SplitTiersFacts | src/utils/time.ts:215-219 | Regular, OT1 and OT2 sum to the hours worked when the overtime threshold is at most the double-time threshold, and are non-negative. Regular is at most the overtime threshold, and OT1 at most the gap between the thresholds. Below a tier's threshold that tier is 0. When the double-time threshold is below the overtime threshold, OT1 is 0, and past the double-time threshold regular plus OT2 exceeds the hours worked. |
| Time.FirstIn | src/utils/time.ts:228-230 | The earliest check-in among the sessions; absent iff there are none. |
| Time.LastOut | src/utils/time.ts:231-232 | The latest check-out among the closed sessions only; absent iff none is closed. |
| Time.DayBreakdownOf | src/utils/time.ts:211-235 | The total is `summarizeDay`'s. A holiday puts the total in `hol` and zero in the tiers. Otherwise `hol` is 0, the tiers are the split of the total, and they sum to it when the thresholds are ordered. The leave buckets and `ot3` are 0. `in` and `out` are the first check-in and last check-out of the day's sessions. |
| Time.OpenDayHasNoHours | src/utils/time.ts:211-235 | A day without a check-out has a total of 0. |
| Time.InWindowDays | src/utils/time.ts:94-98 | A session is in the week window iff its check-in day lies in the seven days from that week's Monday. |
| Time.SummarizeWeek | src/utils/time.ts:87-103 | The week start is the Monday's date and the total is the hours of the sessions in the window. Overtime is max(0, total − weekly threshold), and it is at most the total when the threshold is non-negative. |
| Time.WeekIgnoresOtherWeeks | src/utils/time.ts:94-99 | A session outside the window changes nothing. |
| Time.MergeRules | src/utils/time.ts:237-244 | No override gives the base. Otherwise every setting comes from the override when it defines it, else from the base. The holiday list comes wholesale from the override when present, else from the base. |
| Time.MergeNothing | src/utils/time.ts:237-244 | An override that defines nothing gives the base. |
| Time.MergeIdempotent | src/utils/time.ts:237-244 | Merging the same override twice is merging it once. |
| Calendar.MondayOf | src/utils/time.ts:78-85 | The day found is a Monday at most six days before the given day. |
| Calendar.SundayEndsWeek | src/utils/time.ts:79-80 | A Sunday (`getDay() \|\| 7` is 7) goes back six days to the Monday before it. |
| Calendar.WeekStartFacts | src/utils/time.ts:78-85 | The week start is midnight of that Monday, and the moment lies in the week that starts there. |
| Calendar.GetMonday | src/utils/time.ts:78-85 | Stepping the date back by `day − 1` days and truncating to midnight gives the week start. |
| Calendar.CivilRoundTrip | src/utils/time.ts:52 | The calendar date of a day number converts back to that day number. |
| Calendar.YmdParses | src/utils/time.ts:52 | The `YYYY-MM-DD` text of a day reads back as its calendar date. |
| Calendar.YmdInjective | src/utils/time.ts:52 | Different days have different date texts. |
| Calendar.IsoAvoids | src/utils/export.ts:18 | A timestamp's ISO text holds no comma and no line break. |
| Calendar.DayKeysAt | src/utils/time.ts:203-207 | The k-th date of a run of days is the date of the first day plus k. |
| Calendar.WeekDaysContain | src/utils/time.ts:199-209 | The week's seven dates contain the date of the given day. |
| Calendar.DayKeysDistinct | src/utils/time.ts:199-209 | The dates of a run of days are pairwise different. |
| Calendar.GetWeekDays | src/utils/time.ts:199-209 | The loop pushes the seven dates from the Monday of the base day, or of `now` when no base is given. |
| PayWeek.PerDay | src/utils/time.ts:115-122 | Every bucket of hours by date is non-negative. |
| PayWeek.PerDaySnoc | src/utils/time.ts:116-122 | A session inside the window adds its hours to the bucket of its check-in date. A session outside leaves the buckets unchanged. |
| PayWeek.PerDayIgnoresOtherWeeks | src/utils/time.ts:116-118 | A session outside the window changes no bucket. |
| PayWeek.PerDayMatchesDay | src/utils/time.ts:115-134 | The bucket of each day of the week holds that day's `summarizeDay` total. |
| PayWeek.PerDayWeekTotal | src/utils/time.ts:115-134 | The seven buckets of the week add up to the hours of the sessions in the window. |
| PayWeek.BucketByDate | src/utils/time.ts:115-122 | The bucketing loop produces the buckets of the window's sessions. |
| PayWeek.VisitDate | src/utils/time.ts:131-150 | One day of the walk updates the five totals. |
| PayWeek.WalkWeek | src/utils/time.ts:124-151 | The seven-day loop produces the totals of the week's seven dates. |
| PayWeek.AccumulateAccountsAll | src/utils/time.ts:130-151 | With ordered thresholds, holiday, daily-regular, daily-overtime and double-time hours sum to the hours in the buckets. |
| PayWeek.DayStepCredit | src/utils/time.ts:136-141 | A day adds the holiday credit only when it is a holiday with no hours worked and the credit is positive. |
| PayWeek.AccumulateCredit | src/utils/time.ts:136-141 | The credit hours are the credit times the number of idle holidays, or 0 when the credit is not positive. |
| PayWeek.AccumulateNoHolidays | src/utils/time.ts:136-142 | A week without holidays has no holiday hours and no credit. |
| PayWeek.AccumulateHolidayHours | src/utils/time.ts:135-137 | The holiday hours of the day loop are the hours recorded for exactly the holiday dates it visits. |
| PayWeek.AccumulateWorkdayTiers | src/utils/time.ts:143-150 | The regular, overtime and double-time totals of the day loop are the daily tiers of exactly the non-holiday dates it visits, added up. |
| PayWeek.AccumulateNonNegative | src/utils/time.ts:130-151 | Non-negative buckets and threshold give non-negative totals; the credit total is non-negative when the credit is. |
| PayWeek.Settle | src/utils/time.ts:153-163 | Weekly overtime is the week's excess over the weekly threshold (never below 0), capped by the daily-regular hours. Regular plus weekly overtime is the daily-regular hours, and overtime is weekly plus daily overtime. Regular pay is regular plus credited hours at the hourly rate. Overtime and double-time pay are their hours at the rate times their multiplier. Holiday extra pay is the holiday hours at the rate times the multiplier's excess over 1, so it is 0 when the multiplier is at most 1. The total pay is the sum of the four pays. |
| PayWeek.SummarizePayWeek | src/utils/time.ts:105-180 | The two loops and the settlement give `PayWeek` of the sessions, rules and clock. |
| PayWeek.PayWeekAccountsAll | src/utils/time.ts:153-157 | With ordered thresholds, regular + overtime + double-time + holiday hours equal `summarizeWeek`'s total for the same week, and both report the same week start (in UTC). |
| PayWeek.PayWeekOvertimeWithinWeek | src/utils/time.ts:153-155 | With ordered daily thresholds, weekly overtime is `summarizeWeek`'s overtime for the same week, capped by the week's daily-regular hours, so it never exceeds it. |
| PayWeek.PayWeekCredit | src/utils/time.ts:136-141 | The week's credit hours are one credit for every holiday of the week with no hours worked, or 0 when the credit is not positive; `Settle` pays them at the hourly rate. |
| PayWeek.PayWeekByKind | src/utils/time.ts:130-151 | The week's holiday hours are the hours worked on its holidays. Its daily-overtime and double-time hours are the tiers of its other dates, added up. |
| PayWeek.PayWeekNonNegative | src/utils/time.ts:124-157 | With a non-negative overtime threshold and credit, every hour figure is non-negative. |
| PayWeek.PayWeekDayMatchesBreakdown | src/utils/time.ts:143-147 | A non-holiday weekday is split into the same tiers as `dayBreakdown` gives. |
| PayWeek.PayWeekIgnoresOtherWeeks | src/utils/time.ts:116-118 | A session outside the week changes no figure. |
| Defaults.YmdShaped | src/utils/time.ts:52 | The date text of any day of years 0 to 9999 has the `YYYY-MM-DD` shape. |
| Defaults.DefaultThresholdsOrdered | src/config/rules.ts:4-11 | The thresholds are non-negative and 8 ≤ 12, so a day breakdown under the defaults sums to its total. |
| Defaults.DefaultHolidaysShaped | src/config/rules.ts:6 | Every default holiday has the `YYYY-MM-DD` shape. |
| Defaults.DefaultHolidaysAscending | src/config/rules.ts:6 | The default holidays are strictly ascending, sorted and distinct. |
| Defaults.DefaultMultipliers | src/config/rules.ts:8-12 | Every multiplier is at least 1, and holiday extra pay is non-negative under the defaults. |
| Defaults.DefaultEightHourDay | src/config/rules.ts:4-13 | The expected day, the daily overtime threshold and the holiday credit are all 8 hours. |
| Defaults.DefaultTenHourDay | src/config/rules.ts:10-11 | A 10-hour day splits into 8 regular and 2 overtime hours. |
| Defaults.DefaultFourteenHourDay | src/config/rules.ts:10-11 | A 14-hour day splits into 8 regular, 4 overtime and 2 double-time hours. |
| Defaults.DefaultIndependenceDay | src/config/rules.ts:6 | 2025-07-04 is a holiday and never flagged early. |
| Export.FindUser | src/utils/export.ts:12 | The first user with the session's id; absent iff no user has it. |
| Export.UserRules | src/utils/export.ts:12-13 | The base rules merged with the found user's terms, or the base rules for an unknown user. |
| Export.UserColumn | src/utils/export.ts:17 | The user's name when found and non-empty, else the session's user id. |
| Export.CheckOutColumn | src/utils/export.ts:19 | Empty exactly for an open session. |
| Export.TimesheetDateAndUser | src/utils/export.ts:10-17 | The first field is the check-in date and the second the user column. |
| Export.TimesheetTimes | src/utils/export.ts:11-20 | The next three fields are the check-in time, the check-out column and `fixed2` of the hours. |
| Export.TimesheetFlags | src/utils/export.ts:13-22 | The flags are exactly `yes`/`no`: holiday iff the date is one of the user's merged holidays, early iff not a holiday and 0 < hours < the user's expected day. |
| Export.TimesheetFieldsAvoid | src/utils/export.ts:15-23 | When no name, user id or written number holds a comma (or line break), no field does. |
| Export.TimesheetRowFields | src/utils/export.ts:15-23 | Without commas in names, ids and written numbers, splitting a line at its commas gives back its seven fields. |
| Export.TimesheetCommaInName | src/utils/export.ts:15-23 | A comma in the user column splits the line into more fields than the header has. |
| Export.TimesheetRowsInOrder | src/utils/export.ts:9-24 | The k-th row is the line of the k-th session. |
| Export.TimesheetLines | src/utils/export.ts:6-25 | Split at line breaks, the text is the header line followed by one line per session, with nothing trailing. |
| Export.TimesheetLine | src/utils/export.ts:10-23 | Builds the line of one session. |
| Export.GenerateTimesheetCsv | src/utils/export.ts:5-26 | The push loop produces the header line and the session lines, joined by line breaks. |
| Export.PayForIgnoresOthers | src/utils/export.ts:33-35 | Another user's session does not change a user's pay. |
| Export.PayForAccountsAll | src/utils/export.ts:33-35 | A user's hour columns add up to the week's hours of that user's sessions under that user's rules (in UTC). |
| Export.PayrollFieldsAvoid | src/utils/export.ts:36-48 | When the name and written numbers hold no given character, no field does. |
| Export.PayrollRowFields | src/utils/export.ts:36-48 | Without commas, a payroll line splits back into the name and the ten written figures. |
| Export.PayrollRowsInOrder | src/utils/export.ts:32-49 | The k-th row is the line of the k-th user. |
| Export.PayrollLines | src/utils/export.ts:29-50 | Split at line breaks, the text is the header line followed by one line per user. |
| Export.PayrollLine | src/utils/export.ts:33-48 | Builds one user's line from that user's pay week. |
| Export.GeneratePayrollCsv | src/utils/export.ts:28-51 | The push loop produces the header line and the user lines, joined by line breaks. |
| Seqs.Filter | src/utils/time.ts:71 | The kept elements are exactly those of the list that pass the test. |
| Seqs.Dedupe | App.tsx:283 | `new Set`: no repeats and the same elements. |
| Strings.SortStrings | App.tsx:283 | `sort()`: sorted in string order and a permutation of the input. |
| Strings.SplitJoin | src/utils/export.ts:23 | Joining parts free of the separator and splitting again gives back the parts. |
| App.EnsureNumber | App.tsx:2729-2732 | The number when finite, else the fallback. |
| App.NormalizeRules | App.tsx:2728-2746 | Each setting keeps its number when finite, else the default's value. The holidays are kept when an array, else the default list. |
| App.NormalizeKeeps | App.tsx:2728-2746 | Normalizing a settings record changes nothing. |
| App.NormalizeIdempotent | App.tsx:2728-2746 | Normalizing twice is normalizing once. |
| App.NormalizeUnreadable | App.tsx:2728-2746 | An object with nothing readable normalizes to the defaults. |
| App.SavedRules | App.tsx:262-276 | A finite non-zero input sets its setting. Zero or `NaN` keeps the previous value. An infinity falls back to the default. The holidays are kept. |
| App.DefaultsNonZero | src/config/rules.ts:3-14 | No default setting is zero. |
| App.SavedNeverZero | App.tsx:264-272 | The settings form can never turn a non-zero setting into zero. |
| App.SavedEcho | App.tsx:251-272 | Saving a form that still shows the current settings changes nothing. |
| App.AddedHolidays | App.tsx:282-283 | The new list holds the new date and every old date, nothing else, with no repeats, in ascending order. |
| App.AddedHolidaysPresent | App.tsx:282-283 | A date already in a sorted list without repeats leaves the list unchanged. |
| App.AddedHolidaysTwice | App.tsx:280-288 | Adding the same date twice is adding it once. |
| App.WithHolidayAdded | App.tsx:280-288 | An input that does not match `^\d{4}-\d{2}-\d{2}$` changes nothing. Otherwise only the holiday list changes. |
| App.WithHolidayRemoved | App.tsx:290-296 | Only the holiday list changes, to the dates other than the removed one. |
| App.RemovedCounts | App.tsx:291-292 | Every occurrence of the date goes. Every other date stays as often as it was there. |
| App.RemovedInOrder | App.tsx:291-292 | The remaining dates keep their order. |
| App.RemovedAbsent | App.tsx:290-296 | Removing a date not in the list changes nothing. |
| App.ParseOverride | App.tsx:1060-1064 | Nothing for blank text or a non-finite number, else the number. |
| App.WithSetting | App.tsx:1072 | Sets one setting of the override and leaves the rest. |
| App.MaybeSet | App.tsx:1069-1074 | Sets the setting iff its text parses, and changes nothing else. |
| App.CallOrderCovers | App.tsx:1075-1083 | The nine calls hand over every setting exactly once. |
| App.CleanedOverride | App.tsx:1066-1084 | No override iff no text parses. Otherwise each setting is what its text parses to, and there is no holiday list. |
| App.CleanOverrides | App.tsx:1068-1084 | The `maybeSet` steps produce the cleaned override. |
| App.ReplaceById | App.tsx:1086 | The user list keeps its length. |
| App.ReplaceByIdAt | App.tsx:1086 | Users with the updated id are replaced and all others stay in place. |
| App.ReplaceByIdFinds | App.tsx:1085-1086 | After the replacement, looking the id up finds the updated user. |
| App.SavedOverridesResolve | App.tsx:1066-1089 | After saving, the user's resolved rules take each setting from the form when it parses, else from the company rules, and keep the company holidays. |
| App.WorkerId | App.tsx:151 | A viewer id exists iff the viewer is a user with a non-empty id. |
| App.SessionsForCurrentUser | App.tsx:80-83 | A user sees exactly their own sessions. Anyone else sees all. |
| App.SessionsForCurrentUserInOrder | App.tsx:81 | The view keeps the stored order. |
| App.ResolveRulesForUser | App.tsx:84-91 | No or an empty id gives the company rules, and so does an unknown id. Otherwise the company rules merged with that user's terms. |
| App.ResolveMatchesExport | App.tsx:84-91 | The app and the exports resolve the same rules for a user. |
| App.DefaultAdminBreaksTimesheet | App.tsx:110 | The default administrator "Lei, Nicky" gets timesheet lines with more fields than the header. |
| App.Closed | App.tsx:167 | The closed session keeps the id, user and check-in, and takes `now` as its check-out. Its hours are the elapsed time, or 0. |
| App.Tracker.constructor | App.tsx:70-75 | No sessions, nothing open, the default rules, nobody signed in, no users. |
| App.Tracker.CheckIn | App.tsx:149-162 | No-op while a session is open or when the viewer is not a user with an id. Otherwise opens a session of that user at `now`. |
| App.Tracker.CheckOut | App.tsx:164-177 | No-op with nothing open. Otherwise puts the closed session in front of the stored ones, leaves them unchanged, and clears the open session. Keeps "every stored session is closed". |
| App.Tracker.SaveRules | App.tsx:262-278 | The settings become the saved settings and nothing else changes. |
| App.Tracker.AddHoliday | App.tsx:280-288 | The settings become those with the holiday added and nothing else changes. |
| App.Tracker.RemoveHoliday | App.tsx:290-296 | The settings become those with the holiday removed and nothing else changes. |
| App.Tracker.SaveUserOverrides | App.tsx:1066-1089 | No-op without a selected user. Otherwise the user with that id gets the cleaned override. |

## Left out

- Floating point: hours and money are exact reals. IEEE rounding, and the text `toFixed(2)` writes, are not modelled; `fixed2` is a parameter.
- `Number(text)` is the parameter `num`. `normalizeRules` is given each stored field already converted by `Number`. The holiday field is given as present when it is an array. An array of non-strings is not modelled.
- Timezones: the model is in UTC throughout. The source's `getMonday` uses local `getDay`/`setHours`, so on a device away from UTC its week can start at a different moment than the UTC week modelled here. Worse, off UTC `summarizePayWeek` buckets sessions by their UTC date but walks the UTC dates of local midnights, so it can drop hours that `summarizeWeek` counts: in UTC−5 a check-in at local Sunday 20:00 is Monday 01:00Z, inside the window, yet its date is never walked.
- PayWeek.PayWeekAccountsAll: holds in UTC, the only timezone modelled; off UTC the source's pay week can miss hours of the week, as described above.
- Export.PayForAccountsAll: holds in UTC only, for the same reason.
- Date parsing: a session's `checkIn`/`checkOut` are ISO strings in the source and integer milliseconds here. The timesheet writes them back with `IsoTimestamp`. Strings that are not valid dates are not modelled.
- The clock: `new Date()` and `Date.now()` are the parameter `now`. `checkIn` takes both its id and its check-in time from the same `now`. Export.GeneratePayrollCsv uses one `now` for every user, while the source's `summarizePayWeek` reads the clock again for each user; the two differ only when a week boundary passes during the export.
- Storage and UI: AsyncStorage reads and writes, `setHolidayNew('')`, `Share`, `Alert`, the views and the module-level caches are not modelled. The `try`/`catch` around storage writes is not modelled either.
- Users: only the id, name and terms of a user are modelled. The other fields of the app's `User` are not read by the modelled code.
- `rules.holidays ?? []`: the holiday list is always present in a settings record, so the `?? []` fallback never applies.
- Strings.SortStrings: JavaScript's default `sort()` compares UTF-16 code units, while the model compares characters. The two orders differ only for characters outside the Basic Multilingual Plane, which a `YYYY-MM-DD` date never contains.
- App.CleanOverrides: the nine `maybeSet` calls are modelled as one loop over the settings in the same call order.
- Behaviour worth knowing, as the code does it:
  - `saveRules` keeps an infinite input, which normalization then replaces by the default.
  - When the double-time threshold is below the overtime threshold, `dayBreakdown` counts hours twice.
  - CSV fields are joined without quoting, so names with commas shift the columns.
