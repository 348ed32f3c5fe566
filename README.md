# Write-off deadline classifier

A Dafny model of the write-off monitor in `main.js`. Each worksheet of the
spreadsheet is one unit's weekly grid: column 1 names an ingredient, and
weekday `w` (Monday 1 ... Sunday 7) owns column `2w` for the due times and
column `2w + 1` for the check boxes. For the current weekday the monitor
takes every row whose due cell holds a date and moves that time of day onto
today's date. It computes the seconds left until that time, negative once
overdue. It then runs a list of event filters over those seconds and
reports, per worksheet, the distinct event types that fired. Worksheets
with no events are left out of the report.

Files and modules:

- `filters.dfy` (`Filters`) holds the two filter kinds as one datatype with
  `IsSatisfied`. `TimeBeforeExpire` is an inclusive range. `AlreadyExpired`
  matches periodically: it has a guard, then a window around the rounded
  multiple of the interval. The file also defines `Math.round`, the
  default filter list and the filter-by-filter event list `Fired`.
- `time_utilities.dfy` (`TimeUtilities`) holds the weekday remap, date
  normalization and the exact seconds-before-expiry.
- `columns.dfy` (`Columns`) holds the weekday column pair, the letter
  table `columnNumberToChar` and the A1 range string.
- `worksheet.dfy` (`WorksheetSelector`) reads one weekday's rows out of a
  worksheet value, from the columns its A1 range string names.
- `write_offs.dfy` (`WriteOffs`) holds the raw cell values,
  `isWriteOffDateValid` and `filterWriteOffs`.
- `handler.dfy` (`WriteOffsHandler`) holds `findWriteOffs` and
  `findWriteOffsInWorksheets`. `findWriteOffs` is modelled twice: as the
  specification function `WorksheetEvents` and as the method
  `FindWriteOffs`. Its outer loop is `CollectEvents` and its inner loop
  `AddFiredEvents`. The file
  also holds `main`'s run with the default filters.
- `sequences.dfy` (`Sequences`) holds the JavaScript behaviour those rely
  on. `Array.prototype.filter` is characterised through the positions it
  keeps. `Set.prototype.add` is modelled on an insertion-ordered set, whose
  order `Array.from` reports.

Behaviour of the code that is easy to misread, and that the model keeps:

- Ticked check boxes do not exclude a row. `filterWriteOffs` carries
  `isChecked` along and never reads it, so checked rows are classified like
  any other (`WriteOffs.FilterWriteOffs` keeps every date row).
- `Math.round` rounds ties towards +infinity, not away from zero
  (`Round(-0.5) == 0`), and `Filters.Round` does the same.
- The guard of `AlreadyExpiredFilter` does not stop the periodic repeat. It
  only cuts off values more than the deviation ahead of the due time. After
  expiry the filter fires again near every negative multiple of the interval
  (`Filters.AlreadyExpiredRepeats`).
- The code reports event types per worksheet and nothing more: it matches
  no worksheet against a unit directory, dispatches no event, colours no
  cell and does not tag events with their row and column.

## Model

| member | source | states |
|---|---|---|
| Filters.Round | main.js:22-24 | `Math.round(v)` lies in (v - 1/2, v + 1/2]: a nearest integer, ties towards +infinity |
| Filters.EventFilter.IsSatisfied | main.js:8-32 | a range filter fires only when its range is non-empty; the periodic filter fires only at most the deviation ahead, with a non-zero interval and a non-negative deviation (the full condition is `AlreadyExpiredMeaning`) |
| Filters.RoundIsNearest | main.js:22-24 | the rounded value is within 1/2 of `v` and no integer is closer to `v` |
| Filters.RoundedMultipleIsNearest | main.js:22-31 | if any multiple of the interval is within the deviation of `x`, the multiple `isSatisfied` picks by rounding is too |
| Filters.AlreadyExpiredMeaning | main.js:20-32 | `AlreadyExpiredFilter.isSatisfied(x)` holds iff `x <= deviation`, the interval is non-zero, and `x` is within the deviation of some integer multiple of the interval |
| Filters.AlreadyExpiredRepeats | main.js:20-32 | once overdue the filter fires around every multiple `k * interval` (k <= 0), at any offset within the deviation |
| Filters.AlreadyExpiredDefaultExamples | main.js:20-32 | with (600, 30): 0, 30, -30, -570, -600 and -630 fire; 31, -31 and -300 do not |
| Filters.RangeIsInclusive | main.js:8-10 | the range filter includes both ends: (270, 330) accepts 270 and 330 and rejects 269 and 331 |
| Filters.RangeFilterBounds | main.js:8-10 | range filters with non-overlapping ranges never fire for the same value; a range filter fires wherever one with a range inside its own fires |
| Filters.Fired | main.js:137-143 | the inner loop adds at most one event type per filter |
| Filters.FiredMembers | main.js:137-143 | the event types listed for one value are exactly those of the filters it satisfies |
| Filters.DefaultFiltersFireAtMostOnce | main.js:161-166 | no value satisfies two of the default filters, so one write-off fires at most one default event |
| Filters.FiveMinutesAheadFiresOnlyFiveMinutes | main.js:161-166 | 300 seconds ahead fires `EXPIRE_AT_5_MINUTES` and nothing else |
| TimeUtilities.GetWeekdayFromDate | main.js:45-48 | the weekday is in 1..7 and congruent to the native day mod 7: Sunday 0 becomes 7, 1..6 stay |
| TimeUtilities.NormalizeDate | main.js:54-64 | the result has the calendar day of the clock reading, the cell's hours, minutes and seconds, and zero milliseconds |
| TimeUtilities.NormalizeDateIdempotent | main.js:54-64 | normalizing twice against the same day gives the same date as normalizing once |
| TimeUtilities.NormalizeDateKeepsOnlyTimeOfDay | main.js:54-64 | two cells normalize to the same date iff they show the same time of day |
| TimeUtilities.CalculateTimeBeforeExpire | main.js:68-70 | `now + seconds * 1000` is the due time; negative iff overdue, zero iff due now |
| Columns.CalculateColumnNumberByWeekday | main.js:73-78 | the date column is the even column `2w` and the check box column the next one; for weekdays 1..7 both lie in 2..15 |
| Columns.ColumnNumberToChar | main.js:80 | the table yields a letter exactly for columns 1..15, the letter naming that column; `null` at 0; `undefined` elsewhere |
| Columns.WriteOffsRange | main.js:101-105 | for weekdays 1..7 the range is `name!X2:Y` with X and Y the letters of the weekday's two columns |
| Columns.WeekdayColumnsHaveLetters | main.js:101-103 | for every weekday both lookups give adjacent letters, never `null` or `undefined`, naming back columns `2w` and `2w + 1` |
| WorksheetSelector.GetWriteOffsByWeekday | main.js:100-110 | reads the columns whose letters the weekday's A1 range names: one raw row per worksheet row from row 2 down, holding the cells of the weekday's date and check box columns |
| Sequences.Filter | main.js:89 | `filter` returns no more elements than its input, and each passes the test |
| Sequences.KeptIndexAt | main.js:89 | the k-th element `filter` keeps passes the test and is the input element at the k-th kept position |
| Sequences.KeptIndicesSelect | main.js:89 | every element `filter` keeps passes the test and is the input element at its kept position |
| Sequences.KeptIndicesIncrease | main.js:89 | `filter` keeps the input order |
| Sequences.KeptIndicesComplete | main.js:89 | `filter` drops no element that passes the test |
| WriteOffs.IsWriteOffDateValid | main.js:83-86 | a row is valid exactly when its due cell holds a `Date`; the string test never changes the verdict |
| WriteOffs.FilterWriteOffs | main.js:83-92 | keeps exactly the rows whose date cell is a `Date`, in order, no more than the input, each with its check box unchanged and its date normalized |
| WriteOffs.DateRowIsKept | main.js:88-91 | every row with a `Date`, checked or not, reaches classification with its check box and its normalized date |
| Sequences.Dedup | main.js:128 | the events a `Set` holds contain no duplicates |
| Sequences.DedupMembers | main.js:146 | `Array.from(set)` lists every added event type and no other |
| Sequences.AddToSet | main.js:140 | after `add`, the value is present, the members are the old ones and the value, the old insertion order is kept, and the set grows by one exactly when the value is new; no duplicate is ever created |
| Sequences.DedupAppend | main.js:140 | one more `add` to the set of all values added so far: the value is present, the set grows by one exactly when the value was never added before, and the earlier order is kept |
| WriteOffsHandler.SecondsBeforeExpire | main.js:132-135 | `now + seconds * 1000` is the normalized due time, negative exactly when it has passed |
| WriteOffsHandler.KeptWriteOffs | main.js:122-126 | no more write-offs than rows below the header, each on today's calendar day with no milliseconds |
| WriteOffsHandler.FiredAllMembers | main.js:130-144 | the nested loops add exactly the event types of filters that fire for some kept write-off |
| WriteOffsHandler.WorksheetEvents | main.js:121-148 | `unitName` is the worksheet's name; `events` has no duplicates and holds exactly the event types of filters satisfied by at least one kept row |
| WriteOffsHandler.AddFiredEvents | main.js:137-143 | the inner loop leaves in the set exactly what adding, in filter order, the event type of every filter that fires would leave |
| WriteOffsHandler.CollectEvents | main.js:128-144 | the nested loops leave in the set the distinct fired event types in order of first firing |
| WriteOffsHandler.FindWriteOffs | main.js:121-148 | `findWriteOffs` returns exactly what `WorksheetEvents` specifies |
| WriteOffsHandler.RunHandlers | main.js:153-154 | one result per handler, in handler order, each that handler's `findWriteOffs` |
| WriteOffsHandler.FindWriteOffsInWorksheets | main.js:152-156 | keeps handler order, never returns an entry with no events, and drops no handler whose result has events |
| WriteOffsHandler.EventsComeFromFilters | main.js:137-141 | every reported event is the event type of one of the handler's filters |
| WriteOffsHandler.DefaultHandlerEvents | main.js:161-166 | with the default filters a worksheet reports only the four default event types |
| WriteOffsHandler.DefaultHandlers | main.js:170-172 | one handler per worksheet, in worksheet order, each with the four default filters |
| WriteOffsHandler.MainWriteOffs | main.js:159-174 | `main`'s report is `findWriteOffsInWorksheets` over the default handlers: every entry is one worksheet's result and has events, every worksheet with events is reported, and only the four default event types occur |
| WriteOffsHandler.FiveMinutesAheadIsReported | main.js:121-148 | a date cell in today's column due exactly 5 minutes from now makes its worksheet report `EXPIRE_AT_5_MINUTES`, exactly once |

## Left out

- The clock: `TimeUtilities.now()` with its fixed +3 hour shift and the
  `weekday()` wrapper read the system time. The reading `findWriteOffs`
  receives is the parameter `now`. The calendar day `normalizeDate` reads
  from its own clock readings is the separate parameter `today`, so it may
  differ from the day of `now`, as it can in the code.
- WriteOffs.FilterWriteOffs: `normalizeDate` reads the clock anew for every
  kept row of every worksheet. The model gives all those readings the one
  calendar day `today`. A run that crosses midnight between two rows
  normalizes them onto different days in the code but not in the model.
- The spreadsheet service: `SpreadsheetApp.getActive().getSheets()`,
  `getName`, `getRange` and `getValues` are foreign calls. A worksheet is a
  value, a name plus its grid of cells. What `getValues` returns for the
  weekday's range is computed from the grid, and a blank cell reads as the
  empty string.
- The model assumes `getRange` and `getValues` succeed. It does not model a
  sheet too narrow for the weekday's columns (missing cells read as blank
  instead), a ragged grid (a real sheet is rectangular), or a worksheet name
  that is not usable in an A1 range string.
- `console.log` of the report is output. `MainWriteOffs` returns the report
  instead.
- JavaScript `Date` internals: reading local fields and `getDay()` from an
  epoch value, and the `Date` constructor's conversion of local fields to
  epoch milliseconds (time zone, daylight saving, overflowing fields). Dates
  are given by their fields. The conversion is the function parameter
  `toEpoch`, about which nothing is assumed. Invalid dates (NaN fields)
  are not modelled.
- Floating point: seconds are exact `real`s and epoch times exact
  integers. The IEEE-754 rounding of the two divisions is not modelled. A
  zero interval is modelled by its IEEE outcome: NaN or an infinity, which
  makes every comparison false.
- WorksheetSelector.GetWriteOffsByWeekday: requires a weekday in 1..7. Its
  only caller passes `getWeekdayFromDate`'s result. For any other weekday
  the range would name the columns `null` or `undefined`, and that
  spreadsheet call is not modelled.
- The handler and filter classes are datatypes because their fields are
  never changed after construction. `findWriteOffs`'s two nested loops
  are the methods `CollectEvents` (outer) and `AddFiredEvents` (inner),
  which `FindWriteOffs` calls.
