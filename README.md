# Booking statistics of the timetracker controller

This project models the aggregation inside `calculateBookingStatistic` of the
timetracker's statistics controller. The controller has already fetched the
bookings, the persons (indexed by id) and the projects (indexed by id). It
then does the following:

- It walks the bookings once. For each booking it computes the work time:
  finish minus start, less the pause, read off as moment's `hours()`
  component. It adds that work time to three plain JavaScript objects, keyed
  by the booking's day label, its project key and its employee's full name.
- A missing property, or one whose value is 0, is first set to 0. This is the
  falsy test.
- It turns each object into parallel `labels` / `data` lists. The labels come
  from `_.keys`, and each value is read back label by label.
- It returns the three series with a timestamp and `totalEntries`. The day
  series' data is wrapped as a single row.

The model is written in the source's own form:

- Each of the three objects is a class, `Totals.HoursMap`. Its fields are the
  property values (`sums`) and the property creation order (`created`), both
  updated in place by `Add`.
- The walk over the bookings is a loop (`StatisticController.AccumulateHours`).
  Its body is the `_.each` callback (`StatisticController.CountBooking`).
- Reading values back by label is another loop (`Totals.HoursMap.ValuesOf`).
- `StatisticController.CalculateBookingStatistic` is proved equal to the
  function `StatisticController.StatisticOf`. That function states what the
  result is meant to be: for each series, the distinct labels, and for each
  label the sum of the work times of the bookings carrying it
  (`Series.SeriesOf`).

The lemmas in `StatisticProperties` then state what the controller promises
about its result. Each label's value is the work time of exactly the bookings
with that label. The three series share one grand total. Labels are
distinct, and they appear in first-seen order. An empty booking list gives
empty series, the day data being `[[]]`. A booking whose person is missing
makes the computation fail.

Some JavaScript semantics are modelled explicitly in `JsSemantics`:

- **Truncating division and remainder.** Moment's `hours()` truncates toward
  zero at each unit and takes the JavaScript remainder by 24. A duration
  longer than a day therefore wraps, and a negative one gives a non-positive
  value.
- **Decimal numerals with zero padding.** These are used by the label format
  `'l'`. In English it is `M/D/YYYY`; in German it is `D.M.YYYY`, the form
  the controller's doc comment shows (`'3.3.2000'`).
- **The order in which `Object.keys` lists properties.** Array-index keys
  come first in ascending numeric order, then the other keys in creation
  order. The model proves that no label is an array index: day labels contain
  `/` or `.`, full names contain a space, and project keys are fixed words.
  So `_.keys` yields the labels in first-seen order.

The project key follows the code, not the doc comment. Lines 26-28 of the
controller show project labels such as `'P1'`. Line 81, however, keys the
totals by `projectMap[booking.projectId]`, which is the project record
itself. The model takes a project record to be a plain object, which as a
property name becomes `"[object Object]"`; a missing project gives
`"undefined"`. The model therefore has at most these
two project labels (`StatisticProperties.ProjectLabelsCollapse`), and all
known projects share one total.

A booking whose `personId` is not in the person map makes line 89 read
`forename` of `undefined`. That throws a TypeError before the employee total
is touched. The model returns `Err(UnknownPerson(id))` for the first such
booking.

Names are labels too. Two employees with the same full name share one total.
Between forenames without spaces, the full name tells the people apart
(`Bookings.FullNameInjective`). Day labels always name their day, whatever
the locale (`Bookings.DayLabelInjective`).

## Model

| member | source | states |
|---|---|---|
| JsSemantics.TruncRem | app/controller/StatisticController.js:74 | JavaScript `%`: the remainder has the sign of the dividend and is smaller than the divisor in magnitude; it equals the Euclidean remainder on non-negative dividends. |
| JsSemantics.TruncDivRem | app/controller/StatisticController.js:74 | The truncating quotient and the JavaScript remainder recompose the dividend: `TruncDiv(a, b) * b + TruncRem(a, b) == a`. |
| JsSemantics.TruncDivTowardZero | app/controller/StatisticController.js:74 | Moment's whole-unit truncation: it agrees with floor division on non-negative numbers and is odd, `TruncDiv(-a, b) == -TruncDiv(a, b)`. |
| JsSemantics.NumberToString | app/controller/StatisticController.js:75 | `String(n)` is a non-empty string of digits, with a leading zero only for 0. |
| JsSemantics.NumberToStringRoundTrip | app/controller/StatisticController.js:75 | Reading the numeral of `n` back as a decimal gives `n`. |
| JsSemantics.ZeroFillPads | app/controller/StatisticController.js:75 | The `YYYY` padding gives at least `width` characters: zeros, then the unchanged numeral. |
| JsSemantics.NumberToStringInjective | app/controller/StatisticController.js:75 | Distinct numbers have distinct numerals. |
| JsSemantics.ZeroFillValue | app/controller/StatisticController.js:75 | Padding with zeros keeps a numeral a numeral of the same number. |
| JsSemantics.SplitFields | app/controller/StatisticController.js:75 | Two numerals and a rest, joined by a non-digit separator, split back in one way only. |
| JsSemantics.NonDigitIsNotArrayIndex | app/controller/StatisticController.js:97 | A key containing a non-digit is never an array index. |
| JsSemantics.NumberToStringIsArrayIndex | app/controller/StatisticController.js:97 | A numeral is an array index exactly when its value is at most 2^32 - 2. |
| JsSemantics.SortByIndex | app/controller/StatisticController.js:97 | The array-index keys, rearranged: the same multiset, all array indices. |
| JsSemantics.SortByIndexAscending | app/controller/StatisticController.js:97 | The sorted array-index keys ascend numerically. |
| JsSemantics.OwnKeys | app/controller/StatisticController.js:97 | `_.keys` lists every own property exactly as often as it was created (a permutation of the creation order); when no key is an array index it is the creation order itself. |
| JsSemantics.OwnKeysOrder | app/controller/StatisticController.js:97 | Every array-index key precedes every other key, array indices ascend, and the other keys keep their creation order. |
| JsSemantics.NoDuplicatesPermutation | app/controller/StatisticController.js:97 | A rearrangement of duplicate-free keys is duplicate-free, so `_.keys` repeats no label. |
| Bookings.NetMillis | app/controller/StatisticController.js:74 | Finish minus start, less the pause in milliseconds (no contract of its own; see the next row and `WorkTime`). |
| Bookings.PauseShortensNetMillis | app/controller/StatisticController.js:74 | Each extra minute of pause takes 60000 milliseconds off the net duration. |
| Bookings.WorkTime | app/controller/StatisticController.js:74 | The work time lies strictly between -24 and 24. For a non-negative net duration it is the whole hours modulo 24; for a negative one it is at most 0. |
| Bookings.WorkTimeIsWholeHours | app/controller/StatisticController.js:74 | Below one day, the work time is the net duration in whole hours, with the fraction discarded. |
| Bookings.WorkTimeDropsWholeDays | app/controller/StatisticController.js:74 | A booking exactly one day longer has the same work time. |
| Bookings.DayLabel | app/controller/StatisticController.js:75 | Format `'l'`: `M/D/YYYY` in English and `D.M.YYYY` in German, the year padded to four digits (no contract of its own; see the next two rows). |
| Bookings.DayLabelInjective | app/controller/StatisticController.js:75 | Two dates with the same day label, in either locale, are the same date. |
| Bookings.DayLabelIsNotArrayIndex | app/controller/StatisticController.js:75 | No day label is an array index. |
| Bookings.ProjectKey | app/controller/StatisticController.js:81-82 | The project record as a property name: `"[object Object]"` for a known project, `"undefined"` for a missing one (no contract of its own; see `ProjectKeysAgree` and `ProjectKeysCollapse`). |
| Bookings.ProjectKeyIsNotArrayIndex | app/controller/StatisticController.js:81-82 | No project key is an array index. |
| Bookings.FullName | app/controller/StatisticController.js:89 | Forename, a space, surname (no contract of its own; see the next two rows). |
| Bookings.FullNameInjective | app/controller/StatisticController.js:89 | Between forenames without spaces, the same full name means the same forename and the same surname. |
| Bookings.FullNameIsNotArrayIndex | app/controller/StatisticController.js:89 | No full name is an array index. |
| Bookings.ProjectKeysAgree | app/controller/StatisticController.js:81 | Two bookings get the same project key exactly when both projects are known or both are missing. |
| Series.SumWhereSnoc | app/controller/StatisticController.js:76-79 | One more booking raises exactly its own label's total by its amount. |
| Series.SumWhereAbsent | app/controller/StatisticController.js:76-79 | A label that no booking carries totals 0. |
| Series.FirstOccurrencesDistinct | app/controller/StatisticController.js:76-78 | The first-seen keys are duplicate-free, and they are exactly the keys that occur. |
| Series.FirstOccurrencesSnoc | app/controller/StatisticController.js:76-78 | A new key is created at the end; an existing one is not moved. |
| Series.FirstOccurrencesOrdered | app/controller/StatisticController.js:76-78 | The first-seen keys are ordered by the position where each first occurs. |
| Series.TotalsOfSnoc | app/controller/StatisticController.js:76-79 | One more booking creates its label at 0 if it is new, adds its amount to it, and leaves every other total alone. |
| Series.TotalsAt | app/controller/StatisticController.js:98-101 | The value at each position is the total of the label at that position. |
| Series.SeriesOf | app/controller/StatisticController.js:97-101 | The labels and values have equal length, the labels are distinct, and a label appears exactly when some booking carries it. |
| Series.SeriesValues | app/controller/StatisticController.js:97-101 | Each value is the total of its label, and each label is a key that occurs. |
| Series.TotalsSumPermutation | app/controller/StatisticController.js:97-101 | The sum of the totals does not depend on the order of the labels. |
| Series.FirstOccurrencesConserve | app/controller/StatisticController.js:76-79 | The totals of the distinct keys add up to the sum of all amounts. |
| Series.SeriesConserves | app/controller/StatisticController.js:76-101 | A series' values add up to the sum of all amounts. |
| Series.SeriesInFirstSeenOrder | app/controller/StatisticController.js:97 | When no key is an array index, the labels are the distinct keys in first-seen order. |
| Totals.HoursMap.constructor | app/controller/StatisticController.js:68-70 | `{}` has no properties and stands for no bookings. |
| Totals.HoursMap.Add | app/controller/StatisticController.js:76-79 | The falsy test and the addition: the new value is the old value (or 0) plus the amount; the key is created at the end only if it was missing; the object still holds the totals of the bookings seen, one more added. |
| Totals.HoursMap.Keys | app/controller/StatisticController.js:97 | `_.keys` gives each property once, and these are the labels the series is meant to have. |
| Totals.HoursMap.ValuesOf | app/controller/StatisticController.js:98-101 | The values pushed are the property values of the labels, in label order. |
| StatisticController.Hours | app/controller/StatisticController.js:74 | One work time per booking (the content is stated by `HoursAt`). |
| StatisticController.DayKeys | app/controller/StatisticController.js:75 | One day label per booking (the content is stated by `DayKeysAt`). |
| StatisticController.ProjectKeys | app/controller/StatisticController.js:81 | One project key per booking (the content is stated by `ProjectKeysAt`). |
| StatisticController.EmployeeKeys | app/controller/StatisticController.js:88-89 | One full name per booking (the content is stated by `EmployeeKeysAt`). |
| StatisticController.HoursAt | app/controller/StatisticController.js:74 | Position i holds booking i's work time. |
| StatisticController.DayKeysAt | app/controller/StatisticController.js:75 | Position i holds booking i's day label. |
| StatisticController.ProjectKeysAt | app/controller/StatisticController.js:81 | Position i holds booking i's project key. |
| StatisticController.EmployeeKeysAt | app/controller/StatisticController.js:88-89 | Position i holds the full name of booking i's person, who is known. |
| StatisticController.PrefixStep | app/controller/StatisticController.js:73 | Each per-booking sequence of a prefix grows by exactly the next booking's entry. |
| StatisticController.AllPersonsKnownIff | app/controller/StatisticController.js:88 | Every person is known exactly when each booking's `personId` is in the person map. |
| StatisticController.FirstUnknownPerson | app/controller/StatisticController.js:88-89 | There is no failure exactly when every person is known. Otherwise it names a booking whose person is missing, all earlier persons being known. |
| StatisticController.FirstUnknownPersonAt | app/controller/StatisticController.js:88-89 | A missing person after only known ones is the one the failure names. |
| StatisticController.SeriesFrom | app/controller/StatisticController.js:97-113 | The labels and values read from one object form the series it is meant to produce. |
| StatisticController.CountBooking | app/controller/StatisticController.js:73-95 | One callback run adds the work time under the day label and the project key, then under the full name when the person is found. Whether the person was found is reported. |
| StatisticController.AccumulateHours | app/controller/StatisticController.js:68-95 | After the walk, the three objects hold the totals of all bookings, or the walk names the first booking with a missing person. |
| StatisticController.CalculateBookingStatistic | app/controller/StatisticController.js:68-130 | The computed result is exactly `StatisticOf`: the failure for the first unknown person, or the timestamp, the booking count and the three series. |
| StatisticProperties.DayTotal | app/controller/StatisticController.js:75-79 | A label's total in the day series is the work time of exactly the bookings whose day label it is. |
| StatisticProperties.HoursWhereAgree | app/controller/StatisticController.js:76-79 | Two selections that pick the same bookings give the same total. |
| StatisticProperties.DayTotalOfDate | app/controller/StatisticController.js:75-79 | The total under a date's day label is the work time of exactly the bookings on that date. |
| StatisticProperties.ProjectTotal | app/controller/StatisticController.js:81-85 | A project key's total is the work time of exactly the bookings with that key. |
| StatisticProperties.EmployeeTotal | app/controller/StatisticController.js:88-94 | A full name's total is the work time of exactly the bookings whose person has that name. |
| StatisticProperties.LabelTotals | app/controller/StatisticController.js:97-121 | Labels and values have equal length in every series; the day data is one row; the value at i is the work time of the bookings with label i. |
| StatisticProperties.DayLabelsDistinct | app/controller/StatisticController.js:97 | Day labels are distinct, and a day appears exactly when some booking falls on it. |
| StatisticProperties.ProjectLabelsDistinct | app/controller/StatisticController.js:103 | Project labels are distinct, and a key appears exactly when some booking carries it. |
| StatisticProperties.EmployeeLabelsDistinct | app/controller/StatisticController.js:109 | Employee labels are distinct, and a name appears exactly when some booking's person has it. |
| StatisticProperties.SeriesShareGrandTotal | app/controller/StatisticController.js:76-94 | Conservation: the day values, the project values and the employee values each add up to the sum of all work times. |
| StatisticProperties.HoursSum | app/controller/StatisticController.js:74 | The sum of all work times is the work time summed over every booking. |
| StatisticProperties.LabelsInFirstSeenOrder | app/controller/StatisticController.js:76-109 | Each series lists its labels in the order their first booking appears. |
| StatisticProperties.ProjectKeysCollapse | app/controller/StatisticController.js:81 | Every project key is `"[object Object]"` or `"undefined"`; the first occurs iff some project is known, the second iff some project is missing. |
| StatisticProperties.ProjectLabelsCollapse | app/controller/StatisticController.js:81-85 | The only project labels are `"[object Object]"` (present iff some project is known) and `"undefined"` (present iff some project is missing). |
| StatisticProperties.EmptyBookingList | app/controller/StatisticController.js:115-129 | No bookings give `totalEntries` 0, empty labels and values, and day data `[[]]`. |
| StatisticProperties.UnknownPersonFails | app/controller/StatisticController.js:88-89 | The computation fails exactly when some booking's person is missing, and it reports the first such `personId`. |
| StatisticProperties.TotalEntriesCountsBookings | app/controller/StatisticController.js:116-117 | `totalEntries` is the number of bookings, and the timestamp is the one given. |
| StatisticProperties.OneBookingExample | app/controller/StatisticController.js:73-130 | A 9:00-17:00 booking with a 60-minute pause on 1/1/2020 gives 7 hours under `"1/1/2020"`, under `"[object Object]"` and under `"Jane Doe"`. |

## Left out

- Fetching the bookings (`listAllBookings(0, 1000)`, lines 42-45), the persons and the projects (lines 48-63). These are asynchronous calls into model classes that are not part of this model; their results are the method's inputs. The limit of 1000 bookings belongs to that call.
- The `async.waterfall` composition and the `next('Cannot calculate statistics')` error paths (lines 43-66). This is callback plumbing.
- `new Date().getTime()` (line 116). The wall clock is a parameter, `timestamp`.
- `response.send` (line 132). This is HTTP output.
- Moment's parsing of `workDay` and time zones (line 75). The model takes the calendar date moment sees, as `CalendarDate`.
- Locales other than English and German for format `'l'`, and negative years.
- What a thrown TypeError does to the running server. The model stops with `Err` at the first booking whose person is missing.
- JavaScript numbers as doubles. Times and sums are unbounded integers; the work time is an integer in the source too.
- Properties inherited from `Object.prototype`. No label can take the shape of one: a label contains `/`, `.`, a space or a bracket, or is `"undefined"`.
- Ids naming an `Object.prototype` member, such as `"constructor"`, `"toString"` or `"__proto__"`. The model takes ids not to be such names; the application's ids are numbers (app/controller/Bookings.js:109). In the source, a person id like that reads the inherited member instead of `undefined`: no TypeError is thrown, and the booking is counted under `"undefined undefined"`, where the model returns `Err`. A project id `"toString"` gives the key `"function toString() { [native code] }"`, where the model gives `"undefined"`.
- `ProjectKey` takes every project record to be a plain object without its own `toString` or `Symbol.toPrimitive`. The project model class is not part of this model. A record type that supplies its own string conversion would give its own label.
- `CountBooking` and `AccumulateHours` do not state the partly updated objects after a missing person. The source throws at that point and its objects are discarded.
- app/controller/UserController.js, app/controller/SecurityController.js and app/controller/Bookings.js. These handlers delegate to model classes that are not part of this model.
