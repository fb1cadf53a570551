# Business calendar

A model of the business-day engine of `business.py`. The engine is the
`Calendar` class and the `parse_date` helper of `business/calendar.py`.

A calendar holds two lists:

- its working weekdays, e.g. `['mon', 'tue', 'wed', 'thu', 'fri']`;
- its holiday dates.

On top of the primitive "is this date a business day", the calendar answers:

- how to roll a date forward or backward onto a business day;
- which business day comes strictly after or before a date;
- what date lies N business days after or before a date;
- which business days, and how many, lie in the half-open range `[date1, date2)`.

The model is in four files:

- `wrappers.dfy` (module `Wrappers`): the `Option` and `Result` types. A raised
  exception becomes an `Err`.
- `dates.dfy` (module `Dates`):
  - dates as proleptic Gregorian ordinals, exactly what `date.toordinal()` returns
    (ordinal 1 is Monday 1 January of year 1; adding `timedelta(days=1)` adds 1);
  - the weekday of a date;
  - the seven weekday tokens;
  - `parse_date`.
- `calendar.dfy` (module `Business`):
  - the working-day normalisation;
  - the `Calendar` class, with its two fields, its two validating setters and
    every query;
  - the ghost predicates that define each query's answer, and the lemmas
    relating them.
- `scenarios.dfy` (module `Scenarios`): the January 2013 and June 2014
  calendars of the repository's tests, proved from the contracts. The
  expectations covered are those of the classify, roll, next, previous, add
  and subtract tests, all twenty `business_days_between` tuples, and the
  tests of both setters.

How the source's shape is kept:

- The setters are methods that assign the class's fields. Each one's loop is
  proved against a function: `NormaliseDays` and `ParseDates`.
- `roll_forward` and `roll_backward` are `while` loops that step one day at a
  time. The ghost functions `SomeBusinessDayFrom` and `SomeBusinessDayUpTo` bound
  them: past the last holiday, the first working day recurs within a week.
- `add_business_days` and `subtract_business_days` are `for`-style loops over
  `NextBusinessDay` and `PreviousBusinessDay`.
- `business_days_range` is a day-by-day recursion over `[date1, date2)`. It stands
  for the `rrule` iterator.

Each roll and step method is proved against a ghost predicate that pins its
answer down without running the loop:

- `IsFirstBusinessDayFrom` and `IsLastBusinessDayUpTo` for rolling;
- `IsNthBusinessDayFrom` and `IsNthBusinessDayBefore` for adding and subtracting.

"The business day on or after `d` with exactly `n` business days in `[d, r)`" is
what `add_business_days(d, n)` returns.

Lemmas then show the following about these predicates:

- Each has at most one answer.
- Adding zero business days is rolling forward.
- Adding `n + 1` is taking the next business day after adding `n`. The same
  holds for subtracting, mirrored.
- Adding then subtracting from a business day gives it back, and so does
  subtracting then adding.
- Adding then subtracting from any date lands on that date rolled forward.

Two facts about the program shape the class:

- **Setters after construction.** The calendar is mutable. Its two properties
  have setters that may run at any time, and the tests use them that way. So
  the model has `SetWorkingDays` and `SetHolidays` methods.
- **Empty working days.** An empty working-day list would make rolling loop
  forever. The setter never stores one, because it replaces an empty or
  missing list by the default (`value or DEFAULT_WORKING_DAYS`). So the class
  invariant `Valid()` (at least one working day) holds after every constructor
  and setter call, and it is what the roll loops need. A caller that mutates
  the list the getter returns can still empty it; see "Left out".

## Model

| member | source | states |
|---|---|---|
| Dates.ParseDate | business/calendar.py:10-16 | a date is returned as is, a datetime gives its date, a string gives what the parser gives or the parser's error |
| Dates.ParseDateIdempotent | business/calendar.py:10-16 | parsing the date that parsing produced gives that date again |
| Dates.ParseDateDropsTime | business/calendar.py:14-15 | two datetimes on the same day parse to the same date, which is that day's date |
| Dates.DayNamed | business/calendar.py:24 | a token names a weekday exactly when it is one of the seven `DAY_NAMES`, and then that weekday's token is the token |
| Dates.DayNamedInvertsName | business/calendar.py:24 | reading a weekday's token back gives that weekday |
| Dates.NameInjective | business/calendar.py:24 | distinct weekdays have distinct tokens |
| Dates.DayOf | business/calendar.py:100 | the weekday of a date is the one at index `(ordinal - 1) % 7`, Monday first, as `strftime('%a')` names it |
| Dates.WeekdayPeriodic | business/calendar.py:100 | weekdays repeat every seven days |
| Dates.KnownWeekday2013 | tests/test_calendar.py:74-80 | 1 January 2013 is a Tuesday, whose token is `tue` |
| Dates.KnownWeekday2014 | tests/test_calendar.py:224 | 2 June 2014 is a Monday, whose token is `mon` |
| Business.Normalise | business/calendar.py:72 | a day name's token is its first three characters, lower-cased (all of it when shorter) |
| Business.NormaliseDays | business/calendar.py:70-76 | the setter's loop succeeds exactly when every token is a day name, then gives each name's day in order (duplicates kept); otherwise it reports the first name whose token is not a day name |
| Business.NormaliseDaysFailsAt | business/calendar.py:71-74 | the name reported is the first invalid one |
| Business.NormaliseDaysSucceeds | business/calendar.py:71-76 | when every name is valid, the result is exactly the list of their days |
| Business.NormaliseWorkingDays | business/calendar.py:69-76 | no list gives the default Monday-to-Friday list; a given list is normalised; any success is non-empty |
| Business.NamesInjective | business/calendar.py:24-25 | two lists of days with the same tokens are equal, so storing days instead of tokens loses nothing |
| Business.NormaliseKeepsToken | business/calendar.py:72 | a lower-case three-letter token normalises to itself |
| Business.NameIsNormalised | business/calendar.py:72-73 | every day's token is in normal form |
| Business.NamesNormalise | business/calendar.py:62-76 | setting the working days to what the getter returns gives back the same days |
| Business.ParseDates | business/calendar.py:90-95 | the holidays setter's loop succeeds exactly when every entry parses, then gives each entry's date in order; otherwise it reports the first entry's parse error |
| Business.ParseDatesWithoutText | business/calendar.py:90-95 | a list of dates and datetimes always parses, to their dates in order |
| Business.Calendar.WorkingDays | business/calendar.py:57-60 | the getter shows one token per stored day, each one of `DAY_NAMES`, and at least one on a valid calendar |
| Business.Calendar.WorkingDayByName | business/calendar.py:100-101 | a date falls on a working day exactly when its weekday's token is among those the `working_days` getter shows |
| Business.Calendar.constructor | business/calendar.py:27-32 | a new calendar has the default working days and no holidays |
| Business.Calendar.Create | business/calendar.py:27-32 | construction with values runs both setters and fails with the first error either raises |
| Business.Calendar.SetWorkingDays | business/calendar.py:62-76 | the working days become the normalised list; on an invalid name the error is returned and the old list stays; holidays are untouched; the non-empty invariant is kept |
| Business.Calendar.SetHolidays | business/calendar.py:83-95 | the holidays become the parsed list; on a parse error the error is returned and the old list stays; working days are untouched |
| Business.Calendar.IsBusinessDay | business/calendar.py:100-104 | a date is a business day exactly when its weekday is a working day and it is not a holiday |
| Business.Calendar.ClassifyDay | business/calendar.py:97-104 | an input that parses is a business day exactly when its weekday is a working day and it is not a holiday; a parse error is passed on |
| Business.Calendar.DefaultWeek | business/calendar.py:97-104 | on the default working week, a business day is exactly a weekday from Monday to Friday that is not a holiday |
| Business.Calendar.SomeBusinessDayFrom | business/calendar.py:109-111 | on a valid calendar, a business day exists on or after any date |
| Business.Calendar.SomeBusinessDayUpTo | business/calendar.py:117-119 | on a valid calendar, a business day exists on or before any date |
| Business.Calendar.RollForward | business/calendar.py:106-112 | the result is the first business day on or after the date |
| Business.Calendar.RollBackward | business/calendar.py:114-120 | the result is the last business day on or before the date |
| Business.Calendar.NextBusinessDay | business/calendar.py:122-125 | the result is the first business day strictly after the date, even when the date is a business day |
| Business.Calendar.PreviousBusinessDay | business/calendar.py:127-130 | the result is the last business day strictly before the date |
| Business.Calendar.AddBusinessDays | business/calendar.py:132-137 | the result is a business day on or after the date with exactly `days` business days before it from the date; a count that is not positive counts as zero |
| Business.Calendar.SubtractBusinessDays | business/calendar.py:139-144 | the result is a business day on or before the date with exactly `days` business days after it up to the date; a count that is not positive counts as zero |
| Business.Calendar.BusinessDaysRange | business/calendar.py:146-151 | the range is strictly ascending and holds exactly the business days `x` with `date1 <= x < date2`; it is empty when `date2 <= date1` |
| Business.Calendar.BusinessDaysBetween | business/calendar.py:153-156 | the count is zero exactly when no business day lies in the range, and at most the range's length |
| Business.Calendar.RangeSplit | business/calendar.py:146-151 | the range over `[a, c)` is the range over `[a, b)` followed by the range over `[b, c)` |
| Business.Calendar.BetweenSplit | business/calendar.py:153-156 | counts over adjacent ranges add up |
| Business.Calendar.BetweenSingleDay | business/calendar.py:153-156 | one day counts one exactly when it is a business day |
| Business.Calendar.StepForwardCountsOne | business/calendar.py:135-136 | stepping to the next business day raises the count from the start by one |
| Business.Calendar.StepBackwardCountsOne | business/calendar.py:142-143 | stepping to the previous business day raises the count up to the start by one |
| Business.Calendar.FirstBusinessDayExists | business/calendar.py:106-112 | any business day on or after a date means rolling that date forward has an answer |
| Business.Calendar.RollForwardIdempotent | business/calendar.py:106-112 | rolling a rolled-forward date changes nothing, and rolling forward leaves a date alone exactly when it is a business day |
| Business.Calendar.RollBackwardIdempotent | business/calendar.py:114-120 | rolling a rolled-backward date changes nothing, and rolling backward leaves a date alone exactly when it is a business day |
| Business.Calendar.AddZeroIsRollForward | business/calendar.py:132-134 | adding zero business days is rolling forward |
| Business.Calendar.AddStepIsNext | business/calendar.py:132-137 | adding `n + 1` business days gives exactly the next business day after adding `n` |
| Business.Calendar.SubtractZeroIsRollBackward | business/calendar.py:139-141 | subtracting zero business days is rolling backward |
| Business.Calendar.SubtractStepIsPrevious | business/calendar.py:139-144 | subtracting `n + 1` business days gives exactly the previous business day before subtracting `n` |
| Business.Calendar.NthBusinessDayFromUnique | business/calendar.py:132-137 | adding `n` business days has at most one answer |
| Business.Calendar.NthBusinessDayBeforeUnique | business/calendar.py:139-144 | subtracting `n` business days has at most one answer |
| Business.Calendar.SubtractUndoesAdd | business/calendar.py:132-144 | from a business day, subtracting `n` business days after adding `n` gives it back |
| Business.Calendar.AddUndoesSubtract | business/calendar.py:132-144 | from a business day, adding `n` business days after subtracting `n` gives it back |
| Business.Calendar.AddThenSubtractSnaps | business/calendar.py:132-144 | from any date, adding then subtracting `n` business days gives the date rolled forward, which is the date exactly when it is a business day |
| Scenarios.OrdinalsNewYear2013 | tests/test_calendar.py:74-83 | the ordinal used for 1 January 2013 is the one `toordinal()` gives, and that day is a Tuesday |
| Scenarios.OrdinalsJune2014 | tests/test_calendar.py:211-258 | the ordinal used for 1 June 2014 is the one `toordinal()` gives, and that day is a Sunday |
| Scenarios.ClassifyNewYear2013 | tests/test_calendar.py:72-83 | with 1 January 2013 as a holiday, the 2nd is a business day and the 5th and the 1st are not, also as datetimes at 9am |
| Scenarios.RollForwardNewYear2013 | tests/test_calendar.py:90-100 | rolling forward keeps 2 January and takes the holiday on the 1st to the 2nd |
| Scenarios.RollForwardWeekend2013 | tests/test_calendar.py:102-103 | rolling forward takes Saturday 5 January to Monday 7 |
| Scenarios.RollBackwardNewYear2013 | tests/test_calendar.py:106-116 | rolling backward keeps 2 January and takes the holiday on the 1st to 31 December |
| Scenarios.RollBackwardWeekend2013 | tests/test_calendar.py:118-119 | rolling backward takes Sunday 6 January to Friday 4 |
| Scenarios.NextNewYear2013 | tests/test_calendar.py:122-132 | the next business day after 2 January 2013 is the 3rd, and after the holiday on the 1st it is the 2nd |
| Scenarios.NextWeekend2013 | tests/test_calendar.py:122-135 | the next business day after Saturday 5 January 2013 is Monday 7 |
| Scenarios.PreviousNewYear2013 | tests/test_calendar.py:138-148 | the previous business day before 3 January 2013 is the 2nd, and before the holiday on the 1st it is 31 December |
| Scenarios.PreviousWeekend2013 | tests/test_calendar.py:138-151 | the previous business day before Sunday 6 January 2013 is Friday 4 |
| Scenarios.AddFromWednesday2013 | tests/test_calendar.py:166-168 | two business days after 2 January 2013 is the 4th |
| Scenarios.AddFromFriday2013 | tests/test_calendar.py:170-171 | two business days after Friday 4 January is Tuesday 8 |
| Scenarios.AddAcrossHoliday2013 | tests/test_calendar.py:173-174 | two business days after 31 December 2012 is 3 January, skipping the holiday |
| Scenarios.AddFromHoliday2013 | tests/test_calendar.py:176-178 | two business days after the holiday on 1 January is the 4th |
| Scenarios.SubtractFromWednesday2013 | tests/test_calendar.py:187-189 | with 3 January as the holiday, two business days before the 2nd is 31 December |
| Scenarios.SubtractFromMonday2013 | tests/test_calendar.py:191-192 | two business days before Monday 31 December is Thursday 27 |
| Scenarios.SubtractFromFriday2013 | tests/test_calendar.py:194-195 | two business days before Friday 4 January is the 1st, skipping the holiday |
| Scenarios.SubtractFromHoliday2013 | tests/test_calendar.py:197-199 | two business days before the holiday on 3 January is 31 December |
| Scenarios.BetweenFirstWeekJune2014 | tests/test_calendar.py:224-229 | from Monday 2 June 2014: three business days to Thursday 5, five to Sunday 8, five to Monday 9 |
| Scenarios.BetweenSecondWeekJune2014 | tests/test_calendar.py:226-232 | from Monday 9 June 2014: three business days to the holiday on Thursday 12, three to Friday 13 |
| Scenarios.BetweenFortnightJune2014 | tests/test_calendar.py:227-233 | from Monday 2 June 2014: eight to the holiday on Thursday 12, eight to Friday 13, nine to Saturday 14 |
| Scenarios.BetweenFromWeekendJune2014 | tests/test_calendar.py:238-244 | from Saturday 7 June 2014: none to Sunday 8, none to Monday 9, three to the holiday on Thursday 12 |
| Scenarios.BetweenFromWeekendToFridayJune2014 | tests/test_calendar.py:239-242 | from Saturday 7 June 2014: three to Friday 13, four to Saturday 14 |
| Scenarios.BetweenFromHolidayJune2014 | tests/test_calendar.py:249-252 | from the holiday on Thursday 12 June 2014: none to Friday 13, one to Sunday 15 |
| Scenarios.BetweenFromHolidayToHolidayJune2014 | tests/test_calendar.py:250-255 | from the holiday on Thursday 12 June 2014: three to the holiday on Wednesday 18, three to Thursday 19 |
| Scenarios.BetweenHolidaysJune2014 | tests/test_calendar.py:254-259 | one from the holiday on the 18th to the holiday on the 20th; two from the 19th to the 24th and four from the 16th, the Sunday holiday counting nothing |
| Scenarios.WorkingDaysFromTokens | tests/test_calendar.py:28-32 | `['mon', 'fri']` is stored as Monday and Friday |
| Scenarios.WorkingDaysFromNames | tests/test_calendar.py:35-39 | `['Monday', 'Friday']` is stored as Monday and Friday |
| Scenarios.WorkingDaysRejectsNotaday | tests/test_calendar.py:42-46 | `['Notaday']` is refused, naming `'Notaday'` |
| Scenarios.WorkingDaysNone | tests/test_calendar.py:49-53 | no working days given stores the default, shown as `DEFAULT_WORKING_DAYS` |
| Scenarios.HolidaysFromText | tests/test_calendar.py:56-62 | a holiday given as text is stored as the one date the parser reads from it |
| Scenarios.HolidaysNone | tests/test_calendar.py:65-69 | no holidays given stores none |

## Left out

- `Calendar.load` (business/calendar.py:34-55) is not modelled. It reads a YAML file from disk, which is file-system I/O. It also looks up the key `'working_daysk'`, so a loaded calendar always gets the default working days.
- The string branch of `parse_date`: `dateutil.parser.parse(..., dayfirst=True)` is a free-form parser outside this model. It is the function parameter `parser`; `None` stands for the exception it raises.
- `strftime('%a').lower()` depends on the locale. The model uses the English token of the weekday index `(ordinal - 1) % 7`, which is what the C locale gives.
- `rrule` (business/calendar.py:149) is not modelled as a library iterator. It is a recursion over the days of `[date1, date2)`.
- `Business.Normalise` covers only ASCII letters. Python's `str.lower()` also maps non-ASCII upper-case letters, and the model lower-cases only `A`-`Z`.
- The bounds of Python's `date` type are not modelled, so dates are unbounded integers. Stepping past `date.max` or before `date.min` raises `OverflowError` in the source.
- The query methods take dates only:
  - `roll_forward`, `roll_backward`, `next_business_day`, `previous_business_day`, `add_business_days` and `subtract_business_days` take and return dates;
  - in the source, a datetime passed to these keeps its time of day in the result, and the model does not carry it;
  - strings passed to them are not modelled. The source adds a `timedelta` to the string, which fails, except that rolling returns a string that names a business day unchanged.
- `business_days_range` and `business_days_between` take dates only. Given strings, the source fails on `date2 - DAY_INTERVAL`.
- `None` and `[]` are both the empty sequence. Both setters treat them the same (`value or ...`).
- A non-list value given to a setter is not modelled. In Python, iterating a string iterates its characters; the model's setters take sequences of names or dates.
- The working days are stored as a sequence of the `Day` type, not of strings. `Business.Calendar.WorkingDays` gives the token list the getter shows, and `Business.NamesInjective` shows that the two forms determine each other.
- The getters `working_days` (business/calendar.py:57-60) and `holidays` (business/calendar.py:78-81) return the stored lists themselves, so a caller can change a calendar through them without passing the setters; for example, `cal.working_days.clear()` empties the working days, and `roll_forward` then loops forever. The model's fields are values and `Business.Calendar.WorkingDays` returns a new sequence, so mutation through a returned list is not expressed, and `Valid()` holds only as long as the lists are changed through the setters.
- setup.py is not part of this model; it is packaging only.
