/** The business-day engine of business/calendar.py: a calendar of working
    weekdays and holiday dates, the two validating setters that configure it,
    and the classification, roll, step and range operations built on
    `is_business_day`. */
module Business {
  import opened Wrappers
  import opened Dates

  /** The working days a calendar gets when none are given. */
  const DEFAULT_WORKING_DAYS: seq<string> := ["mon", "tue", "wed", "thu", "fri"]

  /** The same default, as the days the tokens name. */
  const DEFAULT_DAYS: seq<Day> := [Mon, Tue, Wed, Thu, Fri]

  /** `str.lower()` on one character (ASCII letters only). */
  function LowerChar(c: char): char
  {
    if 'A' <= c <= 'Z' then (c as int + 32) as char else c
  }

  function Lower(s: string): string
  {
    seq(|s|, i requires 0 <= i < |s| => LowerChar(s[i]))
  }

  /** `day.lower()[:3]`: the token a working-day name is normalised to. */
  function Normalise(day: string): (token: string)
    ensures |token| == if |day| < 3 then |day| else 3
    ensures forall i :: 0 <= i < |token| ==> token[i] == LowerChar(day[i])
  {
    var lowered := Lower(day);
    if |lowered| <= 3 then lowered else lowered[..3]
  }

  /** The setter's loop over `days`: each name normalised, in order, or the
      first name whose token is not a weekday, as the error. */
  function NormaliseDays(days: seq<string>): (r: Result<seq<Day>, Error>)
    ensures r.Ok? <==> forall i :: 0 <= i < |days| ==> Normalise(days[i]) in DAY_NAMES
    ensures r.Ok? ==> |r.value| == |days| &&
                      forall i :: 0 <= i < |days| ==> r.value[i].Name() == Normalise(days[i])
    ensures r.Err? ==> exists k :: FirstInvalidAt(days, k, r.error)
  {
    if days == [] then Ok([])
    else
      assert forall i :: 1 <= i < |days| ==> days[i] == days[1..][i - 1];
      match DayNamed(Normalise(days[0]))
      case None =>
        assert FirstInvalidAt(days, 0, InvalidDay(days[0]));
        Err(InvalidDay(days[0]))
      case Some(day) =>
        match NormaliseDays(days[1..])
        case Err(e) =>
          FirstInvalidInTail(days, e);
          Err(e)
        case Ok(rest) =>
          NamesOfCons(days, day, rest);
          Ok([day] + rest)
  }

  /** `k` is the first name of `days` whose token is not a weekday, and `e`
      reports it. */
  ghost predicate FirstInvalidAt(days: seq<string>, k: int, e: Error)
  {
    0 <= k < |days| && e == InvalidDay(days[k]) &&
    Normalise(days[k]) !in DAY_NAMES &&
    forall i :: 0 <= i < k ==> Normalise(days[i]) in DAY_NAMES
  }

  /** Behind a valid first name, the first invalid name of the rest is the
      first invalid name of the whole list. */
  lemma FirstInvalidInTail(days: seq<string>, e: Error)
    requires |days| > 0 && Normalise(days[0]) in DAY_NAMES
    requires exists k :: FirstInvalidAt(days[1..], k, e)
    ensures exists k :: FirstInvalidAt(days, k, e)
  {
    var k :| FirstInvalidAt(days[1..], k, e);
    assert FirstInvalidAt(days, k + 1, e);
  }

  /** Putting a valid first name's day in front of the rest's days keeps
      every day matched with its name. */
  lemma NamesOfCons(days: seq<string>, day: Day, rest: seq<Day>)
    requires |days| > 0 && day.Name() == Normalise(days[0])
    requires |rest| == |days| - 1 &&
             forall i :: 0 <= i < |rest| ==> rest[i].Name() == Normalise(days[1..][i])
    ensures forall i :: 0 <= i < |days| ==> ([day] + rest)[i].Name() == Normalise(days[i])
  {
    forall i | 1 <= i < |days|
      ensures ([day] + rest)[i].Name() == Normalise(days[i])
    {
      assert ([day] + rest)[i] == rest[i - 1] && days[i] == days[1..][i - 1];
    }
  }

  /** The first name whose token is not a weekday is the one reported. */
  lemma NormaliseDaysFailsAt(days: seq<string>, i: nat)
    requires i < |days| && Normalise(days[i]) !in DAY_NAMES
    requires forall j :: 0 <= j < i ==> Normalise(days[j]) in DAY_NAMES
    ensures NormaliseDays(days) == Err(InvalidDay(days[i]))
  {
    var r := NormaliseDays(days);
    var k :| FirstInvalidAt(days, k, r.error);
    assert k == i;
  }

  /** When every name is valid, the result is the list of their days. */
  lemma NormaliseDaysSucceeds(days: seq<string>, normalised: seq<Day>)
    requires |normalised| == |days|
    requires forall j :: 0 <= j < |days| ==>
               Normalise(days[j]) in DAY_NAMES && normalised[j].Name() == Normalise(days[j])
    ensures NormaliseDays(days) == Ok(normalised)
  {
    var r := NormaliseDays(days);
    assert r.Ok?;
    assert Names(r.value) == Names(normalised);
    NamesInjective(r.value, normalised);
  }

  /** The working-days setter's outcome for `value` (the empty list standing
      for both None and []): the default list, or `value` normalised. */
  function NormaliseWorkingDays(value: seq<string>): (r: Result<seq<Day>, Error>)
    ensures value == [] ==> r == Ok(DEFAULT_DAYS)
    ensures r.Ok? ==> |r.value| > 0
    ensures value != [] ==> r == NormaliseDays(value)
  {
    NamesNormalise(DEFAULT_DAYS);
    DefaultDaysNames();
    NormaliseDays(if value == [] then DEFAULT_WORKING_DAYS else value)
  }

  /** The tokens of a list of days: the list the `working_days` getter shows. */
  function Names(days: seq<Day>): (names: seq<string>)
    ensures |names| == |days|
    ensures forall i :: 0 <= i < |days| ==> names[i] == days[i].Name()
  {
    seq(|days|, i requires 0 <= i < |days| => days[i].Name())
  }

  /** The default days are the days the default tokens name. */
  lemma DefaultDaysNames()
    ensures Names(DEFAULT_DAYS) == DEFAULT_WORKING_DAYS
  {
    assert Names(DEFAULT_DAYS) == [Mon.Name(), Tue.Name(), Wed.Name(), Thu.Name(), Fri.Name()];
  }

  /** Two lists of days with the same tokens are the same list. */
  lemma NamesInjective(a: seq<Day>, b: seq<Day>)
    requires Names(a) == Names(b)
    ensures a == b
  {
    forall j | 0 <= j < |a|
      ensures a[j] == b[j]
    {
      NameInjective(a[j], b[j]);
    }
  }

  /** A name that is already a lower-case three-letter token normalises to itself. */
  lemma NormaliseKeepsToken(t: string)
    requires |t| == 3 && forall j :: 0 <= j < 3 ==> !('A' <= t[j] <= 'Z')
    ensures Normalise(t) == t
  {
    var token := Normalise(t);
    assert |token| == 3;
    assert forall j :: 0 <= j < 3 ==> token[j] == LowerChar(t[j]) == t[j];
  }

  /** Every stored token is in normal form. */
  lemma NameIsNormalised(day: Day)
    ensures Normalise(day.Name()) == day.Name()
  {
    match day
    case Mon => NormaliseKeepsToken("mon");
    case Tue => NormaliseKeepsToken("tue");
    case Wed => NormaliseKeepsToken("wed");
    case Thu => NormaliseKeepsToken("thu");
    case Fri => NormaliseKeepsToken("fri");
    case Sat => NormaliseKeepsToken("sat");
    case Sun => NormaliseKeepsToken("sun");
  }

  /** Setting the working days to the list the getter returns changes nothing:
      normalising stored tokens gives back the same days. */
  lemma NamesNormalise(days: seq<Day>)
    ensures NormaliseDays(Names(days)) == Ok(days)
  {
    var names := Names(days);
    forall i | 0 <= i < |names|
      ensures Normalise(names[i]) in DAY_NAMES
    {
      NameIsNormalised(days[i]);
    }
    var r := NormaliseDays(names);
    assert r.Ok?;
    forall i | 0 <= i < |days|
      ensures r.value[i] == days[i]
    {
      NameIsNormalised(days[i]);
      NameInjective(r.value[i], days[i]);
    }
    assert r.value == days;
  }

  /** The holidays setter's loop: every entry parsed in order, or the error
      of the first entry that does not parse. */
  function ParseDates(dates: seq<DateLike>, parser: string -> Option<int>): (r: Result<seq<int>, Error>)
    ensures r.Ok? <==> forall i :: 0 <= i < |dates| ==> ParseDate(dates[i], parser).Ok?
    ensures r.Ok? ==> |r.value| == |dates| &&
                      forall i :: 0 <= i < |dates| ==> Ok(r.value[i]) == ParseDate(dates[i], parser)
    ensures r.Err? ==> exists k :: 0 <= k < |dates| && Err(r.error) == ParseDate(dates[k], parser) &&
                         forall i :: 0 <= i < k ==> ParseDate(dates[i], parser).Ok?
  {
    if dates == [] then Ok([])
    else
      match ParseDate(dates[0], parser)
      case Err(e) => Err(e)
      case Ok(d) =>
        assert forall i :: 1 <= i < |dates| ==> dates[i] == dates[1..][i - 1];
        match ParseDates(dates[1..], parser)
        case Err(e) => Err(e)
        case Ok(rest) => Ok([d] + rest)
  }

  /** A holiday list of dates and datetimes never fails: dates are kept and
      datetimes truncated, in the given order. */
  lemma {:induction false} ParseDatesWithoutText(dates: seq<DateLike>, parser: string -> Option<int>)
    requires forall i :: 0 <= i < |dates| ==> !dates[i].Text?
    ensures ParseDates(dates, parser).Ok?
    ensures ParseDates(dates, parser).value == seq(|dates|, i requires 0 <= i < |dates| => dates[i].ordinal)
  {
    var r := ParseDates(dates, parser);
    assert r.Ok?;
    assert forall i :: 0 <= i < |dates| ==> r.value[i] == dates[i].ordinal by {
      forall i | 0 <= i < |dates|
        ensures r.value[i] == dates[i].ordinal
      {
        assert Ok(r.value[i]) == ParseDate(dates[i], parser);
      }
    }
  }

  /** A date after every holiday in `hs`, and not before `d`. */
  function AfterAll(hs: seq<int>, d: int): (m: int)
    ensures d <= m && forall i :: 0 <= i < |hs| ==> hs[i] < m
  {
    if hs == [] then d
    else
      var m := AfterAll(hs[1..], d);
      assert forall i :: 1 <= i < |hs| ==> hs[i] == hs[1..][i - 1];
      if hs[0] < m then m else hs[0] + 1
  }

  /** A date before every holiday in `hs`, and not after `d`. */
  function BeforeAll(hs: seq<int>, d: int): (m: int)
    ensures m <= d && forall i :: 0 <= i < |hs| ==> m < hs[i]
  {
    if hs == [] then d
    else
      var m := BeforeAll(hs[1..], d);
      assert forall i :: 1 <= i < |hs| ==> hs[i] == hs[1..][i - 1];
      if m < hs[0] then m else hs[0] - 1
  }

  /** A calendar: the working weekdays and the holiday dates, both updated in
      place by their setters. */
  class Calendar {
    var workingDays: seq<Day>
    var holidays: seq<int>

    /** The working-days invariant every setter keeps; it is what makes the
        roll loops terminate. */
    ghost predicate Valid()
      reads this
    {
      |workingDays| > 0
    }

    /** The `working_days` getter: the stored tokens, each one of the seven
        day names, and never none once a setter has run. */
    function WorkingDays(): (names: seq<string>)
      reads this
      ensures |names| == |workingDays|
      ensures forall i :: 0 <= i < |names| ==> names[i] in DAY_NAMES
      ensures Valid() ==> names != []
    {
      Names(workingDays)
    }

    /** `Calendar()`: default working days and no holidays. */
    constructor ()
      ensures Valid()
      ensures workingDays == DEFAULT_DAYS && holidays == []
      ensures Names(workingDays) == DEFAULT_WORKING_DAYS
    {
      workingDays := DEFAULT_DAYS;
      holidays := [];
    }

    /** `Calendar(working_days, holidays)`: runs the two setters in turn and
        fails with the first error either raises. */
    static method Create(workingDays: seq<string>, holidays: seq<DateLike>, parser: string -> Option<int>)
      returns (r: Result<Calendar, Error>)
      ensures r.Ok? ==> fresh(r.value) && r.value.Valid()
      ensures match NormaliseWorkingDays(workingDays)
              case Err(e) => r == Err(e)
              case Ok(days) =>
                match ParseDates(holidays, parser)
                case Err(e) => r == Err(e)
                case Ok(dates) => r.Ok? && r.value.workingDays == days && r.value.holidays == dates
    {
      var c := new Calendar();
      var err := c.SetWorkingDays(workingDays);
      if err.Some? {
        return Err(err.value);
      }
      err := c.SetHolidays(holidays, parser);
      if err.Some? {
        return Err(err.value);
      }
      return Ok(c);
    }

    /** The `working_days` setter: normalise every name to its token, raise on
        the first that is not a weekday (leaving the old list in place), and
        store the default list when given none. */
    method SetWorkingDays(value: seq<string>) returns (err: Option<Error>)
      modifies this
      ensures holidays == old(holidays)
      ensures match NormaliseWorkingDays(value)
              case Ok(days) => err == None && workingDays == days
              case Err(e) => err == Some(e) && workingDays == old(workingDays)
      ensures old(Valid()) || err == None ==> Valid()
    {
      var days := if value == [] then DEFAULT_WORKING_DAYS else value;
      var normalised: seq<Day> := [];
      for i := 0 to |days|
        invariant |normalised| == i
        invariant forall j :: 0 <= j < i ==>
                    Normalise(days[j]) in DAY_NAMES && normalised[j].Name() == Normalise(days[j])
      {
        var day := days[i];
        var token := DayNamed(Normalise(day));
        if token.None? {
          NormaliseDaysFailsAt(days, i);
          return Some(InvalidDay(day));
        }
        normalised := normalised + [token.value];
      }
      NormaliseDaysSucceeds(days, normalised);
      workingDays := normalised;
      return None;
    }

    /** The `holidays` setter: parse every entry, raise on the first that does
        not parse (leaving the old list in place); none given means no holidays. */
    method SetHolidays(value: seq<DateLike>, parser: string -> Option<int>) returns (err: Option<Error>)
      modifies this
      ensures workingDays == old(workingDays)
      ensures match ParseDates(value, parser)
              case Ok(dates) => err == None && holidays == dates
              case Err(e) => err == Some(e) && holidays == old(holidays)
    {
      var parsed: seq<int> := [];
      for i := 0 to |value|
        invariant |parsed| == i
        invariant forall j :: 0 <= j < i ==> ParseDate(value[j], parser) == Ok(parsed[j])
      {
        var holiday := ParseDate(value[i], parser);
        if holiday.Err? {
          return Some(holiday.error);
        }
        parsed := parsed + [holiday.value];
      }
      holidays := parsed;
      return None;
    }

    /** Whether the weekday of `d` is one of the working days. */
    predicate IsWorkingDay(d: int)
      reads this
    {
      DayOf(d) in workingDays
    }

    /** A date falls on a working day exactly when its weekday's token is
        among those the `working_days` getter shows. */
    lemma WorkingDayByName(d: int)
      ensures IsWorkingDay(d) <==> DayOf(d).Name() in WorkingDays()
    {
    }

    /** Whether `d` is listed as a holiday. */
    predicate IsHoliday(d: int)
      reads this
    {
      d in holidays
    }

    /** `is_business_day` on a date: not a business day when its weekday is
        not worked, nor when it is a holiday. */
    predicate IsBusinessDay(d: int)
      reads this
      ensures IsBusinessDay(d) <==> IsWorkingDay(d) && !IsHoliday(d)
    {
      if DayOf(d) !in workingDays then false
      else if d in holidays then false
      else true
    }

    /** `is_business_day` on any input: parse it, then classify the date. */
    function ClassifyDay(day: DateLike, parser: string -> Option<int>): (r: Result<bool, Error>)
      reads this
      ensures r.Ok? <==> ParseDate(day, parser).Ok?
      ensures r.Err? ==> r.error == ParseDate(day, parser).error
      ensures r.Ok? ==>
                (r.value <==> (IsWorkingDay(ParseDate(day, parser).value) &&
                               !IsHoliday(ParseDate(day, parser).value)))
    {
      match ParseDate(day, parser)
      case Err(e) => Err(e)
      case Ok(d) => Ok(IsBusinessDay(d))
    }

    /** On the default working week, a business day is a weekday from Monday
        to Friday that is not a holiday. */
    lemma DefaultWeek(d: int)
      requires workingDays == DEFAULT_DAYS
      ensures IsBusinessDay(d) <==> Weekday(d) < 5 && d !in holidays
    {
      match DayOf(d)
      case Mon =>
      case Tue =>
      case Wed =>
      case Thu =>
      case Fri =>
      case Sat =>
      case Sun =>
    }

    /** Some business day lies on or after `d`: past the last holiday, the
        first working day occurs within a week. */
    ghost function SomeBusinessDayFrom(d: int): (b: int)
      reads this
      requires Valid()
      ensures d <= b && IsBusinessDay(b)
    {
      var b := OnOrAfterWeekday(AfterAll(holidays, d), workingDays[0].Index());
      assert b !in holidays;
      b
    }

    /** Some business day lies on or before `d`. */
    ghost function SomeBusinessDayUpTo(d: int): (b: int)
      reads this
      requires Valid()
      ensures b <= d && IsBusinessDay(b)
    {
      var b := OnOrBeforeWeekday(BeforeAll(holidays, d), workingDays[0].Index());
      assert b !in holidays;
      b
    }

    /** `r` is the smallest business day on or after `d`. */
    ghost predicate IsFirstBusinessDayFrom(d: int, r: int)
      reads this
    {
      d <= r && IsBusinessDay(r) && forall x :: d <= x < r ==> !IsBusinessDay(x)
    }

    /** `r` is the largest business day on or before `d`. */
    ghost predicate IsLastBusinessDayUpTo(d: int, r: int)
      reads this
    {
      r <= d && IsBusinessDay(r) && forall x :: r < x <= d ==> !IsBusinessDay(x)
    }

    /** `r` is the business day on or after `d` with exactly `n` business days
        in [d, r): the result of adding `n` business days to `d`. */
    ghost predicate IsNthBusinessDayFrom(d: int, n: nat, r: int)
      reads this
    {
      d <= r && IsBusinessDay(r) && BusinessDaysBetween(d, r) == n
    }

    /** `r` is the business day on or before `d` with exactly `n` business
        days in (r, d]: the result of subtracting `n` business days from `d`. */
    ghost predicate IsNthBusinessDayBefore(d: int, n: nat, r: int)
      reads this
    {
      r <= d && IsBusinessDay(r) && BusinessDaysBetween(r + 1, d + 1) == n
    }

    /** `roll_forward`: step a day at a time until a business day. */
    method RollForward(day: int) returns (r: int)
      requires Valid()
      ensures IsFirstBusinessDayFrom(day, r)
    {
      ghost var bound := SomeBusinessDayFrom(day);
      r := day;
      var validDate := IsBusinessDay(r);
      while !validDate
        invariant day <= r <= bound
        invariant validDate == IsBusinessDay(r)
        invariant forall x :: day <= x < r ==> !IsBusinessDay(x)
        decreases bound - r
      {
        r := r + 1;
        validDate := IsBusinessDay(r);
      }
    }

    /** `roll_backward`: step back a day at a time until a business day. */
    method RollBackward(day: int) returns (r: int)
      requires Valid()
      ensures IsLastBusinessDayUpTo(day, r)
    {
      ghost var bound := SomeBusinessDayUpTo(day);
      r := day;
      var validDate := IsBusinessDay(r);
      while !validDate
        invariant bound <= r <= day
        invariant validDate == IsBusinessDay(r)
        invariant forall x :: r < x <= day ==> !IsBusinessDay(x)
        decreases r - bound
      {
        r := r - 1;
        validDate := IsBusinessDay(r);
      }
    }

    /** `next_business_day`: the first business day strictly after `day`, even
        when `day` is itself one. */
    method NextBusinessDay(day: int) returns (r: int)
      requires Valid()
      ensures day < r && IsBusinessDay(r)
      ensures forall x :: day < x < r ==> !IsBusinessDay(x)
    {
      r := RollForward(day + 1);
    }

    /** `previous_business_day`: the last business day strictly before `day`. */
    method PreviousBusinessDay(day: int) returns (r: int)
      requires Valid()
      ensures r < day && IsBusinessDay(r)
      ensures forall x :: r < x < day ==> !IsBusinessDay(x)
    {
      r := RollBackward(day - 1);
    }

    /** `add_business_days`: roll forward, then `days` times to the next
        business day (`range(days)` is empty when `days` is not positive). */
    method AddBusinessDays(day: int, days: int) returns (r: int)
      requires Valid()
      ensures IsNthBusinessDayFrom(day, if days > 0 then days else 0, r)
    {
      r := RollForward(day);
      var i: nat := 0;
      while i < days
        invariant i == 0 || i <= days
        invariant IsNthBusinessDayFrom(day, i, r)
      {
        var next := NextBusinessDay(r);
        StepForwardCountsOne(day, r, next);
        r := next;
        i := i + 1;
      }
    }

    /** `subtract_business_days`: roll backward, then `days` times to the
        previous business day. */
    method SubtractBusinessDays(day: int, days: int) returns (r: int)
      requires Valid()
      ensures IsNthBusinessDayBefore(day, if days > 0 then days else 0, r)
    {
      r := RollBackward(day);
      var i: nat := 0;
      while i < days
        invariant i == 0 || i <= days
        invariant IsNthBusinessDayBefore(day, i, r)
      {
        var previous := PreviousBusinessDay(r);
        StepBackwardCountsOne(day, r, previous);
        r := previous;
        i := i + 1;
      }
    }

    /** `business_days_range`: the business days from `date1` up to but not
        including `date2`, in ascending order. */
    function BusinessDaysRange(date1: int, date2: int): (r: seq<int>)
      reads this
      ensures forall i, j :: 0 <= i < j < |r| ==> r[i] < r[j]
      ensures forall x :: x in r <==> date1 <= x < date2 && IsBusinessDay(x)
      ensures |r| <= if date1 < date2 then date2 - date1 else 0
      decreases date2 - date1
    {
      if date2 <= date1 then []
      else
        var rest := BusinessDaysRange(date1 + 1, date2);
        if IsBusinessDay(date1) then
          var r := [date1] + rest;
          assert forall j :: 0 < j < |r| ==> r[j] == rest[j - 1] && rest[j - 1] in rest;
          r
        else rest
    }

    /** `business_days_between`: how many business days the range holds. */
    function BusinessDaysBetween(date1: int, date2: int): (n: nat)
      reads this
      ensures n == 0 <==> forall x :: date1 <= x < date2 ==> !IsBusinessDay(x)
      ensures n <= if date1 < date2 then date2 - date1 else 0
    {
      var range := BusinessDaysRange(date1, date2);
      assert range != [] ==> range[0] in range;
      |range|
    }

    /** The business days of [a, c) are those of [a, b) followed by those of [b, c). */
    lemma {:induction false} RangeSplit(a: int, b: int, c: int)
      requires a <= b <= c
      ensures BusinessDaysRange(a, c) == BusinessDaysRange(a, b) + BusinessDaysRange(b, c)
      decreases b - a
    {
      if a < b {
        RangeSplit(a + 1, b, c);
      }
    }

    /** Counting is additive over adjacent ranges. */
    lemma BetweenSplit(a: int, b: int, c: int)
      requires a <= b <= c
      ensures BusinessDaysBetween(a, c) == BusinessDaysBetween(a, b) + BusinessDaysBetween(b, c)
    {
      RangeSplit(a, b, c);
    }

    /** A single day counts one exactly when it is a business day. */
    lemma BetweenSingleDay(x: int)
      ensures BusinessDaysBetween(x, x + 1) == if IsBusinessDay(x) then 1 else 0
    {
      assert BusinessDaysRange(x + 1, x + 1) == [];
    }

    /** Stepping from business day `r` to the next one adds one to the count from `d`. */
    lemma StepForwardCountsOne(d: int, r: int, s: int)
      requires d <= r < s && IsBusinessDay(r)
      requires forall x :: r < x < s ==> !IsBusinessDay(x)
      ensures BusinessDaysBetween(d, s) == BusinessDaysBetween(d, r) + 1
    {
      BetweenSplit(d, r, s);
      BetweenSplit(r, r + 1, s);
      BetweenSingleDay(r);
    }

    /** Stepping from business day `r` back to the previous one adds one to the count up to `d`. */
    lemma StepBackwardCountsOne(d: int, r: int, p: int)
      requires p < r <= d && IsBusinessDay(r)
      requires forall x :: p < x < r ==> !IsBusinessDay(x)
      ensures BusinessDaysBetween(p + 1, d + 1) == BusinessDaysBetween(r + 1, d + 1) + 1
    {
      BetweenSplit(p + 1, r, d + 1);
      assert BusinessDaysBetween(p + 1, d + 1) ==
             BusinessDaysBetween(p + 1, r) + BusinessDaysBetween(r, d + 1);
      BetweenSplit(r, r + 1, d + 1);
      BetweenSingleDay(r);
    }

    /** A business day `b` on or after `d` means a least one exists, so
        `roll_forward` always has an answer. */
    lemma {:induction false} FirstBusinessDayExists(d: int, b: int)
      requires d <= b && IsBusinessDay(b)
      ensures exists r :: IsFirstBusinessDayFrom(d, r)
      decreases b - d
    {
      if IsBusinessDay(d) {
        assert IsFirstBusinessDayFrom(d, d);
      } else {
        FirstBusinessDayExists(d + 1, b);
        var r :| IsFirstBusinessDayFrom(d + 1, r);
        assert IsFirstBusinessDayFrom(d, r);
      }
    }

    /** Rolling forward is idempotent, and leaves a date alone exactly when
        it is a business day. */
    lemma RollForwardIdempotent(d: int, f: int)
      requires IsFirstBusinessDayFrom(d, f)
      ensures IsFirstBusinessDayFrom(f, f)
      ensures f == d <==> IsBusinessDay(d)
    {
    }

    /** Rolling backward is idempotent, and leaves a date alone exactly when
        it is a business day. */
    lemma RollBackwardIdempotent(d: int, l: int)
      requires IsLastBusinessDayUpTo(d, l)
      ensures IsLastBusinessDayUpTo(l, l)
      ensures l == d <==> IsBusinessDay(d)
    {
    }

    /** Adding zero business days is rolling forward. */
    lemma AddZeroIsRollForward(d: int, r: int)
      ensures IsNthBusinessDayFrom(d, 0, r) <==> IsFirstBusinessDayFrom(d, r)
    {
    }

    /** Adding n + 1 business days is taking the next business day after
        adding n. */
    lemma AddStepIsNext(d: int, n: nat, r: int, s: int)
      requires IsNthBusinessDayFrom(d, n, r)
      ensures IsNthBusinessDayFrom(d, n + 1, s) <==> IsFirstBusinessDayFrom(r + 1, s)
    {
      if IsFirstBusinessDayFrom(r + 1, s) {
        StepForwardCountsOne(d, r, s);
        assert IsNthBusinessDayFrom(d, n + 1, s);
      }
      if IsNthBusinessDayFrom(d, n + 1, s) {
        if s <= r {
          BetweenSplit(d, s, r);
          BetweenSplit(s, s + 1, r);
          BetweenSingleDay(s);
          assert false;
        }
        BetweenSplit(d, r, s);
        BetweenSplit(r, r + 1, s);
        BetweenSingleDay(r);
        assert BusinessDaysBetween(r + 1, s) == 0;
        assert IsFirstBusinessDayFrom(r + 1, s);
      }
    }

    /** Subtracting zero business days is rolling backward. */
    lemma SubtractZeroIsRollBackward(d: int, r: int)
      ensures IsNthBusinessDayBefore(d, 0, r) <==> IsLastBusinessDayUpTo(d, r)
    {
    }

    /** Subtracting n + 1 business days is taking the previous business day
        before subtracting n. */
    lemma SubtractStepIsPrevious(d: int, n: nat, r: int, p: int)
      requires IsNthBusinessDayBefore(d, n, r)
      ensures IsNthBusinessDayBefore(d, n + 1, p) <==> IsLastBusinessDayUpTo(r - 1, p)
    {
      if IsLastBusinessDayUpTo(r - 1, p) {
        StepBackwardCountsOne(d, r, p);
      }
      if IsNthBusinessDayBefore(d, n + 1, p) {
        PreviousFromCount(d, n, r, p);
      }
    }

    /** A business day n + 1 back from `d` lies before the one n back, with
        no business day between them. */
    lemma PreviousFromCount(d: int, n: nat, r: int, p: int)
      requires IsNthBusinessDayBefore(d, n, r) && IsNthBusinessDayBefore(d, n + 1, p)
      ensures IsLastBusinessDayUpTo(r - 1, p)
    {
      if r < p {
        CountUpToSeparates(d, r, p);
      }
      assert p < r;
      StepBackCount(d, r, p);
    }

    /** Splitting (p, d] at business day `r`. */
    lemma StepBackCount(d: int, r: int, p: int)
      requires p < r <= d && IsBusinessDay(r)
      ensures BusinessDaysBetween(p + 1, d + 1) == BusinessDaysBetween(p + 1, r) + 1 + BusinessDaysBetween(r + 1, d + 1)
    {
      BetweenSplit(p + 1, r, d + 1);
      assert BusinessDaysBetween(p + 1, d + 1) ==
             BusinessDaysBetween(p + 1, r) + BusinessDaysBetween(r, d + 1);
      BetweenSplit(r, r + 1, d + 1);
      BetweenSingleDay(r);
    }

    /** The count from `d` tells business days apart. */
    lemma CountFromSeparates(d: int, r1: int, r2: int)
      requires d <= r1 < r2 && IsBusinessDay(r1)
      ensures BusinessDaysBetween(d, r1) < BusinessDaysBetween(d, r2)
    {
      BetweenSplit(d, r1, r2);
    }

    /** The count up to `d` tells business days apart. */
    lemma CountUpToSeparates(d: int, r1: int, r2: int)
      requires r1 < r2 <= d && IsBusinessDay(r2)
      ensures BusinessDaysBetween(r2 + 1, d + 1) < BusinessDaysBetween(r1 + 1, d + 1)
    {
      BetweenSplit(r1 + 1, r2 + 1, d + 1);
      BetweenSplit(r1 + 1, r2, r2 + 1);
      BetweenSingleDay(r2);
    }

    /** Adding n business days has at most one answer. */
    lemma NthBusinessDayFromUnique(d: int, n: nat, r1: int, r2: int)
      requires IsNthBusinessDayFrom(d, n, r1) && IsNthBusinessDayFrom(d, n, r2)
      ensures r1 == r2
    {
      if r1 < r2 {
        CountFromSeparates(d, r1, r2);
      } else if r2 < r1 {
        CountFromSeparates(d, r2, r1);
      }
    }

    /** Subtracting n business days has at most one answer. */
    lemma NthBusinessDayBeforeUnique(d: int, n: nat, r1: int, r2: int)
      requires IsNthBusinessDayBefore(d, n, r1) && IsNthBusinessDayBefore(d, n, r2)
      ensures r1 == r2
    {
      if r1 < r2 {
        CountUpToSeparates(d, r1, r2);
      } else if r2 < r1 {
        CountUpToSeparates(d, r2, r1);
      }
    }

    /** Between two business days, counting [x, b) and (x, b] agree. */
    lemma ShiftCount(x: int, b: int)
      requires x <= b && IsBusinessDay(x) && IsBusinessDay(b)
      ensures BusinessDaysBetween(x, b) == BusinessDaysBetween(x + 1, b + 1)
    {
      BetweenSplit(x, b, b + 1);
      BetweenSingleDay(b);
      BetweenSplit(x, x + 1, b + 1);
      BetweenSingleDay(x);
    }

    /** From a business day, subtracting n business days undoes adding n. */
    lemma SubtractUndoesAdd(b: int, n: nat, y: int, x: int)
      requires IsBusinessDay(b)
      requires IsNthBusinessDayFrom(b, n, y) && IsNthBusinessDayBefore(y, n, x)
      ensures x == b
    {
      ShiftCount(b, y);
      assert IsNthBusinessDayBefore(y, n, b);
      NthBusinessDayBeforeUnique(y, n, x, b);
    }

    /** From a business day, adding n business days undoes subtracting n. */
    lemma AddUndoesSubtract(b: int, n: nat, x: int, y: int)
      requires IsBusinessDay(b)
      requires IsNthBusinessDayBefore(b, n, x) && IsNthBusinessDayFrom(x, n, y)
      ensures y == b
    {
      ShiftCount(x, b);
      assert IsNthBusinessDayFrom(x, n, b);
      NthBusinessDayFromUnique(x, n, y, b);
    }

    /** Adding then subtracting n business days lands on `d` rolled forward,
        so it gives back `d` exactly when `d` is a business day. */
    lemma AddThenSubtractSnaps(d: int, n: nat, y: int, x: int)
      requires IsNthBusinessDayFrom(d, n, y) && IsNthBusinessDayBefore(y, n, x)
      ensures IsFirstBusinessDayFrom(d, x)
      ensures x == d <==> IsBusinessDay(d)
    {
      FirstBusinessDayExists(d, y);
      var f :| IsFirstBusinessDayFrom(d, f);
      if y < f {
        assert false;
      }
      BetweenSplit(d, f, y);
      assert IsNthBusinessDayFrom(f, n, y);
      SubtractUndoesAdd(f, n, y, x);
    }
  }
}
