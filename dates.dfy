/** Calendar dates as day ordinals, the weekday tokens the calendar compares
    against, and `parse_date` of business/calendar.py.

    A date is its proleptic Gregorian ordinal, as returned by Python's
    `date.toordinal()`: ordinal 1 is Monday 1 January of year 1.  Adding a
    `timedelta(days=1)` to a date is adding 1 to its ordinal. */
module Dates {
  import opened Wrappers

  /** The weekday tokens `strftime('%a').lower()` produces, Monday first. */
  const DAY_NAMES: seq<string> := ["mon", "tue", "wed", "thu", "fri", "sat", "sun"]

  /** The seven weekdays; `Name` is the token the source stores for each. */
  datatype Day = Mon | Tue | Wed | Thu | Fri | Sat | Sun
  {
    function Index(): (i: nat)
      ensures i < 7 && DAYS[i] == this
    {
      match this
      case Mon => 0
      case Tue => 1
      case Wed => 2
      case Thu => 3
      case Fri => 4
      case Sat => 5
      case Sun => 6
    }

    function Name(): (name: string)
      ensures name == DAY_NAMES[Index()]
    {
      match this
      case Mon => "mon"
      case Tue => "tue"
      case Wed => "wed"
      case Thu => "thu"
      case Fri => "fri"
      case Sat => "sat"
      case Sun => "sun"
    }
  }

  const DAYS: seq<Day> := [Mon, Tue, Wed, Thu, Fri, Sat, Sun]

  /** The weekday a token names, if it is one of the seven tokens. */
  function DayNamed(token: string): (r: Option<Day>)
    ensures r.Some? <==> token in DAY_NAMES
    ensures r.Some? ==> r.value.Name() == token
  {
    if token == "mon" then Some(Mon)
    else if token == "tue" then Some(Tue)
    else if token == "wed" then Some(Wed)
    else if token == "thu" then Some(Thu)
    else if token == "fri" then Some(Fri)
    else if token == "sat" then Some(Sat)
    else if token == "sun" then Some(Sun)
    else None
  }

  /** Reading a day's token back gives the same day: tokens and days are in
      one-to-one correspondence. */
  lemma DayNamedInvertsName(day: Day)
    ensures DayNamed(day.Name()) == Some(day)
  {
    match day
    case Mon =>
    case Tue =>
    case Wed =>
    case Thu =>
    case Fri =>
    case Sat =>
    case Sun =>
  }

  /** Distinct days have distinct tokens. */
  lemma NameInjective(a: Day, b: Day)
    requires a.Name() == b.Name()
    ensures a == b
  {
    DayNamedInvertsName(a);
    DayNamedInvertsName(b);
  }

  /** Microseconds since midnight: the time-of-day part of a datetime. */
  type TimeOfDay = t: int | 0 <= t < 86_400_000_000

  /** The inputs `parse_date` accepts: a date, a datetime, or a date string. */
  datatype DateLike =
    | Date(ordinal: int)
    | DateTime(ordinal: int, time: TimeOfDay)
    | Text(text: string)

  /** The exceptions the calendar raises: a working-day name that is not a
      weekday, and a date string the parser rejects. */
  datatype Error = InvalidDay(day: string) | InvalidDate(text: string)

  /** Weekday index of a date, 0 for Monday up to 6 for Sunday. */
  function Weekday(d: int): (w: nat)
    ensures w < 7
  {
    (d - 1) % 7
  }

  /** The weekday of a date; its `Name()` is `strftime('%a').lower()`. */
  function DayOf(d: int): (day: Day)
    ensures day.Index() == Weekday(d)
  {
    DAYS[Weekday(d)]
  }

  /** The ordinal of year/month/day, computed as `date.toordinal()` does. */
  function FromYmd(year: int, month: int, day: int): int
    requires 1 <= year && 1 <= month <= 12 && 1 <= day <= 31
  {
    var y := year - 1;
    var daysBeforeMonth := [0, 31, 59, 90, 120, 151, 181, 212, 243, 273, 304, 334][month - 1];
    var leap := year % 4 == 0 && (year % 100 != 0 || year % 400 == 0);
    y * 365 + y / 4 - y / 100 + y / 400
      + daysBeforeMonth + (if month > 2 && leap then 1 else 0)
      + day
  }

  /** The first date on or after `m` that falls on weekday `w`. */
  function OnOrAfterWeekday(m: int, w: nat): (r: int)
    requires w < 7
    ensures m <= r < m + 7 && Weekday(r) == w
  {
    var a := Weekday(m);
    var r := if a <= w then m + (w - a) else m + (w - a) + 7;
    assert m - 1 == 7 * ((m - 1) / 7) + a;
    assert r - 1 == 7 * ((m - 1) / 7 + (if a <= w then 0 else 1)) + w;
    r
  }

  /** The last date on or before `m` that falls on weekday `w`. */
  function OnOrBeforeWeekday(m: int, w: nat): (r: int)
    requires w < 7
    ensures m - 7 < r <= m && Weekday(r) == w
  {
    var a := Weekday(m);
    var r := if w <= a then m - (a - w) else m - (a - w) - 7;
    assert m - 1 == 7 * ((m - 1) / 7) + a;
    assert r - 1 == 7 * ((m - 1) / 7 - (if w <= a then 0 else 1)) + w;
    r
  }

  /** `parse_date`: a date is returned unchanged, a datetime loses its
      time-of-day, and a string goes to `parser`, which stands for dateutil's
      day-first free-form parser (None where that parser raises). */
  function ParseDate(x: DateLike, parser: string -> Option<int>): (r: Result<int, Error>)
    ensures !x.Text? ==> r == Ok(x.ordinal)
    ensures x.Text? ==> match parser(x.text)
                        case Some(d) => r == Ok(d)
                        case None => r == Err(InvalidDate(x.text))
  {
    match x
    case Text(s) =>
      (match parser(s)
       case Some(d) => Ok(d)
       case None => Err(InvalidDate(s)))
    case DateTime(d, _) => Ok(d)
    case Date(d) => Ok(d)
  }

  /** Parsing is idempotent: a parsed date parses to itself. */
  lemma ParseDateIdempotent(x: DateLike, parser: string -> Option<int>)
    ensures ParseDate(x, parser).Ok? ==>
              ParseDate(Date(ParseDate(x, parser).value), parser) == ParseDate(x, parser)
  {
  }

  /** Two datetimes on the same day parse to the same date, and to that day's date. */
  lemma ParseDateDropsTime(d: int, t1: TimeOfDay, t2: TimeOfDay, parser: string -> Option<int>)
    ensures ParseDate(DateTime(d, t1), parser) == ParseDate(DateTime(d, t2), parser)
              == ParseDate(Date(d), parser) == Ok(d)
  {
  }

  /** Weekdays repeat every seven days. */
  lemma WeekdayPeriodic(d: int, k: int)
    ensures Weekday(d + 7 * k) == Weekday(d)
  {
    assert d - 1 == 7 * ((d - 1) / 7) + Weekday(d);
    assert (d + 7 * k) - 1 == 7 * ((d - 1) / 7 + k) + Weekday(d);
  }

  /** 1 January 2013 was a Tuesday. */
  lemma KnownWeekday2013()
    ensures DayOf(FromYmd(2013, 1, 1)) == Tue && DayOf(FromYmd(2013, 1, 1)).Name() == "tue"
  {
  }

  /** 2 June 2014 was a Monday. */
  lemma KnownWeekday2014()
    ensures DayOf(FromYmd(2014, 6, 2)) == Mon && DayOf(FromYmd(2014, 6, 2)).Name() == "mon"
  {
  }
}
