/** Worked calendars: the first week of January 2013 and the month of June
    2014, with the answers the repository's tests expect from classifying,
    rolling, stepping, adding, subtracting and counting, and from the two
    setters. Dates are written as offsets from a named first of the month. */
module Scenarios {
  import opened Wrappers
  import opened Dates
  import opened Business

  /** The ordinal of Tuesday 1 January 2013. */
  const JAN_1_2013: int := 734869

  /** The ordinal of Sunday 1 June 2014. */
  const JUN_1_2014: int := 735385

  /** The ordinal named for 1 January 2013 is the one `date.toordinal()`
      gives, and that day is a Tuesday. */
  lemma OrdinalsNewYear2013()
    ensures FromYmd(2013, 1, 1) == JAN_1_2013 && FromYmd(2012, 12, 31) == JAN_1_2013 - 1
    ensures DayOf(JAN_1_2013) == Tue
  {
  }

  /** The ordinal named for 1 June 2014 is the one `date.toordinal()` gives,
      and that day is a Sunday. */
  lemma OrdinalsJune2014()
    ensures FromYmd(2014, 6, 1) == JUN_1_2014 && FromYmd(2014, 6, 30) == JUN_1_2014 + 29
    ensures DayOf(JUN_1_2014) == Sun
  {
  }

  /** Counting [a, b) is the first day's share plus counting [a + 1, b). */
  lemma CountStep(c: Calendar, a: int, b: int)
    requires a < b
    ensures c.BusinessDaysBetween(a, b) ==
              (if c.IsBusinessDay(a) then 1 else 0) + c.BusinessDaysBetween(a + 1, b)
  {
    c.BetweenSplit(a, a + 1, b);
    c.BetweenSingleDay(a);
  }

  /** The default week with 1 January 2013 as the one holiday. */
  ghost predicate NewYear2013(c: Calendar)
    reads c
  {
    c.workingDays == DEFAULT_DAYS && c.holidays == [JAN_1_2013]
  }

  /** The default week with 3 January 2013 as the one holiday. */
  ghost predicate Holiday3Jan2013(c: Calendar)
    reads c
  {
    c.workingDays == DEFAULT_DAYS && c.holidays == [JAN_1_2013 + 2]
  }

  /** The default week with holidays on 12, 18, 20 and 22 June 2014, the last
      of them a Sunday. */
  ghost predicate June2014(c: Calendar)
    reads c
  {
    c.workingDays == DEFAULT_DAYS &&
    c.holidays == [JUN_1_2014 + 11, JUN_1_2014 + 17, JUN_1_2014 + 19, JUN_1_2014 + 21]
  }

  /** Business days from Thursday 27 December 2012 to Monday 31 December. */
  lemma NewYearDecember(c: Calendar)
    requires NewYear2013(c) || Holiday3Jan2013(c)
    ensures c.IsBusinessDay(JAN_1_2013 - 5) && c.IsBusinessDay(JAN_1_2013 - 4)
    ensures !c.IsBusinessDay(JAN_1_2013 - 3) && !c.IsBusinessDay(JAN_1_2013 - 2)
    ensures c.IsBusinessDay(JAN_1_2013 - 1)
  {
    c.DefaultWeek(JAN_1_2013 - 5);
    c.DefaultWeek(JAN_1_2013 - 4);
    c.DefaultWeek(JAN_1_2013 - 3);
    c.DefaultWeek(JAN_1_2013 - 2);
    c.DefaultWeek(JAN_1_2013 - 1);
  }

  /** Business days from Tuesday 1 January 2013 to Tuesday 8 January, with
      the 1st as the holiday. */
  lemma NewYearJanuary(c: Calendar)
    requires NewYear2013(c)
    ensures !c.IsBusinessDay(JAN_1_2013) && c.IsBusinessDay(JAN_1_2013 + 1)
    ensures c.IsBusinessDay(JAN_1_2013 + 2) && c.IsBusinessDay(JAN_1_2013 + 3)
    ensures !c.IsBusinessDay(JAN_1_2013 + 4) && !c.IsBusinessDay(JAN_1_2013 + 5)
    ensures c.IsBusinessDay(JAN_1_2013 + 6) && c.IsBusinessDay(JAN_1_2013 + 7)
  {
    c.DefaultWeek(JAN_1_2013);
    c.DefaultWeek(JAN_1_2013 + 1);
    c.DefaultWeek(JAN_1_2013 + 2);
    c.DefaultWeek(JAN_1_2013 + 3);
    c.DefaultWeek(JAN_1_2013 + 4);
    c.DefaultWeek(JAN_1_2013 + 5);
    c.DefaultWeek(JAN_1_2013 + 6);
    c.DefaultWeek(JAN_1_2013 + 7);
  }

  /** Business days from Tuesday 1 January 2013 to Friday 4 January, with
      the 3rd as the holiday. */
  lemma Holiday3January(c: Calendar)
    requires Holiday3Jan2013(c)
    ensures c.IsBusinessDay(JAN_1_2013) && c.IsBusinessDay(JAN_1_2013 + 1)
    ensures !c.IsBusinessDay(JAN_1_2013 + 2) && c.IsBusinessDay(JAN_1_2013 + 3)
  {
    c.DefaultWeek(JAN_1_2013);
    c.DefaultWeek(JAN_1_2013 + 1);
    c.DefaultWeek(JAN_1_2013 + 2);
    c.DefaultWeek(JAN_1_2013 + 3);
  }

  /** A working Wednesday is a business day; a Saturday and a holiday are not,
      whether given as dates or as datetimes at 9am. */
  lemma ClassifyNewYear2013(c: Calendar, parser: string -> Option<int>)
    requires NewYear2013(c)
    ensures c.IsBusinessDay(JAN_1_2013 + 1)
    ensures !c.IsBusinessDay(JAN_1_2013 + 4)
    ensures !c.IsBusinessDay(JAN_1_2013)
    ensures c.ClassifyDay(DateTime(JAN_1_2013 + 1, 9 * 3600 * 1000000), parser) == Ok(true)
    ensures c.ClassifyDay(DateTime(JAN_1_2013 + 4, 9 * 3600 * 1000000), parser) == Ok(false)
    ensures c.ClassifyDay(DateTime(JAN_1_2013, 9 * 3600 * 1000000), parser) == Ok(false)
  {
    NewYearJanuary(c);
  }

  /** Rolling forward leaves Wednesday 2 January alone and takes the holiday
      on the 1st to the 2nd. */
  lemma RollForwardNewYear2013(c: Calendar, r1: int, r2: int)
    requires NewYear2013(c)
    ensures c.IsFirstBusinessDayFrom(JAN_1_2013 + 1, r1) <==> r1 == JAN_1_2013 + 1
    ensures c.IsFirstBusinessDayFrom(JAN_1_2013, r2) <==> r2 == JAN_1_2013 + 1
  {
    NewYearJanuary(c);
  }

  /** Rolling forward takes Saturday 5 January to Monday 7. */
  lemma RollForwardWeekend2013(c: Calendar, r: int)
    requires NewYear2013(c)
    ensures c.IsFirstBusinessDayFrom(JAN_1_2013 + 4, r) <==> r == JAN_1_2013 + 6
  {
    NewYearJanuary(c);
    if c.IsFirstBusinessDayFrom(JAN_1_2013 + 4, r) {
      assert r != JAN_1_2013 + 4 && r != JAN_1_2013 + 5;
    }
  }

  /** Rolling backward leaves Wednesday 2 January alone and takes the
      holiday on the 1st to Monday 31 December. */
  lemma RollBackwardNewYear2013(c: Calendar, r1: int, r2: int)
    requires NewYear2013(c)
    ensures c.IsLastBusinessDayUpTo(JAN_1_2013 + 1, r1) <==> r1 == JAN_1_2013 + 1
    ensures c.IsLastBusinessDayUpTo(JAN_1_2013, r2) <==> r2 == JAN_1_2013 - 1
  {
    NewYearDecember(c);
    NewYearJanuary(c);
  }

  /** Rolling backward takes Sunday 6 January to Friday 4. */
  lemma RollBackwardWeekend2013(c: Calendar, r: int)
    requires NewYear2013(c)
    ensures c.IsLastBusinessDayUpTo(JAN_1_2013 + 5, r) <==> r == JAN_1_2013 + 3
  {
    NewYearJanuary(c);
    if c.IsLastBusinessDayUpTo(JAN_1_2013 + 5, r) {
      assert r != JAN_1_2013 + 5 && r != JAN_1_2013 + 4;
    }
  }

  /** `next_business_day` is rolling forward from the day after: it takes
      Wednesday 2 January 2013 to Thursday 3, and the holiday on the 1st to
      the 2nd. */
  lemma NextNewYear2013(c: Calendar, r1: int, r2: int)
    requires NewYear2013(c)
    ensures c.IsFirstBusinessDayFrom(JAN_1_2013 + 2, r1) <==> r1 == JAN_1_2013 + 2
    ensures c.IsFirstBusinessDayFrom(JAN_1_2013 + 1, r2) <==> r2 == JAN_1_2013 + 1
  {
    NewYearJanuary(c);
  }

  /** `next_business_day` takes Saturday 5 January 2013 to Monday 7. */
  lemma NextWeekend2013(c: Calendar, r: int)
    requires NewYear2013(c)
    ensures c.IsFirstBusinessDayFrom(JAN_1_2013 + 5, r) <==> r == JAN_1_2013 + 6
  {
    NewYearJanuary(c);
    if c.IsFirstBusinessDayFrom(JAN_1_2013 + 5, r) {
      assert r != JAN_1_2013 + 5;
    }
  }

  /** `previous_business_day` is rolling backward from the day before: it
      takes Thursday 3 January 2013 to Wednesday 2, and the holiday on the
      1st to Monday 31 December. */
  lemma PreviousNewYear2013(c: Calendar, r1: int, r2: int)
    requires NewYear2013(c)
    ensures c.IsLastBusinessDayUpTo(JAN_1_2013 + 1, r1) <==> r1 == JAN_1_2013 + 1
    ensures c.IsLastBusinessDayUpTo(JAN_1_2013 - 1, r2) <==> r2 == JAN_1_2013 - 1
  {
    NewYearDecember(c);
    NewYearJanuary(c);
  }

  /** `previous_business_day` takes Sunday 6 January 2013 to Friday 4. */
  lemma PreviousWeekend2013(c: Calendar, r: int)
    requires NewYear2013(c)
    ensures c.IsLastBusinessDayUpTo(JAN_1_2013 + 4, r) <==> r == JAN_1_2013 + 3
  {
    NewYearJanuary(c);
    if c.IsLastBusinessDayUpTo(JAN_1_2013 + 4, r) {
      assert r != JAN_1_2013 + 4;
    }
  }

  /** Once one answer to adding n business days is known, it is the only one. */
  lemma AddAnswer(c: Calendar, d: int, n: nat, t: int, r: int)
    requires c.IsNthBusinessDayFrom(d, n, t)
    ensures c.IsNthBusinessDayFrom(d, n, r) <==> r == t
  {
    if c.IsNthBusinessDayFrom(d, n, r) {
      c.NthBusinessDayFromUnique(d, n, r, t);
    }
  }

  /** Once one answer to subtracting n business days is known, it is the only one. */
  lemma SubtractAnswer(c: Calendar, d: int, n: nat, t: int, r: int)
    requires c.IsNthBusinessDayBefore(d, n, t)
    ensures c.IsNthBusinessDayBefore(d, n, r) <==> r == t
  {
    if c.IsNthBusinessDayBefore(d, n, r) {
      c.NthBusinessDayBeforeUnique(d, n, r, t);
    }
  }

  /** Adding two business days to Wednesday 2 January 2013 gives Friday 4. */
  lemma AddFromWednesday2013(c: Calendar, r: int)
    requires NewYear2013(c)
    ensures c.IsNthBusinessDayFrom(JAN_1_2013 + 1, 2, r) <==> r == JAN_1_2013 + 3
  {
    NewYearJanuary(c);
    CountStep(c, JAN_1_2013 + 1, JAN_1_2013 + 3);
    CountStep(c, JAN_1_2013 + 2, JAN_1_2013 + 3);
    AddAnswer(c, JAN_1_2013 + 1, 2, JAN_1_2013 + 3, r);
  }

  /** Adding two business days to Friday 4 January skips the weekend to Tuesday 8. */
  lemma AddFromFriday2013(c: Calendar, r: int)
    requires NewYear2013(c)
    ensures c.IsNthBusinessDayFrom(JAN_1_2013 + 3, 2, r) <==> r == JAN_1_2013 + 7
  {
    NewYearJanuary(c);
    CountStep(c, JAN_1_2013 + 3, JAN_1_2013 + 7);
    CountStep(c, JAN_1_2013 + 4, JAN_1_2013 + 7);
    CountStep(c, JAN_1_2013 + 5, JAN_1_2013 + 7);
    CountStep(c, JAN_1_2013 + 6, JAN_1_2013 + 7);
    AddAnswer(c, JAN_1_2013 + 3, 2, JAN_1_2013 + 7, r);
  }

  /** Adding two business days to Monday 31 December 2012 skips the holiday to Thursday 3 January. */
  lemma AddAcrossHoliday2013(c: Calendar, r: int)
    requires NewYear2013(c)
    ensures c.IsNthBusinessDayFrom(JAN_1_2013 - 1, 2, r) <==> r == JAN_1_2013 + 2
  {
    NewYearDecember(c);
    NewYearJanuary(c);
    CountStep(c, JAN_1_2013 - 1, JAN_1_2013 + 2);
    CountStep(c, JAN_1_2013, JAN_1_2013 + 2);
    CountStep(c, JAN_1_2013 + 1, JAN_1_2013 + 2);
    AddAnswer(c, JAN_1_2013 - 1, 2, JAN_1_2013 + 2, r);
  }

  /** Adding two business days to the holiday on 1 January rolls forward to the
      2nd first, and so gives Friday 4. */
  lemma AddFromHoliday2013(c: Calendar, r: int)
    requires NewYear2013(c)
    ensures c.IsNthBusinessDayFrom(JAN_1_2013, 2, r) <==> r == JAN_1_2013 + 3
  {
    NewYearJanuary(c);
    CountStep(c, JAN_1_2013, JAN_1_2013 + 3);
    CountStep(c, JAN_1_2013 + 1, JAN_1_2013 + 3);
    CountStep(c, JAN_1_2013 + 2, JAN_1_2013 + 3);
    AddAnswer(c, JAN_1_2013, 2, JAN_1_2013 + 3, r);
  }

  /** With 3 January as the holiday, subtracting two business days from
      Wednesday 2 January gives Monday 31 December. */
  lemma SubtractFromWednesday2013(c: Calendar, r: int)
    requires Holiday3Jan2013(c)
    ensures c.IsNthBusinessDayBefore(JAN_1_2013 + 1, 2, r) <==> r == JAN_1_2013 - 1
  {
    NewYearDecember(c);
    Holiday3January(c);
    CountStep(c, JAN_1_2013, JAN_1_2013 + 2);
    CountStep(c, JAN_1_2013 + 1, JAN_1_2013 + 2);
    SubtractAnswer(c, JAN_1_2013 + 1, 2, JAN_1_2013 - 1, r);
  }

  /** Subtracting two business days from Monday 31 December 2012 skips the
      weekend to Thursday 27. */
  lemma SubtractFromMonday2013(c: Calendar, r: int)
    requires Holiday3Jan2013(c)
    ensures c.IsNthBusinessDayBefore(JAN_1_2013 - 1, 2, r) <==> r == JAN_1_2013 - 5
  {
    NewYearDecember(c);
    CountStep(c, JAN_1_2013 - 4, JAN_1_2013);
    CountStep(c, JAN_1_2013 - 3, JAN_1_2013);
    CountStep(c, JAN_1_2013 - 2, JAN_1_2013);
    CountStep(c, JAN_1_2013 - 1, JAN_1_2013);
    SubtractAnswer(c, JAN_1_2013 - 1, 2, JAN_1_2013 - 5, r);
  }

  /** Subtracting two business days from Friday 4 January skips the holiday
      on the 3rd to Tuesday 1. */
  lemma SubtractFromFriday2013(c: Calendar, r: int)
    requires Holiday3Jan2013(c)
    ensures c.IsNthBusinessDayBefore(JAN_1_2013 + 3, 2, r) <==> r == JAN_1_2013
  {
    Holiday3January(c);
    CountStep(c, JAN_1_2013 + 1, JAN_1_2013 + 4);
    CountStep(c, JAN_1_2013 + 2, JAN_1_2013 + 4);
    CountStep(c, JAN_1_2013 + 3, JAN_1_2013 + 4);
    SubtractAnswer(c, JAN_1_2013 + 3, 2, JAN_1_2013, r);
  }

  /** Subtracting two business days from the holiday on 3 January rolls back
      to Wednesday 2 first, and so gives Monday 31 December. */
  lemma SubtractFromHoliday2013(c: Calendar, r: int)
    requires Holiday3Jan2013(c)
    ensures c.IsNthBusinessDayBefore(JAN_1_2013 + 2, 2, r) <==> r == JAN_1_2013 - 1
  {
    NewYearDecember(c);
    Holiday3January(c);
    CountStep(c, JAN_1_2013, JAN_1_2013 + 3);
    CountStep(c, JAN_1_2013 + 1, JAN_1_2013 + 3);
    CountStep(c, JAN_1_2013 + 2, JAN_1_2013 + 3);
    SubtractAnswer(c, JAN_1_2013 + 2, 2, JAN_1_2013 - 1, r);
  }

  /** Business days from Monday 2 June 2014 to Sunday 8 June. */
  lemma JuneFirstWeek(c: Calendar)
    requires June2014(c)
    ensures c.IsBusinessDay(JUN_1_2014 + 1) && c.IsBusinessDay(JUN_1_2014 + 2)
    ensures c.IsBusinessDay(JUN_1_2014 + 3) && c.IsBusinessDay(JUN_1_2014 + 4)
    ensures c.IsBusinessDay(JUN_1_2014 + 5) && !c.IsBusinessDay(JUN_1_2014 + 6)
    ensures !c.IsBusinessDay(JUN_1_2014 + 7)
  {
    c.DefaultWeek(JUN_1_2014 + 1);
    c.DefaultWeek(JUN_1_2014 + 2);
    c.DefaultWeek(JUN_1_2014 + 3);
    c.DefaultWeek(JUN_1_2014 + 4);
    c.DefaultWeek(JUN_1_2014 + 5);
    c.DefaultWeek(JUN_1_2014 + 6);
    c.DefaultWeek(JUN_1_2014 + 7);
  }

  /** Business days from Monday 9 June 2014 to Friday 13 June. */
  lemma JuneSecondWeek(c: Calendar)
    requires June2014(c)
    ensures c.IsBusinessDay(JUN_1_2014 + 8)
    ensures c.IsBusinessDay(JUN_1_2014 + 9) && c.IsBusinessDay(JUN_1_2014 + 10)
    ensures !c.IsBusinessDay(JUN_1_2014 + 11) && c.IsBusinessDay(JUN_1_2014 + 12)
  {
    c.DefaultWeek(JUN_1_2014 + 8);
    c.DefaultWeek(JUN_1_2014 + 9);
    c.DefaultWeek(JUN_1_2014 + 10);
    c.DefaultWeek(JUN_1_2014 + 11);
    c.DefaultWeek(JUN_1_2014 + 12);
  }

  /** Business days from Wednesday 18 June 2014 to Monday 23 June. */
  lemma JuneThirdWeek(c: Calendar)
    requires June2014(c)
    ensures !c.IsBusinessDay(JUN_1_2014 + 17) && c.IsBusinessDay(JUN_1_2014 + 18)
    ensures !c.IsBusinessDay(JUN_1_2014 + 19) && !c.IsBusinessDay(JUN_1_2014 + 20)
    ensures !c.IsBusinessDay(JUN_1_2014 + 21) && c.IsBusinessDay(JUN_1_2014 + 22)
  {
    c.DefaultWeek(JUN_1_2014 + 17);
    c.DefaultWeek(JUN_1_2014 + 18);
    c.DefaultWeek(JUN_1_2014 + 19);
    c.DefaultWeek(JUN_1_2014 + 20);
    c.DefaultWeek(JUN_1_2014 + 21);
    c.DefaultWeek(JUN_1_2014 + 22);
  }

  /** Business days from Saturday 14 June 2014 to Tuesday 17 June. */
  lemma JuneMidMonth(c: Calendar)
    requires June2014(c)
    ensures !c.IsBusinessDay(JUN_1_2014 + 13) && !c.IsBusinessDay(JUN_1_2014 + 14)
    ensures c.IsBusinessDay(JUN_1_2014 + 15) && c.IsBusinessDay(JUN_1_2014 + 16)
  {
    c.DefaultWeek(JUN_1_2014 + 13);
    c.DefaultWeek(JUN_1_2014 + 14);
    c.DefaultWeek(JUN_1_2014 + 15);
    c.DefaultWeek(JUN_1_2014 + 16);
  }

  /** Three business days from Monday 2 June 2014 to Thursday 5, and two
      from there to Saturday 7. */
  lemma JunePiecesFirstWeek(c: Calendar)
    requires June2014(c)
    ensures c.BusinessDaysBetween(JUN_1_2014 + 1, JUN_1_2014 + 4) == 3
    ensures c.BusinessDaysBetween(JUN_1_2014 + 4, JUN_1_2014 + 6) == 2
  {
    JuneFirstWeek(c);
    CountStep(c, JUN_1_2014 + 1, JUN_1_2014 + 4);
    CountStep(c, JUN_1_2014 + 2, JUN_1_2014 + 4);
    CountStep(c, JUN_1_2014 + 3, JUN_1_2014 + 4);
    CountStep(c, JUN_1_2014 + 4, JUN_1_2014 + 6);
    CountStep(c, JUN_1_2014 + 5, JUN_1_2014 + 6);
  }

  /** None on Saturday 7 or Sunday 8 June 2014, and three from Monday 9 to
      the holiday on Thursday 12. */
  lemma JunePiecesSecondWeek(c: Calendar)
    requires June2014(c)
    ensures c.BusinessDaysBetween(JUN_1_2014 + 6, JUN_1_2014 + 7) == 0
    ensures c.BusinessDaysBetween(JUN_1_2014 + 7, JUN_1_2014 + 8) == 0
    ensures c.BusinessDaysBetween(JUN_1_2014 + 8, JUN_1_2014 + 11) == 3
  {
    JuneFirstWeek(c);
    JuneSecondWeek(c);
    CountStep(c, JUN_1_2014 + 6, JUN_1_2014 + 7);
    CountStep(c, JUN_1_2014 + 7, JUN_1_2014 + 8);
    CountStep(c, JUN_1_2014 + 8, JUN_1_2014 + 11);
    CountStep(c, JUN_1_2014 + 9, JUN_1_2014 + 11);
    CountStep(c, JUN_1_2014 + 10, JUN_1_2014 + 11);
  }

  /** None on the holiday on Thursday 12 June 2014, one on Friday 13, none on
      Saturday 14 or Sunday 15. */
  lemma JunePiecesMidMonth(c: Calendar)
    requires June2014(c)
    ensures c.BusinessDaysBetween(JUN_1_2014 + 11, JUN_1_2014 + 12) == 0
    ensures c.BusinessDaysBetween(JUN_1_2014 + 12, JUN_1_2014 + 13) == 1
    ensures c.BusinessDaysBetween(JUN_1_2014 + 13, JUN_1_2014 + 15) == 0
  {
    JuneSecondWeek(c);
    JuneMidMonth(c);
    CountStep(c, JUN_1_2014 + 11, JUN_1_2014 + 12);
    CountStep(c, JUN_1_2014 + 12, JUN_1_2014 + 13);
    CountStep(c, JUN_1_2014 + 13, JUN_1_2014 + 15);
    CountStep(c, JUN_1_2014 + 14, JUN_1_2014 + 15);
  }

  /** Two from Monday 16 June 2014 to the holiday on Wednesday 18, none on
      that holiday, one on Thursday 19, and one from the holiday on Friday 20
      to Monday 23. */
  lemma JunePiecesThirdWeek(c: Calendar)
    requires June2014(c)
    ensures c.BusinessDaysBetween(JUN_1_2014 + 15, JUN_1_2014 + 17) == 2
    ensures c.BusinessDaysBetween(JUN_1_2014 + 17, JUN_1_2014 + 18) == 0
    ensures c.BusinessDaysBetween(JUN_1_2014 + 18, JUN_1_2014 + 19) == 1
    ensures c.BusinessDaysBetween(JUN_1_2014 + 19, JUN_1_2014 + 23) == 1
  {
    JuneMidMonth(c);
    JuneThirdWeek(c);
    CountStep(c, JUN_1_2014 + 15, JUN_1_2014 + 17);
    CountStep(c, JUN_1_2014 + 16, JUN_1_2014 + 17);
    CountStep(c, JUN_1_2014 + 17, JUN_1_2014 + 18);
    CountStep(c, JUN_1_2014 + 18, JUN_1_2014 + 19);
    CountStep(c, JUN_1_2014 + 19, JUN_1_2014 + 23);
    CountStep(c, JUN_1_2014 + 20, JUN_1_2014 + 23);
    CountStep(c, JUN_1_2014 + 21, JUN_1_2014 + 23);
    CountStep(c, JUN_1_2014 + 22, JUN_1_2014 + 23);
  }

  /** Starting on a business day and ending by the weekend: from Monday 2
      June 2014 to Thursday 5, Sunday 8 and Monday 9. */
  lemma BetweenFirstWeekJune2014(c: Calendar)
    requires June2014(c)
    ensures c.BusinessDaysBetween(JUN_1_2014 + 1, JUN_1_2014 + 4) == 3
    ensures c.BusinessDaysBetween(JUN_1_2014 + 1, JUN_1_2014 + 7) == 5
    ensures c.BusinessDaysBetween(JUN_1_2014 + 1, JUN_1_2014 + 8) == 5
  {
    JunePiecesFirstWeek(c);
    JunePiecesSecondWeek(c);
    c.BetweenSplit(JUN_1_2014 + 1, JUN_1_2014 + 4, JUN_1_2014 + 6);
    c.BetweenSplit(JUN_1_2014 + 1, JUN_1_2014 + 6, JUN_1_2014 + 7);
    c.BetweenSplit(JUN_1_2014 + 1, JUN_1_2014 + 7, JUN_1_2014 + 8);
  }

  /** Starting on Monday 9 June 2014: three business days to the holiday
      on Thursday 12, and three to Friday 13. */
  lemma BetweenSecondWeekJune2014(c: Calendar)
    requires June2014(c)
    ensures c.BusinessDaysBetween(JUN_1_2014 + 8, JUN_1_2014 + 11) == 3
    ensures c.BusinessDaysBetween(JUN_1_2014 + 8, JUN_1_2014 + 12) == 3
  {
    JunePiecesSecondWeek(c);
    JunePiecesMidMonth(c);
    c.BetweenSplit(JUN_1_2014 + 8, JUN_1_2014 + 11, JUN_1_2014 + 12);
  }

  /** Starting on Monday 2 June 2014 and ending in the second week: eight
      business days to the holiday on Thursday 12, eight to Friday 13, and
      nine to Saturday 14. */
  lemma BetweenFortnightJune2014(c: Calendar)
    requires June2014(c)
    ensures c.BusinessDaysBetween(JUN_1_2014 + 1, JUN_1_2014 + 11) == 8
    ensures c.BusinessDaysBetween(JUN_1_2014 + 1, JUN_1_2014 + 12) == 8
    ensures c.BusinessDaysBetween(JUN_1_2014 + 1, JUN_1_2014 + 13) == 9
  {
    BetweenFirstWeekJune2014(c);
    BetweenSecondWeekJune2014(c);
    JunePiecesMidMonth(c);
    c.BetweenSplit(JUN_1_2014 + 1, JUN_1_2014 + 8, JUN_1_2014 + 11);
    c.BetweenSplit(JUN_1_2014 + 1, JUN_1_2014 + 8, JUN_1_2014 + 12);
    c.BetweenSplit(JUN_1_2014 + 1, JUN_1_2014 + 12, JUN_1_2014 + 13);
  }

  /** Starting on Saturday 7 June 2014 and ending by Monday 9 or on the
      holiday on Thursday 12. */
  lemma BetweenFromWeekendJune2014(c: Calendar)
    requires June2014(c)
    ensures c.BusinessDaysBetween(JUN_1_2014 + 6, JUN_1_2014 + 7) == 0
    ensures c.BusinessDaysBetween(JUN_1_2014 + 6, JUN_1_2014 + 8) == 0
    ensures c.BusinessDaysBetween(JUN_1_2014 + 6, JUN_1_2014 + 11) == 3
  {
    JunePiecesSecondWeek(c);
    c.BetweenSplit(JUN_1_2014 + 6, JUN_1_2014 + 7, JUN_1_2014 + 8);
    c.BetweenSplit(JUN_1_2014 + 6, JUN_1_2014 + 8, JUN_1_2014 + 11);
  }

  /** Starting on Saturday 7 June 2014 and ending on Friday 13 or Saturday 14. */
  lemma BetweenFromWeekendToFridayJune2014(c: Calendar)
    requires June2014(c)
    ensures c.BusinessDaysBetween(JUN_1_2014 + 6, JUN_1_2014 + 12) == 3
    ensures c.BusinessDaysBetween(JUN_1_2014 + 6, JUN_1_2014 + 13) == 4
  {
    BetweenFromWeekendJune2014(c);
    JunePiecesMidMonth(c);
    c.BetweenSplit(JUN_1_2014 + 6, JUN_1_2014 + 11, JUN_1_2014 + 12);
    c.BetweenSplit(JUN_1_2014 + 6, JUN_1_2014 + 12, JUN_1_2014 + 13);
  }

  /** Starting on the holiday on Thursday 12 June 2014: to Friday 13 and to
      Sunday 15. */
  lemma BetweenFromHolidayJune2014(c: Calendar)
    requires June2014(c)
    ensures c.BusinessDaysBetween(JUN_1_2014 + 11, JUN_1_2014 + 12) == 0
    ensures c.BusinessDaysBetween(JUN_1_2014 + 11, JUN_1_2014 + 14) == 1
  {
    JunePiecesMidMonth(c);
    c.BetweenSplit(JUN_1_2014 + 11, JUN_1_2014 + 12, JUN_1_2014 + 13);
    c.BetweenSplit(JUN_1_2014 + 13, JUN_1_2014 + 14, JUN_1_2014 + 15);
    c.BetweenSplit(JUN_1_2014 + 11, JUN_1_2014 + 13, JUN_1_2014 + 14);
  }

  /** Starting on the holiday on Thursday 12 June 2014: to the holiday on
      Wednesday 18 and to Thursday 19. */
  lemma BetweenFromHolidayToHolidayJune2014(c: Calendar)
    requires June2014(c)
    ensures c.BusinessDaysBetween(JUN_1_2014 + 11, JUN_1_2014 + 17) == 3
    ensures c.BusinessDaysBetween(JUN_1_2014 + 11, JUN_1_2014 + 18) == 3
  {
    JunePiecesMidMonth(c);
    JunePiecesThirdWeek(c);
    c.BetweenSplit(JUN_1_2014 + 11, JUN_1_2014 + 12, JUN_1_2014 + 13);
    c.BetweenSplit(JUN_1_2014 + 11, JUN_1_2014 + 13, JUN_1_2014 + 15);
    c.BetweenSplit(JUN_1_2014 + 11, JUN_1_2014 + 15, JUN_1_2014 + 17);
    c.BetweenSplit(JUN_1_2014 + 11, JUN_1_2014 + 17, JUN_1_2014 + 18);
  }

  /** Between holidays, and across a holiday on a weekend: one business day
      from Wednesday 18 June 2014 to Friday 20, two from Thursday 19 to
      Tuesday 24, and four from Monday 16 to Tuesday 24, the holiday on
      Sunday 22 costing nothing. */
  lemma BetweenHolidaysJune2014(c: Calendar)
    requires June2014(c)
    ensures c.BusinessDaysBetween(JUN_1_2014 + 17, JUN_1_2014 + 19) == 1
    ensures c.BusinessDaysBetween(JUN_1_2014 + 18, JUN_1_2014 + 23) == 2
    ensures c.BusinessDaysBetween(JUN_1_2014 + 15, JUN_1_2014 + 23) == 4
  {
    JunePiecesThirdWeek(c);
    c.BetweenSplit(JUN_1_2014 + 17, JUN_1_2014 + 18, JUN_1_2014 + 19);
    c.BetweenSplit(JUN_1_2014 + 18, JUN_1_2014 + 19, JUN_1_2014 + 23);
    c.BetweenSplit(JUN_1_2014 + 15, JUN_1_2014 + 17, JUN_1_2014 + 18);
    c.BetweenSplit(JUN_1_2014 + 15, JUN_1_2014 + 18, JUN_1_2014 + 19);
    c.BetweenSplit(JUN_1_2014 + 15, JUN_1_2014 + 19, JUN_1_2014 + 23);
  }

  /** No working days given stores the default, which the getter shows as
      the default tokens. */
  lemma WorkingDaysNone()
    ensures NormaliseWorkingDays([]) == Ok(DEFAULT_DAYS)
    ensures Names(DEFAULT_DAYS) == DEFAULT_WORKING_DAYS
  {
    DefaultDaysNames();
  }

  /** A holiday given as text is stored as the date the parser reads from it. */
  lemma HolidaysFromText(parser: string -> Option<int>)
    requires parser("1st Jan, 2013") == Some(JAN_1_2013)
    ensures ParseDates([Text("1st Jan, 2013")], parser) == Ok([JAN_1_2013])
  {
    var r := ParseDates([Text("1st Jan, 2013")], parser);
    assert ParseDate(Text("1st Jan, 2013"), parser) == Ok(JAN_1_2013);
    assert r.Ok? && |r.value| == 1 && r.value[0] == JAN_1_2013;
    assert r.value == [JAN_1_2013];
  }

  /** No holidays given leaves none. */
  lemma HolidaysNone(parser: string -> Option<int>)
    ensures ParseDates([], parser) == Ok([])
  {
  }

  /** Tokens are kept as they are. */
  lemma WorkingDaysFromTokens()
    ensures NormaliseWorkingDays(["mon", "fri"]) == Ok([Mon, Fri])
  {
    NameIsNormalised(Mon);
    NameIsNormalised(Fri);
    NormaliseDaysSucceeds(["mon", "fri"], [Mon, Fri]);
  }

  /** Full names are cut to their tokens. */
  lemma WorkingDaysFromNames()
    ensures NormaliseWorkingDays(["Monday", "Friday"]) == Ok([Mon, Fri])
  {
    assert Normalise("Monday") == "mon";
    assert Normalise("Friday") == "fri";
    NormaliseDaysSucceeds(["Monday", "Friday"], [Mon, Fri]);
  }

  /** A name that is no weekday is reported as given. */
  lemma WorkingDaysRejectsNotaday()
    ensures NormaliseWorkingDays(["Notaday"]) == Err(InvalidDay("Notaday"))
  {
    assert Normalise("Notaday") == "not";
    NormaliseDaysFailsAt(["Notaday"], 0);
  }
}
