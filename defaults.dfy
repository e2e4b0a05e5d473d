/** `defaultRules` of src/config/rules.ts: the company settings used until an administrator saves
    others, and the fallback of every setting `normalizeRules` cannot read. */
module Defaults {
  import opened Strings
  import opened Calendar
  import opened Time
  import PayWeek

  /** The five default holidays of 2025, as `YYYY-MM-DD` dates. */
  const NewYearsDay: string := "2025-01-01"
  const IndependenceDay: string := "2025-07-04"
  const LaborDay: string := "2025-09-01"
  const Thanksgiving: string := "2025-11-27"
  const ChristmasDay: string := "2025-12-25"
  const DefaultHolidays: seq<string> := [NewYearsDay, IndependenceDay, LaborDay, Thanksgiving, ChristmasDay]

  const DefaultRules: RulesConfig := RulesConfig(
    expectedDailyHours := 8.0,
    overtimeWeeklyThresholdHours := 40.0,
    holidays := DefaultHolidays,
    hourlyRate := 20.0,
    overtimeMultiplier := 1.5,
    holidayMultiplier := 2.0,
    dailyOvertimeThresholdHours := 8.0,
    doubleTimeDailyThresholdHours := 12.0,
    doubleTimeMultiplier := 2.0,
    holidayPaidHoursCredit := 8.0)

  /** The text shape the holiday form accepts: four digits, a dash, two digits, a dash, two digits
      (the pattern `^\d{4}-\d{2}-\d{2}$`). */
  predicate IsYmdShape(s: string)
  {
    |s| == 10 && s[4] == '-' && s[7] == '-'
    && forall i :: 0 <= i < 10 && i != 4 && i != 7 ==> IsDigit(s[i])
  }

  /** Four digits, two digits and two digits joined by dashes have the shape. */
  lemma ShapeOfParts(y: string, m: string, dd: string)
    requires |y| == 4 && |m| == 2 && |dd| == 2 && AllDigits(y) && AllDigits(m) && AllDigits(dd)
    ensures IsYmdShape(y + "-" + m + "-" + dd)
  {
    var s := y + "-" + m + "-" + dd;
    forall i | 0 <= i < 10 && i != 4 && i != 7
      ensures IsDigit(s[i])
    {
      if i < 4 {
        assert s[i] == y[i];
      } else if i < 7 {
        assert s[i] == m[i - 5];
      } else {
        assert s[i] == dd[i - 8];
      }
    }
  }

  /** The days of years 0 to 9999 are written in that shape. */
  lemma YmdShaped(d: int)
    requires 0 <= CivilFromDays(d).year <= 9999
    ensures IsYmdShape(Ymd(d))
  {
    var c := CivilFromDays(d);
    CivilRoundTrip(d);
    PadWidth(c.year, 4);
    PadWidth(c.month, 2);
    PadWidth(c.day, 2);
    PadDigits(c.year, 4);
    PadDigits(c.month, 2);
    PadDigits(c.day, 2);
    ShapeOfParts(PadDecimal(c.year, 4), PadDecimal(c.month, 2), PadDecimal(c.day, 2));
  }

  /** Every threshold is non-negative and the double-time threshold is not below the daily
      overtime threshold, so the day breakdown's tiers add up to the day's hours. */
  lemma DefaultThresholdsOrdered(date: string, sessions: seq<WorkSession>)
    ensures 0.0 <= DefaultRules.dailyOvertimeThresholdHours <= DefaultRules.doubleTimeDailyThresholdHours
    ensures DefaultRules.overtimeWeeklyThresholdHours >= 0.0 && DefaultRules.expectedDailyHours >= 0.0
    ensures var b := DayBreakdownOf(date, sessions, DefaultRules);
      b.reg + b.ot1 + b.ot2 + b.hol == b.total
  {
  }

  /** The default holidays are in `YYYY-MM-DD` form. */
  lemma DefaultHolidaysShaped()
    ensures forall k :: 0 <= k < |DefaultHolidays| ==> IsYmdShape(DefaultHolidays[k])
  {
    forall k | 0 <= k < |DefaultHolidays|
      ensures IsYmdShape(DefaultHolidays[k])
    {
    }
  }

  /** Each default holiday comes before the next in string order: the dates agree up to the
      first differing digit of the month, where the earlier date has the smaller digit. */
  lemma DefaultHolidayBeforeNext(k: nat)
    requires k < |DefaultHolidays| - 1
    ensures Less(DefaultHolidays[k], DefaultHolidays[k + 1])
  {
    if k == 0 {
      LessAt(NewYearsDay, IndependenceDay, 6);
    } else if k == 1 {
      LessAt(IndependenceDay, LaborDay, 6);
    } else if k == 2 {
      LessAt(LaborDay, Thanksgiving, 5);
    } else {
      LessAt(Thanksgiving, ChristmasDay, 6);
    }
  }

  /** The default holidays are strictly ascending, hence sorted and without duplicates. */
  lemma DefaultHolidaysAscending()
    ensures forall i, j :: 0 <= i < j < |DefaultHolidays| ==> Less(DefaultHolidays[i], DefaultHolidays[j])
    ensures Sorted(DefaultHolidays)
    ensures forall i, j :: 0 <= i < j < |DefaultHolidays| ==> DefaultHolidays[i] != DefaultHolidays[j]
  {
    forall k | 0 <= k < |DefaultHolidays| - 1
      ensures Less(DefaultHolidays[k], DefaultHolidays[k + 1])
    {
      DefaultHolidayBeforeNext(k);
    }
    ChainAscending(DefaultHolidays);
  }

  /** Every multiplier is at least 1, so a holiday's extra pay is never negative under the defaults. */
  lemma DefaultMultipliers(sessions: seq<WorkSession>, now: int)
    ensures DefaultRules.overtimeMultiplier >= 1.0 && DefaultRules.doubleTimeMultiplier >= 1.0 && DefaultRules.holidayMultiplier >= 1.0
    ensures PayWeek.PayWeek(sessions, DefaultRules, now).holidayExtraPay >= 0.0
  {
    PayWeek.PayWeekNonNegative(sessions, DefaultRules, now);
  }

  /** The expected day, the daily overtime threshold and the holiday credit are all eight hours. */
  lemma DefaultEightHourDay()
    ensures DefaultRules.expectedDailyHours == DefaultRules.dailyOvertimeThresholdHours == DefaultRules.holidayPaidHoursCredit == 8.0
  {
  }

  /** A ten-hour working day under the defaults: eight regular hours and two overtime hours. */
  lemma DefaultTenHourDay()
    ensures SplitTiers(10.0, DefaultRules.dailyOvertimeThresholdHours, DefaultRules.doubleTimeDailyThresholdHours)
         == Tiers(8.0, 2.0, 0.0)
  {
  }

  /** A fourteen-hour working day under the defaults: eight regular, four overtime and two double-time hours. */
  lemma DefaultFourteenHourDay()
    ensures SplitTiers(14.0, DefaultRules.dailyOvertimeThresholdHours, DefaultRules.doubleTimeDailyThresholdHours)
         == Tiers(8.0, 4.0, 2.0)
  {
  }

  /** Independence Day is a holiday under the defaults and is never flagged as an early check-out. */
  lemma DefaultIndependenceDay(sessions: seq<WorkSession>)
    ensures SummarizeDay(IndependenceDay, sessions, DefaultRules).isHoliday
    ensures !SummarizeDay(IndependenceDay, sessions, DefaultRules).isEarlyCheckout
  {
    assert DefaultHolidays[1] == IndependenceDay;
  }
}
