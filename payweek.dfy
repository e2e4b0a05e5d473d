/** `summarizePayWeek` of src/utils/time.ts: the pay summary of the current Monday-to-Sunday week.

    The computation runs in three stages, each modelled by a specification function:
    `PerDay` buckets the hours of the week's sessions by check-in date, `Accumulate` walks the
    seven dates of the week and splits each day's hours into holiday, regular, daily overtime and
    double-time hours, and `Settle` moves hours above the weekly threshold from regular to overtime
    and prices everything. `SummarizePayWeek` is the method with the source's two loops, proved to
    compute `PayWeek`. */
module PayWeek {
  import opened Options
  import opened Seqs
  import opened Calendar
  import opened Time

  // ---------------------------------------------------------------------------
  // stage 1: hours per check-in date

  /** `perDay[d] || 0`: the hours recorded for date `d`, zero when there are none. */
  function Lookup(perDay: map<string, real>, d: string): real
  {
    if d in perDay then perDay[d] else 0.0
  }

  /** The `perDay` record after the sessions `ss` have been visited in order: each session that
      checks in during the week starting at `monday` adds its hours to the bucket of its check-in date. */
  function PerDay(ss: seq<WorkSession>, monday: int): (perDay: map<string, real>)
    ensures forall d :: d in perDay ==> perDay[d] >= 0.0
  {
    if ss == [] then map[]
    else
      var before := PerDay(ss[..|ss| - 1], monday);
      var s := ss[|ss| - 1];
      if !InWindow(s, monday) then before
      else
        var d := CheckInDate(s);
        before[d := Lookup(before, d) + SessionHours(s)]
  }

  /** The hours recorded for the dates `keys`, added up. */
  function SumAt(perDay: map<string, real>, keys: seq<string>): real
  {
    if keys == [] then 0.0 else SumAt(perDay, keys[..|keys| - 1]) + Lookup(perDay, keys[|keys| - 1])
  }

  /** Nothing recorded sums to nothing. */
  lemma {:induction false} SumAtEmpty(keys: seq<string>)
    ensures SumAt(map[], keys) == 0.0
  {
    if keys != [] {
      SumAtEmpty(keys[..|keys| - 1]);
    }
  }

  /** Adding `h` hours to the bucket of one of the (distinct) dates adds `h` to their sum. */
  lemma {:induction false} SumAtAdd(perDay: map<string, real>, keys: seq<string>, key: string, h: real)
    requires Distinct(keys) && key in keys
    ensures SumAt(perDay[key := Lookup(perDay, key) + h], keys) == SumAt(perDay, keys) + h
  {
    var front, last := keys[..|keys| - 1], keys[|keys| - 1];
    if key == last {
      SumAtOther(perDay, front, key, Lookup(perDay, key) + h);
    } else {
      assert key in front;
      SumAtAdd(perDay, front, key, h);
    }
  }

  /** Changing the bucket of a date outside `keys` leaves their sum alone. */
  lemma {:induction false} SumAtOther(perDay: map<string, real>, keys: seq<string>, key: string, v: real)
    requires key !in keys
    ensures SumAt(perDay[key := v], keys) == SumAt(perDay, keys)
  {
    if keys != [] {
      SumAtOther(perDay, keys[..|keys| - 1], key, v);
    }
  }

  /** A session of the week checks in on one of the week's seven dates. */
  lemma WeekKeyOf(s: WorkSession, now: int)
    requires InWindow(s, WeekStartMs(now))
    ensures CheckInDate(s) in DayKeys(MondayOf(DayOf(now)), 7)
  {
    var first := MondayOf(DayOf(now));
    InWindowDays(s, now);
    DayKeysAt(first, 7);
    assert DayKeys(first, 7)[DayOf(s.checkIn) - first] == CheckInDate(s);
  }

  /** Visiting one more session grows the week's filtered list by that session exactly when it is in the week. */
  lemma InWeekOfSnoc(front: seq<WorkSession>, s: WorkSession, now: int)
    ensures InWeekOf(front + [s], now) == InWeekOf(front, now) + (if InWindow(s, WeekStartMs(now)) then [s] else [])
  {
    FilterAppend(front, [s], InWeek(now));
    FilterSingle(s, InWeek(now));
  }

  /** Distinct dates that cover the check-in dates of the week's sessions together hold exactly
      the hours of those sessions. */
  lemma {:induction false} PerDayTotal(ss: seq<WorkSession>, now: int, keys: seq<string>)
    requires Distinct(keys)
    requires forall k :: 0 <= k < |ss| && InWindow(ss[k], WeekStartMs(now)) ==> CheckInDate(ss[k]) in keys
    ensures SumAt(PerDay(ss, WeekStartMs(now)), keys) == SumHours(InWeekOf(ss, now))
  {
    if ss == [] {
      SumAtEmpty(keys);
    } else {
      var front, s := ss[..|ss| - 1], ss[|ss| - 1];
      assert ss == front + [s];
      PerDayTotal(front, now, keys);
      if InWindow(s, WeekStartMs(now)) {
        PerDayTotalIn(front, s, WeekStartMs(now), keys);
        WeekHoursIn(front, s, now);
      } else {
        PerDayTotalOut(front, s, now);
      }
    }
  }

  /** One more session of the week adds its hours to the record's total over the dates. */
  lemma PerDayTotalIn(front: seq<WorkSession>, s: WorkSession, monday: int, keys: seq<string>)
    requires Distinct(keys) && InWindow(s, monday) && CheckInDate(s) in keys
    ensures SumAt(PerDay(front + [s], monday), keys) == SumAt(PerDay(front, monday), keys) + SessionHours(s)
  {
    PerDaySnoc(front, s, monday);
    SumAtAdd(PerDay(front, monday), keys, CheckInDate(s), SessionHours(s));
  }

  /** One more session of the week adds its hours to the week's hours. */
  lemma WeekHoursIn(front: seq<WorkSession>, s: WorkSession, now: int)
    requires InWindow(s, WeekStartMs(now))
    ensures SumHours(InWeekOf(front + [s], now)) == SumHours(InWeekOf(front, now)) + SessionHours(s)
  {
    InWeekOfSnoc(front, s, now);
    SumHoursSnoc(InWeekOf(front, now), s);
  }

  /** One more session outside the week changes neither the record nor the week's sessions. */
  lemma PerDayTotalOut(front: seq<WorkSession>, s: WorkSession, now: int)
    requires !InWindow(s, WeekStartMs(now))
    ensures PerDay(front + [s], WeekStartMs(now)) == PerDay(front, WeekStartMs(now))
    ensures InWeekOf(front + [s], now) == InWeekOf(front, now)
  {
    PerDaySnoc(front, s, WeekStartMs(now));
    InWeekOfSnoc(front, s, now);
    assert InWeekOf(front, now) + [] == InWeekOf(front, now);
  }

  /** The week's seven dates together hold exactly the hours of the sessions of the week. */
  lemma PerDayWeekTotal(ss: seq<WorkSession>, now: int)
    ensures SumAt(PerDay(ss, WeekStartMs(now)), DayKeys(MondayOf(DayOf(now)), 7)) == SumHours(InWeekOf(ss, now))
  {
    var keys := DayKeys(MondayOf(DayOf(now)), 7);
    DayKeysDistinct(MondayOf(DayOf(now)), 7);
    DistinctIndices(keys);
    forall k | 0 <= k < |ss| && InWindow(ss[k], WeekStartMs(now))
      ensures CheckInDate(ss[k]) in keys
    {
      WeekKeyOf(ss[k], now);
    }
    PerDayTotal(ss, now, keys);
  }

  /** For each date of the week, the bucket holds the same hours `summarizeDay` reports for that date. */
  lemma {:induction false} PerDayMatchesDay(ss: seq<WorkSession>, rules: RulesConfig, now: int, day: int)
    requires MondayOf(DayOf(now)) <= day < MondayOf(DayOf(now)) + 7
    ensures Lookup(PerDay(ss, WeekStartMs(now)), Ymd(day)) == SummarizeDay(Ymd(day), ss, rules).totalHours
  {
    if ss == [] {
      assert OnDate(ss, Ymd(day)) == [];
    } else {
      var front, s := ss[..|ss| - 1], ss[|ss| - 1];
      assert ss == front + [s];
      PerDayMatchesDay(front, rules, now, day);
      DayTotalAppend(Ymd(day), front, [s], rules);
      DayTotalSingle(Ymd(day), s, rules);
      if CheckInDate(s) == Ymd(day) {
        YmdInjective(DayOf(s.checkIn), day);
        InWindowDays(s, now);
      }
    }
  }

  /** Visiting one more session. */
  lemma PerDaySnoc(front: seq<WorkSession>, s: WorkSession, monday: int)
    ensures PerDay(front + [s], monday)
         == if InWindow(s, monday)
            then PerDay(front, monday)[CheckInDate(s) := Lookup(PerDay(front, monday), CheckInDate(s)) + SessionHours(s)]
            else PerDay(front, monday)
  {
    assert (front + [s])[..|front|] == front;
  }

  /** Sessions that check in outside the week leave the record untouched. */
  lemma PerDayIgnoresOtherWeeks(ss: seq<WorkSession>, s: WorkSession, monday: int)
    requires !InWindow(s, monday)
    ensures PerDay(ss + [s], monday) == PerDay(ss, monday)
  {
    assert (ss + [s])[..|ss + [s]| - 1] == ss;
  }

  // ---------------------------------------------------------------------------
  // stage 2: the seven days

  /** The five running totals of the day loop. */
  datatype Totals = Totals(
    holidayHours: real,
    holidayCreditHours: real,
    dailyRegularHours: real,
    dailyOvertimeHours: real,
    doubleTimeHours: real)

  /** One pass of the day loop over a date with `worked` hours. A holiday adds its hours to the
      holiday hours, and its paid credit when nothing was worked and the credit is positive. Any
      other day adds its regular, overtime and double-time tiers. */
  function DayStep(acc: Totals, worked: real, holiday: bool, rules: RulesConfig): Totals
  {
    if holiday then
      acc.(holidayHours := acc.holidayHours + worked,
           holidayCreditHours := acc.holidayCreditHours
             + (if worked == 0.0 && rules.holidayPaidHoursCredit > 0.0 then rules.holidayPaidHoursCredit else 0.0))
    else
      var t := SplitTiers(worked, rules.dailyOvertimeThresholdHours, rules.doubleTimeDailyThresholdHours);
      acc.(dailyRegularHours := acc.dailyRegularHours + t.regular,
           dailyOvertimeHours := acc.dailyOvertimeHours + t.overtime,
           doubleTimeHours := acc.doubleTimeHours + t.doubleTime)
  }

  /** The running totals after the day loop has visited the dates `keys` in order. */
  function Accumulate(perDay: map<string, real>, keys: seq<string>, rules: RulesConfig): Totals
  {
    if keys == [] then Totals(0.0, 0.0, 0.0, 0.0, 0.0)
    else
      var d := keys[|keys| - 1];
      DayStep(Accumulate(perDay, keys[..|keys| - 1], rules), Lookup(perDay, d), IsHoliday(d, rules.holidays), rules)
  }

  /** The holidays among `keys` on which nothing was worked. */
  function IdleHolidays(perDay: map<string, real>, keys: seq<string>, holidays: seq<string>): nat
  {
    if keys == [] then 0
    else
      var d := keys[|keys| - 1];
      IdleHolidays(perDay, keys[..|keys| - 1], holidays) + (if d in holidays && Lookup(perDay, d) == 0.0 then 1 else 0)
  }

  /** With the thresholds in order, the day loop accounts for every recorded hour exactly once. */
  lemma {:induction false} AccumulateAccountsAll(perDay: map<string, real>, keys: seq<string>, rules: RulesConfig)
    requires rules.dailyOvertimeThresholdHours <= rules.doubleTimeDailyThresholdHours
    ensures var t := Accumulate(perDay, keys, rules);
      t.holidayHours + t.dailyRegularHours + t.dailyOvertimeHours + t.doubleTimeHours == SumAt(perDay, keys)
  {
    if keys != [] {
      var d := keys[|keys| - 1];
      AccumulateAccountsAll(perDay, keys[..|keys| - 1], rules);
      SplitTiersFacts(Lookup(perDay, d), rules.dailyOvertimeThresholdHours, rules.doubleTimeDailyThresholdHours);
    }
  }

  /** `n` credits of `c` hours each. */
  function Credits(c: real, n: nat): (r: real)
  {
    if n == 0 then 0.0 else Credits(c, n - 1) + c
  }

  lemma {:induction false} CreditsProduct(c: real, n: nat)
    ensures Credits(c, n) == c * n as real
  {
    if n > 0 {
      CreditsProduct(c, n - 1);
      assert c * n as real == c * (n - 1) as real + c;
    }
  }

  /** The paid holiday credit is one credit per idle holiday, or nothing when the credit is not positive. */
  lemma {:induction false} AccumulateCredit(perDay: map<string, real>, keys: seq<string>, rules: RulesConfig)
    ensures Accumulate(perDay, keys, rules).holidayCreditHours
         == if rules.holidayPaidHoursCredit > 0.0
            then rules.holidayPaidHoursCredit * IdleHolidays(perDay, keys, rules.holidays) as real
            else 0.0
  {
    AccumulateCredits(perDay, keys, rules);
    CreditsProduct(rules.holidayPaidHoursCredit, IdleHolidays(perDay, keys, rules.holidays));
  }

  lemma {:induction false} AccumulateCredits(perDay: map<string, real>, keys: seq<string>, rules: RulesConfig)
    ensures Accumulate(perDay, keys, rules).holidayCreditHours
         == if rules.holidayPaidHoursCredit > 0.0 then Credits(rules.holidayPaidHoursCredit, IdleHolidays(perDay, keys, rules.holidays)) else 0.0
  {
    if keys != [] {
      var d := keys[|keys| - 1];
      AccumulateCredits(perDay, keys[..|keys| - 1], rules);
      DayStepCredit(Accumulate(perDay, keys[..|keys| - 1], rules), Lookup(perDay, d), IsHoliday(d, rules.holidays), rules);
    }
  }

  /** The credit one pass of the day loop adds. */
  lemma DayStepCredit(acc: Totals, worked: real, holiday: bool, rules: RulesConfig)
    ensures DayStep(acc, worked, holiday, rules).holidayCreditHours
         == acc.holidayCreditHours + (if holiday && worked == 0.0 && rules.holidayPaidHoursCredit > 0.0
                                      then rules.holidayPaidHoursCredit else 0.0)
  {
  }

  /** Without holidays among the dates there are no holiday hours and no credit. */
  lemma {:induction false} AccumulateNoHolidays(perDay: map<string, real>, keys: seq<string>, rules: RulesConfig)
    requires forall k :: 0 <= k < |keys| ==> keys[k] !in rules.holidays
    ensures Accumulate(perDay, keys, rules).holidayHours == 0.0
    ensures Accumulate(perDay, keys, rules).holidayCreditHours == 0.0
  {
    if keys != [] {
      AccumulateNoHolidays(perDay, keys[..|keys| - 1], rules);
    }
  }

  /** With non-negative hours and a non-negative overtime threshold, no running total goes negative. */
  lemma {:induction false} AccumulateNonNegative(perDay: map<string, real>, keys: seq<string>, rules: RulesConfig)
    requires forall d :: d in perDay ==> perDay[d] >= 0.0
    requires rules.dailyOvertimeThresholdHours >= 0.0
    ensures var t := Accumulate(perDay, keys, rules);
      t.holidayHours >= 0.0 && t.dailyRegularHours >= 0.0 && t.dailyOvertimeHours >= 0.0 && t.doubleTimeHours >= 0.0
      && (rules.holidayPaidHoursCredit >= 0.0 ==> t.holidayCreditHours >= 0.0)
  {
    if keys != [] {
      var d := keys[|keys| - 1];
      AccumulateNonNegative(perDay, keys[..|keys| - 1], rules);
      SplitTiersFacts(Lookup(perDay, d), rules.dailyOvertimeThresholdHours, rules.doubleTimeDailyThresholdHours);
    }
  }

  /** `rules.holidays.includes(d)`, and its negation, as tests on dates. */
  function HolidayIn(holidays: seq<string>): string -> bool
  {
    d => d in holidays
  }

  function WorkdayIn(holidays: seq<string>): string -> bool
  {
    d => d !in holidays
  }

  /** The hours recorded for the dates `keys`, each split into daily tiers, added up tier by tier. */
  function TierSum(perDay: map<string, real>, keys: seq<string>, rules: RulesConfig): Tiers
  {
    if keys == [] then Tiers(0.0, 0.0, 0.0)
    else
      var before := TierSum(perDay, keys[..|keys| - 1], rules);
      var t := SplitTiers(Lookup(perDay, keys[|keys| - 1]), rules.dailyOvertimeThresholdHours, rules.doubleTimeDailyThresholdHours);
      Tiers(before.regular + t.regular, before.overtime + t.overtime, before.doubleTime + t.doubleTime)
  }

  /** The holiday hours of the day loop are the hours recorded for the holidays among the dates. */
  lemma {:induction false} AccumulateHolidayHours(perDay: map<string, real>, keys: seq<string>, rules: RulesConfig)
    ensures Accumulate(perDay, keys, rules).holidayHours == SumAt(perDay, Filter(keys, HolidayIn(rules.holidays)))
  {
    if keys != [] {
      var front, d := keys[..|keys| - 1], keys[|keys| - 1];
      AccumulateHolidayHours(perDay, front, rules);
      KeptSnoc(keys, HolidayIn(rules.holidays));
    }
  }

  /** The regular, overtime and double-time totals of the day loop are the tiers of the
      non-holiday dates, added up. */
  lemma {:induction false} AccumulateWorkdayTiers(perDay: map<string, real>, keys: seq<string>, rules: RulesConfig)
    ensures var t := Accumulate(perDay, keys, rules);
      Tiers(t.dailyRegularHours, t.dailyOvertimeHours, t.doubleTimeHours)
        == TierSum(perDay, Filter(keys, WorkdayIn(rules.holidays)), rules)
  {
    if keys != [] {
      var front, d := keys[..|keys| - 1], keys[|keys| - 1];
      AccumulateWorkdayTiers(perDay, front, rules);
      KeptSnoc(keys, WorkdayIn(rules.holidays));
    }
  }

  /** The dates kept from a non-empty list: those kept before its last date, then that date when it passes. */
  lemma KeptSnoc(keys: seq<string>, keep: string -> bool)
    requires keys != []
    ensures var kept := Filter(keys[..|keys| - 1], keep);
      && Filter(keys, keep) == (if keep(keys[|keys| - 1]) then kept + [keys[|keys| - 1]] else kept)
      && (kept + [keys[|keys| - 1]])[..|kept|] == kept
  {
    var kept := Filter(keys[..|keys| - 1], keep);
    assert (kept + [keys[|keys| - 1]])[..|kept|] == kept;
  }

  // ---------------------------------------------------------------------------
  // stage 3: weekly reconciliation and pay

  datatype PaySummary = PaySummary(
    weekStart: string,
    regularHours: real,
    overtimeHours: real,
    weeklyOvertimeHours: real,
    dailyOvertimeHours: real,
    doubleTimeHours: real,
    holidayHours: real,
    holidayCreditHours: real,
    regularPay: real,
    overtimePay: real,
    doubleTimePay: real,
    holidayExtraPay: real,
    totalPay: real)

  /** The weekly reconciliation: hours above the weekly threshold are taken out of the regular
      hours (never more than there are) and paid as overtime; holiday hours earn only the extra over
      the normal rate; credited holiday hours are paid at the normal rate. */
  function Settle(t: Totals, rules: RulesConfig, weekStart: string): (p: PaySummary)
    ensures p.weekStart == weekStart
    ensures p.weeklyOvertimeHours
         == Min(Max(0.0, t.holidayHours + t.dailyRegularHours + t.dailyOvertimeHours + t.doubleTimeHours
                         - rules.overtimeWeeklyThresholdHours),
                t.dailyRegularHours)
    ensures p.regularHours + p.weeklyOvertimeHours == t.dailyRegularHours
    ensures p.overtimeHours == p.weeklyOvertimeHours + t.dailyOvertimeHours
    ensures p.dailyOvertimeHours == t.dailyOvertimeHours && p.doubleTimeHours == t.doubleTimeHours
    ensures p.holidayHours == t.holidayHours && p.holidayCreditHours == t.holidayCreditHours
    ensures t.dailyRegularHours >= 0.0 ==> 0.0 <= p.weeklyOvertimeHours && 0.0 <= p.regularHours
    ensures p.weeklyOvertimeHours
         <= t.holidayHours + t.dailyRegularHours + t.dailyOvertimeHours + t.doubleTimeHours - rules.overtimeWeeklyThresholdHours
         || p.weeklyOvertimeHours <= 0.0
    ensures (t.holidayHours + t.dailyRegularHours + t.dailyOvertimeHours + t.doubleTimeHours <= rules.overtimeWeeklyThresholdHours
             && t.dailyRegularHours >= 0.0) ==> p.weeklyOvertimeHours == 0.0 && p.regularHours == t.dailyRegularHours
    ensures p.regularPay == (p.regularHours + p.holidayCreditHours) * rules.hourlyRate
    ensures p.overtimePay == p.overtimeHours * rules.hourlyRate * rules.overtimeMultiplier
    ensures p.doubleTimePay == p.doubleTimeHours * rules.hourlyRate * rules.doubleTimeMultiplier
    ensures p.holidayExtraPay == p.holidayHours * rules.hourlyRate * Max(0.0, rules.holidayMultiplier - 1.0)
    ensures rules.holidayMultiplier <= 1.0 ==> p.holidayExtraPay == 0.0
    ensures t.holidayHours >= 0.0 && rules.hourlyRate >= 0.0 ==> p.holidayExtraPay >= 0.0
    ensures p.totalPay == p.regularPay + p.overtimePay + p.doubleTimePay + p.holidayExtraPay
  {
    var totalHours := t.holidayHours + t.dailyRegularHours + t.dailyOvertimeHours + t.doubleTimeHours;
    var weeklyExcess := Max(0.0, totalHours - rules.overtimeWeeklyThresholdHours);
    var weeklyOvertimeHours := Min(weeklyExcess, t.dailyRegularHours);
    var regularHours := Max(0.0, t.dailyRegularHours - weeklyOvertimeHours);
    var overtimeHours := weeklyOvertimeHours + t.dailyOvertimeHours;
    var regularPay := (regularHours + t.holidayCreditHours) * rules.hourlyRate;
    var overtimePay := overtimeHours * rules.hourlyRate * rules.overtimeMultiplier;
    var doubleTimePay := t.doubleTimeHours * rules.hourlyRate * rules.doubleTimeMultiplier;
    var holidayExtraPay := t.holidayHours * rules.hourlyRate * Max(0.0, rules.holidayMultiplier - 1.0);
    PaySummary(weekStart, regularHours, overtimeHours, weeklyOvertimeHours, t.dailyOvertimeHours,
      t.doubleTimeHours, t.holidayHours, t.holidayCreditHours, regularPay, overtimePay, doubleTimePay,
      holidayExtraPay, regularPay + overtimePay + doubleTimePay + holidayExtraPay)
  }

  /** `summarizePayWeek` at the moment `now`, stage by stage. */
  function PayWeek(sessions: seq<WorkSession>, rules: RulesConfig, now: int): PaySummary
  {
    var first := MondayOf(DayOf(now));
    var perDay := PerDay(sessions, WeekStartMs(now));
    Settle(Accumulate(perDay, DayKeys(first, 7), rules), rules, Ymd(first))
  }

  /** The day loop's totals after one more date. */
  lemma AccumulateSnoc(perDay: map<string, real>, keys: seq<string>, d: string, rules: RulesConfig)
    ensures Accumulate(perDay, keys + [d], rules)
         == DayStep(Accumulate(perDay, keys, rules), Lookup(perDay, d), IsHoliday(d, rules.holidays), rules)
  {
    assert (keys + [d])[..|keys|] == keys;
  }

  /** The first loop of `summarizePayWeek`: visits the sessions in order, skips those that check
      in before `monday` or from `monday` plus seven days on, and adds the hours of the others to
      the bucket of their check-in date. */
  method BucketByDate(sessions: seq<WorkSession>, monday: int) returns (perDay: map<string, real>)
    ensures perDay == PerDay(sessions, monday)
  {
    var weekEnd := monday + MsPerWeek;
    perDay := map[];
    for i := 0 to |sessions|
      invariant perDay == PerDay(sessions[..i], monday)
    {
      var s := sessions[i];
      assert sessions[..i + 1][..i] == sessions[..i];
      if s.checkIn < monday || s.checkIn >= weekEnd {
        continue;
      }
      var d := CheckInDate(s);
      var h := HoursBetween(s.checkIn, s.checkOut);
      perDay := perDay[d := Lookup(perDay, d) + h];
    }
    assert sessions[..|sessions|] == sessions;
  }

  /** The body of the second loop of `summarizePayWeek` for one date with `worked` hours. */
  method VisitDate(acc: Totals, worked: real, holiday: bool, rules: RulesConfig) returns (next: Totals)
    ensures next == DayStep(acc, worked, holiday, rules)
  {
    var holidayHours, holidayCreditHours := acc.holidayHours, acc.holidayCreditHours;
    var dailyRegularHours, dailyOvertimeHours, doubleTimeHours := acc.dailyRegularHours, acc.dailyOvertimeHours, acc.doubleTimeHours;
    if holiday {
      holidayHours := holidayHours + worked;
      if worked == 0.0 && rules.holidayPaidHoursCredit > 0.0 {
        holidayCreditHours := holidayCreditHours + rules.holidayPaidHoursCredit;
      }
    } else {
      var otStart := rules.dailyOvertimeThresholdHours;
      var dtStart := rules.doubleTimeDailyThresholdHours;
      var regular := Min(worked, otStart);
      var dailyOT := Min(Max(worked - otStart, 0.0), Max(dtStart - otStart, 0.0));
      var dailyDT := Max(worked - dtStart, 0.0);
      dailyRegularHours := dailyRegularHours + regular;
      dailyOvertimeHours := dailyOvertimeHours + dailyOT;
      doubleTimeHours := doubleTimeHours + dailyDT;
    }
    next := Totals(holidayHours, holidayCreditHours, dailyRegularHours, dailyOvertimeHours, doubleTimeHours);
  }

  /** The second loop of `summarizePayWeek`: walks the seven dates from day `first` and keeps the
      five running totals. */
  method WalkWeek(perDay: map<string, real>, first: int, rules: RulesConfig) returns (totals: Totals)
    ensures totals == Accumulate(perDay, DayKeys(first, 7), rules)
  {
    totals := Totals(0.0, 0.0, 0.0, 0.0, 0.0);
    for i := 0 to 7
      invariant totals == Accumulate(perDay, DayKeys(first, i), rules)
    {
      var dISO := Ymd(first + i);
      var worked := Lookup(perDay, dISO);
      var holiday := IsHoliday(dISO, rules.holidays);
      assert DayKeys(first, i + 1) == DayKeys(first, i) + [dISO];
      AccumulateSnoc(perDay, DayKeys(first, i), dISO, rules);
      totals := VisitDate(totals, worked, holiday, rules);
    }
  }

  /** `summarizePayWeek`: finds this week's Monday, buckets the week's hours by date, walks the
      seven dates and settles the totals. */
  method SummarizePayWeek(sessions: seq<WorkSession>, rules: RulesConfig, now: int) returns (pay: PaySummary)
    ensures pay == PayWeek(sessions, rules, now)
  {
    var monday := GetMonday(now);
    WeekStartFacts(now);
    var first := DayOf(monday);
    var weekStartISO := Ymd(first);
    var perDay := BucketByDate(sessions, monday);
    var totals := WalkWeek(perDay, first, rules);
    pay := Settle(totals, rules, weekStartISO);
  }

  // ---------------------------------------------------------------------------
  // what the pay week promises

  /** With the daily thresholds in order, the pay week's regular, overtime, double-time and holiday
      hours add up to the week's worked hours as `summarizeWeek` counts them, and both report the
      same week start. */
  lemma PayWeekAccountsAll(sessions: seq<WorkSession>, rules: RulesConfig, now: int)
    requires rules.dailyOvertimeThresholdHours <= rules.doubleTimeDailyThresholdHours
    ensures var p := PayWeek(sessions, rules, now);
      p.regularHours + p.overtimeHours + p.doubleTimeHours + p.holidayHours == SummarizeWeek(sessions, rules, now).totalHours
    ensures PayWeek(sessions, rules, now).weekStart == SummarizeWeek(sessions, rules, now).weekStart
  {
    var first := MondayOf(DayOf(now));
    var perDay := PerDay(sessions, WeekStartMs(now));
    AccumulateAccountsAll(perDay, DayKeys(first, 7), rules);
    PerDayWeekTotal(sessions, now);
  }

  /** The weekly overtime moved out of regular hours is the overtime `summarizeWeek` reports for the
      same week, capped by the week's daily-regular hours, so it never exceeds that overtime. */
  lemma PayWeekOvertimeWithinWeek(sessions: seq<WorkSession>, rules: RulesConfig, now: int)
    requires rules.dailyOvertimeThresholdHours <= rules.doubleTimeDailyThresholdHours
    ensures PayWeek(sessions, rules, now).weeklyOvertimeHours
         == Min(SummarizeWeek(sessions, rules, now).overtimeHours,
                Accumulate(PerDay(sessions, WeekStartMs(now)), DayKeys(MondayOf(DayOf(now)), 7), rules).dailyRegularHours)
    ensures PayWeek(sessions, rules, now).weeklyOvertimeHours <= SummarizeWeek(sessions, rules, now).overtimeHours
  {
    var first := MondayOf(DayOf(now));
    var perDay := PerDay(sessions, WeekStartMs(now));
    AccumulateAccountsAll(perDay, DayKeys(first, 7), rules);
    PerDayWeekTotal(sessions, now);
  }

  /** With a non-negative overtime threshold, every hour and credit figure of the pay week is non-negative. */
  lemma PayWeekNonNegative(sessions: seq<WorkSession>, rules: RulesConfig, now: int)
    requires rules.dailyOvertimeThresholdHours >= 0.0 && rules.holidayPaidHoursCredit >= 0.0
    ensures var p := PayWeek(sessions, rules, now);
      p.regularHours >= 0.0 && p.overtimeHours >= 0.0 && p.weeklyOvertimeHours >= 0.0 && p.dailyOvertimeHours >= 0.0
      && p.doubleTimeHours >= 0.0 && p.holidayHours >= 0.0 && p.holidayCreditHours >= 0.0
  {
    var first := MondayOf(DayOf(now));
    AccumulateNonNegative(PerDay(sessions, WeekStartMs(now)), DayKeys(first, 7), rules);
  }

  /** The pay week credits one `holidayPaidHoursCredit` for every holiday of the week on which
      nothing was worked (none when the credit is not positive); `Settle` pays those hours at the
      normal rate as part of the regular pay. */
  lemma PayWeekCredit(sessions: seq<WorkSession>, rules: RulesConfig, now: int)
    ensures var idle := IdleHolidays(PerDay(sessions, WeekStartMs(now)), DayKeys(MondayOf(DayOf(now)), 7), rules.holidays);
      PayWeek(sessions, rules, now).holidayCreditHours
        == if rules.holidayPaidHoursCredit > 0.0 then Credits(rules.holidayPaidHoursCredit, idle) else 0.0
  {
    AccumulateCredits(PerDay(sessions, WeekStartMs(now)), DayKeys(MondayOf(DayOf(now)), 7), rules);
  }

  /** The pay week's holiday hours are the hours worked on the week's holidays, and its daily
      overtime and double-time hours are the tiers of the week's other dates, added up. */
  lemma PayWeekByKind(sessions: seq<WorkSession>, rules: RulesConfig, now: int)
    ensures var perDay, keys := PerDay(sessions, WeekStartMs(now)), DayKeys(MondayOf(DayOf(now)), 7);
      var p := PayWeek(sessions, rules, now);
      && p.holidayHours == SumAt(perDay, Filter(keys, HolidayIn(rules.holidays)))
      && p.dailyOvertimeHours == TierSum(perDay, Filter(keys, WorkdayIn(rules.holidays)), rules).overtime
      && p.doubleTimeHours == TierSum(perDay, Filter(keys, WorkdayIn(rules.holidays)), rules).doubleTime
  {
    var perDay, keys := PerDay(sessions, WeekStartMs(now)), DayKeys(MondayOf(DayOf(now)), 7);
    AccumulateHolidayHours(perDay, keys, rules);
    AccumulateWorkdayTiers(perDay, keys, rules);
  }

  /** On each working day of the week the pay week splits the same hours into the same tiers as the
      day breakdown of that date. */
  lemma PayWeekDayMatchesBreakdown(sessions: seq<WorkSession>, rules: RulesConfig, now: int, day: int)
    requires MondayOf(DayOf(now)) <= day < MondayOf(DayOf(now)) + 7
    requires Ymd(day) !in rules.holidays
    ensures var b := DayBreakdownOf(Ymd(day), sessions, rules);
      SplitTiers(Lookup(PerDay(sessions, WeekStartMs(now)), Ymd(day)),
                 rules.dailyOvertimeThresholdHours, rules.doubleTimeDailyThresholdHours) == Tiers(b.reg, b.ot1, b.ot2)
  {
    PerDayMatchesDay(sessions, rules, now, day);
  }

  /** A session that checks in outside the current week does not change the pay summary. */
  lemma PayWeekIgnoresOtherWeeks(sessions: seq<WorkSession>, s: WorkSession, rules: RulesConfig, now: int)
    requires !InWindow(s, WeekStartMs(now))
    ensures PayWeek(sessions + [s], rules, now) == PayWeek(sessions, rules, now)
  {
    PerDayIgnoresOtherWeeks(sessions, s, WeekStartMs(now));
  }
}
