/** The record types and the per-day and per-week summaries of src/utils/time.ts.

    A session's `checkIn` and `checkOut` ISO strings are modelled by the timestamps they denote
    (`new Date(iso).getTime()`); a session without a check-out has `checkOut == None`. Hours and
    money are real numbers. */
module Time {
  import opened Options
  import opened Seqs
  import opened Calendar

  /** One work session of one user; `checkOut` is absent while the session is still open. */
  datatype WorkSession = WorkSession(id: string, userId: string, checkIn: int, checkOut: Option<int>)

  /** The pay and overtime settings, in the source's field order. */
  datatype RulesConfig = RulesConfig(
    expectedDailyHours: real,
    overtimeWeeklyThresholdHours: real,
    holidays: seq<string>,
    hourlyRate: real,
    overtimeMultiplier: real,
    holidayMultiplier: real,
    dailyOvertimeThresholdHours: real,
    doubleTimeDailyThresholdHours: real,
    doubleTimeMultiplier: real,
    holidayPaidHoursCredit: real)
  {
    /** The value of one numeric setting. */
    function Get(f: Setting): real
    {
      match f
      case ExpectedDailyHours => expectedDailyHours
      case OvertimeWeeklyThresholdHours => overtimeWeeklyThresholdHours
      case HourlyRate => hourlyRate
      case OvertimeMultiplier => overtimeMultiplier
      case HolidayMultiplier => holidayMultiplier
      case DailyOvertimeThresholdHours => dailyOvertimeThresholdHours
      case DoubleTimeDailyThresholdHours => doubleTimeDailyThresholdHours
      case DoubleTimeMultiplier => doubleTimeMultiplier
      case HolidayPaidHoursCredit => holidayPaidHoursCredit
    }
  }

  /** The nine numeric settings of `RulesConfig`, by name. */
  datatype Setting =
    | ExpectedDailyHours
    | OvertimeWeeklyThresholdHours
    | HourlyRate
    | OvertimeMultiplier
    | HolidayMultiplier
    | DailyOvertimeThresholdHours
    | DoubleTimeDailyThresholdHours
    | DoubleTimeMultiplier
    | HolidayPaidHoursCredit

  /** `Partial<RulesConfig>`: a per-user override in which every setting may be absent. */
  datatype RulesOverride = RulesOverride(
    expectedDailyHours: Option<real>,
    overtimeWeeklyThresholdHours: Option<real>,
    holidays: Option<seq<string>>,
    hourlyRate: Option<real>,
    overtimeMultiplier: Option<real>,
    holidayMultiplier: Option<real>,
    dailyOvertimeThresholdHours: Option<real>,
    doubleTimeDailyThresholdHours: Option<real>,
    doubleTimeMultiplier: Option<real>,
    holidayPaidHoursCredit: Option<real>)
  {
    /** The override of one numeric setting, if present. */
    function Get(f: Setting): Option<real>
    {
      match f
      case ExpectedDailyHours => expectedDailyHours
      case OvertimeWeeklyThresholdHours => overtimeWeeklyThresholdHours
      case HourlyRate => hourlyRate
      case OvertimeMultiplier => overtimeMultiplier
      case HolidayMultiplier => holidayMultiplier
      case DailyOvertimeThresholdHours => dailyOvertimeThresholdHours
      case DoubleTimeDailyThresholdHours => doubleTimeDailyThresholdHours
      case DoubleTimeMultiplier => doubleTimeMultiplier
      case HolidayPaidHoursCredit => holidayPaidHoursCredit
    }
  }

  /** The override that sets nothing (`{}`). */
  const NoOverride: RulesOverride :=
    RulesOverride(None, None, None, None, None, None, None, None, None, None)

  /** `mergeRules`: no override leaves the base untouched; otherwise every setting the override
      carries replaces the base's, and the holiday list is the override's whole list when it has one. */
  function MergeRules(base: RulesConfig, override: Option<RulesOverride>): (r: RulesConfig)
    ensures override.None? ==> r == base
    ensures override.Some? ==> forall f :: r.Get(f) == override.value.Get(f).GetOr(base.Get(f))
    ensures override.Some? ==> r.holidays == override.value.holidays.GetOr(base.holidays)
  {
    match override
    case None => base
    case Some(o) =>
      RulesConfig(
        o.expectedDailyHours.GetOr(base.expectedDailyHours),
        o.overtimeWeeklyThresholdHours.GetOr(base.overtimeWeeklyThresholdHours),
        o.holidays.GetOr(base.holidays),
        o.hourlyRate.GetOr(base.hourlyRate),
        o.overtimeMultiplier.GetOr(base.overtimeMultiplier),
        o.holidayMultiplier.GetOr(base.holidayMultiplier),
        o.dailyOvertimeThresholdHours.GetOr(base.dailyOvertimeThresholdHours),
        o.doubleTimeDailyThresholdHours.GetOr(base.doubleTimeDailyThresholdHours),
        o.doubleTimeMultiplier.GetOr(base.doubleTimeMultiplier),
        o.holidayPaidHoursCredit.GetOr(base.holidayPaidHoursCredit))
  }

  /** Two rule sets that agree on every setting and on the holiday list are the same rules. */
  lemma RulesExtensional(a: RulesConfig, b: RulesConfig)
    requires forall f :: a.Get(f) == b.Get(f)
    requires a.holidays == b.holidays
    ensures a == b
  {
    assert a.Get(ExpectedDailyHours) == b.Get(ExpectedDailyHours);
    assert a.Get(OvertimeWeeklyThresholdHours) == b.Get(OvertimeWeeklyThresholdHours);
    assert a.Get(HourlyRate) == b.Get(HourlyRate);
    assert a.Get(OvertimeMultiplier) == b.Get(OvertimeMultiplier);
    assert a.Get(HolidayMultiplier) == b.Get(HolidayMultiplier);
    assert a.Get(DailyOvertimeThresholdHours) == b.Get(DailyOvertimeThresholdHours);
    assert a.Get(DoubleTimeDailyThresholdHours) == b.Get(DoubleTimeDailyThresholdHours);
    assert a.Get(DoubleTimeMultiplier) == b.Get(DoubleTimeMultiplier);
    assert a.Get(HolidayPaidHoursCredit) == b.Get(HolidayPaidHoursCredit);
  }

  /** An empty override changes nothing. */
  lemma MergeNothing(base: RulesConfig)
    ensures MergeRules(base, Some(NoOverride)) == base
  {
    RulesExtensional(MergeRules(base, Some(NoOverride)), base);
  }

  /** Applying the same override twice is the same as applying it once. */
  lemma MergeIdempotent(base: RulesConfig, override: Option<RulesOverride>)
    ensures MergeRules(MergeRules(base, override), override) == MergeRules(base, override)
  {
    var once := MergeRules(base, override);
    RulesExtensional(MergeRules(once, override), once);
  }

  // ---------------------------------------------------------------------------
  // hours

  /** `hoursBetween`: no hours for an open session, otherwise the elapsed hours, never negative. */
  function HoursBetween(start: int, end: Option<int>): (h: real)
    ensures h >= 0.0
    ensures end.None? ==> h == 0.0
    ensures end.Some? && end.value <= start ==> h == 0.0
    ensures end.Some? && start <= end.value ==> h * (MsPerHour as real) == (end.value - start) as real
  {
    match end
    case None => 0.0
    case Some(e) => if e - start <= 0 then 0.0 else (e - start) as real / (MsPerHour as real)
  }

  function SessionHours(s: WorkSession): real
  {
    HoursBetween(s.checkIn, s.checkOut)
  }

  /** `isHoliday`: `holidays.includes(date)`. */
  predicate IsHoliday(date: string, holidays: seq<string>)
    ensures IsHoliday(date, holidays) <==> date in holidays
  {
    if holidays == [] then false
    else holidays[0] == date || IsHoliday(date, holidays[1..])
  }

  /** `reduce((acc, s) => acc + hoursBetween(s.checkIn, s.checkOut), 0)`: the hours of the
      sessions, added up from the first to the last. */
  function SumHours(ss: seq<WorkSession>): (total: real)
    ensures total >= 0.0
  {
    if ss == [] then 0.0 else SumHours(ss[..|ss| - 1]) + SessionHours(ss[|ss| - 1])
  }

  /** The hours of two lists of sessions add up. */
  lemma {:induction false} SumHoursAppend(a: seq<WorkSession>, b: seq<WorkSession>)
    ensures SumHours(a + b) == SumHours(a) + SumHours(b)
    decreases |b|
  {
    if b == [] {
      assert a + b == a;
    } else {
      assert (a + b)[..|a + b| - 1] == a + b[..|b| - 1];
      SumHoursAppend(a, b[..|b| - 1]);
    }
  }

  /** One more session adds its hours. */
  lemma SumHoursSnoc(ss: seq<WorkSession>, s: WorkSession)
    ensures SumHours(ss + [s]) == SumHours(ss) + SessionHours(s)
  {
    assert (ss + [s])[..|ss|] == ss;
  }

  /** Sessions that are all open contribute no hours. */
  lemma {:induction false} SumHoursOpen(ss: seq<WorkSession>)
    requires forall k :: 0 <= k < |ss| ==> ss[k].checkOut.None?
    ensures SumHours(ss) == 0.0
  {
    if ss != [] {
      SumHoursOpen(ss[..|ss| - 1]);
    }
  }

  // ---------------------------------------------------------------------------
  // one day

  /** `toYMD(new Date(s.checkIn))`: the UTC date on which a session starts. */
  function CheckInDate(s: WorkSession): string
  {
    Ymd(DayOf(s.checkIn))
  }

  /** The test `toYMD(new Date(s.checkIn)) === date`. */
  function StartsOn(date: string): WorkSession -> bool
  {
    (s: WorkSession) => CheckInDate(s) == date
  }

  /** The sessions that start on `date`, in their original order. */
  function OnDate(sessions: seq<WorkSession>, date: string): seq<WorkSession>
  {
    Filter(sessions, StartsOn(date))
  }

  datatype DaySummary = DaySummary(date: string, totalHours: real, isHoliday: bool, isEarlyCheckout: bool)

  /** `summarizeDay`: the hours of the sessions that start on `date`; a day is flagged early when it
      is not a holiday and some but fewer than the expected hours were worked. */
  function SummarizeDay(date: string, sessions: seq<WorkSession>, rules: RulesConfig): (d: DaySummary)
    ensures d.date == date && d.totalHours >= 0.0
    ensures d.isHoliday <==> date in rules.holidays
    ensures d.isEarlyCheckout <==> !d.isHoliday && 0.0 < d.totalHours < rules.expectedDailyHours
    ensures d.isHoliday ==> !d.isEarlyCheckout
    ensures rules.expectedDailyHours <= 0.0 ==> !d.isEarlyCheckout
  {
    var total := SumHours(OnDate(sessions, date));
    var holiday := IsHoliday(date, rules.holidays);
    DaySummary(date, total, holiday, !holiday && total > 0.0 && total < rules.expectedDailyHours)
  }

  /** The day's hours are the hours of exactly the sessions that start that day. */
  lemma DayTotalIsOwnSessions(date: string, sessions: seq<WorkSession>, rules: RulesConfig)
    ensures SummarizeDay(date, sessions, rules).totalHours == SumHours(OnDate(sessions, date))
    ensures forall s :: s in OnDate(sessions, date) <==> s in sessions && CheckInDate(s) == date
  {
  }

  /** Splitting the session list splits the day's hours. */
  lemma DayTotalAppend(date: string, a: seq<WorkSession>, b: seq<WorkSession>, rules: RulesConfig)
    ensures SummarizeDay(date, a + b, rules).totalHours
         == SummarizeDay(date, a, rules).totalHours + SummarizeDay(date, b, rules).totalHours
  {
    FilterAppend(a, b, StartsOn(date));
    SumHoursAppend(OnDate(a, date), OnDate(b, date));
  }

  /** A single session counts toward its own start date only. */
  lemma DayTotalSingle(date: string, s: WorkSession, rules: RulesConfig)
    ensures SummarizeDay(date, [s], rules).totalHours == if CheckInDate(s) == date then SessionHours(s) else 0.0
  {
    FilterSingle(s, StartsOn(date));
    assert StartsOn(date)(s) == (CheckInDate(s) == date);
    assert [s][..0] == [];
    assert SumHours([s]) == SumHours([]) + SessionHours(s);
  }

  /** Adding a session that starts on another day does not change the day. */
  lemma DayIgnoresOtherDates(date: string, sessions: seq<WorkSession>, s: WorkSession, rules: RulesConfig)
    requires CheckInDate(s) != date
    ensures SummarizeDay(date, sessions + [s], rules) == SummarizeDay(date, sessions, rules)
  {
    DayTotalAppend(date, sessions, [s], rules);
    DayTotalSingle(date, s, rules);
  }

  // ---------------------------------------------------------------------------
  // overtime tiers of one day

  function Min(a: real, b: real): real
  {
    if a <= b then a else b
  }

  function Max(a: real, b: real): real
  {
    if a >= b then a else b
  }

  datatype Tiers = Tiers(regular: real, overtime: real, doubleTime: real)

  /** The split of a day's `worked` hours shared by `summarizePayWeek` and `dayBreakdown`: regular
      hours up to the overtime threshold, overtime up to the double-time threshold, double time
      beyond it. With the thresholds in order the tiers partition the hours; with them reversed the
      overtime tier is empty and hours past the double-time threshold are counted twice. */
  function SplitTiers(worked: real, otStart: real, dtStart: real): Tiers
  {
    Tiers(Min(worked, otStart), Min(Max(worked - otStart, 0.0), Max(dtStart - otStart, 0.0)), Max(worked - dtStart, 0.0))
  }

  /** What the split promises. With the thresholds in order the three tiers partition the hours,
      regular hours stop at the overtime threshold and overtime at the double-time threshold. With
      the thresholds reversed the overtime tier is empty, and the hours between the two thresholds
      are counted both as regular and as double time. */
  lemma SplitTiersFacts(worked: real, otStart: real, dtStart: real)
    ensures var t := SplitTiers(worked, otStart, dtStart);
      && (otStart <= dtStart ==> t.regular + t.overtime + t.doubleTime == worked)
      && (0.0 <= otStart && 0.0 <= worked ==> 0.0 <= t.regular && 0.0 <= t.overtime && 0.0 <= t.doubleTime)
      && t.regular <= otStart && (otStart <= dtStart ==> t.overtime <= dtStart - otStart)
      && (worked <= otStart ==> t.regular == worked && t.overtime == 0.0)
      && (worked <= dtStart ==> t.doubleTime == 0.0)
      && (dtStart < otStart ==> t.overtime == 0.0)
      && (dtStart < otStart && worked <= dtStart ==> t.regular + t.doubleTime == worked)
      && (dtStart < otStart && dtStart < worked ==> t.regular + t.doubleTime > worked)
  {
  }

  // ---------------------------------------------------------------------------
  // the day breakdown

  /** The earliest check-in among the sessions, if there are any: the check-in of the first session
      once they are sorted by check-in time. */
  function FirstIn(ss: seq<WorkSession>): (m: Option<int>)
    ensures m.None? <==> ss == []
    ensures m.Some? ==> exists s :: s in ss && s.checkIn == m.value
    ensures m.Some? ==> forall s :: s in ss ==> m.value <= s.checkIn
  {
    if ss == [] then None
    else
      var rest := FirstIn(ss[1..]);
      assert forall s :: s in ss <==> s == ss[0] || s in ss[1..];
      if rest.None? || ss[0].checkIn <= rest.value then Some(ss[0].checkIn) else rest
  }

  /** The latest check-out among the completed sessions, if any is completed: the check-out of the
      last completed session once they are sorted by check-out time. */
  function LastOut(ss: seq<WorkSession>): (m: Option<int>)
    ensures m.None? <==> forall s :: s in ss ==> s.checkOut.None?
    ensures m.Some? ==> exists s :: s in ss && s.checkOut == m
    ensures m.Some? ==> forall s :: s in ss && s.checkOut.Some? ==> s.checkOut.value <= m.value
  {
    if ss == [] then None
    else
      var rest := LastOut(ss[1..]);
      assert forall s :: s in ss <==> s == ss[0] || s in ss[1..];
      match ss[0].checkOut
      case None => rest
      case Some(out) =>
        if rest.None? || rest.value <= out then Some(out) else rest
  }

  datatype DayBreakdown = DayBreakdown(
    date: string,
    total: real,
    reg: real,
    ot1: real,
    ot2: real,
    ot3: real,
    vac: real,
    hol: real,
    sic: real,
    per: real,
    pbr: real,
    ubr: real,
    firstIn: Option<int>,
    lastOut: Option<int>)

  /** `dayBreakdown`: the day's hours in pay columns. A holiday puts all of them in `hol`; any other
      day splits them into regular, overtime and double time. The leave and break columns are always
      zero. `firstIn` is the earliest check-in of the day's sessions and `lastOut` the latest check-out
      of its completed ones. */
  function DayBreakdownOf(date: string, sessions: seq<WorkSession>, rules: RulesConfig): (b: DayBreakdown)
    ensures b.date == date
    ensures b.total == SummarizeDay(date, sessions, rules).totalHours
    ensures date in rules.holidays ==> b.hol == b.total && b.reg == 0.0 && b.ot1 == 0.0 && b.ot2 == 0.0
    ensures date !in rules.holidays ==> (b.hol == 0.0 &&
      Tiers(b.reg, b.ot1, b.ot2) == SplitTiers(b.total, rules.dailyOvertimeThresholdHours, rules.doubleTimeDailyThresholdHours))
    ensures rules.dailyOvertimeThresholdHours <= rules.doubleTimeDailyThresholdHours ==>
      b.reg + b.ot1 + b.ot2 + b.hol == b.total
    ensures b.ot3 == 0.0 && b.vac == 0.0 && b.sic == 0.0 && b.per == 0.0 && b.pbr == 0.0 && b.ubr == 0.0
    ensures b.firstIn.None? <==> OnDate(sessions, date) == []
    ensures b.firstIn.Some? ==> exists s :: s in OnDate(sessions, date) && s.checkIn == b.firstIn.value
    ensures b.firstIn.Some? ==> forall s :: s in OnDate(sessions, date) ==> b.firstIn.value <= s.checkIn
    ensures b.lastOut.None? <==> forall s :: s in OnDate(sessions, date) ==> s.checkOut.None?
    ensures b.lastOut.Some? ==> exists s :: s in OnDate(sessions, date) && s.checkOut == b.lastOut
    ensures b.lastOut.Some? ==> forall s :: s in OnDate(sessions, date) && s.checkOut.Some? ==>
      s.checkOut.value <= b.lastOut.value
  {
    var worked := OnDate(sessions, date);
    var total := SumHours(worked);
    var holiday := IsHoliday(date, rules.holidays);
    var tiers := SplitTiers(total, rules.dailyOvertimeThresholdHours, rules.doubleTimeDailyThresholdHours);
    SplitTiersFacts(total, rules.dailyOvertimeThresholdHours, rules.doubleTimeDailyThresholdHours);
    var firstIn := FirstIn(worked);
    var lastOut := if worked == [] then None else LastOut(worked);
    DayBreakdown(date, total,
      if holiday then 0.0 else tiers.regular,
      if holiday then 0.0 else tiers.overtime,
      if holiday then 0.0 else tiers.doubleTime,
      0.0, 0.0,
      if holiday then total else 0.0,
      0.0, 0.0, 0.0, 0.0,
      firstIn, lastOut)
  }

  /** A day whose sessions are all still open has a first check-in but no last check-out, and no hours. */
  lemma OpenDayHasNoHours(date: string, sessions: seq<WorkSession>, rules: RulesConfig)
    requires DayBreakdownOf(date, sessions, rules).lastOut.None?
    ensures DayBreakdownOf(date, sessions, rules).total == 0.0
  {
    var worked := OnDate(sessions, date);
    forall k | 0 <= k < |worked|
      ensures worked[k].checkOut.None?
    {
      assert worked[k] in worked;
    }
    SumHoursOpen(worked);
  }

  // ---------------------------------------------------------------------------
  // the current week

  /** A session belongs to the week that starts at `monday` (a timestamp) when it checks in
      during the seven days from that midnight. */
  predicate InWindow(s: WorkSession, monday: int)
  {
    monday <= s.checkIn < monday + MsPerWeek
  }

  /** The test `ci >= monday && ci < weekEnd` for the week that contains `now`. */
  function InWeek(now: int): WorkSession -> bool
  {
    (s: WorkSession) => InWindow(s, WeekStartMs(now))
  }

  /** The sessions of the week that contains `now`, in their original order. */
  function InWeekOf(sessions: seq<WorkSession>, now: int): seq<WorkSession>
  {
    Filter(sessions, InWeek(now))
  }

  /** The week window is exactly the seven day numbers from the Monday of `now`. */
  lemma InWindowDays(s: WorkSession, now: int)
    ensures InWindow(s, WeekStartMs(now)) <==> MondayOf(DayOf(now)) <= DayOf(s.checkIn) < MondayOf(DayOf(now)) + 7
  {
    WeekStartFacts(now);
  }

  datatype WeekSummary = WeekSummary(weekStart: string, totalHours: real, overtimeHours: real)

  /** `summarizeWeek` at the moment `now`: the hours of the sessions that check in during the
      current Monday-to-Sunday week, and the part of them above the weekly threshold. */
  function SummarizeWeek(sessions: seq<WorkSession>, rules: RulesConfig, now: int): (w: WeekSummary)
    ensures w.weekStart == Ymd(MondayOf(DayOf(now)))
    ensures w.totalHours == SumHours(InWeekOf(sessions, now))
    ensures w.overtimeHours >= 0.0
    ensures w.totalHours <= rules.overtimeWeeklyThresholdHours ==> w.overtimeHours == 0.0
    ensures w.totalHours > rules.overtimeWeeklyThresholdHours ==>
      w.overtimeHours == w.totalHours - rules.overtimeWeeklyThresholdHours
    ensures rules.overtimeWeeklyThresholdHours >= 0.0 ==> w.overtimeHours <= w.totalHours
  {
    var monday := WeekStartMs(now);
    WeekStartFacts(now);
    var total := SumHours(InWeekOf(sessions, now));
    WeekSummary(Ymd(DayOf(monday)), total, Max(0.0, total - rules.overtimeWeeklyThresholdHours))
  }

  /** Sessions outside the current week do not change the week's summary. */
  lemma WeekIgnoresOtherWeeks(sessions: seq<WorkSession>, s: WorkSession, rules: RulesConfig, now: int)
    requires !InWindow(s, WeekStartMs(now))
    ensures SummarizeWeek(sessions + [s], rules, now) == SummarizeWeek(sessions, rules, now)
  {
    FilterAppend(sessions, [s], InWeek(now));
    FilterSingle(s, InWeek(now));
    assert InWeekOf(sessions + [s], now) == InWeekOf(sessions, now) + [];
  }
}
