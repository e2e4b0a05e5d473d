/** The CSV exports of src/utils/export.ts: a timesheet with one line per session and a payroll
    sheet with one line per user. Fields are joined with commas and lines with `\n`, without
    quoting. `toFixed(2)` is the parameter `fixed2`: the model does not fix how a number is
    written, only where it goes. */
module Export {
  import opened Options
  import opened Strings
  import opened Seqs
  import opened Calendar
  import opened Time
  import opened PayWeek

  /** The fields of a user that the exports read; `terms` is the user's rules override, if any. */
  datatype ExportUser = ExportUser(id: string, name: string, terms: Option<RulesOverride>)

  /** The position of the first user with the given id, or `|users|` when there is none. */
  function FindIndex(users: seq<ExportUser>, id: string): (k: nat)
    ensures k <= |users|
    ensures k < |users| ==> users[k].id == id
    ensures forall j :: 0 <= j < k ==> users[j].id != id
  {
    if users == [] then 0
    else if users[0].id == id then 0
    else 1 + FindIndex(users[1..], id)
  }

  /** `users.find((u) => u.id === id)`: the first user with that id. */
  function FindUser(users: seq<ExportUser>, id: string): (u: Option<ExportUser>)
    ensures u.None? <==> forall k :: 0 <= k < |users| ==> users[k].id != id
    ensures u.Some? ==> u.value in users && u.value.id == id
    ensures u.Some? ==> u.value == users[FindIndex(users, id)]
  {
    var k := FindIndex(users, id);
    if k < |users| then Some(users[k]) else None
  }

  /** `user?.terms`: the override of the user, absent when there is no user. */
  function TermsOf(user: Option<ExportUser>): Option<RulesOverride>
  {
    if user.Some? then user.value.terms else None
  }

  /** `mergeRules(baseRules, user?.terms)`: an unknown user, or one without terms, gets the base rules. */
  function UserRules(baseRules: RulesConfig, users: seq<ExportUser>, id: string): (r: RulesConfig)
    ensures (forall k :: 0 <= k < |users| ==> users[k].id != id) ==> r == baseRules
    ensures FindUser(users, id).Some? ==> r == MergeRules(baseRules, FindUser(users, id).value.terms)
  {
    MergeRules(baseRules, TermsOf(FindUser(users, id)))
  }

  /** A sheet made of a header line and one line per item splits back into those lines when
      none of them holds a line break. */
  lemma MapLines<T>(header: string, items: seq<T>, line: T -> string)
    requires '\n' !in header
    requires forall x :: x in items ==> '\n' !in line(x)
    ensures Split(Join([header] + Map(items, line), '\n'), '\n') == [header] + Map(items, line)
  {
    var lines := [header] + Map(items, line);
    MapAt(items, line);
    forall k | 0 <= k < |lines|
      ensures '\n' !in lines[k]
    {
      if k > 0 {
        assert lines[k] == line(items[k - 1]);
      }
    }
    SplitJoin(lines, '\n');
  }

  // ---------------------------------------------------------------------------
  // the timesheet

  const TimesheetColumns: seq<string> := ["date", "user", "check_in", "check_out", "hours", "holiday", "early"]

  function YesNo(b: bool): string
  {
    if b then "yes" else "no"
  }

  /** `user?.name || userId`: the user's name, or the session's user id when the user is unknown
      or has an empty name. */
  function UserColumn(user: Option<ExportUser>, userId: string): (c: string)
    ensures user.Some? && user.value.name != "" ==> c == user.value.name
    ensures user.None? || user.value.name == "" ==> c == userId
  {
    if user.Some? && user.value.name != "" then user.value.name else userId
  }

  /** `s.checkOut || ''`: the check-out time, empty for an open session. */
  function CheckOutColumn(checkOut: Option<int>): (c: string)
    ensures c == "" <==> checkOut.None?
  {
    match checkOut
    case None => ""
    case Some(t) => IsoTimestamp(t)
  }

  /** The seven fields of a session's line, one per column. The holiday and early flags are those
      of `summarizeDay` over this session alone, under the session user's merged rules. */
  function TimesheetFields(s: WorkSession, users: seq<ExportUser>, baseRules: RulesConfig, fixed2: real -> string): (f: seq<string>)
    ensures |f| == |TimesheetColumns|
  {
    var d := CheckInDate(s);
    var user := FindUser(users, s.userId);
    var sum := SummarizeDay(d, [s], MergeRules(baseRules, TermsOf(user)));
    [d, UserColumn(user, s.userId), IsoTimestamp(s.checkIn), CheckOutColumn(s.checkOut),
     fixed2(HoursBetween(s.checkIn, s.checkOut)), YesNo(sum.isHoliday), YesNo(sum.isEarlyCheckout)]
  }

  /** The first two fields: the check-in date and the user column. */
  lemma TimesheetDateAndUser(s: WorkSession, users: seq<ExportUser>, baseRules: RulesConfig, fixed2: real -> string)
    ensures var f := TimesheetFields(s, users, baseRules, fixed2);
      f[0] == CheckInDate(s) && f[1] == UserColumn(FindUser(users, s.userId), s.userId)
  {
    TimesheetField(s, users, baseRules, fixed2, 0);
    TimesheetField(s, users, baseRules, fixed2, 1);
  }

  /** The next three fields: the check-in time, the check-out time and the hours, written by `fixed2`. */
  lemma TimesheetTimes(s: WorkSession, users: seq<ExportUser>, baseRules: RulesConfig, fixed2: real -> string)
    ensures var f := TimesheetFields(s, users, baseRules, fixed2);
      f[2] == IsoTimestamp(s.checkIn) && f[3] == CheckOutColumn(s.checkOut) && f[4] == fixed2(SessionHours(s))
  {
    TimesheetField(s, users, baseRules, fixed2, 2);
    TimesheetField(s, users, baseRules, fixed2, 3);
    TimesheetField(s, users, baseRules, fixed2, 4);
  }

  /** One of the first five fields at a time. */
  lemma TimesheetField(s: WorkSession, users: seq<ExportUser>, baseRules: RulesConfig, fixed2: real -> string, k: nat)
    requires k < 5
    ensures var f := TimesheetFields(s, users, baseRules, fixed2);
      && (k == 0 ==> f[0] == CheckInDate(s))
      && (k == 1 ==> f[1] == UserColumn(FindUser(users, s.userId), s.userId))
      && (k == 2 ==> f[2] == IsoTimestamp(s.checkIn))
      && (k == 3 ==> f[3] == CheckOutColumn(s.checkOut))
      && (k == 4 ==> f[4] == fixed2(SessionHours(s)))
  {
    var f := TimesheetFields(s, users, baseRules, fixed2);
    if k == 0 {
      assert f[0] == CheckInDate(s);
    } else if k == 1 {
      assert f[1] == UserColumn(FindUser(users, s.userId), s.userId);
    } else if k == 2 {
      assert f[2] == IsoTimestamp(s.checkIn);
    } else if k == 3 {
      assert f[3] == CheckOutColumn(s.checkOut);
    } else {
      assert f[4] == fixed2(SessionHours(s));
    }
  }

  /** The flags of a session's line: the holiday flag says whether the date is one of the user's
      holidays; the early flag says whether the session alone leaves a non-holiday short of the
      user's expected hours. */
  lemma TimesheetFlags(s: WorkSession, users: seq<ExportUser>, baseRules: RulesConfig, fixed2: real -> string)
    ensures var f := TimesheetFields(s, users, baseRules, fixed2);
      var rules := UserRules(baseRules, users, s.userId);
      && (f[5] == "yes" <==> CheckInDate(s) in rules.holidays)
      && (f[6] == "yes" <==> CheckInDate(s) !in rules.holidays && 0.0 < SessionHours(s) < rules.expectedDailyHours)
      && (f[5] == "yes" || f[5] == "no") && (f[6] == "yes" || f[6] == "no")
  {
    DayTotalSingle(CheckInDate(s), s, UserRules(baseRules, users, s.userId));
  }

  /** No field of a session holds a comma or a line break, provided the user column and the
      written hours hold none: dates, times and flags never do. */
  lemma TimesheetFieldsAvoid(s: WorkSession, users: seq<ExportUser>, baseRules: RulesConfig, fixed2: real -> string, c: char)
    requires c == ',' || c == '\n'
    requires c !in s.userId && forall u :: u in users ==> c !in u.name
    requires forall x :: c !in fixed2(x)
    ensures var f := TimesheetFields(s, users, baseRules, fixed2);
      forall k :: 0 <= k < |f| ==> c !in f[k]
  {
    var f := TimesheetFields(s, users, baseRules, fixed2);
    forall k | 0 <= k < |f|
      ensures c !in f[k]
    {
      if k == 0 {
        TimesheetDateAndUser(s, users, baseRules, fixed2);
        YmdAvoids(DayOf(s.checkIn), c);
      } else if k == 1 {
        TimesheetDateAndUser(s, users, baseRules, fixed2);
      } else if k == 2 {
        TimesheetTimes(s, users, baseRules, fixed2);
        IsoAvoids(s.checkIn, c);
      } else if k == 3 {
        TimesheetTimes(s, users, baseRules, fixed2);
        if s.checkOut.Some? {
          IsoAvoids(s.checkOut.value, c);
        }
      } else if k == 4 {
        TimesheetTimes(s, users, baseRules, fixed2);
      }
    }
  }

  /** A session's line: its fields joined with commas. */
  function TimesheetRow(s: WorkSession, users: seq<ExportUser>, baseRules: RulesConfig, fixed2: real -> string): string
  {
    Join(TimesheetFields(s, users, baseRules, fixed2), ',')
  }

  /** Splitting a session's line at its commas gives back its seven fields, unless a user name,
      a user id or the written hours hold a comma. */
  lemma TimesheetRowFields(s: WorkSession, users: seq<ExportUser>, baseRules: RulesConfig, fixed2: real -> string)
    requires ',' !in s.userId && forall u :: u in users ==> ',' !in u.name
    requires forall x :: ',' !in fixed2(x)
    ensures Split(TimesheetRow(s, users, baseRules, fixed2), ',') == TimesheetFields(s, users, baseRules, fixed2)
  {
    TimesheetFieldsAvoid(s, users, baseRules, fixed2, ',');
    SplitJoin(TimesheetFields(s, users, baseRules, fixed2), ',');
  }

  /** Fields are not quoted: a user column holding a comma splits into more fields than there are
      columns, so the line no longer lines up with the header. */
  lemma TimesheetCommaInName(s: WorkSession, users: seq<ExportUser>, baseRules: RulesConfig, fixed2: real -> string)
    requires ',' in UserColumn(FindUser(users, s.userId), s.userId)
    ensures |Split(TimesheetRow(s, users, baseRules, fixed2), ',')| > |TimesheetColumns|
  {
    var f := TimesheetFields(s, users, baseRules, fixed2);
    TimesheetDateAndUser(s, users, baseRules, fixed2);
    SplitCount(TimesheetRow(s, users, baseRules, fixed2), ',');
    CountJoin(f, ',');
    CountAllAt(f, ',', 1);
    CountAbsent(f[1], ',');
  }

  /** The line of a session, as a function of the session. */
  function RowOf(users: seq<ExportUser>, baseRules: RulesConfig, fixed2: real -> string): WorkSession -> string
  {
    (s: WorkSession) => TimesheetRow(s, users, baseRules, fixed2)
  }

  /** One line per session, in the order of the sessions. */
  function TimesheetRows(sessions: seq<WorkSession>, users: seq<ExportUser>, baseRules: RulesConfig, fixed2: real -> string): (rows: seq<string>)
    ensures |rows| == |sessions|
  {
    Map(sessions, RowOf(users, baseRules, fixed2))
  }

  /** Line `k` is the line of session `k`. */
  lemma TimesheetRowsInOrder(sessions: seq<WorkSession>, users: seq<ExportUser>, baseRules: RulesConfig, fixed2: real -> string)
    ensures forall k :: 0 <= k < |sessions| ==>
      TimesheetRows(sessions, users, baseRules, fixed2)[k] == TimesheetRow(sessions[k], users, baseRules, fixed2)
  {
    MapAt(sessions, RowOf(users, baseRules, fixed2));
  }

  /** The whole timesheet: the header line, then the session lines, joined with line breaks. */
  function TimesheetCsv(sessions: seq<WorkSession>, users: seq<ExportUser>, baseRules: RulesConfig, fixed2: real -> string): string
  {
    Join([Join(TimesheetColumns, ',')] + TimesheetRows(sessions, users, baseRules, fixed2), '\n')
  }

  /** No session line holds a line break, unless a user name, a user id or the written hours do. */
  lemma TimesheetRowOneLine(s: WorkSession, users: seq<ExportUser>, baseRules: RulesConfig, fixed2: real -> string)
    requires '\n' !in s.userId && forall u :: u in users ==> '\n' !in u.name
    requires forall x :: '\n' !in fixed2(x)
    ensures '\n' !in TimesheetRow(s, users, baseRules, fixed2)
  {
    TimesheetFieldsAvoid(s, users, baseRules, fixed2, '\n');
    JoinAvoids(TimesheetFields(s, users, baseRules, fixed2), ',', '\n');
  }

  /** Splitting the timesheet at its line breaks gives back the header and one line per session,
      unless a user name, a user id or the written hours hold a line break. */
  lemma TimesheetLines(sessions: seq<WorkSession>, users: seq<ExportUser>, baseRules: RulesConfig, fixed2: real -> string)
    requires forall s :: s in sessions ==> '\n' !in s.userId
    requires forall u :: u in users ==> '\n' !in u.name
    requires forall x :: '\n' !in fixed2(x)
    ensures Split(TimesheetCsv(sessions, users, baseRules, fixed2), '\n')
         == [Join(TimesheetColumns, ',')] + TimesheetRows(sessions, users, baseRules, fixed2)
    ensures |Split(TimesheetCsv(sessions, users, baseRules, fixed2), '\n')| == |sessions| + 1
  {
    forall s | s in sessions
      ensures '\n' !in RowOf(users, baseRules, fixed2)(s)
    {
      TimesheetRowOneLine(s, users, baseRules, fixed2);
    }
    JoinAvoids(TimesheetColumns, ',', '\n');
    MapLines(Join(TimesheetColumns, ','), sessions, RowOf(users, baseRules, fixed2));
  }

  /** The body of the loop of `generateTimesheetCSV`: the line of one session. */
  method TimesheetLine(s: WorkSession, users: seq<ExportUser>, baseRules: RulesConfig, fixed2: real -> string)
    returns (line: string)
    ensures line == TimesheetRow(s, users, baseRules, fixed2)
  {
    var d := CheckInDate(s);
    var h := HoursBetween(s.checkIn, s.checkOut);
    var user := FindUser(users, s.userId);
    var userRules := MergeRules(baseRules, TermsOf(user));
    var sum := SummarizeDay(d, [s], userRules);
    line := Join([d, UserColumn(user, s.userId), IsoTimestamp(s.checkIn), CheckOutColumn(s.checkOut),
                  fixed2(h), YesNo(sum.isHoliday), YesNo(sum.isEarlyCheckout)], ',');
  }

  /** `generateTimesheetCSV`: pushes the header, then one line per session, and joins the lines. */
  method GenerateTimesheetCsv(sessions: seq<WorkSession>, users: seq<ExportUser>, baseRules: RulesConfig, fixed2: real -> string)
    returns (csv: string)
    ensures csv == TimesheetCsv(sessions, users, baseRules, fixed2)
  {
    var header := TimesheetColumns;
    var lines := [Join(header, ',')];
    for i := 0 to |sessions|
      invariant lines == [Join(header, ',')] + Map(sessions[..i], RowOf(users, baseRules, fixed2))
    {
      var line := TimesheetLine(sessions[i], users, baseRules, fixed2);
      MapStep(sessions, i, RowOf(users, baseRules, fixed2), [Join(header, ',')], lines, line);
      lines := lines + [line];
    }
    assert sessions[..|sessions|] == sessions;
    csv := Join(lines, '\n');
  }

  // ---------------------------------------------------------------------------
  // the payroll sheet

  const PayrollColumns: seq<string> := ["user", "regular_hours", "overtime_hours", "double_time_hours", "holiday_hours",
    "holiday_credit_hours", "regular_pay", "overtime_pay", "double_time_pay", "holiday_extra_pay", "total_pay"]

  /** The test `s.userId === id`. */
  function OwnedBy(id: string): WorkSession -> bool
  {
    (s: WorkSession) => s.userId == id
  }

  /** The pay week of one user: only that user's sessions, under that user's merged rules. */
  function PayFor(u: ExportUser, sessions: seq<WorkSession>, baseRules: RulesConfig, now: int): PaySummary
  {
    PayWeek.PayWeek(Filter(sessions, OwnedBy(u.id)), MergeRules(baseRules, u.terms), now)
  }

  /** Another user's session changes nothing in a user's pay week. */
  lemma PayForIgnoresOthers(u: ExportUser, sessions: seq<WorkSession>, s: WorkSession, baseRules: RulesConfig, now: int)
    requires s.userId != u.id
    ensures PayFor(u, sessions + [s], baseRules, now) == PayFor(u, sessions, baseRules, now)
  {
    FilterAppend(sessions, [s], OwnedBy(u.id));
    FilterSingle(s, OwnedBy(u.id));
    assert Filter(sessions, OwnedBy(u.id)) + [] == Filter(sessions, OwnedBy(u.id));
  }

  /** A user's regular, overtime, double-time and holiday hours together are the hours that user
      worked in the week, as `summarizeWeek` counts them under the user's rules. */
  lemma PayForAccountsAll(u: ExportUser, sessions: seq<WorkSession>, baseRules: RulesConfig, now: int)
    requires MergeRules(baseRules, u.terms).dailyOvertimeThresholdHours <= MergeRules(baseRules, u.terms).doubleTimeDailyThresholdHours
    ensures var p := PayFor(u, sessions, baseRules, now);
      p.regularHours + p.overtimeHours + p.doubleTimeHours + p.holidayHours
        == SummarizeWeek(Filter(sessions, OwnedBy(u.id)), MergeRules(baseRules, u.terms), now).totalHours
  {
    PayWeekAccountsAll(Filter(sessions, OwnedBy(u.id)), MergeRules(baseRules, u.terms), now);
  }

  /** The eleven fields of a user's line: the name, then the ten figures of the pay summary in
      column order, each written by `fixed2`. */
  function PayrollFields(name: string, p: PaySummary, fixed2: real -> string): (f: seq<string>)
    ensures |f| == |PayrollColumns|
  {
    [name, fixed2(p.regularHours), fixed2(p.overtimeHours), fixed2(p.doubleTimeHours), fixed2(p.holidayHours),
     fixed2(p.holidayCreditHours), fixed2(p.regularPay), fixed2(p.overtimePay), fixed2(p.doubleTimePay),
     fixed2(p.holidayExtraPay), fixed2(p.totalPay)]
  }

  /** Only the name can bring a comma or a line break into a user's fields. */
  lemma PayrollFieldsAvoid(name: string, p: PaySummary, fixed2: real -> string, c: char)
    requires c !in name && forall x :: c !in fixed2(x)
    ensures var f := PayrollFields(name, p, fixed2);
      forall k :: 0 <= k < |f| ==> c !in f[k]
  {
  }

  /** A user's line: the fields joined with commas. */
  function PayrollRow(u: ExportUser, sessions: seq<WorkSession>, baseRules: RulesConfig, now: int, fixed2: real -> string): string
  {
    Join(PayrollFields(u.name, PayFor(u, sessions, baseRules, now), fixed2), ',')
  }

  /** Splitting a user's line at its commas gives back the eleven fields, unless the name or a
      written figure holds a comma. */
  lemma PayrollRowFields(u: ExportUser, sessions: seq<WorkSession>, baseRules: RulesConfig, now: int, fixed2: real -> string)
    requires ',' !in u.name && forall x :: ',' !in fixed2(x)
    ensures Split(PayrollRow(u, sessions, baseRules, now, fixed2), ',')
         == PayrollFields(u.name, PayFor(u, sessions, baseRules, now), fixed2)
  {
    var f := PayrollFields(u.name, PayFor(u, sessions, baseRules, now), fixed2);
    PayrollFieldsAvoid(u.name, PayFor(u, sessions, baseRules, now), fixed2, ',');
    SplitJoin(f, ',');
  }

  /** The line of a user, as a function of the user. */
  function PayRowOf(sessions: seq<WorkSession>, baseRules: RulesConfig, now: int, fixed2: real -> string): ExportUser -> string
  {
    (u: ExportUser) => PayrollRow(u, sessions, baseRules, now, fixed2)
  }

  /** One line per user, in the order of the users. */
  function PayrollRows(users: seq<ExportUser>, sessions: seq<WorkSession>, baseRules: RulesConfig, now: int, fixed2: real -> string)
    : (rows: seq<string>)
    ensures |rows| == |users|
  {
    Map(users, PayRowOf(sessions, baseRules, now, fixed2))
  }

  /** Line `k` is the line of user `k`. */
  lemma PayrollRowsInOrder(users: seq<ExportUser>, sessions: seq<WorkSession>, baseRules: RulesConfig, now: int, fixed2: real -> string)
    ensures forall k :: 0 <= k < |users| ==>
      PayrollRows(users, sessions, baseRules, now, fixed2)[k] == PayrollRow(users[k], sessions, baseRules, now, fixed2)
  {
    MapAt(users, PayRowOf(sessions, baseRules, now, fixed2));
  }

  /** The whole payroll sheet: the header line, then the user lines, joined with line breaks. */
  function PayrollCsv(users: seq<ExportUser>, sessions: seq<WorkSession>, baseRules: RulesConfig, now: int, fixed2: real -> string): string
  {
    Join([Join(PayrollColumns, ',')] + PayrollRows(users, sessions, baseRules, now, fixed2), '\n')
  }

  /** No user line holds a line break, unless the name or a written figure does. */
  lemma PayrollRowOneLine(u: ExportUser, sessions: seq<WorkSession>, baseRules: RulesConfig, now: int, fixed2: real -> string)
    requires '\n' !in u.name && forall x :: '\n' !in fixed2(x)
    ensures '\n' !in PayrollRow(u, sessions, baseRules, now, fixed2)
  {
    var p := PayFor(u, sessions, baseRules, now);
    PayrollFieldsAvoid(u.name, p, fixed2, '\n');
    JoinAvoids(PayrollFields(u.name, p, fixed2), ',', '\n');
  }

  /** Splitting the payroll sheet at its line breaks gives back the header and one line per user,
      unless a name or a written figure holds a line break. */
  lemma PayrollLines(users: seq<ExportUser>, sessions: seq<WorkSession>, baseRules: RulesConfig, now: int, fixed2: real -> string)
    requires forall u :: u in users ==> '\n' !in u.name
    requires forall x :: '\n' !in fixed2(x)
    ensures Split(PayrollCsv(users, sessions, baseRules, now, fixed2), '\n')
         == [Join(PayrollColumns, ',')] + PayrollRows(users, sessions, baseRules, now, fixed2)
    ensures |Split(PayrollCsv(users, sessions, baseRules, now, fixed2), '\n')| == |users| + 1
  {
    forall u | u in users
      ensures '\n' !in PayRowOf(sessions, baseRules, now, fixed2)(u)
    {
      PayrollRowOneLine(u, sessions, baseRules, now, fixed2);
    }
    JoinAvoids(PayrollColumns, ',', '\n');
    MapLines(Join(PayrollColumns, ','), users, PayRowOf(sessions, baseRules, now, fixed2));
  }

  /** The body of the loop of `generatePayrollCSV`: the line of one user. */
  method PayrollLine(u: ExportUser, sessions: seq<WorkSession>, baseRules: RulesConfig, now: int, fixed2: real -> string)
    returns (line: string)
    ensures line == PayrollRow(u, sessions, baseRules, now, fixed2)
  {
    var sForUser := Filter(sessions, OwnedBy(u.id));
    var userRules := MergeRules(baseRules, u.terms);
    var pay := SummarizePayWeek(sForUser, userRules, now);
    line := Join([u.name, fixed2(pay.regularHours), fixed2(pay.overtimeHours), fixed2(pay.doubleTimeHours),
                  fixed2(pay.holidayHours), fixed2(pay.holidayCreditHours), fixed2(pay.regularPay),
                  fixed2(pay.overtimePay), fixed2(pay.doubleTimePay), fixed2(pay.holidayExtraPay),
                  fixed2(pay.totalPay)], ',');
  }

  /** `generatePayrollCSV` at the moment `now`: pushes the header, then for each user the pay
      week of that user's sessions under that user's rules, and joins the lines. */
  method GeneratePayrollCsv(users: seq<ExportUser>, sessions: seq<WorkSession>, baseRules: RulesConfig, now: int, fixed2: real -> string)
    returns (csv: string)
    ensures csv == PayrollCsv(users, sessions, baseRules, now, fixed2)
  {
    var header := PayrollColumns;
    var lines := [Join(header, ',')];
    for i := 0 to |users|
      invariant lines == [Join(header, ',')] + Map(users[..i], PayRowOf(sessions, baseRules, now, fixed2))
    {
      var line := PayrollLine(users[i], sessions, baseRules, now, fixed2);
      MapStep(users, i, PayRowOf(sessions, baseRules, now, fixed2), [Join(header, ',')], lines, line);
      lines := lines + [line];
    }
    assert users[..|users|] == users;
    csv := Join(lines, '\n');
  }
}
