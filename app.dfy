/** The helpers of App.tsx that feed the engine: reading stored settings back (`normalizeRules`),
    the settings form (`saveRules`), the holiday list (`addHoliday`, `removeHoliday`), per-user
    overrides (`parseOverride`, `saveUserOverrides`), the viewer's rules and sessions
    (`resolveRulesForUser`, `sessionsForCurrentUser`) and the clock buttons (`checkIn`,
    `checkOut`). `Number(...)` of a text or a stored value is the parameter `num` or is given
    already converted, as a `JsNumber`. */
module App {
  import opened Options
  import opened Strings
  import opened Seqs
  import opened Time
  import opened Defaults
  import opened Export
  import opened Calendar

  /** What `Number(x)` gives: a finite number, `NaN`, or an infinity. */
  datatype JsNumber = Finite(value: real) | NaN | Infinity(negative: bool)

  // ---------------------------------------------------------------------------
  // normalizeRules

  /** A settings object as read back from storage: for each numeric setting, `Number` of the
      stored field (`NaN` when the field is missing), and the holiday list when the stored field
      is an array. */
  datatype RawRules = RawRules(numbers: Setting -> JsNumber, holidays: Option<seq<string>>)

  /** `ensureNumber`: the number when it is finite, else the fallback. */
  function EnsureNumber(n: JsNumber, fallback: real): (r: real)
    ensures n.Finite? ==> r == n.value
    ensures !n.Finite? ==> r == fallback
  {
    if n.Finite? then n.value else fallback
  }

  /** `normalizeRules`: every numeric setting whose number is finite is kept, any other takes the
      default value; the holiday list is kept when it is an array, else the default list. */
  function NormalizeRules(raw: RawRules): (r: RulesConfig)
    ensures forall f :: r.Get(f) == EnsureNumber(raw.numbers(f), DefaultRules.Get(f))
    ensures r.holidays == raw.holidays.GetOr(DefaultRules.holidays)
  {
    RulesConfig(
      expectedDailyHours := EnsureNumber(raw.numbers(ExpectedDailyHours), DefaultRules.expectedDailyHours),
      overtimeWeeklyThresholdHours := EnsureNumber(raw.numbers(OvertimeWeeklyThresholdHours), DefaultRules.overtimeWeeklyThresholdHours),
      holidays := raw.holidays.GetOr(DefaultRules.holidays),
      hourlyRate := EnsureNumber(raw.numbers(HourlyRate), DefaultRules.hourlyRate),
      overtimeMultiplier := EnsureNumber(raw.numbers(OvertimeMultiplier), DefaultRules.overtimeMultiplier),
      holidayMultiplier := EnsureNumber(raw.numbers(HolidayMultiplier), DefaultRules.holidayMultiplier),
      dailyOvertimeThresholdHours := EnsureNumber(raw.numbers(DailyOvertimeThresholdHours), DefaultRules.dailyOvertimeThresholdHours),
      doubleTimeDailyThresholdHours := EnsureNumber(raw.numbers(DoubleTimeDailyThresholdHours), DefaultRules.doubleTimeDailyThresholdHours),
      doubleTimeMultiplier := EnsureNumber(raw.numbers(DoubleTimeMultiplier), DefaultRules.doubleTimeMultiplier),
      holidayPaidHoursCredit := EnsureNumber(raw.numbers(HolidayPaidHoursCredit), DefaultRules.holidayPaidHoursCredit))
  }

  /** A settings record as an object to normalize (`{ ...rules }`, or what storage gives back
      for it): every setting a finite number and the holidays an array. */
  function RawOf(rules: RulesConfig): RawRules
  {
    RawRules((f: Setting) => Finite(rules.Get(f)), Some(rules.holidays))
  }

  /** Normalizing a settings record changes nothing. */
  lemma NormalizeKeeps(rules: RulesConfig)
    ensures NormalizeRules(RawOf(rules)) == rules
  {
    RulesExtensional(NormalizeRules(RawOf(rules)), rules);
  }

  /** Normalizing is idempotent. */
  lemma NormalizeIdempotent(raw: RawRules)
    ensures NormalizeRules(RawOf(NormalizeRules(raw))) == NormalizeRules(raw)
  {
    NormalizeKeeps(NormalizeRules(raw));
  }

  /** An object with nothing readable in it normalizes to the default settings. */
  lemma NormalizeUnreadable(raw: RawRules)
    requires forall f :: !raw.numbers(f).Finite?
    requires raw.holidays.None?
    ensures NormalizeRules(raw) == DefaultRules
  {
    RulesExtensional(NormalizeRules(raw), DefaultRules);
  }

  // ---------------------------------------------------------------------------
  // saveRules

  /** `Number(x) || previous`: zero and `NaN` are falsy and give the previous value; any other
      number, an infinity included, is kept. */
  function OrPrevious(n: JsNumber, previous: real): JsNumber
  {
    if n == Finite(0.0) || n.NaN? then Finite(previous) else n
  }

  /** The settings `saveRules` stores: each form field read with `num`, falling back to the
      previous setting, then normalized; the holiday list is kept. */
  function SavedRules(rules: RulesConfig, input: Setting -> string, num: string -> JsNumber): (r: RulesConfig)
    ensures forall f :: num(input(f)).Finite? && num(input(f)).value != 0.0 ==> r.Get(f) == num(input(f)).value
    ensures forall f :: num(input(f)) == Finite(0.0) || num(input(f)).NaN? ==> r.Get(f) == rules.Get(f)
    ensures forall f :: num(input(f)).Infinity? ==> r.Get(f) == DefaultRules.Get(f)
    ensures r.holidays == rules.holidays
  {
    NormalizeRules(RawRules((f: Setting) => OrPrevious(num(input(f)), rules.Get(f)), Some(rules.holidays)))
  }

  /** No setting of the defaults is zero. */
  lemma DefaultsNonZero(f: Setting)
    ensures DefaultRules.Get(f) != 0.0
  {
  }

  /** The settings form can never set a non-zero setting to zero: a zero input keeps the
      previous value. */
  lemma SavedNeverZero(rules: RulesConfig, input: Setting -> string, num: string -> JsNumber, f: Setting)
    requires rules.Get(f) != 0.0
    ensures SavedRules(rules, input, num).Get(f) != 0.0
  {
    DefaultsNonZero(f);
  }

  /** Saving a form that shows the current settings (the form starts as `String` of each
      setting, which `Number` reads back) leaves the settings as they are. */
  lemma SavedEcho(rules: RulesConfig, input: Setting -> string, num: string -> JsNumber)
    requires forall f :: num(input(f)) == Finite(rules.Get(f))
    ensures SavedRules(rules, input, num) == rules
  {
    RulesExtensional(SavedRules(rules, input, num), rules);
  }

  // ---------------------------------------------------------------------------
  // the holiday list

  /** The list `addHoliday` stores: `Array.from(new Set([date, ...base])).sort()`. It holds the
      new date and the old ones, nothing else, each once, in ascending order. */
  function AddedHolidays(date: string, base: seq<string>): (list: seq<string>)
    ensures forall d :: d in list <==> d == date || d in base
    ensures Distinct(list) && Sorted(list)
  {
    var unique := Dedupe([date] + base);
    var list := SortStrings(unique);
    DistinctMultiset(unique);
    DistinctMultiset(list);
    assert forall d :: d in list <==> d in multiset(list);
    assert forall d :: d in unique <==> d in multiset(unique);
    list
  }

  /** A date already in a sorted list without repeats is not added again: the list stays as it is. */
  lemma AddedHolidaysPresent(date: string, base: seq<string>)
    requires Sorted(base) && Distinct(base) && date in base
    ensures AddedHolidays(date, base) == base
  {
    var list := AddedHolidays(date, base);
    DistinctSameElements(list, base);
    SortedUnique(list, base);
  }

  /** Adding the same date twice is adding it once. */
  lemma AddedHolidaysTwice(date: string, base: seq<string>)
    ensures AddedHolidays(date, AddedHolidays(date, base)) == AddedHolidays(date, base)
  {
    AddedHolidaysPresent(date, AddedHolidays(date, base));
  }

  /** `addHoliday`: an input not of the form `YYYY-MM-DD` changes nothing; otherwise the settings
      keep every number and take the new list. */
  function WithHolidayAdded(rules: RulesConfig, input: string): (r: RulesConfig)
    ensures !IsYmdShape(input) ==> r == rules
    ensures IsYmdShape(input) ==> r == rules.(holidays := AddedHolidays(input, rules.holidays))
  {
    if !IsYmdShape(input) then rules
    else
      var next := rules.(holidays := AddedHolidays(input, rules.holidays));
      NormalizeKeeps(next);
      NormalizeRules(RawOf(next))
  }

  /** The test `d !== date`. */
  function OtherThan(date: string): string -> bool
  {
    (d: string) => d != date
  }

  /** `removeHoliday`: the settings keep every number and the list loses the date. */
  function WithHolidayRemoved(rules: RulesConfig, date: string): (r: RulesConfig)
    ensures r == rules.(holidays := Filter(rules.holidays, OtherThan(date)))
  {
    var next := rules.(holidays := Filter(rules.holidays, OtherThan(date)));
    NormalizeKeeps(next);
    NormalizeRules(RawOf(next))
  }

  /** Removing a date takes out every occurrence of it and keeps every other date as often as it
      was there. */
  lemma RemovedCounts(rules: RulesConfig, date: string, d: string)
    ensures multiset(WithHolidayRemoved(rules, date).holidays)[d] == if d == date then 0 else multiset(rules.holidays)[d]
  {
    FilterCount(rules.holidays, OtherThan(date), d);
  }

  /** The remaining dates keep their order: removing from a list made of two parts removes from
      each part. */
  lemma RemovedInOrder(rules: RulesConfig, date: string, front: seq<string>, back: seq<string>)
    requires rules.holidays == front + back
    ensures WithHolidayRemoved(rules, date).holidays == Filter(front, OtherThan(date)) + Filter(back, OtherThan(date))
  {
    FilterAppend(front, back, OtherThan(date));
  }

  /** Removing a date that is not in the list changes nothing. */
  lemma RemovedAbsent(rules: RulesConfig, date: string)
    requires date !in rules.holidays
    ensures WithHolidayRemoved(rules, date) == rules
  {
    FilterAll(rules.holidays, OtherThan(date));
  }

  // ---------------------------------------------------------------------------
  // per-user overrides

  /** The characters `String.prototype.trim` removes: white space and line terminators. */
  predicate IsJsSpace(c: char)
  {
    c == '\t' || c == '\n' || c == '\U{0B}' || c == '\U{0C}' || c == '\r' || c == ' '
    || c == '\U{A0}' || c == '\U{1680}' || ('\U{2000}' <= c <= '\U{200A}')
    || c == '\U{2028}' || c == '\U{2029}' || c == '\U{202F}' || c == '\U{205F}' || c == '\U{3000}'
    || c == '\U{FEFF}'
  }

  /** `!value.trim()`: the text is empty once white space is trimmed. */
  predicate IsBlank(value: string)
  {
    forall i :: 0 <= i < |value| ==> IsJsSpace(value[i])
  }

  /** `parseOverride`: nothing for a blank text or one whose number is not finite, else the number. */
  function ParseOverride(value: string, num: string -> JsNumber): (r: Option<real>)
    ensures r.Some? <==> !IsBlank(value) && num(value).Finite?
    ensures r.Some? ==> r.value == num(value).value
  {
    if IsBlank(value) then None
    else match num(value)
      case Finite(x) => Some(x)
      case _ => None
  }

  /** The override `saveUserOverrides` gives a user: each setting whose form text parses, no
      holiday list, and no override at all when nothing parses. */
  function CleanedOverride(form: Setting -> string, num: string -> JsNumber): (r: Option<RulesOverride>)
    ensures r.None? <==> forall f :: ParseOverride(form(f), num).None?
    ensures r.Some? ==> r.value.holidays.None? && forall f :: r.value.Get(f) == ParseOverride(form(f), num)
  {
    var o := RulesOverride(
      expectedDailyHours := ParseOverride(form(ExpectedDailyHours), num),
      overtimeWeeklyThresholdHours := ParseOverride(form(OvertimeWeeklyThresholdHours), num),
      holidays := None,
      hourlyRate := ParseOverride(form(HourlyRate), num),
      overtimeMultiplier := ParseOverride(form(OvertimeMultiplier), num),
      holidayMultiplier := ParseOverride(form(HolidayMultiplier), num),
      dailyOvertimeThresholdHours := ParseOverride(form(DailyOvertimeThresholdHours), num),
      doubleTimeDailyThresholdHours := ParseOverride(form(DoubleTimeDailyThresholdHours), num),
      doubleTimeMultiplier := ParseOverride(form(DoubleTimeMultiplier), num),
      holidayPaidHoursCredit := ParseOverride(form(HolidayPaidHoursCredit), num));
    assert forall f :: o.Get(f) == ParseOverride(form(f), num);
    if o == NoOverride then
      assert forall f :: NoOverride.Get(f) == None;
      None
    else
      assert (forall f :: ParseOverride(form(f), num).None?) ==> o == NoOverride by {
        if forall f :: ParseOverride(form(f), num).None? {
          OverrideExtensional(o, NoOverride);
        }
      }
      Some(o)
  }

  /** `overrides[key] = value`: that setting is set and nothing else changes. */
  function WithSetting(o: RulesOverride, f: Setting, v: real): (r: RulesOverride)
    ensures r.Get(f) == Some(v)
    ensures forall g :: g != f ==> r.Get(g) == o.Get(g)
    ensures r.holidays == o.holidays
  {
    match f
    case ExpectedDailyHours => o.(expectedDailyHours := Some(v))
    case OvertimeWeeklyThresholdHours => o.(overtimeWeeklyThresholdHours := Some(v))
    case HourlyRate => o.(hourlyRate := Some(v))
    case OvertimeMultiplier => o.(overtimeMultiplier := Some(v))
    case HolidayMultiplier => o.(holidayMultiplier := Some(v))
    case DailyOvertimeThresholdHours => o.(dailyOvertimeThresholdHours := Some(v))
    case DoubleTimeDailyThresholdHours => o.(doubleTimeDailyThresholdHours := Some(v))
    case DoubleTimeMultiplier => o.(doubleTimeMultiplier := Some(v))
    case HolidayPaidHoursCredit => o.(holidayPaidHoursCredit := Some(v))
  }

  /** Overrides that agree on every setting and on the holiday list are equal. */
  lemma OverrideExtensional(a: RulesOverride, b: RulesOverride)
    requires forall f :: a.Get(f) == b.Get(f)
    requires a.holidays == b.holidays
    ensures a == b
  {
    assert a.Get(ExpectedDailyHours) == b.Get(ExpectedDailyHours);
    assert a.Get(OvertimeWeeklyThresholdHours) == b.Get(OvertimeWeeklyThresholdHours);
    assert a.Get(HourlyRate) == b.Get(HourlyRate);
    assert a.Get(OvertimeMultiplier) == b.Get(OvertimeMultiplier);
    assert a.Get(HolidayMultiplier) == b.Get(HolidayMultiplier);
    assert a.Get(DailyOvertimeThresholdHours) == b.Get(DailyOvertimeThresholdHours);
    assert a.Get(DoubleTimeDailyThresholdHours) == b.Get(DoubleTimeDailyThresholdHours);
    assert a.Get(DoubleTimeMultiplier) == b.Get(DoubleTimeMultiplier);
    assert a.Get(HolidayPaidHoursCredit) == b.Get(HolidayPaidHoursCredit);
  }

  /** `maybeSet(key, value)`: sets the setting when its text parses, else leaves the override alone. */
  method MaybeSet(o: RulesOverride, key: Setting, value: string, num: string -> JsNumber) returns (next: RulesOverride)
    ensures next.Get(key) == (if ParseOverride(value, num).Some? then ParseOverride(value, num) else o.Get(key))
    ensures forall g :: g != key ==> next.Get(g) == o.Get(g)
    ensures next.holidays == o.holidays
  {
    next := o;
    var parsed := ParseOverride(value, num);
    if parsed.Some? {
      next := WithSetting(o, key, parsed.value);
    }
  }

  /** The settings in the order `saveUserOverrides` hands them to `maybeSet`. */
  const CallOrder: seq<Setting> := [HourlyRate, ExpectedDailyHours, OvertimeWeeklyThresholdHours,
    DailyOvertimeThresholdHours, DoubleTimeDailyThresholdHours, OvertimeMultiplier, DoubleTimeMultiplier,
    HolidayMultiplier, HolidayPaidHoursCredit]

  /** Every setting is handed over exactly once. */
  lemma CallOrderCovers()
    ensures |CallOrder| == 9
    ensures forall f :: f in CallOrder
    ensures forall i, j :: 0 <= i < j < |CallOrder| ==> CallOrder[i] != CallOrder[j]
  {
    forall f
      ensures f in CallOrder
    {
      match f
      case HourlyRate => assert CallOrder[0] == f;
      case ExpectedDailyHours => assert CallOrder[1] == f;
      case OvertimeWeeklyThresholdHours => assert CallOrder[2] == f;
      case DailyOvertimeThresholdHours => assert CallOrder[3] == f;
      case DoubleTimeDailyThresholdHours => assert CallOrder[4] == f;
      case OvertimeMultiplier => assert CallOrder[5] == f;
      case DoubleTimeMultiplier => assert CallOrder[6] == f;
      case HolidayMultiplier => assert CallOrder[7] == f;
      case HolidayPaidHoursCredit => assert CallOrder[8] == f;
    }
  }


  /** After the first `k` calls, the override holds what those settings' texts parse to and
      nothing for the others. */
  ghost predicate SetBefore(o: RulesOverride, form: Setting -> string, num: string -> JsNumber, k: nat)
    requires k <= |CallOrder|
  {
    o.holidays.None? && forall f :: o.Get(f) == (if f in CallOrder[..k] then ParseOverride(form(f), num) else None)
  }

  /** The cleaning part of `saveUserOverrides`: starts from `{}`, hands the nine settings to
      `maybeSet` in the form's order, and drops an override that ends up empty. */
  method CleanOverrides(form: Setting -> string, num: string -> JsNumber) returns (cleaned: Option<RulesOverride>)
    ensures cleaned == CleanedOverride(form, num)
  {
    CallOrderCovers();
    var overrides := NoOverride;
    assert forall f :: NoOverride.Get(f) == None;
    for k := 0 to |CallOrder|
      invariant SetBefore(overrides, form, num, k)
    {
      var key := CallOrder[k];
      var next := MaybeSet(overrides, key, form(key), num);
      forall f
        ensures next.Get(f) == (if f in CallOrder[..k + 1] then ParseOverride(form(f), num) else None)
      {
        assert CallOrder[..k + 1] == CallOrder[..k] + [key];
        if f == key {
          assert key !in CallOrder[..k];
        }
      }
      overrides := next;
    }
    assert CallOrder[..|CallOrder|] == CallOrder;
    CleanedOf(overrides, form, num);
    cleaned := if overrides == NoOverride then None else Some(overrides);
  }

  /** An override that holds exactly what the form's texts parse to is the cleaned override,
      once an empty one is dropped. */
  lemma CleanedOf(o: RulesOverride, form: Setting -> string, num: string -> JsNumber)
    requires forall f :: o.Get(f) == ParseOverride(form(f), num)
    requires o.holidays.None?
    ensures (if o == NoOverride then None else Some(o)) == CleanedOverride(form, num)
  {
    var expected := CleanedOverride(form, num);
    if o == NoOverride {
      assert forall f :: NoOverride.Get(f) == None;
    } else if expected.Some? {
      OverrideExtensional(o, expected.value);
    } else {
      OverrideExtensional(o, NoOverride);
    }
  }

  /** `users.map((u) => (u.id === updated.id ? updated : u))`. */
  function ReplaceById(users: seq<ExportUser>, updated: ExportUser): (r: seq<ExportUser>)
    ensures |r| == |users|
  {
    Map(users, (u: ExportUser) => if u.id == updated.id then updated else u)
  }

  /** Every user with the updated user's id is replaced; every other user stays where it was. */
  lemma ReplaceByIdAt(users: seq<ExportUser>, updated: ExportUser)
    ensures forall k :: 0 <= k < |users| ==>
      ReplaceById(users, updated)[k] == if users[k].id == updated.id then updated else users[k]
  {
    MapAt(users, (u: ExportUser) => if u.id == updated.id then updated else u);
  }

  /** After the replacement, looking the id up finds the updated user. */
  lemma ReplaceByIdFinds(users: seq<ExportUser>, updated: ExportUser)
    requires exists k :: 0 <= k < |users| && users[k].id == updated.id
    ensures FindUser(ReplaceById(users, updated), updated.id) == Some(updated)
  {
    var r := ReplaceById(users, updated);
    ReplaceByIdAt(users, updated);
    assert forall k :: 0 <= k < |users| ==> r[k].id == users[k].id;
    var a, b := FindIndex(r, updated.id), FindIndex(users, updated.id);
    assert a == b;
  }

  // ---------------------------------------------------------------------------
  // the viewer

  datatype Role = AdminRole | UserRole

  /** The signed-in account: `{ role, userId? }`. */
  datatype Auth = Auth(role: Role, userId: Option<string>)

  /** The id of the viewer when the viewer is a user with a non-empty id
      (`auth?.role === 'user' && auth.userId`). */
  function WorkerId(auth: Option<Auth>): (id: Option<string>)
    ensures id.Some? <==> auth.Some? && auth.value.role == UserRole && auth.value.userId.Some? && auth.value.userId.value != ""
    ensures id.Some? ==> id.value == auth.value.userId.value
  {
    if auth.Some? && auth.value.role == UserRole && auth.value.userId.Some? && auth.value.userId.value != ""
    then auth.value.userId
    else None
  }

  /** `sessionsForCurrentUser`: a user sees only their own sessions, anyone else sees all. */
  function SessionsForCurrentUser(sessions: seq<WorkSession>, auth: Option<Auth>): (r: seq<WorkSession>)
    ensures WorkerId(auth).None? ==> r == sessions
    ensures WorkerId(auth).Some? ==> forall s :: s in r <==> s in sessions && s.userId == WorkerId(auth).value
  {
    if WorkerId(auth).Some? then Filter(sessions, OwnedBy(WorkerId(auth).value)) else sessions
  }

  /** A user's view keeps every one of their sessions as often as it is stored and in the stored
      order: viewing a list made of two parts views each part. */
  lemma SessionsForCurrentUserInOrder(front: seq<WorkSession>, back: seq<WorkSession>, auth: Option<Auth>)
    ensures SessionsForCurrentUser(front + back, auth) == SessionsForCurrentUser(front, auth) + SessionsForCurrentUser(back, auth)
  {
    if WorkerId(auth).Some? {
      FilterAppend(front, back, OwnedBy(WorkerId(auth).value));
    }
  }

  /** `resolveRulesForUser`: no id (or an empty one) gives the company rules; otherwise the
      company rules merged with the terms of the user with that id, which are the company rules
      when there is no such user. */
  function ResolveRulesForUser(rules: RulesConfig, users: seq<ExportUser>, userId: Option<string>): (r: RulesConfig)
    ensures userId.None? || userId.value == "" ==> r == rules
    ensures userId.Some? && (forall k :: 0 <= k < |users| ==> users[k].id != userId.value) ==> r == rules
    ensures userId.Some? && userId.value != "" && FindUser(users, userId.value).Some? ==>
      r == MergeRules(rules, FindUser(users, userId.value).value.terms)
  {
    if userId.None? || userId.value == "" then rules
    else MergeRules(rules, TermsOf(FindUser(users, userId.value)))
  }

  /** The rules the exports use for a user are the ones the app resolves for that user. */
  lemma ResolveMatchesExport(rules: RulesConfig, users: seq<ExportUser>, id: string)
    requires id != ""
    ensures ResolveRulesForUser(rules, users, Some(id)) == UserRules(rules, users, id)
  {
  }

  /** After `saveUserOverrides` for a user, the rules resolved for that user take each setting
      from the form when its text parses and from the company rules otherwise, and the company
      holidays. */
  lemma SavedOverridesResolve(rules: RulesConfig, users: seq<ExportUser>, selected: ExportUser,
                              form: Setting -> string, num: string -> JsNumber, f: Setting)
    requires selected in users && selected.id != ""
    ensures var r := ResolveRulesForUser(rules, ReplaceById(users, selected.(terms := CleanedOverride(form, num))), Some(selected.id));
      r.Get(f) == ParseOverride(form(f), num).GetOr(rules.Get(f)) && r.holidays == rules.holidays
  {
    var updated := selected.(terms := CleanedOverride(form, num));
    var k :| 0 <= k < |users| && users[k] == selected;
    assert users[k].id == updated.id;
    ReplaceByIdFinds(users, updated);
  }

  // ---------------------------------------------------------------------------
  // the default users

  const AdminName: string := "Lei, Nicky"

  /** The users the app creates when storage holds none (App.tsx:109-114), with the fields the
      exports read; the names are written `Last, First`. */
  const DefaultUsers: seq<ExportUser> := [
    ExportUser("admin-1", AdminName, None),
    ExportUser("u-9016", "Acevedo, Elkin", None),
    ExportUser("u-9017", "Acevedo, Felipe", None),
    ExportUser("u-9002", "Bonilla, Sandra", None)]

  /** The default administrator's timesheet lines do not line up with the header: the name's
      comma splits the user column in two. */
  lemma DefaultAdminBreaksTimesheet(s: WorkSession, baseRules: RulesConfig, fixed2: real -> string)
    requires s.userId == "admin-1"
    ensures |Split(TimesheetRow(s, DefaultUsers, baseRules, fixed2), ',')| > |TimesheetColumns|
  {
    assert DefaultUsers[0].id == s.userId;
    assert AdminName[3] == ',';
    TimesheetCommaInName(s, DefaultUsers, baseRules, fixed2);
  }

  // ---------------------------------------------------------------------------
  // the app state

  /** Every stored session is closed. */
  ghost predicate AllClosed(sessions: seq<WorkSession>)
  {
    forall s :: s in sessions ==> s.checkOut.Some?
  }

  /** `{ ...active, checkOut: now }`: the same session, closed at `now`. */
  function Closed(active: WorkSession, now: int): (s: WorkSession)
    ensures s.id == active.id && s.userId == active.userId && s.checkIn == active.checkIn
    ensures s.checkOut == Some(now)
    ensures now <= active.checkIn ==> SessionHours(s) == 0.0
    ensures active.checkIn <= now ==> SessionHours(s) * (MsPerHour as real) == (now - active.checkIn) as real
  {
    active.(checkOut := Some(now))
  }

  /** The state App.tsx keeps for the engine: the stored sessions (newest first), the open
      session, the company rules, the signed-in account and the users. */
  class Tracker {
    var sessions: seq<WorkSession>
    var active: Option<WorkSession>
    var rules: RulesConfig
    var auth: Option<Auth>
    var users: seq<ExportUser>

    /** The state before storage is read: no sessions, nothing open, the default rules, nobody
        signed in, no users. */
    constructor ()
      ensures sessions == [] && active == None && rules == DefaultRules && auth == None && users == []
    {
      sessions := [];
      active := None;
      rules := DefaultRules;
      auth := None;
      users := [];
    }

    /** `checkIn` at the moment `now` (`Date.now()`): nothing happens while a session is open or
        when the viewer is not a user with an id; otherwise a session of that user opens at `now`,
        its id the decimal text of `now`. */
    method CheckIn(now: nat)
      modifies this
      ensures old(active).Some? || WorkerId(old(auth)).None? ==> active == old(active)
      ensures old(active).None? && WorkerId(old(auth)).Some? ==>
        active == Some(WorkSession(PadDecimal(now, 0), WorkerId(old(auth)).value, now, None))
      ensures sessions == old(sessions) && rules == old(rules) && auth == old(auth) && users == old(users)
    {
      if active.Some? {
        return;
      }
      if auth.None? || auth.value.role != UserRole || auth.value.userId.None? || auth.value.userId.value == "" {
        return;
      }
      var newActive := WorkSession(PadDecimal(now, 0), auth.value.userId.value, now, None);
      active := Some(newActive);
    }

    /** `checkOut` at the moment `now`: nothing happens when no session is open; otherwise the
        open session, closed at `now`, goes in front of the stored sessions and nothing is open. */
    method CheckOut(now: int)
      modifies this
      ensures old(active).None? ==> sessions == old(sessions) && active == None
      ensures old(active).Some? ==> sessions == [Closed(old(active).value, now)] + old(sessions) && active == None
      ensures AllClosed(old(sessions)) ==> AllClosed(sessions)
      ensures rules == old(rules) && auth == old(auth) && users == old(users)
    {
      if active.None? {
        return;
      }
      var completed := active.value.(checkOut := Some(now));
      var newSessions := [completed] + sessions;
      sessions := newSessions;
      active := None;
    }

    /** `saveRules` with the form's texts. */
    method SaveRules(input: Setting -> string, num: string -> JsNumber)
      modifies this
      ensures rules == SavedRules(old(rules), input, num)
      ensures sessions == old(sessions) && active == old(active) && auth == old(auth) && users == old(users)
    {
      rules := SavedRules(rules, input, num);
    }

    /** `addHoliday` with the text of the holiday field. */
    method AddHoliday(holidayNew: string)
      modifies this
      ensures rules == WithHolidayAdded(old(rules), holidayNew)
      ensures sessions == old(sessions) && active == old(active) && auth == old(auth) && users == old(users)
    {
      rules := WithHolidayAdded(rules, holidayNew);
    }

    /** `removeHoliday(date)`. */
    method RemoveHoliday(date: string)
      modifies this
      ensures rules == WithHolidayRemoved(old(rules), date)
      ensures sessions == old(sessions) && active == old(active) && auth == old(auth) && users == old(users)
    {
      rules := WithHolidayRemoved(rules, date);
    }

    /** `saveUserOverrides` for the selected user, with the override form's texts: nothing
        happens when no user is selected; otherwise the user with the selected id gets the
        cleaned override as terms. */
    method SaveUserOverrides(selected: Option<ExportUser>, form: Setting -> string, num: string -> JsNumber)
      modifies this
      ensures selected.None? ==> users == old(users)
      ensures selected.Some? ==> users == ReplaceById(old(users), selected.value.(terms := CleanedOverride(form, num)))
      ensures sessions == old(sessions) && active == old(active) && rules == old(rules) && auth == old(auth)
    {
      if selected.None? {
        return;
      }
      var cleaned := CleanOverrides(form, num);
      var updatedUser := selected.value.(terms := cleaned);
      users := ReplaceById(users, updatedUser);
    }
  }
}
