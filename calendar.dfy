/** The date arithmetic of src/utils/time.ts, in UTC.

    A JavaScript `Date` is modelled by its timestamp: integer milliseconds since
    1970-01-01T00:00:00Z. A calendar day is modelled by its day number: whole days since
    1970-01-01. `toYMD` is `Ymd(DayOf(t))`: the proleptic Gregorian date of the timestamp in
    UTC, written the way `toISOString` writes it. `getMonday` and the week enumeration are
    modelled in UTC as well, so the week window and the date keys agree. */
module Calendar {
  import opened Strings
  import opened Options

  const MsPerHour: int := 3_600_000
  const MsPerDay: int := 86_400_000
  const MsPerWeek: int := 7 * MsPerDay

  /** JavaScript's `getDay()` numbering. */
  const Sunday: int := 0
  const Monday: int := 1

  /** The day number of a timestamp: whole days since 1970-01-01, rounded down. */
  function DayOf(t: int): int
  {
    t / MsPerDay
  }

  /** `getDay()` of any moment of day `d`: 0 for Sunday to 6 for Saturday (1970-01-01 was a Thursday). */
  function Weekday(d: int): int
  {
    (d + 4) % 7
  }

  /** The Monday that starts the Monday-to-Sunday week containing day `d`. */
  function MondayOf(d: int): (m: int)
    ensures Weekday(m) == Monday
    ensures m <= d < m + 7
  {
    d - (Weekday(d) + 6) % 7
  }

  /** A Sunday belongs to the week that ends on it: its Monday is six days earlier. */
  lemma SundayEndsWeek(d: int)
    requires Weekday(d) == Sunday
    ensures MondayOf(d) == d - 6
  {
  }

  /** Midnight of the Monday of the week that contains timestamp `t`. */
  function WeekStartMs(t: int): int
  {
    MondayOf(DayOf(t)) * MsPerDay
  }

  /** The week start is a Monday midnight at most a week before `t`. */
  lemma WeekStartFacts(t: int)
    ensures WeekStartMs(t) % MsPerDay == 0
    ensures DayOf(WeekStartMs(t)) == MondayOf(DayOf(t)) && Weekday(MondayOf(DayOf(t))) == Monday
    ensures WeekStartMs(t) <= t < WeekStartMs(t) + MsPerWeek
  {
  }

  /** `getMonday`: copies the date, moves it back to Monday with `setDate(getDate() - day + 1)`,
      where `day` is `getDay() || 7`, and truncates it to midnight with `setHours(0, 0, 0, 0)`. */
  method GetMonday(date: int) returns (monday: int)
    ensures monday == WeekStartMs(date)
  {
    var day := Weekday(DayOf(date));
    if day == 0 {
      day := 7;
    }
    var moved := date + (1 - day) * MsPerDay;
    monday := moved - moved % MsPerDay;
    assert DayOf(moved) == DayOf(date) + 1 - day;
  }

  // ---------------------------------------------------------------------------
  // civil dates

  datatype Civil = Civil(year: int, month: int, day: int)

  /** Gregorian leap years: divisible by 4, except centuries not divisible by 400. */
  predicate IsLeapYear(y: int)
  {
    y % 4 == 0 && (y % 100 != 0 || y % 400 == 0)
  }

  /** The calendar is counted in 400-year eras of 146097 days, each starting on 1 March of a year
      divisible by 400, and in years running from 1 March to the end of February. Year `yoe` of an
      era ends in February of calendar year `yoe + 1` (relative to the era). */
  function YearLength(yoe: int): int
  {
    if IsLeapYear(yoe + 1) then 366 else 365
  }

  /** The number of days in years 0 .. `yoe` - 1 of an era. */
  function DaysBefore(yoe: int): int
  {
    365 * yoe + yoe / 4 - yoe / 100 + yoe / 400
  }

  lemma DaysBeforeNext(yoe: int)
    ensures DaysBefore(yoe + 1) == DaysBefore(yoe) + YearLength(yoe)
  {
    var y := yoe + 1;
    assert y / 4 == yoe / 4 + (if y % 4 == 0 then 1 else 0);
    assert y / 100 == yoe / 100 + (if y % 100 == 0 then 1 else 0);
    assert y / 400 == yoe / 400 + (if y % 400 == 0 then 1 else 0);
  }

  /** The number of days of a March-based year before month `mp` (0 for March): 0, 31, 61, 92, 122,
      153, 184, 214, 245, 275, 306 and 337 for March to February. */
  function MonthStart(mp: int): int
  {
    (153 * mp + 2) / 5
  }

  /** The length of month `mp` of a March-based year, for March (0) to January (10): April, June,
      September and November have 30 days, the others 31. */
  function MonthLength(mp: int): int
  {
    if mp == 1 || mp == 3 || mp == 6 || mp == 8 then 30 else 31
  }

  lemma MonthStartNext(mp: int)
    requires 0 <= mp < 11
    ensures MonthStart(mp + 1) == MonthStart(mp) + MonthLength(mp)
  {
  }

  /** Counts whole years from year `yoe` of an era onwards: the year that holds day `doy` of year
      `yoe` (which may lie beyond its end), and the day of that year. Year 399 takes what is left. */
  function YearFrom(yoe: nat, doy: nat): (r: (nat, nat))
    requires yoe < 400
    ensures yoe <= r.0 < 400
    decreases 400 - yoe
  {
    if yoe == 399 || doy < YearLength(yoe) then (yoe, doy)
    else YearFrom(yoe + 1, doy - YearLength(yoe))
  }

  /** Within an era, `YearFrom` finds the year and the day of that year. */
  lemma {:induction false} YearFromCounts(yoe: nat, doy: nat)
    requires yoe < 400 && DaysBefore(yoe) + doy < DaysBefore(400)
    ensures YearFrom(yoe, doy).1 < YearLength(YearFrom(yoe, doy).0)
    ensures DaysBefore(yoe) + doy == DaysBefore(YearFrom(yoe, doy).0) + YearFrom(yoe, doy).1
    decreases 400 - yoe
  {
    DaysBeforeNext(yoe);
    if !(yoe == 399 || doy < YearLength(yoe)) {
      YearFromCounts(yoe + 1, doy - YearLength(yoe));
    }
  }

  /** Counts whole months from month `mp` (0 for March) onwards: the month that holds day `doy` of
      month `mp`, and the day of that month counted from 1. February takes what is left. */
  function MonthFrom(mp: nat, doy: nat): (r: (nat, nat))
    requires mp < 12
    ensures mp <= r.0 < 12 && 1 <= r.1
    decreases 12 - mp
  {
    if mp == 11 || doy < MonthLength(mp) then (mp, doy + 1)
    else MonthFrom(mp + 1, doy - MonthLength(mp))
  }

  /** Within a year of `len` days, `MonthFrom` finds the month and a day of at most 31. */
  lemma {:induction false} MonthFromCounts(mp: nat, doy: nat, len: int)
    requires mp < 12 && len <= 366 && MonthStart(mp) + doy < len
    ensures MonthFrom(mp, doy).1 <= 31
    ensures MonthStart(mp) + doy == MonthStart(MonthFrom(mp, doy).0) + MonthFrom(mp, doy).1 - 1
    decreases 12 - mp
  {
    if !(mp == 11 || doy < MonthLength(mp)) {
      MonthStartNext(mp);
      MonthFromCounts(mp + 1, doy - MonthLength(mp), len);
    }
  }

  /** Calendar month numbers (1 for January) of March-based month numbers (0 for March). */
  function CalendarMonth(mp: int): int
  {
    if mp < 10 then mp + 3 else mp - 9
  }

  /** The same day and month `eras` times 400 years later. */
  function Later(c: Civil, eras: int): Civil
  {
    c.(year := c.year + 400 * eras)
  }

  /** The day number of 1 March of year 0, where era 0 begins, and the length of an era. */
  const EraZero: int := -719468
  const DaysPerEra: int := 146097

  /** The civil date of day `doe` of era 0. */
  function CivilOfEraZero(doe: nat): (c: Civil)
    ensures 1 <= c.month <= 12 && 1 <= c.day
  {
    var (yoe, doy) := YearFrom(0, doe);
    var (mp, d) := MonthFrom(0, doy);
    var m := CalendarMonth(mp);
    Civil(yoe + (if m <= 2 then 1 else 0), m, d)
  }

  /** The proleptic Gregorian date of day number `days`: the calendar repeats every era, so a day
      outside era 0 has the date of the same day of era 0, 400 years later or earlier per era. */
  function CivilFromDays(days: int): (c: Civil)
    ensures 1 <= c.month <= 12 && 1 <= c.day
    decreases if days < EraZero then EraZero - days + DaysPerEra else days - EraZero
  {
    if days < EraZero then Later(CivilFromDays(days + DaysPerEra), -1)
    else if days >= EraZero + DaysPerEra then Later(CivilFromDays(days - DaysPerEra), 1)
    else CivilOfEraZero(days - EraZero)
  }

  /** The day number of a civil date (the inverse of `CivilFromDays`). */
  function DaysFromCivil(c: Civil): int
    requires 1 <= c.month <= 12
  {
    var y := c.year - (if c.month <= 2 then 1 else 0);
    var mp := if c.month > 2 then c.month - 3 else c.month + 9;
    y / 400 * 146097 + DaysBefore(y % 400) + MonthStart(mp) + c.day - 1 - 719468
  }

  /** Moving a date by 400 years moves its day number by one era. */
  lemma DaysFromCivilShift(c: Civil, k: int)
    requires 1 <= c.month <= 12
    ensures DaysFromCivil(Later(c, k)) == DaysFromCivil(c) + k * DaysPerEra
  {
    var y := c.year - (if c.month <= 2 then 1 else 0);
    assert (y + 400 * k) / 400 == y / 400 + k && (y + 400 * k) % 400 == y % 400;
  }

  lemma CivilOfEraZeroInverse(doe: int)
    requires 0 <= doe < DaysPerEra
    ensures CivilOfEraZero(doe).day <= 31
    ensures DaysFromCivil(CivilOfEraZero(doe)) == doe + EraZero
  {
    var yd := YearFrom(0, doe);
    YearFromCounts(0, doe);
    var md := MonthFrom(0, yd.1);
    MonthFromCounts(0, yd.1, YearLength(yd.0));
    var c := CivilOfEraZero(doe);
    assert c == Civil(yd.0 + (if md.0 >= 10 then 1 else 0), CalendarMonth(md.0), md.1);
    var y := c.year - (if c.month <= 2 then 1 else 0);
    assert y == yd.0;
    assert y / 400 == 0 && y % 400 == yd.0;
    assert (if c.month > 2 then c.month - 3 else c.month + 9) == md.0;
    assert DaysBefore(0) == 0 && MonthStart(0) == 0;
    assert DaysFromCivil(c) == DaysBefore(yd.0) + MonthStart(md.0) + md.1 - 1 - 719468;
  }

  lemma CivilFromDaysEra(days: int)
    ensures EraZero <= days < EraZero + DaysPerEra ==> CivilFromDays(days) == CivilOfEraZero(days - EraZero)
    ensures days < EraZero ==> CivilFromDays(days) == Later(CivilFromDays(days + DaysPerEra), -1)
    ensures days >= EraZero + DaysPerEra ==> CivilFromDays(days) == Later(CivilFromDays(days - DaysPerEra), 1)
  {
  }

  /** Every day number has exactly one civil date: converting there and back is the identity. */
  lemma {:induction false} CivilRoundTrip(days: int)
    ensures CivilFromDays(days).day <= 31
    ensures DaysFromCivil(CivilFromDays(days)) == days
    decreases if days < EraZero then EraZero - days + DaysPerEra else days - EraZero
  {
    CivilFromDaysEra(days);
    if days < EraZero {
      CivilRoundTrip(days + DaysPerEra);
      DaysFromCivilShift(CivilFromDays(days + DaysPerEra), -1);
    } else if days >= EraZero + DaysPerEra {
      CivilRoundTrip(days - DaysPerEra);
      DaysFromCivilShift(CivilFromDays(days - DaysPerEra), 1);
    } else {
      CivilOfEraZeroInverse(days - EraZero);
    }
  }

  // ---------------------------------------------------------------------------
  // ISO 8601 text, as `toISOString` writes it

  /** The year field of `toISOString`: four digits for years 0 to 9999, otherwise a sign and six digits. */
  function YearText(y: int): string
  {
    if 0 <= y <= 9999 then PadDecimal(y, 4)
    else if y > 9999 then "+" + PadDecimal(y, 6)
    else "-" + PadDecimal(-y, 6)
  }

  /** `toYMD`: the date part (`YYYY-MM-DD`) of `toISOString` for any moment of day `d`. */
  function Ymd(d: int): string
  {
    var c := CivilFromDays(d);
    YearText(c.year) + "-" + PadDecimal(c.month, 2) + "-" + PadDecimal(c.day, 2)
  }

  /** `toISOString()` of timestamp `t`: `YYYY-MM-DDTHH:mm:ss.sssZ`. */
  function IsoTimestamp(t: int): string
  {
    var ms := t % MsPerDay;
    Ymd(DayOf(t)) + "T" + PadDecimal(ms / MsPerHour, 2) + ":" + PadDecimal(ms / 60000 % 60, 2) + ":"
      + PadDecimal(ms / 1000 % 60, 2) + "." + PadDecimal(ms % 1000, 3) + "Z"
  }

  function YearValue(t: string): int
  {
    if |t| > 0 && t[0] == '+' then DecimalValue(t[1..])
    else if |t| > 0 && t[0] == '-' then -(DecimalValue(t[1..]) as int)
    else DecimalValue(t)
  }

  /** Reads a civil date back from `YYYY-MM-DD` text (the year may carry a sign and six digits). */
  function ParseYmd(s: string): Civil
  {
    if |s| < 6 then Civil(0, 0, 0)
    else Civil(YearValue(s[..|s| - 6]), DecimalValue(s[|s| - 5..|s| - 3]), DecimalValue(s[|s| - 2..]))
  }

  lemma YearTextRoundTrip(y: int)
    ensures YearValue(YearText(y)) == y
  {
    if 0 <= y <= 9999 {
      DecimalRoundTrip(y, 4);
      PadDigits(y, 4);
    } else if y > 9999 {
      DecimalRoundTrip(y, 6);
      assert ("+" + PadDecimal(y, 6))[1..] == PadDecimal(y, 6);
    } else {
      DecimalRoundTrip(-y, 6);
      assert ("-" + PadDecimal(-y, 6))[1..] == PadDecimal(-y, 6);
    }
  }

  /** The text `Ymd` writes reads back as the civil date it was written from. */
  lemma YmdParses(d: int)
    ensures ParseYmd(Ymd(d)) == CivilFromDays(d)
  {
    var c := CivilFromDays(d);
    CivilRoundTrip(d);
    PadWidth(c.month, 2);
    PadWidth(c.day, 2);
    ParseParts(YearText(c.year), PadDecimal(c.month, 2), PadDecimal(c.day, 2));
    YearTextRoundTrip(c.year);
    DecimalRoundTrip(c.month, 2);
    DecimalRoundTrip(c.day, 2);
  }

  /** `ParseYmd` reads the year, month and day from the three parts of a dashed text. */
  lemma ParseParts(y: string, m: string, dd: string)
    requires |m| == 2 && |dd| == 2
    ensures ParseYmd(y + "-" + m + "-" + dd) == Civil(YearValue(y), DecimalValue(m), DecimalValue(dd))
  {
    var s := y + "-" + m + "-" + dd;
    assert s[..|s| - 6] == y;
    assert s[|s| - 5..|s| - 3] == m;
    assert s[|s| - 2..] == dd;
  }

  /** A character that is not a digit does not occur in a rendered number. */
  lemma PadAvoids(n: nat, width: nat, c: char)
    requires !IsDigit(c)
    ensures c !in PadDecimal(n, width)
  {
    PadDigits(n, width);
  }

  /** A date key is made of digits, dashes and at most a leading plus sign. */
  lemma YmdAvoids(d: int, c: char)
    requires !IsDigit(c) && c != '-' && c != '+'
    ensures c !in Ymd(d)
  {
    var civ := CivilFromDays(d);
    PadAvoids(civ.month, 2, c);
    PadAvoids(civ.day, 2, c);
    if 0 <= civ.year <= 9999 {
      PadAvoids(civ.year, 4, c);
    } else if civ.year > 9999 {
      PadAvoids(civ.year, 6, c);
    } else {
      PadAvoids(-civ.year, 6, c);
    }
  }

  /** A timestamp text is made of the date key, digits and the characters `T`, `:`, `.` and `Z`. */
  lemma IsoAvoids(t: int, c: char)
    requires !IsDigit(c) && c != '-' && c != '+' && c != 'T' && c != ':' && c != '.' && c != 'Z'
    ensures c !in IsoTimestamp(t)
  {
    var ms := t % MsPerDay;
    YmdAvoids(DayOf(t), c);
    PadAvoids(ms / MsPerHour, 2, c);
    PadAvoids(ms / 60000 % 60, 2, c);
    PadAvoids(ms / 1000 % 60, 2, c);
    PadAvoids(ms % 1000, 3, c);
  }

  /** Different days have different `YYYY-MM-DD` keys. */
  lemma YmdInjective(a: int, b: int)
    requires Ymd(a) == Ymd(b)
    ensures a == b
  {
    YmdParses(a);
    YmdParses(b);
    CivilRoundTrip(a);
    CivilRoundTrip(b);
  }

  // ---------------------------------------------------------------------------
  // the week grid

  /** The `YYYY-MM-DD` keys of the `n` consecutive days from day `first`, in order. */
  function DayKeys(first: int, n: nat): (keys: seq<string>)
    ensures |keys| == n
  {
    if n == 0 then [] else DayKeys(first, n - 1) + [Ymd(first + (n - 1))]
  }

  /** Entry `k` is the key of day `first + k`. */
  lemma {:induction false} DayKeysAt(first: int, n: nat)
    ensures forall k :: 0 <= k < n ==> DayKeys(first, n)[k] == Ymd(first + k)
  {
    if n > 0 {
      DayKeysAt(first, n - 1);
    }
  }

  /** The week of day `d` lists `d` itself. */
  lemma WeekDaysContain(d: int)
    ensures Ymd(d) in DayKeys(MondayOf(d), 7)
  {
    DayKeysAt(MondayOf(d), 7);
    assert DayKeys(MondayOf(d), 7)[d - MondayOf(d)] == Ymd(d);
  }

  /** Consecutive days have different keys: the `n` keys from day `first` are `n` different dates
      (a week's seven in particular). */
  lemma DayKeysDistinct(first: int, n: nat)
    ensures forall i, j :: 0 <= i < j < n ==> DayKeys(first, n)[i] != DayKeys(first, n)[j]
  {
    DayKeysAt(first, n);
    forall i, j | 0 <= i < j < n
      ensures DayKeys(first, n)[i] != DayKeys(first, n)[j]
    {
      if Ymd(first + i) == Ymd(first + j) {
        YmdInjective(first + i, first + j);
      }
    }
  }

  /** `getWeekDays(base)`: the `YYYY-MM-DD` dates of the Monday-to-Sunday week that contains `base`,
      or `now` when no base date is given, Monday first. Each step copies the Monday and moves it
      forward `i` whole days with `setDate`, which is day number `first + i`. */
  method GetWeekDays(base: Option<int>, now: int) returns (days: seq<string>)
    ensures days == DayKeys(MondayOf(DayOf(base.GetOr(now))), 7)
  {
    var ref := if base.Some? then base.value else now;
    var monday := GetMonday(ref);
    WeekStartFacts(ref);
    var first := DayOf(monday);
    days := [];
    for i := 0 to 7
      invariant days == DayKeys(first, i)
    {
      days := days + [Ymd(first + i)];
    }
  }
}
