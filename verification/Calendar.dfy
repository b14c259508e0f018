/** Timestamps: the printer (`rfc3339` in src/control/protocol.rs) and the
    parser (`parse_rfc3339` in src/ctl/render.rs) of UTC times to the second,
    in the form of section 5.6 of RFC 3339. */
module Calendar {
  import opened Common

  datatype Civil = Civil(year: int, month: int, day: int)

  // ── The calendar itself ─────────────────────────────────────────────

  predicate Leap(y: int) {
    y % 4 == 0 && (y % 100 != 0 || y % 400 == 0)
  }

  function DaysIn(y: int, m: int): int {
    if m == 2 then (if Leap(y) then 29 else 28)
    else if m == 4 || m == 6 || m == 9 || m == 11 then 30 else 31
  }

  predicate ValidDate(c: Civil) {
    1 <= c.month <= 12 && 1 <= c.day <= DaysIn(c.year, c.month)
  }

  function NextDay(c: Civil): Civil {
    if c.day < DaysIn(c.year, c.month) then Civil(c.year, c.month, c.day + 1)
    else if c.month < 12 then Civil(c.year, c.month + 1, 1)
    else Civil(c.year + 1, 1, 1)
  }

  // ── Civil from days, as the printer computes it ─────────────────────

  function YearOfEra(doe: int): int {
    (doe - doe / 1460 + doe / 36_524 - doe / 146_096) / 365
  }

  /** Days of the era before year `yoe` of it. */
  function YearStart(yoe: int): int {
    365 * yoe + yoe / 4 - yoe / 100
  }

  function CivilFromDays(days: int): Civil {
    var z := days + 719_468;
    var era := z / 146_097;
    var doe := z % 146_097;
    var yoe := YearOfEra(doe);
    var doy := doe - YearStart(yoe);
    var mp := (5 * doy + 2) / 153;
    var day := doy - (153 * mp + 2) / 5 + 1;
    var month := if mp < 10 then mp + 3 else mp - 9;
    Civil(yoe + era * 400 + (if month <= 2 then 1 else 0), month, day)
  }

  // ── Days from civil, as the parser computes it ──────────────────────

  function DaysFromCivil(c: Civil): int {
    var y := if c.month <= 2 then c.year - 1 else c.year;
    var era := y / 400;
    var yoe := y - era * 400;
    var mp := (c.month + 9) % 12;
    var doy := (153 * mp + 2) / 5 + c.day - 1;
    var doe := yoe * 365 + yoe / 4 - yoe / 100 + doy;
    era * 146_097 + doe - 719_468
  }

  // ── The year within an era ──────────────────────────────────────────

  /** Length of year `yoe` of an era, years starting in March. */
  function YearLength(yoe: int): int {
    if Leap(yoe + 1) then 366 else 365
  }

  /** A year within an era as centuries, four-year cycles and years. */
  predicate YearParts(yoe: int, c: int, q: int, k: int) {
    yoe == 100 * c + 4 * q + k && 0 <= c < 4 && 0 <= q < 25 && 0 <= k < 4
  }

  lemma YearStartParts(yoe: int, c: int, q: int, k: int)
    requires YearParts(yoe, c, q, k)
    ensures YearStart(yoe) == 36_524 * c + 1461 * q + 365 * k
    ensures YearLength(yoe) == if k == 3 && (q < 24 || c == 3) then 366 else 365
  {
    assert yoe / 4 == 25 * c + q;
    assert yoe / 100 == c;
    YearLengthParts(yoe, c, q, k);
  }

  lemma YearLengthParts(yoe: int, c: int, q: int, k: int)
    requires YearParts(yoe, c, q, k)
    ensures YearLength(yoe) == if k == 3 && (q < 24 || c == 3) then 366 else 365
  {
    var n := yoe + 1;
    Remainder(n, 4, 25 * c + q + if k == 3 then 1 else 0);
    Remainder(n, 100, c + if q == 24 && k == 3 then 1 else 0);
    Remainder(n, 400, if n == 400 then 1 else 0);
  }

  lemma Remainder(n: int, d: int, q: int)
    requires d > 0 && q * d <= n < q * d + d
    ensures n % d == n - q * d
  {
    Quotient(n, d, q);
  }

  /** The four quotients of the printer's formula, on day `doy` of a year. */
  lemma YearQuotients(c: int, q: int, k: int, doy: int, doe: int)
    requires 0 <= c < 4 && 0 <= q < 25 && 0 <= k < 4
    requires 0 <= doy < if k == 3 && (q < 24 || c == 3) then 366 else 365
    requires doe == 36_524 * c + 1461 * q + 365 * k + doy
    ensures doe / 1460 == 25 * c + q + if 24 * c + q + 365 * k + doy >= 1460 then 1 else 0
    ensures doe / 36_524 == c + if doe == 146_096 then 1 else 0
    ensures doe / 146_096 == if doe == 146_096 then 1 else 0
  {
    var over := 24 * c + q + 365 * k + doy;
    assert doe == 1460 * (25 * c + q) + over;
  }

  /** The printer's formula finds the year, whichever day of it. */
  lemma YearFormula(c: int, q: int, k: int, doy: int, doe: int)
    requires 0 <= c < 4 && 0 <= q < 25 && 0 <= k < 4
    requires 0 <= doy < if k == 3 && (q < 24 || c == 3) then 366 else 365
    requires doe == 36_524 * c + 1461 * q + 365 * k + doy
    ensures YearOfEra(doe) == 100 * c + 4 * q + k
  {
    YearQuotients(c, q, k, doy, doe);
    var e1 := if 24 * c + q + 365 * k + doy >= 1460 then 1 else 0;
    Quotient(doe - doe / 1460 + doe / 36_524 - doe / 146_096, 365, 100 * c + 4 * q + k) by {
      assert doe - doe / 1460 + doe / 36_524 - doe / 146_096 == 365 * (100 * c + 4 * q + k) + doy - e1;
    }
  }

  lemma Quotient(n: int, d: int, q: int)
    requires d > 0 && d * q <= n < d * q + d
    ensures n / d == q
  {
    QuotientUnique(n / d, n % d, q, n - d * q, d);
  }

  lemma QuotientUnique(q1: int, r1: int, q2: int, r2: int, d: int)
    requires d > 0 && 0 <= r1 < d && 0 <= r2 < d && d * q1 + r1 == d * q2 + r2
    ensures q1 == q2
  {
    Distribute(d, q1, q2);
    if q1 < q2 {
      AtLeast(d, q2 - q1);
      assert false;
    } else if q1 > q2 {
      AtLeast(d, q1 - q2);
      assert false;
    }
  }

  lemma Distribute(d: int, a: int, b: int)
    ensures d * (a - b) == d * a - d * b && d * (b - a) == d * b - d * a
  {
  }

  lemma {:induction false} AtLeast(d: int, n: int)
    requires d > 0 && n >= 1
    ensures d * n >= d
    decreases n
  {
    if n > 1 {
      AtLeast(d, n - 1);
      Distribute(d, n, 1);
    }
  }

  /** Every day of an era is a day of one of its years. */
  lemma FindYear(doe: int) returns (yoe: int, doy: int)
    requires 0 <= doe < 146_097
    ensures 0 <= yoe < 400 && 0 <= doy < YearLength(yoe) && doe == YearStart(yoe) + doy
    ensures YearOfEra(doe) == yoe
  {
    var c := Min(doe / 36_524, 3);
    var inCentury := doe - 36_524 * c;
    var q := Min(inCentury / 1461, 24);
    var inCycle := inCentury - 1461 * q;
    var k := Min(inCycle / 365, 3);
    doy := inCycle - 365 * k;
    yoe := 100 * c + 4 * q + k;
    YearStartParts(yoe, c, q, k);
    YearFormula(c, q, k, doy, YearStart(yoe) + doy);
  }

  lemma YearOfEraRight(yoe: int, doy: int)
    requires 0 <= yoe < 400 && 0 <= doy < YearLength(yoe)
    ensures YearOfEra(YearStart(yoe) + doy) == yoe
    ensures 0 <= YearStart(yoe) + doy < 146_097
  {
    var c, q, k := yoe / 100, yoe % 100 / 4, yoe % 4;
    assert yoe % 4 == (yoe % 100) % 4;
    YearStartParts(yoe, c, q, k);
    YearFormula(c, q, k, doy, YearStart(yoe) + doy);
  }

  // ── The month within a year ─────────────────────────────────────────

  function MonthStart(mp: int): int {
    (153 * mp + 2) / 5
  }

  function MonthOf(mp: int): int {
    if mp < 10 then mp + 3 else mp - 9
  }

  /** Length of month `mp`, counted from March, in a year of `length` days. */
  function MonthLength(mp: int, length: int): int {
    if mp == 11 then length - 337
    else if mp == 1 || mp == 3 || mp == 6 || mp == 8 then 30 else 31
  }

  lemma MonthFits(mp: int, length: int)
    requires 0 <= mp < 12 && (length == 365 || length == 366)
    ensures MonthStart(mp) + MonthLength(mp, length) == if mp == 11 then length else MonthStart(mp + 1)
    ensures (MonthOf(mp) + 9) % 12 == mp
  {
    if mp < 6 {
      assert mp == 0 || mp == 1 || mp == 2 || mp == 3 || mp == 4 || mp == 5;
    } else {
      assert mp == 6 || mp == 7 || mp == 8 || mp == 9 || mp == 10 || mp == 11;
    }
  }

  /** The printer's formula finds the month, whichever day of it. */
  lemma MonthFound(mp: int, length: int, day: int)
    requires 0 <= mp < 12 && (length == 365 || length == 366) && 1 <= day <= MonthLength(mp, length)
    ensures var doy := MonthStart(mp) + day - 1;
            0 <= doy < length && (5 * doy + 2) / 153 == mp
  {
    MonthFits(mp, length);
    var doy := MonthStart(mp) + day - 1;
    assert 153 * mp + 2 - 4 <= 5 * MonthStart(mp) <= 153 * mp + 2;
    if mp < 6 {
      assert mp == 0 || mp == 1 || mp == 2 || mp == 3 || mp == 4 || mp == 5;
    } else {
      assert mp == 6 || mp == 7 || mp == 8 || mp == 9 || mp == 10 || mp == 11;
    }
    Quotient(5 * doy + 2, 153, mp);
  }

  lemma {:induction false} FindMonth(doy: int, length: int, from: int) returns (mp: int, day: int)
    requires (length == 365 || length == 366) && 0 <= from < 12 && MonthStart(from) <= doy < length
    ensures 0 <= mp < 12 && 1 <= day <= MonthLength(mp, length) && doy == MonthStart(mp) + day - 1
    decreases 12 - from
  {
    MonthFits(from, length);
    if doy < MonthStart(from) + MonthLength(from, length) {
      mp, day := from, doy - MonthStart(from) + 1;
    } else {
      mp, day := FindMonth(doy, length, from + 1);
    }
  }

  // ── Inverses ────────────────────────────────────────────────────────

  /** A date by era, year of the era, month from March, and day. */
  function Assemble(era: int, yoe: int, mp: int, day: int): Civil {
    Civil(yoe + era * 400 + (if MonthOf(mp) <= 2 then 1 else 0), MonthOf(mp), day)
  }

  predicate Parts(era: int, yoe: int, mp: int, day: int) {
    0 <= yoe < 400 && 0 <= mp < 12 && 1 <= day <= MonthLength(mp, YearLength(yoe))
  }

  function DayNumber(era: int, yoe: int, mp: int, day: int): int {
    era * 146_097 + YearStart(yoe) + MonthStart(mp) + day - 1 - 719_468
  }

  lemma LeapEra(y: int, era: int)
    ensures Leap(y + era * 400) <==> Leap(y)
  {
    assert (y + era * 400) % 400 == y % 400;
    assert (y + era * 400) % 100 == y % 100 by { assert era * 400 == (4 * era) * 100; ModShift(y, 4 * era, 100); }
    assert (y + era * 400) % 4 == y % 4 by { assert era * 400 == (100 * era) * 4; ModShift(y, 100 * era, 4); }
  }

  lemma ModShift(y: int, n: int, d: int)
    requires d > 0
    ensures (y + n * d) % d == y % d
  {
    var q, r := y / d, y % d;
    assert y + n * d == d * (q + n) + r;
    Quotient(y + n * d, d, q + n);
  }

  lemma PartsValid(era: int, yoe: int, mp: int, day: int)
    requires Parts(era, yoe, mp, day)
    ensures ValidDate(Assemble(era, yoe, mp, day))
  {
    LeapEra(yoe + 1, era);
    assert Assemble(era, yoe, mp, day).month == 2 ==> Assemble(era, yoe, mp, day).year == yoe + 1 + era * 400;
  }

  lemma PartsPrinted(era: int, yoe: int, mp: int, day: int)
    requires Parts(era, yoe, mp, day)
    ensures CivilFromDays(DayNumber(era, yoe, mp, day)) == Assemble(era, yoe, mp, day)
  {
    MonthFound(mp, YearLength(yoe), day);
    var doy := MonthStart(mp) + day - 1;
    YearOfEraRight(yoe, doy);
    var doe := YearStart(yoe) + doy;
    var z := DayNumber(era, yoe, mp, day) + 719_468;
    assert z == era * 146_097 + doe;
    Quotient(z, 146_097, era);
  }

  lemma PartsParsed(era: int, yoe: int, mp: int, day: int)
    requires Parts(era, yoe, mp, day)
    ensures DaysFromCivil(Assemble(era, yoe, mp, day)) == DayNumber(era, yoe, mp, day)
  {
    MonthFits(mp, YearLength(yoe));
    var y := yoe + era * 400;
    Quotient(y, 400, era);
  }

  lemma SplitDays(days: int) returns (era: int, yoe: int, mp: int, day: int)
    ensures Parts(era, yoe, mp, day) && days == DayNumber(era, yoe, mp, day)
  {
    var z := days + 719_468;
    era := z / 146_097;
    var doy;
    yoe, doy := FindYear(z % 146_097);
    mp, day := FindMonth(doy, YearLength(yoe), 0);
  }

  lemma SplitCivil(c: Civil) returns (era: int, yoe: int, mp: int, day: int)
    requires ValidDate(c)
    ensures Parts(era, yoe, mp, day) && c == Assemble(era, yoe, mp, day)
  {
    var y := if c.month <= 2 then c.year - 1 else c.year;
    era, yoe, mp, day := y / 400, y % 400, (c.month + 9) % 12, c.day;
    LeapEra(yoe + 1, era);
    assert c.month == 2 ==> c.year == yoe + 1 + era * 400;
  }

  /** Parsing undoes printing, on every day. */
  lemma DaysRoundTrip(days: int)
    ensures DaysFromCivil(CivilFromDays(days)) == days
    ensures ValidDate(CivilFromDays(days))
  {
    var era, yoe, mp, day := SplitDays(days);
    PartsPrinted(era, yoe, mp, day);
    PartsParsed(era, yoe, mp, day);
    PartsValid(era, yoe, mp, day);
  }

  /** Printing undoes parsing, on every valid date. */
  lemma CivilRoundTrip(c: Civil)
    requires ValidDate(c)
    ensures CivilFromDays(DaysFromCivil(c)) == c
  {
    var era, yoe, mp, day := SplitCivil(c);
    PartsPrinted(era, yoe, mp, day);
    PartsParsed(era, yoe, mp, day);
  }

  // ── Consecutive days ────────────────────────────────────────────────

  /** One set of parts names the day after another. */
  ghost predicate Follows(era: int, yoe: int, mp: int, day: int, era': int, yoe': int, mp': int, day': int) {
    && Parts(era', yoe', mp', day')
    && NextDay(Assemble(era, yoe, mp, day)) == Assemble(era', yoe', mp', day')
    && DayNumber(era', yoe', mp', day') == DayNumber(era, yoe, mp, day) + 1
  }

  lemma NextInMonth(era: int, yoe: int, mp: int, day: int)
    requires Parts(era, yoe, mp, day) && day < MonthLength(mp, YearLength(yoe))
    ensures Follows(era, yoe, mp, day, era, yoe, mp, day + 1)
  {
    PartsValid(era, yoe, mp, day + 1);
  }

  lemma NextMonth(era: int, yoe: int, mp: int, day: int)
    requires Parts(era, yoe, mp, day) && day == MonthLength(mp, YearLength(yoe)) && mp < 11
    ensures Follows(era, yoe, mp, day, era, yoe, mp + 1, 1)
  {
    MonthFits(mp, YearLength(yoe));
  }

  lemma NextYear(era: int, yoe: int, day: int)
    requires Parts(era, yoe, 11, day) && day == MonthLength(11, YearLength(yoe))
    ensures if yoe == 399 then Follows(era, yoe, 11, day, era + 1, 0, 0, 1)
            else Follows(era, yoe, 11, day, era, yoe + 1, 0, 1)
  {
    LeapEra(yoe + 1, era);
    YearFollows(yoe);
    MonthFits(11, YearLength(yoe));
  }

  lemma FollowsInDays(era: int, yoe: int, mp: int, day: int, era': int, yoe': int, mp': int, day': int)
    requires Parts(era, yoe, mp, day) && Follows(era, yoe, mp, day, era', yoe', mp', day')
    ensures var c := Assemble(era, yoe, mp, day);
            ValidDate(NextDay(c)) && DaysFromCivil(NextDay(c)) == DaysFromCivil(c) + 1
  {
    PartsParsed(era, yoe, mp, day);
    PartsParsed(era', yoe', mp', day');
    PartsValid(era', yoe', mp', day');
  }

  lemma NextDayFollows(c: Civil)
    requires ValidDate(c)
    ensures ValidDate(NextDay(c)) && DaysFromCivil(NextDay(c)) == DaysFromCivil(c) + 1
  {
    var era, yoe, mp, day := SplitCivil(c);
    if day < MonthLength(mp, YearLength(yoe)) {
      NextInMonth(era, yoe, mp, day);
      FollowsInDays(era, yoe, mp, day, era, yoe, mp, day + 1);
    } else if mp < 11 {
      NextMonth(era, yoe, mp, day);
      FollowsInDays(era, yoe, mp, day, era, yoe, mp + 1, 1);
    } else {
      NextYear(era, yoe, day);
      if yoe == 399 {
        FollowsInDays(era, yoe, mp, day, era + 1, 0, 0, 1);
      } else {
        FollowsInDays(era, yoe, mp, day, era, yoe + 1, 0, 1);
      }
    }
  }

  lemma YearFollows(yoe: int)
    requires 0 <= yoe < 400
    ensures YearStart(yoe) + YearLength(yoe) == if yoe == 399 then 146_097 else YearStart(yoe + 1)
  {
  }

  lemma Named(c: Civil, days: int)
    requires ValidDate(c) && DaysFromCivil(c) == days
    ensures CivilFromDays(days) == c
  {
    CivilRoundTrip(c);
  }

  lemma DayAfter(c: Civil, days: int)
    requires ValidDate(c) && DaysFromCivil(c) == days
    ensures CivilFromDays(days + 1) == NextDay(c)
  {
    NextDayFollows(c);
    Named(NextDay(c), days + 1);
  }

  /** Each day number names the calendar day after the one before... */
  lemma CalendarAdvances(days: int)
    ensures CivilFromDays(days + 1) == NextDay(CivilFromDays(days))
  {
    DaysRoundTrip(days);
    DayAfter(CivilFromDays(days), days);
  }

  /** ...and day zero is 1 January 1970: so every day number names its date. */
  lemma Epoch()
    ensures CivilFromDays(0) == Civil(1970, 1, 1)
  {
    assert DaysFromCivil(Civil(1970, 1, 1)) == 0;
    Named(Civil(1970, 1, 1), 0);
  }

  // ── The first second of the year 10000 ──────────────────────────────

  lemma {:induction false} NewYears(y: int, n: nat)
    ensures DaysFromCivil(Civil(y + n, 1, 1)) >= DaysFromCivil(Civil(y, 1, 1)) + n
    decreases n
  {
    if n > 0 {
      NewYears(y, n - 1);
      WithinYear(Civil(y + n - 1, 12, 31));
    }
  }

  /** A date is numbered between its year's first day and the next year's. */
  lemma WithinYear(c: Civil)
    requires ValidDate(c)
    ensures DaysFromCivil(Civil(c.year, 1, 1)) <= DaysFromCivil(c) < DaysFromCivil(Civil(c.year + 1, 1, 1))
  {
    var first, next := Civil(c.year, 1, 1), Civil(c.year, 12, 31);
    NextDayFollows(next);
    InYear(c, first);
    InYear(next, c);
  }

  lemma {:induction false} InYear(c: Civil, d: Civil)
    requires ValidDate(c) && ValidDate(d) && c.year == d.year
    requires c.month > d.month || (c.month == d.month && c.day >= d.day)
    ensures DaysFromCivil(c) >= DaysFromCivil(d)
    decreases 12 - d.month, 31 - d.day
  {
    if c != d {
      NextDayFollows(d);
      InYear(c, NextDay(d));
    }
  }

  lemma FourDigits(c: Civil)
    requires ValidDate(c)
    ensures c.year <= 9999 <==> DaysFromCivil(c) <= 2_932_896
    ensures c.year >= 1970 <==> DaysFromCivil(c) >= 0
  {
    FirstOfJanuary(10_000, 24, 399, 99, 3);
    FirstOfJanuary(1970, 4, 369, 92, 3);
    YearsApart(c, 10_000, 2_932_897);
    YearsApart(c, 1970, 0);
  }

  /** The number of a New Year's Day, from the parts of the year before. */
  lemma FirstOfJanuary(y: int, era: int, yoe: int, leap: int, centuries: int)
    requires y - 1 == 400 * era + yoe && 0 <= yoe < 400
    requires 4 * leap <= yoe < 4 * leap + 4 && 100 * centuries <= yoe < 100 * centuries + 100
    ensures DaysFromCivil(Civil(y, 1, 1)) == era * 146_097 + yoe * 365 + leap - centuries + 306 - 719_468
  {
    assert (y - 1) / 400 == era && yoe / 4 == leap && yoe / 100 == centuries;
  }

  /** Dates are numbered in the order of their years. */
  lemma YearsApart(c: Civil, y: int, start: int)
    requires ValidDate(c) && DaysFromCivil(Civil(y, 1, 1)) == start
    ensures c.year >= y <==> DaysFromCivil(c) >= start
  {
    WithinYear(c);
    if c.year >= y { NewYears(y, c.year - y); } else { NewYears(c.year + 1, y - 1 - c.year); }
  }

  /** The four-digit years are the days up to 31 December 9999. */
  lemma FourDigitYears(days: int)
    ensures CivilFromDays(days).year <= 9999 <==> days <= 2_932_896
    ensures CivilFromDays(days).year >= 1970 <==> days >= 0
  {
    DaysRoundTrip(days);
    FourDigits(CivilFromDays(days));
  }

  // ── Text ────────────────────────────────────────────────────────────

  function Digit(n: int): char
    requires 0 <= n < 10
  {
    '0' + n as char
  }

  function Decimal(n: nat): string {
    if n < 10 then [Digit(n)] else Decimal(n / 10) + [Digit(n % 10)]
  }

  function Zeros(n: int): string {
    if n <= 0 then "" else Zeros(n - 1) + "0"
  }

  /** `{n:0width}`. */
  function Padded(n: nat, width: nat): string {
    Zeros(width - |Decimal(n)|) + Decimal(n)
  }

  function Stamp(c: Civil, hh: nat, mm: nat, ss: nat): string
    requires c.year >= 0 && c.month >= 0 && c.day >= 0
  {
    Join(Padded(c.year, 4), Padded(c.month, 2), Padded(c.day, 2), Padded(hh, 2), Padded(mm, 2), Padded(ss, 2))
  }

  /** The printer: seconds from the epoch, taken as the epoch if before it. */
  function Rfc3339(time: int): string {
    var secs := if time < 0 then 0 else time;
    var days := secs / 86_400;
    var rem := secs % 86_400;
    FourDigitYears(days);
    DaysRoundTrip(days);
    Stamp(CivilFromDays(days), rem / 3600, (rem % 3600) / 60, rem % 60)
  }

  function DigitValue(ch: char): Option<int> {
    if '0' <= ch <= '9' then Some(ch as int - '0' as int) else None
  }

  function ParseDigits(s: string): Option<int> {
    if |s| == 0 then Some(0)
    else
      match (ParseDigits(s[..|s| - 1]), DigitValue(s[|s| - 1]))
      case (Some(n), Some(d)) => Some(10 * n + d)
      case _ => None
  }

  /** `parse::<i64>`: an optional sign, then at least one digit. */
  function ParseInt(s: string): Option<int> {
    if |s| == 0 then None
    else if s[0] == '-' || s[0] == '+' then
      if |s| == 1 then None
      else
        match ParseDigits(s[1..])
        case Some(n) => Some(if s[0] == '-' then -n else n)
        case None => None
    else ParseDigits(s)
  }

  function Seconds(c: Civil, hh: int, mm: int, ss: int): int {
    DaysFromCivil(c) * 86_400 + hh * 3600 + mm * 60 + ss
  }

  /** The parser. It doesn't look at the colons, or at the fields' ranges. */
  function ParseRfc3339(s: string): Option<int> {
    if |s| != 20 || s[4] != '-' || s[7] != '-' || s[10] != 'T' || s[19] != 'Z' then None
    else
      var y, m, d := ParseInt(s[0..4]), ParseInt(s[5..7]), ParseInt(s[8..10]);
      var hh, mm, ss := ParseInt(s[11..13]), ParseInt(s[14..16]), ParseInt(s[17..19]);
      if y.None? || m.None? || d.None? || hh.None? || mm.None? || ss.None? then None
      else
        var secs := Seconds(Civil(y.value, m.value, d.value), hh.value, mm.value, ss.value);
        if secs < 0 then None else Some(secs)
  }

  predicate AllDigits(s: string) {
    forall i :: 0 <= i < |s| ==> DigitValue(s[i]).Some?
  }

  lemma ParseSnoc(s: string, n: int, d: int)
    requires ParseDigits(s) == Some(n) && AllDigits(s) && 0 <= d < 10
    ensures ParseDigits(s + [Digit(d)]) == Some(10 * n + d)
    ensures AllDigits(s + [Digit(d)])
  {
    var t := s + [Digit(d)];
    assert t[..|t| - 1] == s;
  }

  lemma {:induction false} ZerosParse(k: int)
    ensures ParseDigits(Zeros(k)) == Some(0) && AllDigits(Zeros(k))
    ensures |Zeros(k)| == if k < 0 then 0 else k
    decreases k
  {
    if k > 0 {
      ZerosParse(k - 1);
      ParseSnoc(Zeros(k - 1), 0, 0);
      assert [Digit(0)] == "0";
    }
  }

  /** Leading zeros don't change what a number reads as. */
  lemma {:induction false} PaddedDigits(k: int, n: nat)
    ensures ParseDigits(Zeros(k) + Decimal(n)) == Some(n) && AllDigits(Zeros(k) + Decimal(n))
  {
    if n < 10 {
      ZerosParse(k);
      ParseSnoc(Zeros(k), 0, n);
    } else {
      PaddedDigits(k, n / 10);
      ParseSnoc(Zeros(k) + Decimal(n / 10), n / 10, n % 10);
      assert Zeros(k) + Decimal(n) == Zeros(k) + Decimal(n / 10) + [Digit(n % 10)];
    }
  }

  function Power10(k: nat): nat {
    if k == 0 then 1 else 10 * Power10(k - 1)
  }

  lemma {:induction false} DecimalLength(n: nat, k: nat)
    requires k >= 1
    ensures |Decimal(n)| >= 1
    ensures |Decimal(n)| <= k <==> n < Power10(k)
    decreases k
  {
    if k == 1 {
      assert Power10(1) == 10 * Power10(0);
      if n >= 10 { assert |Decimal(n / 10)| >= 1 by { LengthPositive(n / 10); } }
    } else {
      AtLeastTen(k);
      if n >= 10 { DecimalLength(n / 10, k - 1); }
    }
  }

  lemma LengthPositive(n: nat)
    ensures |Decimal(n)| >= 1
  {
  }

  lemma AtLeastTen(k: nat)
    requires k >= 1
    ensures Power10(k) >= 10
  {
    if k > 1 { AtLeastTen(k - 1); }
  }

  /** A number that fits its width takes exactly that width and reads back;
      a larger one runs over. */
  lemma PadFits(n: nat, width: nat)
    requires width >= 1
    ensures ParseInt(Padded(n, width)) == Some(n)
    ensures n < Power10(width) ==> |Padded(n, width)| == width
    ensures n >= Power10(width) ==> |Padded(n, width)| > width
  {
    DecimalLength(n, width);
    ZerosParse(width - |Decimal(n)|);
    PaddedDigits(width - |Decimal(n)|, n);
    assert DigitValue(Padded(n, width)[0]).Some?;
  }

  lemma PadTwo(n: nat)
    requires n < 100
    ensures |Padded(n, 2)| == 2 && ParseInt(Padded(n, 2)) == Some(n)
  {
    assert Power10(2) == 10 * Power10(1) == 100 * Power10(0);
    PadFits(n, 2);
  }

  lemma PadFour(n: nat)
    ensures ParseInt(Padded(n, 4)) == Some(n)
    ensures if n < 10_000 then |Padded(n, 4)| == 4 else |Padded(n, 4)| > 4
  {
    assert Power10(4) == 10 * Power10(3) == 100 * Power10(2) == 1000 * Power10(1) == 10_000 * Power10(0);
    PadFits(n, 4);
  }

  function Join(y: string, m: string, d: string, hh: string, mm: string, ss: string): string {
    y + "-" + m + "-" + d + "T" + hh + ":" + mm + ":" + ss + "Z"
  }

  lemma Middle(s: string, a: string, b: string, c: string)
    requires s == a + b + c
    ensures s[|a|..|a| + |b|] == b
  {
  }

  lemma JoinShape(y: string, m: string, d: string, hh: string, mm: string, ss: string)
    requires |y| == 4 && |m| == 2 && |d| == 2 && |hh| == 2 && |mm| == 2 && |ss| == 2
    ensures var s := Join(y, m, d, hh, mm, ss);
            |s| == 20 && s[4] == '-' && s[7] == '-' && s[10] == 'T' && s[13] == ':' && s[16] == ':' && s[19] == 'Z'
  {
  }

  lemma JoinDate(y: string, m: string, d: string, rest: string, s: string)
    requires |y| == 4 && |m| == 2 && |d| == 2 && s == y + "-" + m + "-" + d + "T" + rest
    ensures s[0..4] == y && s[5..7] == m && s[8..10] == d && s[11..] == rest
  {
    Middle(s, "", y, "-" + m + "-" + d + "T" + rest);
    Middle(s, y + "-", m, "-" + d + "T" + rest);
    Middle(s, y + "-" + m + "-", d, "T" + rest);
  }

  lemma JoinTime(hh: string, mm: string, ss: string, s: string)
    requires |hh| == 2 && |mm| == 2 && |ss| == 2 && s == hh + ":" + mm + ":" + ss + "Z"
    ensures s[0..2] == hh && s[3..5] == mm && s[6..8] == ss && |s| == 9
  {
    Middle(s, "", hh, ":" + mm + ":" + ss + "Z");
    Middle(s, hh + ":", mm, ":" + ss + "Z");
    Middle(s, hh + ":" + mm + ":", ss, "Z");
  }

  lemma JoinFields(y: string, m: string, d: string, hh: string, mm: string, ss: string)
    requires |y| == 4 && |m| == 2 && |d| == 2 && |hh| == 2 && |mm| == 2 && |ss| == 2
    ensures var s := Join(y, m, d, hh, mm, ss);
            && |s| == 20 && s[4] == '-' && s[7] == '-' && s[10] == 'T' && s[13] == ':' && s[16] == ':' && s[19] == 'Z'
            && s[0..4] == y && s[5..7] == m && s[8..10] == d
            && s[11..13] == hh && s[14..16] == mm && s[17..19] == ss
  {
    var s, time := Join(y, m, d, hh, mm, ss), hh + ":" + mm + ":" + ss + "Z";
    JoinShape(y, m, d, hh, mm, ss);
    assert s == y + "-" + m + "-" + d + "T" + time;
    JoinDate(y, m, d, time, s);
    JoinTime(hh, mm, ss, time);
    assert s[11..13] == time[0..2] && s[14..16] == time[3..5] && s[17..19] == time[6..8];
  }

  /** Every date and time of day of a four-digit year reads back. */
  lemma StampParses(c: Civil, hh: nat, mm: nat, ss: nat)
    requires 0 <= c.year <= 9999 && 0 <= c.month < 100 && 0 <= c.day < 100 && hh < 100 && mm < 100 && ss < 100
    requires Seconds(c, hh, mm, ss) >= 0
    ensures ParseRfc3339(Stamp(c, hh, mm, ss)) == Some(Seconds(c, hh, mm, ss))
  {
    PadFour(c.year);
    PadTwo(c.month);
    PadTwo(c.day);
    PadTwo(hh);
    PadTwo(mm);
    PadTwo(ss);
    JoinFields(Padded(c.year, 4), Padded(c.month, 2), Padded(c.day, 2), Padded(hh, 2), Padded(mm, 2), Padded(ss, 2));
  }

  lemma TimeOfDay(rem: int)
    requires 0 <= rem < 86_400
    ensures var hh, mm, ss := rem / 3600, (rem % 3600) / 60, rem % 60;
            0 <= hh < 24 && 0 <= mm < 60 && 0 <= ss < 60 && hh * 3600 + mm * 60 + ss == rem
  {
    assert rem % 60 == (rem % 3600) % 60;
  }

  lemma StampLength(c: Civil, hh: nat, mm: nat, ss: nat)
    requires c.year >= 10_000 && 0 <= c.month < 100 && 0 <= c.day < 100 && hh < 100 && mm < 100 && ss < 100
    ensures |Stamp(c, hh, mm, ss)| > 20
  {
    PadFour(c.year);
    PadTwo(c.month);
    PadTwo(c.day);
    PadTwo(hh);
    PadTwo(mm);
    PadTwo(ss);
  }

  /** Parsing a printed time gives the time back, for exactly the seconds from
      1970 through 9999. */
  lemma TimestampRoundTrip(time: int)
    ensures ParseRfc3339(Rfc3339(time)) == Some(time) <==> 0 <= time <= 253_402_300_799
  {
    var secs := if time < 0 then 0 else time;
    var days, rem := secs / 86_400, secs % 86_400;
    DaysRoundTrip(days);
    FourDigitYears(days);
    TimeOfDay(rem);
    var c := CivilFromDays(days);
    if c.year <= 9999 {
      StampParses(c, rem / 3600, (rem % 3600) / 60, rem % 60);
      assert Seconds(c, rem / 3600, (rem % 3600) / 60, rem % 60) == secs;
    } else {
      StampLength(c, rem / 3600, (rem % 3600) / 60, rem % 60);
    }
  }

  lemma SplitTime(hh: nat, mm: nat, ss: nat, rem: int)
    requires hh < 24 && mm < 60 && ss < 60 && rem == hh * 3600 + mm * 60 + ss
    ensures 0 <= rem < 86_400
    ensures rem / 3600 == hh && (rem % 3600) / 60 == mm && rem % 60 == ss
  {
    TimeOfDay(rem);
  }

  lemma SplitSeconds(days: int, rem: int, secs: int)
    requires 0 <= rem < 86_400 && secs == days * 86_400 + rem
    ensures secs / 86_400 == days && secs % 86_400 == rem
  {
  }

  lemma StampOf(c: Civil, days: int, hh: nat, mm: nat, ss: nat)
    requires ValidDate(c) && days >= 0 && CivilFromDays(days) == c && c.year >= 0
    requires hh < 24 && mm < 60 && ss < 60
    ensures Rfc3339(days * 86_400 + hh * 3600 + mm * 60 + ss) == Stamp(c, hh, mm, ss)
  {
    var rem := hh * 3600 + mm * 60 + ss;
    SplitTime(hh, mm, ss, rem);
    SplitSeconds(days, rem, days * 86_400 + rem);
  }

  /** Printing what such a stamp says gives the stamp back. */
  lemma StampRoundTrip(c: Civil, hh: nat, mm: nat, ss: nat)
    requires ValidDate(c) && c.year >= 1970 && hh < 24 && mm < 60 && ss < 60
    ensures Rfc3339(Seconds(c, hh, mm, ss)) == Stamp(c, hh, mm, ss)
  {
    FourDigits(c);
    CivilRoundTrip(c);
    StampOf(c, DaysFromCivil(c), hh, mm, ss);
  }

  // ── When the parser's answer is what was written ────────────────────

  lemma {:induction false} ParseBound(s: string)
    requires AllDigits(s)
    ensures ParseDigits(s).Some? && 0 <= ParseDigits(s).value < Power10(|s|)
  {
    if |s| > 0 {
      var init, last := s[..|s| - 1], s[|s| - 1];
      assert DigitValue(last).Some?;
      ParseBound(init);
    }
  }

  /** Digits of one length say what they are. */
  lemma {:induction false} SameDigits(a: string, b: string)
    requires AllDigits(a) && AllDigits(b) && |a| == |b| && ParseDigits(a) == ParseDigits(b)
    ensures a == b
  {
    if |a| > 0 {
      var a', b' := a[..|a| - 1], b[..|b| - 1];
      assert DigitValue(a[|a| - 1]).Some? && DigitValue(b[|b| - 1]).Some?;
      ParseBound(a');
      ParseBound(b');
      SameDigits(a', b');
      assert a == a' + [a[|a| - 1]] && b == b' + [b[|b| - 1]];
    }
  }

  /** A field of digits is its number, padded. */
  lemma FieldIsPadded(s: string)
    requires AllDigits(s) && |s| >= 1
    ensures ParseInt(s).Some? && ParseInt(s).value >= 0 && Padded(ParseInt(s).value, |s|) == s
  {
    ParseBound(s);
    assert DigitValue(s[0]).Some?;
    var n := ParseDigits(s).value;
    PadFits(n, |s|);
    PaddedDigits(|s| - |Decimal(n)|, n);
    SameDigits(Padded(n, |s|), s);
  }

  /** The fields of a stamp, as the parser cuts them. */
  predicate DigitFields(s: string)
    requires |s| == 20
  {
    && AllDigits(s[0..4]) && AllDigits(s[5..7]) && AllDigits(s[8..10])
    && AllDigits(s[11..13]) && AllDigits(s[14..16]) && AllDigits(s[17..19])
  }

  function Value(s: string): int {
    match ParseInt(s)
    case Some(n) => n
    case None => -1
  }

  /** A UTC stamp in the form of section 5.6 of RFC 3339, from 1970 on:
      every separator in place, every field digits and in range. */
  predicate WellFormed(s: string) {
    && |s| == 20 && s[4] == '-' && s[7] == '-' && s[10] == 'T' && s[13] == ':' && s[16] == ':' && s[19] == 'Z'
    && DigitFields(s)
    && Value(s[0..4]) >= 1970 && ValidDate(Civil(Value(s[0..4]), Value(s[5..7]), Value(s[8..10])))
    && Value(s[11..13]) < 24 && Value(s[14..16]) < 60 && Value(s[17..19]) < 60
  }

  lemma Rejoin(s: string)
    requires |s| == 20 && s[4] == '-' && s[7] == '-' && s[10] == 'T' && s[13] == ':' && s[16] == ':' && s[19] == 'Z'
    ensures s == Join(s[0..4], s[5..7], s[8..10], s[11..13], s[14..16], s[17..19])
  {
    var date, time := s[..11], s[11..];
    assert date == s[0..4] + "-" + s[5..7] + "-" + s[8..10] + "T";
    assert time == s[11..13] + ":" + s[14..16] + ":" + s[17..19] + "Z";
    assert s == date + time;
  }

  lemma StampOfFields(y: string, m: string, d: string, hh: string, mm: string, ss: string)
    requires |y| == 4 && |m| == 2 && |d| == 2 && |hh| == 2 && |mm| == 2 && |ss| == 2
    requires AllDigits(y) && AllDigits(m) && AllDigits(d) && AllDigits(hh) && AllDigits(mm) && AllDigits(ss)
    ensures Value(y) >= 0 && Value(m) >= 0 && Value(d) >= 0 && Value(hh) >= 0 && Value(mm) >= 0 && Value(ss) >= 0
    ensures Join(y, m, d, hh, mm, ss) == Stamp(Civil(Value(y), Value(m), Value(d)), Value(hh), Value(mm), Value(ss))
  {
    FieldIsPadded(y);
    FieldIsPadded(m);
    FieldIsPadded(d);
    FieldIsPadded(hh);
    FieldIsPadded(mm);
    FieldIsPadded(ss);
  }

  lemma WellFormedStamp(s: string)
    requires WellFormed(s)
    ensures Value(s[11..13]) >= 0 && Value(s[14..16]) >= 0 && Value(s[17..19]) >= 0
    ensures s == Stamp(Civil(Value(s[0..4]), Value(s[5..7]), Value(s[8..10])), Value(s[11..13]), Value(s[14..16]), Value(s[17..19]))
  {
    Rejoin(s);
    StampOfFields(s[0..4], s[5..7], s[8..10], s[11..13], s[14..16], s[17..19]);
  }

  lemma PrintsBack(s: string, t: int)
    requires WellFormed(s) && ParseRfc3339(s) == Some(t)
    ensures Rfc3339(t) == s
  {
    WellFormedStamp(s);
    StampRoundTrip(Civil(Value(s[0..4]), Value(s[5..7]), Value(s[8..10])), Value(s[11..13]), Value(s[14..16]), Value(s[17..19]));
  }

  lemma FieldDigits(n: nat, width: nat)
    requires width >= 1
    ensures AllDigits(Padded(n, width)) && ParseInt(Padded(n, width)) == Some(n) && Value(Padded(n, width)) == n
  {
    PaddedDigits(width - |Decimal(n)|, n);
    PadFits(n, width);
  }

  lemma StampWellFormed(c: Civil, hh: nat, mm: nat, ss: nat)
    requires ValidDate(c) && 1970 <= c.year <= 9999 && hh < 24 && mm < 60 && ss < 60
    ensures WellFormed(Stamp(c, hh, mm, ss))
  {
    PadFour(c.year);
    PadTwo(c.month);
    PadTwo(c.day);
    PadTwo(hh);
    PadTwo(mm);
    PadTwo(ss);
    FieldDigits(c.year, 4);
    FieldDigits(c.month, 2);
    FieldDigits(c.day, 2);
    FieldDigits(hh, 2);
    FieldDigits(mm, 2);
    FieldDigits(ss, 2);
    JoinFields(Padded(c.year, 4), Padded(c.month, 2), Padded(c.day, 2), Padded(hh, 2), Padded(mm, 2), Padded(ss, 2));
  }

  lemma PrintedWellFormed(t: int)
    requires t >= 0 && |Rfc3339(t)| == 20
    ensures WellFormed(Rfc3339(t))
  {
    var days, rem := t / 86_400, t % 86_400;
    DaysRoundTrip(days);
    FourDigitYears(days);
    TimeOfDay(rem);
    var c := CivilFromDays(days);
    if c.year >= 10_000 { StampLength(c, rem / 3600, (rem % 3600) / 60, rem % 60); }
    StampWellFormed(c, rem / 3600, (rem % 3600) / 60, rem % 60);
  }

  /** The parser takes more than stamps. What it says of a text is the time the
      text states, printing back as that text, exactly when the text is a
      well-formed stamp. */
  lemma ParserRight(s: string, t: int)
    requires ParseRfc3339(s) == Some(t)
    ensures Rfc3339(t) == s <==> WellFormed(s)
  {
    if WellFormed(s) { PrintsBack(s, t); }
    if Rfc3339(t) == s { PrintedWellFormed(t); }
  }

  /** And every well-formed stamp is taken. */
  lemma StampsTaken(s: string)
    requires WellFormed(s)
    ensures ParseRfc3339(s).Some?
  {
    WellFormedStamp(s);
    var c := Civil(Value(s[0..4]), Value(s[5..7]), Value(s[8..10]));
    FourDigits(c);
    FieldIsPadded(s[0..4]);
    FieldIsPadded(s[5..7]);
    FieldIsPadded(s[8..10]);
    FieldIsPadded(s[11..13]);
    FieldIsPadded(s[14..16]);
    FieldIsPadded(s[17..19]);
  }

  lemma TwoDigits(a: char, b: char, m: int, n: int)
    requires DigitValue(a) == Some(m) && DigitValue(b) == Some(n)
    ensures ParseInt([a, b]) == Some(10 * m + n)
  {
    assert [a, b][..1] == [a] && [a][..0] == [];
    assert ParseDigits([]) == Some(0);
    assert ParseDigits([a]) == Some(m);
  }

  lemma Year2026()
    ensures ParseInt("2026") == Some(2026)
  {
    ParseSnoc("", 0, 2);
    assert "" + [Digit(2)] == "2";
    ParseSnoc("2", 2, 0);
    assert "2" + [Digit(0)] == "20";
    ParseSnoc("20", 20, 2);
    assert "20" + [Digit(2)] == "202";
    ParseSnoc("202", 202, 6);
    assert "202" + [Digit(6)] == "2026";
  }

  lemma Month13()
    ensures DaysFromCivil(Civil(2026, 13, 1)) == 20_819
  {
    assert 2026 / 400 == 5 && 26 / 4 == 6 && 26 / 100 == 0 && (13 + 9) % 12 == 10 && (153 * 10 + 2) / 5 == 306;
  }

  function Loose(): string {
    "2026-13-01T00x00x00Z"
  }

  lemma LooseShape()
    ensures var s := Loose(); |s| == 20 && s[4] == '-' && s[7] == '-' && s[10] == 'T' && s[13] == 'x' && s[19] == 'Z'
    ensures Loose()[0..4] == "2026" && Loose()[5..7] == ['1', '3'] && Loose()[8..10] == ['0', '1']
    ensures Loose()[11..13] == ['0', '0'] && Loose()[14..16] == ['0', '0'] && Loose()[17..19] == ['0', '0']
  {
    var s := Loose();
    assert s[0] == '2' && s[1] == '0' && s[2] == '2' && s[3] == '6';
    assert s[0..4] == [s[0], s[1], s[2], s[3]];
    TwoChars(s, 5, '1', '3');
    TwoChars(s, 8, '0', '1');
    TwoChars(s, 11, '0', '0');
    TwoChars(s, 14, '0', '0');
    TwoChars(s, 17, '0', '0');
  }

  lemma TwoChars(s: string, i: nat, a: char, b: char)
    requires i + 2 <= |s| && s[i] == a && s[i + 1] == b
    ensures s[i..i + 2] == [a, b]
  {
  }

  lemma ParsedFrom(s: string, c: Civil, hh: int, mm: int, ss: int)
    requires |s| == 20 && s[4] == '-' && s[7] == '-' && s[10] == 'T' && s[19] == 'Z'
    requires ParseInt(s[0..4]) == Some(c.year) && ParseInt(s[5..7]) == Some(c.month) && ParseInt(s[8..10]) == Some(c.day)
    requires ParseInt(s[11..13]) == Some(hh) && ParseInt(s[14..16]) == Some(mm) && ParseInt(s[17..19]) == Some(ss)
    ensures ParseRfc3339(s) == if Seconds(c, hh, mm, ss) < 0 then None else Some(Seconds(c, hh, mm, ss))
  {
  }

  /** A text with no colons and a thirteenth month, read as a time. */
  lemma LooseStamp()
    ensures ParseRfc3339(Loose()) == Some(20_819 * 86_400) && !WellFormed(Loose())
  {
    LooseShape();
    TwoDigits('0', '0', 0, 0);
    TwoDigits('0', '1', 0, 1);
    TwoDigits('1', '3', 1, 3);
    Year2026();
    Month13();
    ParsedFrom(Loose(), Civil(2026, 13, 1), 0, 0, 0);
  }
}
