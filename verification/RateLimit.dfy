/**
 * The reset a rate-limit text names, and the cooldown it leads to: `rate_limit_reset` and `cooldown_until`
 * of agent-durable/src/scadbuddy_durable/credentials.py. Instants are microseconds of UTC.
 */
module RateLimit {
  import opened Wrappers

  const SECOND := 1_000_000
  const MINUTE := 60 * SECOND
  const HOUR := 60 * MINUTE
  const DAY := 24 * HOUR

  const DEFAULT_COOLDOWN := 60 * SECOND
  const MAX_COOLDOWN := 24 * HOUR
  const RESET_GRACE := 15 * MINUTE
  const RESET_HORIZON := 31 * DAY

  const MIN_YEAR := 1
  const MAX_YEAR := 9_999

  /** A date the text names: its month when those three letters are one, and its day. */
  datatype Date = Date(month: Option<int>, day: int)

  /** The groups the pattern found: a clock time, with or without a date. */
  datatype Parsed = Parsed(date: Option<Date>, hour: int, minute: Option<int>, pm: bool)

  /* ---- the calendar ---- */

  predicate Leap(year: int) {
    year % 4 == 0 && (year % 100 != 0 || year % 400 == 0)
  }

  function DaysInMonth(year: int, month: int): int
    requires 1 <= month <= 12
  {
    if month == 2 then (if Leap(year) then 29 else 28)
    else if month == 4 || month == 6 || month == 9 || month == 11 then 30
    else 31
  }

  function DaysBeforeMonth(year: int, month: int): int
    requires 1 <= month <= 13
  {
    if month == 1 then 0 else DaysBeforeMonth(year, month - 1) + DaysInMonth(year, month - 1)
  }

  function DaysBeforeYear(year: int): int {
    var y := year - 1;
    365 * y + y / 4 - y / 100 + y / 400
  }

  predicate ValidDate(year: int, month: int, day: int) {
    MIN_YEAR <= year <= MAX_YEAR && 1 <= month <= 12 && 1 <= day <= DaysInMonth(year, month)
  }

  function DayNumber(year: int, month: int, day: int): int
    requires 1 <= month <= 12
  {
    DaysBeforeYear(year) + DaysBeforeMonth(year, month) + day - 1
  }

  /** Midnight of a date. */
  function Midnight(year: int, month: int, day: int): int
    requires 1 <= month <= 12
  {
    DayNumber(year, month, day) * DAY
  }

  /** A moment by its date and its microseconds into the day. */
  datatype Moment = Moment(year: int, month: int, day: int, into: int) {
    predicate Valid() {
      ValidDate(year, month, day) && 0 <= into < DAY
    }

    function Instant(): int
      requires Valid()
    {
      Midnight(year, month, day) + into
    }
  }

  /* ---- the code ---- */

  /** Microseconds into the day of a twelve-hour clock time; none for one that is not a time. */
  function ClockTime(p: Parsed): Option<int> {
    var minute := if p.minute.Some? then p.minute.value else 0;
    if !(1 <= p.hour <= 12) || minute > 59 || minute < 0 then None
    else Some((p.hour % 12 + if p.pm then 12 else 0) * HOUR + minute * MINUTE)
  }

  function TimeOnly(clock: int, now: Moment): Option<int>
    requires now.Valid()
  {
    var at := Midnight(now.year, now.month, now.day) + clock;
    if at > now.Instant() then Some(at)
    else if at > now.Instant() - RESET_GRACE then None
    else Some(at + DAY)
  }

  function Dated(month: int, day: int, clock: int, now: Moment): Option<int>
    requires now.Valid()
  {
    if !ValidDate(now.year, month, day) then None
    else
      var at := Midnight(now.year, month, day) + clock;
      if at > now.Instant() then Some(at)
      else if !ValidDate(now.year + 1, month, day) then None
      else
        var later := Midnight(now.year + 1, month, day) + clock;
        if later - now.Instant() <= RESET_HORIZON then Some(later) else None
  }

  function RateLimitReset(p: Parsed, now: Moment): Option<int>
    requires now.Valid()
  {
    match ClockTime(p)
    case None => None
    case Some(clock) =>
      match p.date
      case None => TimeOnly(clock, now)
      case Some(date) => if date.month.None? then None else Dated(date.month.value, date.day, clock, now)
  }

  function CooldownUntil(now: int, until: Option<int>): int {
    var at := if until.Some? then until.value else now + DEFAULT_COOLDOWN;
    var least := if at > now + SECOND then at else now + SECOND;
    if least < now + MAX_COOLDOWN then least else now + MAX_COOLDOWN
  }

  /** Every minute of the day has one name: twelve is the first hour of its half. */
  lemma ClockTimeNames(m: int)
    requires 0 <= m < 24 * 60
    ensures var hour, half := m / 60 % 12, m >= 12 * 60;
            var name := Parsed(None, if hour == 0 then 12 else hour, Some(m % 60), half);
            && ClockTime(name) == Some(m * MINUTE)
            && forall p: Parsed :: ClockTime(p) == Some(m * MINUTE) ==>
                 p.hour == name.hour && p.pm == half && (if p.minute.Some? then p.minute.value else 0) == m % 60
  {
    var q := m / 60;
    assert m == 60 * q + m % 60;
    assert q % 12 == if q >= 12 then q - 12 else q;
    forall p: Parsed | ClockTime(p) == Some(m * MINUTE)
      ensures p.hour % 12 + (if p.pm then 12 else 0) == q && (if p.minute.Some? then p.minute.value else 0) == m % 60
    {
      MinuteApart(p.hour % 12 + (if p.pm then 12 else 0), if p.minute.Some? then p.minute.value else 0, q, m % 60);
    }
  }

  lemma MinuteApart(hour: int, minute: int, hour2: int, minute2: int)
    requires 0 <= minute < 60 && 0 <= minute2 < 60
    requires hour * HOUR + minute * MINUTE == (60 * hour2 + minute2) * MINUTE
    ensures hour == hour2 && minute == minute2
  {
  }

  /* ---- a time alone ---- */

  /** `at` is at that time of a day. */
  predicate AtClock(at: int, clock: int) {
    at % DAY == clock
  }

  /** Midnights are whole days. */
  lemma MidnightWhole(year: int, month: int, day: int, clock: int)
    requires 1 <= month <= 12 && 0 <= clock < DAY
    ensures AtClock(Midnight(year, month, day) + clock, clock)
    ensures (Midnight(year, month, day) + clock) / DAY == Midnight(year, month, day) / DAY
  {
  }

  lemma WholeDays(days: int, into: int)
    requires 0 <= into < DAY
    ensures (days * DAY + into) % DAY == into && (days * DAY + into) / DAY == days
  {
  }

  lemma ClockApart(a: int, b: int, clock: int)
    requires AtClock(a, clock) && AtClock(b, clock) && a < b
    ensures a + DAY <= b
  {
  }

  /**
   * A time alone gives the earliest instant after now at that time, or nothing: nothing exactly when
   * it passed less than fifteen minutes ago, earlier the same day.
   */
  lemma TimeOnlyIs(clock: int, now: Moment)
    requires now.Valid() && 0 <= clock < DAY
    ensures var r := TimeOnly(clock, now);
            r.Some? ==>
              && r.value > now.Instant() && AtClock(r.value, clock)
              && forall at :: AtClock(at, clock) && at > now.Instant() ==> r.value <= at
    ensures TimeOnly(clock, now).None? <==> now.into - 900_000_000 < clock <= now.into
  {
    var today := Midnight(now.year, now.month, now.day) + clock;
    MidnightWhole(now.year, now.month, now.day, clock);
    assert AtClock(today + DAY, clock) by {
      WholeDays(today / DAY, clock);
      WholeDays(today / DAY + 1, clock);
    }
    var r := TimeOnly(clock, now);
    if r.Some? {
      forall at | AtClock(at, clock) && at > now.Instant()
        ensures r.value <= at
      {
        if at < r.value {
          ClockApart(at, r.value, clock);
        }
      }
    }
  }

  /** What the description asks: nothing within the grace after the time last passed, else its next. */
  ghost predicate AsDescribed(clock: int, now: int, r: Option<int>) {
    if exists last :: AtClock(last, clock) && now - RESET_GRACE < last <= now then r.None?
    else r.Some? && r.value > now && AtClock(r.value, clock) && r.value <= now + DAY
  }

  /** The time last passed less than the grace ago, but the day before: midnight is between. */
  predicate AcrossMidnight(clock: int, now: Moment) {
    clock > now.into && clock > now.into + DAY - RESET_GRACE
  }

  /** The code does what its description says exactly when midnight is not in the grace. */
  lemma AsDescribedIff(clock: int, now: Moment)
    requires now.Valid() && 0 <= clock < DAY
    ensures AsDescribed(clock, now.Instant(), TimeOnly(clock, now)) <==> !AcrossMidnight(clock, now)
  {
    var t := now.Instant();
    var midnight := Midnight(now.year, now.month, now.day);
    MidnightWhole(now.year, now.month, now.day, clock);
    TimeOnlyIs(clock, now);
    var today := midnight + clock;
    var before := today - DAY;
    assert AtClock(before, clock) by {
      WholeDays(today / DAY, clock);
      WholeDays(today / DAY - 1, clock);
    }
    forall last | AtClock(last, clock) && t - RESET_GRACE < last <= t
      ensures last == today || last == before
    {
      if last < today {
        ClockApart(last, today, clock);
      } else if last > today {
        ClockApart(today, last, clock);
      }
      if last < before {
        ClockApart(last, before, clock);
      }
    }
  }

  /** Five past midnight, a limit that reset at five to: tomorrow's is given, nearly a day ahead. */
  lemma GraceLostAtMidnight()
    ensures var now := Moment(2026, 10, 21, 5 * MINUTE);
            && now.Valid()
            && TimeOnly(23 * HOUR + 55 * MINUTE, now) == Some(now.Instant() + 23 * HOUR + 50 * MINUTE)
            && !AsDescribed(23 * HOUR + 55 * MINUTE, now.Instant(), TimeOnly(23 * HOUR + 55 * MINUTE, now))
  {
    var now := Moment(2026, 10, 21, 5 * MINUTE);
    assert DaysInMonth(2026, 10) == 31;
    AsDescribedIff(23 * HOUR + 55 * MINUTE, now);
  }

  /* ---- a date ---- */

  lemma YearLength(year: int)
    ensures DaysBeforeYear(year + 1) == DaysBeforeYear(year) + if Leap(year) then 366 else 365
  {
    QuotientStep(year, 4);
    QuotientStep(year, 100);
    QuotientStep(year, 400);
    Hundreds(year);
    var y := year - 1;
    assert DaysBeforeYear(year) == 365 * y + y / 4 - y / 100 + y / 400;
    assert DaysBeforeYear(year + 1) == 365 * year + year / 4 - year / 100 + year / 400;
  }

  /** A year of four hundreds is one of hundreds, and of fours. */
  lemma Hundreds(year: int)
    ensures year % 400 == 0 ==> year % 100 == 0
    ensures year % 100 == 0 ==> year % 4 == 0
  {
  }

  lemma QuotientStep(year: int, n: int)
    requires n == 4 || n == 100 || n == 400
    ensures year / n == (year - 1) / n + if year % n == 0 then 1 else 0
  {
  }

  lemma {:induction false} YearsApart(year: int, later: int)
    requires year < later
    ensures DaysBeforeYear(year + 1) <= DaysBeforeYear(later)
    decreases later - year
  {
  }

  lemma MonthDays(year: int)
    ensures DaysBeforeMonth(year, 2) == 31
    ensures DaysBeforeMonth(year, 12) == if Leap(year) then 335 else 334
    ensures DaysBeforeMonth(year, 13) == if Leap(year) then 366 else 365
  {
    hide Leap;
    assert DaysBeforeMonth(year, 2) == 31;
    assert DaysBeforeMonth(year, 3) == 31 + DaysInMonth(year, 2);
    assert DaysBeforeMonth(year, 5) == DaysBeforeMonth(year, 3) + 61;
    assert DaysBeforeMonth(year, 7) == DaysBeforeMonth(year, 5) + 61;
    assert DaysBeforeMonth(year, 9) == DaysBeforeMonth(year, 7) + 62;
    assert DaysBeforeMonth(year, 11) == DaysBeforeMonth(year, 9) + 61;
    assert DaysBeforeMonth(year, 12) == DaysBeforeMonth(year, 11) + 30;
  }

  lemma {:induction false} MonthsGrow(year: int, month: int, later: int)
    requires 1 <= month < later <= 13
    ensures DaysBeforeMonth(year, month) + DaysInMonth(year, month) <= DaysBeforeMonth(year, later)
    decreases later
  {
    if month + 1 < later {
      MonthsGrow(year, month, later - 1);
    }
  }

  /** A date lies within its year; after January from the second month on, and before December until then. */
  lemma WithinYear(year: int, month: int, day: int, into: int)
    requires ValidDate(year, month, day) && 0 <= into < DAY
    ensures var at := Midnight(year, month, day) + into;
            var start, end := DaysBeforeYear(year) * DAY, DaysBeforeYear(year + 1) * DAY;
            && start <= at < end
            && (month >= 2 ==> at >= start + 31 * DAY)
            && (month <= 11 ==> at < end - 31 * DAY)
  {
    hide Leap, DaysBeforeYear, DaysBeforeMonth, DaysInMonth;
    DayOfYear(year, month, day);
    YearLength(year);
    var n := DaysBeforeMonth(year, month) + day - 1;
    assert Midnight(year, month, day) == (DaysBeforeYear(year) + n) * DAY;
  }

  lemma DayOfYear(year: int, month: int, day: int)
    requires ValidDate(year, month, day)
    ensures var n := DaysBeforeMonth(year, month) + day - 1;
            && 0 <= n < (if Leap(year) then 366 else 365)
            && (month >= 2 ==> n >= 31)
            && (month <= 11 ==> n < if Leap(year) then 335 else 334)
  {
    hide Leap, DaysBeforeMonth, DaysInMonth;
    MonthDays(year);
    MonthsGrow(year, month, 13);
    if month > 2 {
      MonthsGrow(year, 2, month);
      LongMonth(year, 2);
    }
    if month <= 11 {
      MonthsGrow(year, month, 12);
    }
    FirstMonth(year);
  }

  lemma LongMonth(year: int, month: int)
    requires 1 <= month <= 12
    ensures DaysInMonth(year, month) > 0
  {
  }

  lemma FirstMonth(year: int)
    ensures DaysBeforeMonth(year, 1) == 0
  {
  }

  /** The days from 1 January of year 1 to 31 December of year 9999, as `datetime` counts them. */
  const DAYS := 3_652_059

  /** Every day is a date. */
  lemma {:induction false} EveryDay(n: int) returns (year: int, month: int, day: int)
    requires 0 <= n < DAYS
    ensures ValidDate(year, month, day) && DayNumber(year, month, day) == n
  {
    if n == 0 {
      year, month, day := 1, 1, 1;
      FirstMonth(1);
    } else {
      year, month, day := EveryDay(n - 1);
      hide DayNumber;
      if day < DaysInMonth(year, month) {
        SameMonth(year, month, day);
        day := day + 1;
      } else if month < 12 {
        NextMonth(year, month);
        month, day := month + 1, 1;
      } else {
        NextYear(year);
        year, month, day := year + 1, 1, 1;
      }
    }
  }

  lemma SameMonth(year: int, month: int, day: int)
    requires 1 <= month <= 12
    ensures DayNumber(year, month, day + 1) == DayNumber(year, month, day) + 1
  {
  }

  lemma NextMonth(year: int, month: int)
    requires 1 <= month < 12
    ensures DayNumber(year, month + 1, 1) == DayNumber(year, month, DaysInMonth(year, month)) + 1
    ensures DaysInMonth(year, month + 1) >= 1
  {
  }

  lemma NextYear(year: int)
    requires 1 <= year <= 9_999
    ensures DaysInMonth(year, 12) == 31 && DaysInMonth(year + 1, 1) >= 1
    ensures DayNumber(year + 1, 1, 1) == DayNumber(year, 12, 31) + 1
    ensures DayNumber(year, 12, 31) + 1 < DAYS ==> year < 9_999
  {
    YearLength(year);
    MonthDays(year);
    FirstMonth(year + 1);
    LastDay(year, DaysBeforeYear(year + 1));
  }

  lemma LastDay(year: int, n: int)
    requires 1 <= year <= 9_999 && DaysBeforeYear(year + 1) == n
    ensures n < DAYS ==> year < 9_999
  {
  }

  /** And of one only: the calendar tells every two dates apart, and puts them in order. */
  lemma DatesInOrder(year: int, month: int, day: int, year2: int, month2: int, day2: int)
    requires ValidDate(year, month, day) && ValidDate(year2, month2, day2)
    requires year < year2 || (year == year2 && (month < month2 || (month == month2 && day < day2)))
    ensures 0 <= Midnight(year, month, day) < Midnight(year2, month2, day2) < DAYS * DAY
  {
    hide Leap, DaysBeforeYear, DaysBeforeMonth, DaysInMonth, Midnight;
    WithinYear(year, month, day, 0);
    WithinYear(year2, month2, day2, 0);
    if year > 1 {
      YearsApart(0, year);
    }
    YearEnds(year, year2);
    if year < year2 {
      YearsApart(year, year2);
      Days(DaysBeforeYear(year + 1), DaysBeforeYear(year2));
    } else {
      if month < month2 {
        MonthsGrow(year, month, month2);
      }
      DaysBefore(year, month, day, month2, day2);
    }
  }

  lemma YearEnds(year: int, year2: int)
    requires 1 <= year && year2 <= 9_999
    ensures 0 <= DaysBeforeYear(year) && DaysBeforeYear(year2 + 1) <= DAYS
  {
    hide DaysBeforeYear;
    assert DaysBeforeYear(1) == 0 && DaysBeforeYear(10_000) == DAYS by {
      FirstAndLast();
    }
    if year > 1 {
      YearLength(1);
      YearsApart(1, year);
    }
    if year2 < 9_999 {
      YearsApart(year2, 10_000);
    }
  }

  lemma FirstAndLast()
    ensures DaysBeforeYear(1) == 0 && DaysBeforeYear(10_000) == DAYS
  {
  }

  lemma DaysBefore(year: int, month: int, day: int, month2: int, day2: int)
    requires 1 <= month <= 12 && 1 <= month2 <= 12
    requires DaysBeforeMonth(year, month) + day < DaysBeforeMonth(year, month2) + day2
    ensures Midnight(year, month, day) < Midnight(year, month2, day2)
  {
    hide DaysBeforeYear, DaysBeforeMonth;
  }

  /** Every microsecond of those days is a moment. */
  lemma EveryMoment(t: int) returns (m: Moment)
    requires 0 <= t < 3_652_059 * 86_400_000_000
    ensures m.Valid() && m.Instant() == t
  {
    hide DaysBeforeYear, DaysBeforeMonth, ValidDate;
    var n := t / DAY;
    assert n < DAYS;
    var year, month, day := EveryDay(n);
    m := Moment(year, month, day, t - n * DAY);
  }

  /**
   * A date gives the earliest instant after now on it at that time, of this year or, within the horizon,
   * the next; and the next year's only across the new year, of a January date in December.
   */
  lemma DatedIs(month: int, day: int, clock: int, now: Moment)
    requires now.Valid() && 0 <= clock < DAY && Dated(month, day, clock, now).Some?
    ensures var r := Dated(month, day, clock, now).value;
            && r > now.Instant()
            && (forall year :: ValidDate(year, month, day) && Midnight(year, month, day) + clock > now.Instant() ==>
                  r <= Midnight(year, month, day) + clock)
            && (r == Midnight(now.year, month, day) + clock
                || (r == Midnight(now.year + 1, month, day) + clock && r - now.Instant() <= RESET_HORIZON
                    && month == 1 && now.month == 12))
  {
    hide DaysBeforeYear, DaysBeforeMonth, DaysInMonth;
    var r := Dated(month, day, clock, now).value;
    WithinYear(now.year, now.month, now.day, now.into);
    WithinYear(now.year, month, day, clock);
    if ValidDate(now.year + 1, month, day) {
      WithinYear(now.year + 1, month, day, clock);
    }
    forall year | ValidDate(year, month, day) && Midnight(year, month, day) + clock > now.Instant()
      ensures r <= Midnight(year, month, day) + clock
    {
      WithinYear(year, month, day, clock);
      if year < now.year {
        YearsApart(year, now.year);
        Days(DaysBeforeYear(year + 1), DaysBeforeYear(now.year));
      } else if year > now.year + 1 {
        YearsApart(now.year + 1, year);
        Days(DaysBeforeYear(now.year + 2), DaysBeforeYear(year));
        YearsApart(now.year, now.year + 2);
        Days(DaysBeforeYear(now.year + 1), DaysBeforeYear(now.year + 2));
      }
    }
  }

  lemma Days(a: int, b: int)
    requires a <= b
    ensures a * DAY <= b * DAY
  {
  }

  /** A date gives nothing exactly when it is no date this year, or has passed and next year's is none or too far. */
  lemma DatedNone(month: int, day: int, clock: int, now: Moment)
    requires now.Valid() && 0 <= clock < DAY
    ensures Dated(month, day, clock, now).None? <==>
            || !ValidDate(now.year, month, day)
            || (Midnight(now.year, month, day) + clock <= now.Instant()
                && !(month == 1 && now.month == 12 && now.year < 9_999
                     && Midnight(now.year + 1, month, day) + clock - now.Instant() <= 31 * 86_400_000_000))
  {
    hide DaysBeforeYear, DaysBeforeMonth;
    WithinYear(now.year, now.month, now.day, now.into);
    if ValidDate(now.year + 1, month, day) {
      WithinYear(now.year + 1, month, day, clock);
    }
  }

  /**
   * A date whose time passed within the grace gives nothing when that was this year; when it was last
   * year, just before the new one, the same date months ahead is given.
   */
  lemma DatedGrace(month: int, day: int, clock: int, now: Moment, year: int)
    requires now.Valid() && 0 <= clock < DAY && ValidDate(year, month, day)
    requires now.Instant() - RESET_GRACE < Midnight(year, month, day) + clock <= now.Instant()
    ensures year == now.year || year == now.year - 1
    ensures year == now.year ==> Dated(month, day, clock, now) == None
    ensures year == now.year - 1 ==>
              Dated(month, day, clock, now).Some? && Dated(month, day, clock, now).value > now.Instant() + 30 * DAY
  {
    GraceYear(month, day, clock, now, year);
    hide DaysBeforeYear, DaysBeforeMonth, Midnight, Leap;
    if year == now.year {
      DatedNone(month, day, clock, now);
    } else {
      LastYearsGrace(month, day, clock, now, year);
    }
  }

  lemma LastYearsGrace(month: int, day: int, clock: int, now: Moment, year: int)
    requires now.Valid() && 0 <= clock < DAY && ValidDate(year, month, day) && year == now.year - 1
    requires now.Instant() - RESET_GRACE < Midnight(year, month, day) + clock <= now.Instant()
    ensures Dated(month, day, clock, now).Some? && Dated(month, day, clock, now).value > now.Instant() + 30 * DAY
  {
    hide DaysBeforeYear, DaysBeforeMonth, DaysInMonth, Midnight, Leap;
    LastMonth(month, day, clock, now, year);
    WithinYear(now.year, month, day, clock);
  }

  lemma GraceYear(month: int, day: int, clock: int, now: Moment, year: int)
    requires now.Valid() && 0 <= clock < DAY && ValidDate(year, month, day)
    requires now.Instant() - RESET_GRACE < Midnight(year, month, day) + clock <= now.Instant()
    ensures year == now.year || year == now.year - 1
  {
    hide DaysBeforeYear, DaysBeforeMonth, DaysInMonth, Midnight, Leap;
    WithinYear(now.year, now.month, now.day, now.into);
    WithinYear(year, month, day, clock);
    if year > now.year {
      YearsApart(now.year, year);
      Days(DaysBeforeYear(now.year + 1), DaysBeforeYear(year));
    } else if year < now.year - 1 {
      YearLength(year + 1);
      YearsApart(year + 1, now.year);
      Days(DaysBeforeYear(year + 1) + 365, DaysBeforeYear(now.year));
    }
  }

  /** The last grace of the year before is in its last month, so the date is one of this year too. */
  lemma LastMonth(month: int, day: int, clock: int, now: Moment, year: int)
    requires now.Valid() && 0 <= clock < DAY && ValidDate(year, month, day) && year == now.year - 1
    requires now.Instant() - RESET_GRACE < Midnight(year, month, day) + clock <= now.Instant()
    ensures month == 12 && ValidDate(now.year, month, day)
    ensures now.Instant() < DaysBeforeYear(now.year) * DAY + RESET_GRACE
  {
    hide DaysBeforeYear, DaysBeforeMonth, Midnight, Leap;
    WithinYear(now.year, now.month, now.day, now.into);
    WithinYear(year, month, day, clock);
  }

  /* ---- the cooldown ---- */

  /** What the pattern found, as a reset: a time alone, or a date whose month was one, at a time that is one. */
  lemma ResetIs(p: Parsed, now: Moment)
    requires now.Valid()
    ensures RateLimitReset(p, now) ==
            if ClockTime(p).None? || p.date == Some(Date(None, DayOf(p))) then None
            else if p.date.None? then TimeOnly(ClockTime(p).value, now)
            else Dated(p.date.value.month.value, p.date.value.day, ClockTime(p).value, now)
  {
  }

  function DayOf(p: Parsed): int {
    if p.date.Some? then p.date.value.day else 0
  }

  /**
   * The cooldown, in microseconds: a minute where the text names no reset, else the very time it names,
   * but never less than a second nor more than a day from now.
   */
  lemma CooldownIs(p: Parsed, now: Moment)
    requires now.Valid()
    ensures var until, reset := CooldownUntil(now.Instant(), RateLimitReset(p, now)), RateLimitReset(p, now);
            && now.Instant() + 1_000_000 <= until <= now.Instant() + 86_400_000_000
            && (reset.None? ==> until == now.Instant() + 60_000_000)
            && (reset.Some? && now.Instant() + 1_000_000 <= reset.value <= now.Instant() + 86_400_000_000 ==>
              until == reset.value)
            && (reset.Some? && reset.value < now.Instant() + 1_000_000 ==> until == now.Instant() + 1_000_000)
            && (reset.Some? && reset.value > now.Instant() + 86_400_000_000 ==>
              until == now.Instant() + 86_400_000_000)
  {
  }

  /** A time alone is never more than a day ahead, so its cooldown ends at it, but for its last second. */
  lemma CooldownIsTheReset(p: Parsed, now: Moment)
    requires now.Valid() && p.date.None? && RateLimitReset(p, now).Some?
    ensures var reset := RateLimitReset(p, now).value;
            CooldownUntil(now.Instant(), Some(reset))
            == if reset < now.Instant() + 1_000_000 then now.Instant() + 1_000_000 else reset
  {
  }
}
