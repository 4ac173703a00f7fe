/**
 * Python's naive `datetime.datetime` values (proleptic Gregorian calendar,
 * years 1 to 9999, microsecond resolution) and what the program does with
 * them: subtract two of them and compare the difference with a configured
 * interval.  A difference is kept exact, in whole microseconds.
 */
module DateTimes {

  datatype Fields = Fields(year: int, month: int, day: int,
                           hour: int, minute: int, second: int, microsecond: int)

  predicate IsLeapYear(y: int) {
    y % 4 == 0 && (y % 100 != 0 || y % 400 == 0)
  }

  function DaysInMonth(y: int, m: int): (n: int)
    requires 1 <= m <= 12
    ensures 28 <= n <= 31
  {
    if m == 2 then (if IsLeapYear(y) then 29 else 28)
    else if m == 4 || m == 6 || m == 9 || m == 11 then 30
    else 31
  }

  /** The range checks `datetime.datetime(...)` performs on its arguments. */
  predicate ValidFields(f: Fields) {
    && 1 <= f.year <= 9999
    && 1 <= f.month <= 12
    && 1 <= f.day <= DaysInMonth(f.year, f.month)
    && 0 <= f.hour < 24
    && 0 <= f.minute < 60
    && 0 <= f.second < 60
    && 0 <= f.microsecond < 1_000_000
  }

  type DateTime = f: Fields | ValidFields(f) witness Fields(1970, 1, 1, 0, 0, 0, 0)

  /** `datetime.utcfromtimestamp(0)`: midnight, 1 January 1970. */
  const Epoch: DateTime := Fields(1970, 1, 1, 0, 0, 0, 0)

  /** Days from 0000-03-01 to the first of March of year `y`: a year is
      counted from March so that the leap day falls at its end, and 400
      such years (an era) have 146097 days. */
  function MarchYearStart(y: int): int
    requires y >= 0
  {
    var era := y / 400;
    var yoe := y - era * 400;
    era * 146097 + yoe * 365 + yoe / 4 - yoe / 100
  }

  /** Days from the first of March to the first of month `m` in the same March-based year. */
  function MonthOffset(m: int): int
    requires 1 <= m <= 12
  {
    (153 * (if m > 2 then m - 3 else m + 9) + 2) / 5
  }

  /** Number of days from 1970-01-01 to the date y-m-d (y >= 1). */
  function DaysFromCivil(y: int, m: int, d: int): int
    requires 1 <= y && 1 <= m <= 12
  {
    MarchYearStart(if m <= 2 then y - 1 else y) + MonthOffset(m) + d - 1 - 719468
  }

  /** Microseconds from the epoch to `t` (negative before 1970). */
  function EpochMicros(t: DateTime): int {
    var days := DaysFromCivil(t.year, t.month, t.day);
    (((days * 24 + t.hour) * 60 + t.minute) * 60 + t.second) * 1_000_000 + t.microsecond
  }

  /** `later - earlier`, in microseconds. */
  function ElapsedMicros(earlier: DateTime, later: DateTime): int {
    EpochMicros(later) - EpochMicros(earlier)
  }

  /** `datetime.max`, the last representable instant. */
  const Last: DateTime := Fields(9999, 12, 31, 23, 59, 59, 999_999)

  /** The instant one microsecond after `t`, carried through the calendar. */
  function Next(t: DateTime): DateTime
    requires t != Last
  {
    if t.microsecond < 999_999 then t.(microsecond := t.microsecond + 1)
    else if t.second < 59 then t.(second := t.second + 1, microsecond := 0)
    else if t.minute < 59 then t.(minute := t.minute + 1, second := 0, microsecond := 0)
    else if t.hour < 23 then t.(hour := t.hour + 1, minute := 0, second := 0, microsecond := 0)
    else if t.day < DaysInMonth(t.year, t.month) then Fields(t.year, t.month, t.day + 1, 0, 0, 0, 0)
    else if t.month < 12 then Fields(t.year, t.month + 1, 1, 0, 0, 0, 0)
    else Fields(t.year + 1, 1, 1, 0, 0, 0, 0)
  }

  /** `datetime.weekday()`: 0 is Monday, 6 is Sunday (1970-01-01 was a Thursday). */
  function Weekday(t: DateTime): (w: int)
    ensures 0 <= w < 7
  {
    (DaysFromCivil(t.year, t.month, t.day) + 3) % 7
  }

  /**
   * The gate both the capture loop and the mailer apply:
   * `(now - last).total_seconds() >= interval`, with the interval held in
   * microseconds.
   */
  predicate IntervalElapsed(last: DateTime, now: DateTime, intervalMicros: int) {
    ElapsedMicros(last, now) >= intervalMicros
  }

  /** `times` are the successive instants at which a gated action fired,
      starting from the reference instant `last`: each one passed the gate
      against the one before it. */
  predicate Spaced(last: DateTime, times: seq<DateTime>, intervalMicros: int)
    decreases |times|
  {
    times == [] || (IntervalElapsed(last, times[0], intervalMicros) && Spaced(times[0], times[1..], intervalMicros))
  }

  lemma EpochIsZero()
    ensures EpochMicros(Epoch) == 0
  {
    assert 1969 / 400 == 4 && 369 / 4 == 92 && 369 / 100 == 3;
    assert MarchYearStart(1969) == 719162;
    assert MonthOffset(1) == 306;
    assert DaysFromCivil(1970, 1, 1) == 0;
  }

  /** `EpochMicros` counts microseconds: the calendar successor of an
      instant lies exactly one microsecond later.  With `EpochIsZero` this
      makes `ElapsedMicros` the exact length of a `timedelta`. */
  lemma NextIsOneMicrosecondLater(t: DateTime)
    requires t != Last
    ensures EpochMicros(Next(t)) == EpochMicros(t) + 1
  {
    if t.microsecond == 999_999 && t.second == 59 && t.minute == 59 && t.hour == 23 {
      NextAtMidnight(t);
    } else {
      NextWithinDay(t);
    }
  }

  lemma NextWithinDay(t: DateTime)
    requires !(t.microsecond == 999_999 && t.second == 59 && t.minute == 59 && t.hour == 23)
    requires t != Last
    ensures EpochMicros(Next(t)) == EpochMicros(t) + 1
  {
    var n := Next(t);
    assert n.year == t.year && n.month == t.month && n.day == t.day;
    MicrosExpanded(t);
    MicrosExpanded(n);
  }

  lemma NextAtMidnight(t: DateTime)
    requires t.microsecond == 999_999 && t.second == 59 && t.minute == 59 && t.hour == 23
    requires t != Last
    ensures EpochMicros(Next(t)) == EpochMicros(t) + 1
  {
    var n := Next(t);
    assert n.hour == 0 && n.minute == 0 && n.second == 0 && n.microsecond == 0;
    assert DaysFromCivil(n.year, n.month, n.day) == DaysFromCivil(t.year, t.month, t.day) + 1 by {
      if t.day < DaysInMonth(t.year, t.month) {
      } else if t.month < 12 {
        MonthRollover(t.year, t.month);
      } else {
        YearRollover(t.year);
      }
    }
    MicrosExpanded(t);
    MicrosExpanded(n);
  }

  /** The epoch offset as a sum of each field's weight. */
  lemma MicrosExpanded(t: DateTime)
    ensures EpochMicros(t) == DaysFromCivil(t.year, t.month, t.day) * 86_400_000_000
      + t.hour * 3_600_000_000 + t.minute * 60_000_000 + t.second * 1_000_000 + t.microsecond
  {
  }

  /** The last day of a month is followed by the first of the next. */
  lemma MonthRollover(y: int, m: int)
    requires 1 <= y && 1 <= m < 12
    ensures DaysFromCivil(y, m + 1, 1) == DaysFromCivil(y, m, DaysInMonth(y, m)) + 1
  {
    if m == 2 {
      MarchYearLength(y);
    }
  }

  /** 31 December is followed by 1 January of the next year. */
  lemma YearRollover(y: int)
    requires 1 <= y
    ensures DaysFromCivil(y + 1, 1, 1) == DaysFromCivil(y, 12, 31) + 1
  {
  }

  /** The March-based year `y` has 366 days exactly when February of
      calendar year `y` has a leap day. */
  lemma MarchYearLength(y: int)
    requires y >= 1
    ensures MarchYearStart(y) - MarchYearStart(y - 1) == if IsLeapYear(y) then 366 else 365
  {
    var era := y / 400;
    var yoe := y - era * 400;
    EraResidues(y, era, yoe);
    if yoe == 0 {
      assert (y - 1) / 400 == era - 1;
      assert MarchYearStart(y - 1) == (era - 1) * 146097 + 399 * 365 + 99 - 3;
    } else {
      assert (y - 1) / 400 == era;
      QuarterStep(yoe);
      CenturyStep(yoe);
      assert MarchYearStart(y - 1) == era * 146097 + (yoe - 1) * 365 + (yoe - 1) / 4 - (yoe - 1) / 100;
    }
  }

  lemma QuarterStep(a: int)
    requires a >= 1
    ensures a / 4 - (a - 1) / 4 == if a % 4 == 0 then 1 else 0
  {
  }

  lemma CenturyStep(a: int)
    requires a >= 1
    ensures a / 100 - (a - 1) / 100 == if a % 100 == 0 then 1 else 0
  {
  }

  /** A year and its offset within its era agree modulo 4, 100 and 400. */
  lemma EraResidues(y: int, era: int, yoe: int)
    requires y == era * 400 + yoe
    ensures y % 4 == yoe % 4 && y % 100 == yoe % 100 && y % 400 == yoe % 400
  {
    ShiftResidue4(yoe, era * 100);
    ShiftResidue100(yoe, era * 4);
    ShiftResidue400(yoe, era);
  }

  lemma ShiftResidue4(a: int, k: int)
    ensures (4 * k + a) % 4 == a % 4
  {
    assert 4 * k + a == 4 * (k + a / 4) + a % 4;
  }

  lemma ShiftResidue100(a: int, k: int)
    ensures (100 * k + a) % 100 == a % 100
  {
    assert 100 * k + a == 100 * (k + a / 100) + a % 100;
  }

  lemma ShiftResidue400(a: int, k: int)
    ensures (400 * k + a) % 400 == a % 400
  {
    assert 400 * k + a == 400 * (k + a / 400) + a % 400;
  }

  /** Time elapsed since the epoch is the epoch offset itself. */
  lemma ElapsedSinceEpoch(t: DateTime)
    ensures ElapsedMicros(Epoch, t) == EpochMicros(t)
  {
    EpochIsZero();
    ElapsedFromZero(Epoch, t);
  }

  lemma ElapsedFromZero(origin: DateTime, t: DateTime)
    requires EpochMicros(origin) == 0
    ensures ElapsedMicros(origin, t) == EpochMicros(t)
  {
  }

  /** The gate's reference instant after firing at `times`, starting from `last`. */
  function Latest(last: DateTime, times: seq<DateTime>): DateTime {
    if times == [] then last else times[|times| - 1]
  }

  /** Firing at `t` and then at `times` leaves the reference instant that
      firing at `times` alone would leave when starting from `t`. */
  lemma LatestCons(last: DateTime, t: DateTime, times: seq<DateTime>)
    ensures Latest(last, [t] + times) == Latest(t, times)
  {
    if times != [] {
      assert ([t] + times)[|times|] == times[|times| - 1];
    }
  }

  /** Prepending an instant that passed the gate keeps a sequence spaced. */
  lemma SpacedCons(last: DateTime, t: DateTime, times: seq<DateTime>, intervalMicros: int)
    requires IntervalElapsed(last, t, intervalMicros) && Spaced(t, times, intervalMicros)
    ensures Spaced(last, [t] + times, intervalMicros)
  {
    assert ([t] + times)[0] == t && ([t] + times)[1..] == times;
  }

  /** With a positive interval, the instants of a spaced sequence strictly
      increase and all lie after the reference instant: no two coincide. */
  lemma {:induction false} SpacedStrictlyIncreasing(last: DateTime, times: seq<DateTime>, intervalMicros: int)
    requires intervalMicros > 0
    requires Spaced(last, times, intervalMicros)
    ensures forall i :: 0 <= i < |times| ==> EpochMicros(last) < EpochMicros(times[i])
    ensures forall i, j :: 0 <= i < j < |times| ==> EpochMicros(times[i]) < EpochMicros(times[j])
    decreases |times|
  {
    if times != [] {
      SpacedStrictlyIncreasing(times[0], times[1..], intervalMicros);
      forall i | 1 <= i < |times|
        ensures EpochMicros(times[0]) < EpochMicros(times[i])
      {
        assert times[i] == times[1..][i - 1];
      }
      forall i, j | 0 <= i < j < |times|
        ensures EpochMicros(times[i]) < EpochMicros(times[j])
      {
        if i > 0 {
          assert times[i] == times[1..][i - 1] && times[j] == times[1..][j - 1];
        }
      }
    }
  }
}
