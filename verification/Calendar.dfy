/**
 The UTC calendar behind `setUTCMonth`, after section 21.4.1 of ECMA-262
 (Day, DayFromYear, MonthFromTime, DateFromTime, MakeDay) with months counted
 on one axis: month m of year y is number 12 * y + m.
 */
module Calendar {

  const MS_PER_DAY := 86_400_000

  predicate IsLeapYear(y: int) {
    y % 4 == 0 && (y % 100 != 0 || y % 400 == 0)
  }

  function DaysInYear(y: int): int {
    if IsLeapYear(y) then 366 else 365
  }

  /** The day number of 1 January of year y. */
  function DayFromYear(y: int): int {
    365 * (y - 1970) + (y - 1969) / 4 - (y - 1901) / 100 + (y - 1601) / 400
  }

  /** Days of year y before month m. */
  function DaysBefore(m: int, y: int): int
    requires 0 <= m < 12
  {
    var leap := if IsLeapYear(y) then 1 else 0;
    if m == 0 then 0 else if m == 1 then 31
    else leap + [59, 90, 120, 151, 181, 212, 243, 273, 304, 334][m - 2]
  }

  function MonthLength(month: int): (days: int)
    ensures 28 <= days <= 31
  {
    var m := month % 12;
    if m == 1 then (if IsLeapYear(month / 12) then 29 else 28)
    else if m == 3 || m == 5 || m == 8 || m == 10 then 30
    else 31
  }

  lemma FourthYear(y: int)
    ensures (y - 1968) / 4 - (y - 1969) / 4 == if y % 4 == 0 then 1 else 0
  {}

  lemma HundredthYear(y: int)
    ensures (y - 1900) / 100 - (y - 1901) / 100 == if y % 100 == 0 then 1 else 0
  {}

  lemma FourHundredthYear(y: int)
    ensures (y - 1600) / 400 - (y - 1601) / 400 == if y % 400 == 0 then 1 else 0
  {}

  lemma LeapRules(y: int)
    ensures y % 400 == 0 ==> y % 100 == 0
    ensures y % 100 == 0 ==> y % 4 == 0
  {}

  lemma YearLength(y: int)
    ensures DayFromYear(y + 1) - DayFromYear(y) == DaysInYear(y)
  {
    FourthYear(y);
    HundredthYear(y);
    FourHundredthYear(y);
    LeapRules(y);
  }

  const EPOCH_MONTH := 12 * 1970

  /** The day number of the first day of a month: months laid end to end from January 1970. */
  function MonthStart(month: int): int
    decreases if month < EPOCH_MONTH then EPOCH_MONTH - month else month - EPOCH_MONTH
  {
    if month == EPOCH_MONTH then 0
    else if month > EPOCH_MONTH then MonthStart(month - 1) + MonthLength(month - 1)
    else MonthStart(month + 1) - MonthLength(month)
  }

  /** The standard's closed formula. */
  function EcmaMonthStart(month: int): int {
    DayFromYear(month / 12) + DaysBefore(month % 12, month / 12)
  }

  lemma EcmaMonthsAreAdjacent(month: int)
    ensures EcmaMonthStart(month + 1) == EcmaMonthStart(month) + MonthLength(month)
  {
    var y, m := month / 12, month % 12;
    if m == 11 {
      assert (month + 1) / 12 == y + 1 && (month + 1) % 12 == 0;
      YearLength(y);
    } else {
      assert (month + 1) / 12 == y && (month + 1) % 12 == m + 1;
    }
  }

  lemma {:induction false} MonthStartIsUnique(start: int -> int, month: int)
    requires start(EPOCH_MONTH) == 0
    requires forall m :: start(m + 1) == start(m) + MonthLength(m)
    ensures MonthStart(month) == start(month)
    decreases if month < EPOCH_MONTH then EPOCH_MONTH - month else month - EPOCH_MONTH
  {
    if month > EPOCH_MONTH {
      MonthStartIsUnique(start, month - 1);
      assert start(month - 1 + 1) == start(month - 1) + MonthLength(month - 1);
    } else if month < EPOCH_MONTH {
      MonthStartIsUnique(start, month + 1);
      assert start(month + 1) == start(month) + MonthLength(month);
    }
  }

  function Ecma(): int -> int { month => EcmaMonthStart(month) }

  lemma EcmaLaysMonthsEndToEnd()
    ensures Ecma()(EPOCH_MONTH) == 0
    ensures forall m :: Ecma()(m + 1) == Ecma()(m) + MonthLength(m)
  {
    forall m
      ensures Ecma()(m + 1) == Ecma()(m) + MonthLength(m)
    {
      EcmaMonthsAreAdjacent(m);
    }
  }

  /** Laying months end to end gives exactly the standard's day numbers. */
  lemma MonthStartIsStandard(month: int)
    ensures MonthStart(month) == EcmaMonthStart(month)
  {
    EcmaLaysMonthsEndToEnd();
    MonthStartIsUnique(Ecma(), month);
  }

  lemma MonthsAreAdjacent(month: int)
    ensures MonthStart(month + 1) == MonthStart(month) + MonthLength(month)
  {}

  /** The total length of the n months before `month`. */
  function LengthOfMonthsBefore(month: int, n: nat): int {
    if n == 0 then 0 else LengthOfMonthsBefore(month, n - 1) + MonthLength(month - n)
  }

  lemma {:induction false} MonthsBack(month: int, n: nat)
    ensures MonthStart(month - n) == MonthStart(month) - LengthOfMonthsBefore(month, n)
    ensures 28 * n <= LengthOfMonthsBefore(month, n) <= 31 * n
  {
    if n > 0 {
      MonthsBack(month, n - 1);
      MonthsAreAdjacent(month - n);
    }
  }

  /** The month that holds a day: the last one to start on or before it. */
  function MonthOf(day: int): (month: int)
    ensures MonthStart(month) <= day < MonthStart(month + 1)
  {
    var low := if day < 0 then EPOCH_MONTH + day else EPOCH_MONTH;
    StartsBefore(day);
    LaterMonthOf(day, low)
  }

  lemma StartsBefore(day: int)
    ensures MonthStart(if day < 0 then EPOCH_MONTH + day else EPOCH_MONTH) <= day
  {
    assert MonthStart(EPOCH_MONTH) == 0;
    if day < 0 {
      MonthsBack(EPOCH_MONTH, -day);
    }
  }

  function LaterMonthOf(day: int, low: int): (month: int)
    requires MonthStart(low) <= day
    ensures MonthStart(month) <= day < MonthStart(month + 1)
    decreases day - MonthStart(low)
  {
    MonthsAreAdjacent(low);
    if day < MonthStart(low + 1) then low else LaterMonthOf(day, low + 1)
  }

  lemma {:induction false} MonthStartsIncrease(a: int, b: int)
    requires a <= b
    ensures MonthStart(b) - MonthStart(a) >= 28 * (b - a)
  {
    MonthsBack(b, b - a);
  }

  /** A day lies in one month only. */
  lemma MonthIsUnique(day: int, month: int)
    requires MonthStart(month) <= day < MonthStart(month + 1)
    ensures MonthOf(day) == month
  {
    var other := MonthOf(day);
    if other < month {
      MonthStartsIncrease(other + 1, month);
    } else if month < other {
      MonthStartsIncrease(month + 1, other);
    }
  }

  /** DateFromTime: 1 for the first of the month. */
  function DayOfMonth(day: int): (date: int)
    ensures 1 <= date <= MonthLength(MonthOf(day))
  {
    MonthsAreAdjacent(MonthOf(day));
    day - MonthStart(MonthOf(day)) + 1
  }

  /** MakeDay(year, month, date): out-of-range months carry into the year, out-of-range dates run on. */
  function MakeDay(year: int, month: int, date: int): int {
    var ym, mn := year + month / 12, month % 12;
    MonthStart(12 * ym + mn) + date - 1
  }

  function DayOf(ms: int): int { ms / MS_PER_DAY }

  function YearOf(ms: int): int { MonthOf(DayOf(ms)) / 12 }

  /** getUTCMonth: 0 for January. */
  function UtcMonth(ms: int): int { MonthOf(DayOf(ms)) % 12 }

  /** setUTCMonth: keep the year, the date and the time of day, and let MakeDay resolve the rest. */
  function SetUtcMonth(ms: int, month: int): int {
    MakeDay(YearOf(ms), month, DayOfMonth(DayOf(ms))) * MS_PER_DAY + ms % MS_PER_DAY
  }

  /** Moving back n months shifts the instant by exactly the n calendar months before the current one. */
  lemma {:induction false} MonthsBackShift(ms: int, n: nat)
    ensures SetUtcMonth(ms, UtcMonth(ms) - n) == ms - MS_PER_DAY * LengthOfMonthsBefore(MonthOf(DayOf(ms)), n)
  {
    var month := MonthOf(DayOf(ms));
    var m := month % 12 - n;
    assert 12 * (month / 12 + m / 12) + m % 12 == month - n;
    MonthsBack(month, n);
    assert ms == DayOf(ms) * MS_PER_DAY + ms % MS_PER_DAY;
  }
}
