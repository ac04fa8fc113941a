/** Retention: the purge cutoff lies a number of calendar months back. */
module PurgeExpiredData {
  import opened TrackedEvent
  import opened Calendar
  import opened TimeRange
  import opened EventRepository

  const DEFAULT_RETENTION_MONTHS := 25

  /** The cutoff in epoch seconds. */
  function Cutoff(nowMs: int, months: int): int {
    SetUtcMonth(nowMs, UtcMonth(nowMs) - months) / 1000
  }

  class PurgeExpiredData {
    const eventRetention: SqliteEventRepository
    const retentionMonths: int

    constructor (eventRetention: SqliteEventRepository, retentionMonths: int := DEFAULT_RETENTION_MONTHS)
      ensures this.eventRetention == eventRetention && this.retentionMonths == retentionMonths
    {
      this.eventRetention, this.retentionMonths := eventRetention, retentionMonths;
    }

    method Execute(nowMs: int) returns (changes: nat)
      modifies eventRetention.db`events
      ensures eventRetention.db.events == Retained(old(eventRetention.db.events), Cutoff(nowMs, retentionMonths))
      ensures forall e :: e in eventRetention.db.events
                     <==> e in old(eventRetention.db.events) && e.ts >= Cutoff(nowMs, retentionMonths)
      ensures changes == |old(eventRetention.db.events)| - |eventRetention.db.events|
    {
      var cutoff := nowMs;
      cutoff := SetUtcMonth(cutoff, UtcMonth(cutoff) - retentionMonths);
      changes := eventRetention.DeleteOlderThan(cutoff / 1000);
    }
  }

  function MonthNow(nowMs: int): int {
    MonthOf(DayOf(nowMs))
  }

  /** The cutoff is the current second less the total length of the n calendar months before this one. */
  lemma {:induction false} CutoffIsExact(nowMs: int, n: nat)
    ensures Cutoff(nowMs, n) == nowMs / 1000 - SECONDS_PER_DAY * LengthOfMonthsBefore(MonthNow(nowMs), n)
  {
    MonthsBackShift(nowMs, n);
  }

  /** Purging with n months of retention deletes nothing younger than 28n days and keeps nothing older than 31n. */
  lemma RetentionBounds(log: seq<Event>, nowMs: int, n: nat)
    ensures forall e | e in log && e.ts >= nowMs / 1000 - 28 * n * SECONDS_PER_DAY :: e in Retained(log, Cutoff(nowMs, n))
    ensures forall e | e in Retained(log, Cutoff(nowMs, n)) :: e in log && e.ts >= nowMs / 1000 - 31 * n * SECONDS_PER_DAY
  {
    CutoffIsExact(nowMs, n);
    MonthsBack(MonthNow(nowMs), n);
  }

  lemma {:induction false} LengthBeforeNextMonth(month: int, n: nat)
    ensures LengthOfMonthsBefore(month + 1, n) == LengthOfMonthsBefore(month, n) + MonthLength(month) - MonthLength(month - n)
  {
    if n > 0 {
      LengthBeforeNextMonth(month, n - 1);
    }
  }

  lemma NextMonthNow(nowMs: int)
    ensures var month := MonthNow(nowMs);
            MonthNow(nowMs + MS_PER_DAY) == if DayOf(nowMs) + 1 < MonthStart(month + 1) then month else month + 1
  {
    var month, day := MonthNow(nowMs), DayOf(nowMs);
    assert DayOf(nowMs + MS_PER_DAY) == day + 1;
    if day + 1 < MonthStart(month + 1) {
      MonthIsUnique(day + 1, month);
    } else {
      MonthsAreAdjacent(month + 1);
      MonthIsUnique(day + 1, month + 1);
    }
  }

  /** How far the cutoff moves in twenty-four hours. */
  lemma CutoffStep(nowMs: int, n: nat)
    ensures var month := MonthNow(nowMs);
            Cutoff(nowMs + MS_PER_DAY, n) - Cutoff(nowMs, n) ==
              if DayOf(nowMs) + 1 < MonthStart(month + 1) then SECONDS_PER_DAY
              else SECONDS_PER_DAY * (1 + MonthLength(month - n) - MonthLength(month))
  {
    CutoffIsExact(nowMs, n);
    CutoffIsExact(nowMs + MS_PER_DAY, n);
    NextMonthNow(nowMs);
    LengthBeforeNextMonth(MonthNow(nowMs), n);
    assert (nowMs + MS_PER_DAY) / 1000 == nowMs / 1000 + SECONDS_PER_DAY;
  }

  /** Twenty-four hours later the cutoff lies earlier exactly when a month ends that is two or more days longer than the one n months before. */
  lemma CutoffMovesBackIff(nowMs: int, n: nat)
    ensures Cutoff(nowMs + MS_PER_DAY, n) < Cutoff(nowMs, n) <==>
            DayOf(nowMs) + 1 == MonthStart(MonthNow(nowMs) + 1) && MonthLength(MonthNow(nowMs) - n) + 1 < MonthLength(MonthNow(nowMs))
  {
    CutoffStep(nowMs, n);
  }

  const MARCH_31_2026_MS := 1_774_915_200_000

  lemma MovesBackAtMonthEnd(nowMs: int, n: nat, month: int)
    requires DayOf(nowMs) + 1 == MonthStart(month + 1)
    requires MonthLength(month - n) + 1 < MonthLength(month)
    ensures Cutoff(nowMs + MS_PER_DAY, n) < Cutoff(nowMs, n)
  {
    MonthsAreAdjacent(month);
    MonthIsUnique(DayOf(nowMs), month);
    CutoffMovesBackIff(nowMs, n);
  }

  lemma MovesBackByFormula(nowMs: int, n: nat, month: int)
    requires DayOf(nowMs) + 1 == EcmaMonthStart(month + 1)
    requires MonthLength(month - n) + 1 < MonthLength(month)
    ensures Cutoff(nowMs + MS_PER_DAY, n) < Cutoff(nowMs, n)
  {
    MonthStartIsStandard(month + 1);
    MovesBackAtMonthEnd(nowMs, n, month);
  }

  /** With the default 25 months the cutoff on 1 April 2026 lies before the cutoff on 31 March 2026. */
  lemma CutoffIsNotMonotone(nowMs: int, n: nat)
    requires nowMs == MARCH_31_2026_MS && n == DEFAULT_RETENTION_MONTHS
    ensures Cutoff(nowMs + MS_PER_DAY, n) < Cutoff(nowMs, n)
  {
    MovesBackByFormula(nowMs, n, 12 * 2026 + 2);
  }

  // ---- when the cutoff never moves back ----

  ghost predicate CutoffIsMonotone(n: nat) {
    forall a, b {:trigger Cutoff(a, n), Cutoff(b, n)} | a <= b :: Cutoff(a, n) <= Cutoff(b, n)
  }

  predicate NotLonger(month: int, n: nat) {
    MonthLength(month) <= MonthLength(month - n)
  }

  /** No month is longer than the one n months before it. */
  ghost predicate NeverLonger(n: nat) {
    forall month :: NotLonger(month, n)
  }

  lemma {:induction false} LengthsBeforeShrink(p: int, q: int, n: nat)
    requires p <= q && NeverLonger(n)
    ensures LengthOfMonthsBefore(q, n) <= LengthOfMonthsBefore(p, n)
    decreases q - p
  {
    if p < q {
      LengthsBeforeShrink(p, q - 1, n);
      LengthBeforeNextMonth(q - 1, n);
      assert NotLonger(q - 1, n);
    }
  }

  lemma MonthsFollowTime(a: int, b: int)
    requires a <= b
    ensures MonthNow(a) <= MonthNow(b)
  {
    if MonthNow(b) < MonthNow(a) {
      MonthStartsIncrease(MonthNow(b) + 1, MonthNow(a));
    }
  }

  lemma {:induction false} NeverLongerIsMonotone(a: int, b: int, n: nat)
    requires a <= b && NeverLonger(n)
    ensures Cutoff(a, n) <= Cutoff(b, n)
  {
    MonthsFollowTime(a, b);
    LengthsBeforeShrink(MonthNow(a), MonthNow(b), n);
    CutoffIsExact(a, n);
    CutoffIsExact(b, n);
  }

  /** The last whole second of a month, in milliseconds. */
  function LastSecondOf(month: int): int {
    MonthStart(month + 1) * MS_PER_DAY - 1000
  }

  lemma AroundMidnight(month: int)
    ensures MonthNow(LastSecondOf(month)) == month && MonthNow(LastSecondOf(month) + 1000) == month + 1
  {
    MonthsAreAdjacent(month);
    MonthsAreAdjacent(month + 1);
    assert DayOf(LastSecondOf(month)) == MonthStart(month + 1) - 1;
    assert DayOf(LastSecondOf(month) + 1000) == MonthStart(month + 1);
    MonthIsUnique(MonthStart(month + 1) - 1, month);
    MonthIsUnique(MonthStart(month + 1), month + 1);
  }

  /** Over the midnight that ends a month, the cutoff moves by a second and by the difference of the two months' lengths. */
  lemma MidnightStep(month: int, n: nat)
    ensures Cutoff(LastSecondOf(month) + 1000, n) - Cutoff(LastSecondOf(month), n)
         == 1 + SECONDS_PER_DAY * (MonthLength(month - n) - MonthLength(month))
  {
    var now := LastSecondOf(month);
    AroundMidnight(month);
    CutoffIsExact(now, n);
    CutoffIsExact(now + 1000, n);
    LengthBeforeNextMonth(month, n);
    assert (now + 1000) / 1000 == now / 1000 + 1;
  }

  /** The cutoff falls at midnight exactly when the month that ends is longer than the one n months before it. */
  lemma CutoffFallsAtMidnightIff(month: int, n: nat)
    ensures Cutoff(LastSecondOf(month) + 1000, n) < Cutoff(LastSecondOf(month), n) <==> MonthLength(month - n) < MonthLength(month)
  {
    MidnightStep(month, n);
  }

  lemma MonotoneIsNeverLonger(month: int, n: nat)
    requires CutoffIsMonotone(n)
    ensures NotLonger(month, n)
  {
    CutoffFallsAtMidnightIff(month, n);
    assert Cutoff(LastSecondOf(month), n) <= Cutoff(LastSecondOf(month) + 1000, n);
  }

  /** February of year y, on the month axis. */
  function February(y: int): int {
    12 * y + 1
  }

  lemma FebruaryLength(y: int)
    ensures MonthLength(February(y)) == if IsLeapYear(y) then 29 else 28
  {
    assert February(y) / 12 == y && February(y) % 12 == 1;
  }

  lemma OtherMonthsAreLonger(month: int)
    requires month % 12 != 1
    ensures MonthLength(month) >= 30
  {}

  lemma Multiples(q: int)
    ensures (4 * q) % 4 == 0 && (100 * q) % 100 == 0 && (400 * q) % 400 == 0 && (4800 * q) % 4800 == 0
  {}

  lemma LeapBy4(k: int)
    requires k % 4 != 0
    ensures IsLeapYear(2000) && !IsLeapYear(2000 - k)
  {
    if (2000 - k) % 4 == 0 {
      var q := (2000 - k) / 4;
      assert k == 4 * (500 - q);
      Multiples(500 - q);
    }
  }

  lemma LeapBy100(k: int)
    requires k % 4 == 0 && k % 100 != 0
    ensures IsLeapYear(k + 100) && !IsLeapYear(100)
  {
    assert (k + 100) % 4 == 0;
    assert (k + 100) % 100 != 0;
  }

  lemma LeapBy400(k: int)
    requires k % 100 == 0 && k % 400 != 0
    ensures IsLeapYear(2000) && !IsLeapYear(2000 - k)
  {
    if (2000 - k) % 400 == 0 {
      var q := (2000 - k) / 400;
      assert k == 400 * (5 - q);
      Multiples(5 - q);
    }
    var q := k / 100;
    assert 2000 - k == 100 * (20 - q);
    Multiples(20 - q);
  }

  /** A leap year that lies k years after a common one; there is none only when k is a multiple of 400. */
  lemma LeapAfterCommon(k: int) returns (y: int)
    requires k % 400 != 0
    ensures IsLeapYear(y) && !IsLeapYear(y - k)
  {
    if k % 4 != 0 {
      LeapBy4(k);
      y := 2000;
    } else if k % 100 != 0 {
      LeapBy100(k);
      y := k + 100;
    } else {
      LeapBy400(k);
      y := 2000;
    }
  }

  lemma YearsOfMonths(n: nat, k: int)
    requires n % 4800 != 0 && n % 12 == 0 && k == n / 12
    ensures n == 12 * k && k % 400 != 0
  {
    if k % 400 == 0 {
      var q := k / 400;
      assert n == 4800 * q;
      Multiples(q);
    }
  }

  /** Some month is longer than the one n months before it, unless n is a multiple of 400 years. */
  lemma SomeMonthIsLonger(n: nat) returns (month: int)
    requires n % 4800 != 0
    ensures MonthLength(month - n) < MonthLength(month)
  {
    if n % 12 != 0 {
      month := February(0) + n;
      assert (n + 1) % 12 != 1;
      FebruaryLength(0);
      OtherMonthsAreLonger(month);
    } else {
      var k := n / 12;
      YearsOfMonths(n, k);
      var y := LeapAfterCommon(k);
      month := February(y);
      assert month - n == February(y - k);
      FebruaryLength(y);
      FebruaryLength(y - k);
    }
  }

  lemma CalendarRepeats(month: int, n: nat)
    requires n % 4800 == 0
    ensures MonthLength(month) == MonthLength(month - n)
  {
    var k := n / 4800;
    assert n == 12 * (400 * k);
    assert (month - n) % 12 == month % 12 && (month - n) / 12 == month / 12 - 400 * k;
    SameLeapRule(month / 12, k);
  }

  lemma OneCycle(y: int)
    ensures IsLeapYear(y) == IsLeapYear(y - 400)
  {
    assert (y - 400) % 4 == y % 4;
    assert (y - 400) % 100 == y % 100;
    assert (y - 400) % 400 == y % 400;
  }

  lemma {:induction false} SameLeapRule(y: int, k: nat)
    ensures IsLeapYear(y) == IsLeapYear(y - 400 * k)
  {
    if k > 0 {
      SameLeapRule(y, k - 1);
      OneCycle(y - 400 * (k - 1));
    }
  }

  /**
   As the clock moves forward the cutoff never moves back exactly when no month is
   longer than the one n months before it, which is to say when n is a multiple
   of 400 years: for every other retention, some purge reaches back behind an
   earlier one's cutoff.
   */
  lemma CutoffIsMonotoneIff(n: nat)
    ensures CutoffIsMonotone(n) <==> NeverLonger(n)
    ensures NeverLonger(n) <==> n % 4800 == 0
  {
    if CutoffIsMonotone(n) {
      forall month
        ensures NotLonger(month, n)
      {
        MonotoneIsNeverLonger(month, n);
      }
    }
    if NeverLonger(n) {
      forall a, b | a <= b
        ensures Cutoff(a, n) <= Cutoff(b, n)
      {
        NeverLongerIsMonotone(a, b, n);
      }
    }
    if n % 4800 == 0 {
      forall month
        ensures NotLonger(month, n)
      {
        CalendarRepeats(month, n);
      }
    } else {
      var month := SomeMonthIsLonger(n);
      assert !NotLonger(month, n);
    }
  }
}
