/** UTC day-aligned reporting ranges. */
module TimeRange {
  import opened Wrappers

  const SECONDS_PER_DAY := 86_400

  datatype Range = Range(startTs: int, endTs: int)

  function DayStart(ts: int): int {
    ts / SECONDS_PER_DAY * SECONDS_PER_DAY
  }

  predicate IsDay(ts: int) {
    ts % SECONDS_PER_DAY == 0
  }

  /** The last multiple of 86 400 seconds not after the instant. */
  lemma DayStartIs(ts: int)
    ensures DayStart(ts) % 86_400 == 0 && DayStart(ts) <= ts < DayStart(ts) + 86_400 && IsDay(DayStart(ts))
    ensures IsDay(ts) <==> ts % 86_400 == 0
  {}

  /** Whole days only: what every range made here satisfies. */
  predicate Aligned(range: Range) {
    IsDay(range.startTs) && IsDay(range.endTs) && range.startTs <= range.endTs
  }

  function CreateTimeRange(startTs: int, endTs: int): (r: Result<Range, string>)
    ensures r.Err? <==> endTs <= startTs
    ensures r.Ok? ==> Aligned(r.value) && r.value.startTs < r.value.endTs
    // The range is the least aligned one that covers [startTs, endTs).
    ensures r.Ok? ==> forall t | IsDay(t) :: (t <= startTs <==> t <= r.value.startTs)
    ensures r.Ok? ==> forall t | IsDay(t) :: (endTs <= t <==> r.value.endTs <= t)
  {
    if endTs <= startTs then Err("TimeRange: end must be after start")
    else Ok(Range(DayStart(startTs), DayStart(endTs - 1) + SECONDS_PER_DAY))
  }

  /** How many whole days a range spans. */
  function DayCount(range: Range): int {
    (range.endTs - range.startTs) / SECONDS_PER_DAY
  }

  method DaysInRange(range: Range) returns (days: seq<int>)
    ensures forall i | 0 <= i < |days| :: days[i] == range.startTs + i * SECONDS_PER_DAY < range.endTs
    ensures range.startTs + |days| * SECONDS_PER_DAY >= range.endTs
    ensures Aligned(range) ==> |days| == DayCount(range)
  {
    days := [];
    var day := range.startTs;
    while day < range.endTs
      invariant day == range.startTs + |days| * SECONDS_PER_DAY
      invariant days != [] ==> day - SECONDS_PER_DAY < range.endTs
      invariant forall i | 0 <= i < |days| :: days[i] == range.startTs + i * SECONDS_PER_DAY < range.endTs
    {
      days := days + [day];
      day := day + SECONDS_PER_DAY;
    }
  }
}
