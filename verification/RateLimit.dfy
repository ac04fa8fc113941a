/**
 The token bucket limiter with eviction. Tokens are counted in sixty-thousandths,
 so that `refillPerMinute` tokens a minute are `refillPerMinute` units a
 millisecond; the clock is in whole milliseconds.
 */
module RateLimit {
  import opened Counting

  const UNIT := 60_000

  datatype Options = Options(capacity: nat, refillPerMinute: nat, ttlMs: nat)

  const DEFAULT_OPTIONS := Options(60, 60, 10 * 60 * 1000)
  const INGEST_OPTIONS := DEFAULT_OPTIONS.(capacity := 60, refillPerMinute := 60)
  const LOGIN_OPTIONS := DEFAULT_OPTIONS.(capacity := 5, refillPerMinute := 5)

  datatype Bucket = Bucket(tokens: int, lastRefillMs: int, lastAccessMs: int)

  type Buckets = map<string, Bucket>

  function Min(a: int, b: int): int {
    if a < b then a else b
  }

  function Full(o: Options): int {
    o.capacity * UNIT
  }

  /** The bucket's tokens after refilling for the time since its last refill. */
  function Refilled(o: Options, b: Bucket, now: int): int {
    Min(Full(o), b.tokens + (now - b.lastRefillMs) * o.refillPerMinute)
  }

  /** The bucket a key has, or a full one made on the spot. */
  function BucketOf(o: Options, buckets: Buckets, key: string, now: int): Bucket {
    if key in buckets then buckets[key] else Bucket(Full(o), now, now)
  }

  function Swept(o: Options, buckets: Buckets, now: int): Buckets {
    map key | key in buckets && now - buckets[key].lastAccessMs <= o.ttlMs :: buckets[key]
  }

  predicate Allows(o: Options, b: Bucket, now: int) {
    Refilled(o, b, now) >= UNIT
  }

  function Spent(o: Options, b: Bucket, now: int): Bucket {
    var tokens := Refilled(o, b, now);
    Bucket(if tokens >= UNIT then tokens - UNIT else tokens, now, now)
  }

  datatype Call = Call(key: string, now: int)

  /** One call, with or without sweeping first. */
  function After(o: Options, sweeps: bool, buckets: Buckets, c: Call): Buckets {
    var kept := if sweeps then Swept(o, buckets, c.now) else buckets;
    kept[c.key := Spent(o, BucketOf(o, kept, c.key, c.now), c.now)]
  }

  predicate AnswerTo(o: Options, sweeps: bool, buckets: Buckets, c: Call) {
    var kept := if sweeps then Swept(o, buckets, c.now) else buckets;
    Allows(o, BucketOf(o, kept, c.key, c.now), c.now)
  }

  class TokenBucketRateLimiter {
    const options: Options
    const hash: string -> string
    var buckets: Buckets

    constructor (options: Options, hash: string -> string)
      ensures this.options == options && this.hash == hash && buckets == map[]
    {
      this.options, this.hash := options, hash;
      buckets := map[];
    }

    function KeyFor(site: string, ip: string): string {
      site + ":" + hash(ip)
    }

    method Consume(site: string, ip: string, now: int) returns (allowed: bool)
      modifies this
      ensures allowed == AnswerTo(options, true, old(buckets), Call(KeyFor(site, ip), now))
      ensures buckets == After(options, true, old(buckets), Call(KeyFor(site, ip), now))
    {
      Sweep(now);
      var key := KeyFor(site, ip);
      var bucket := if key in buckets then buckets[key] else Bucket(options.capacity * UNIT, now, now);
      var elapsedMs := now - bucket.lastRefillMs;
      bucket := bucket.(tokens := Min(options.capacity * UNIT, bucket.tokens + elapsedMs * options.refillPerMinute));
      bucket := bucket.(lastRefillMs := now, lastAccessMs := now);
      allowed := false;
      if bucket.tokens >= UNIT {
        bucket := bucket.(tokens := bucket.tokens - UNIT);
        allowed := true;
      }
      buckets := buckets[key := bucket];
    }

    method Sweep(now: int)
      modifies this
      ensures buckets == Swept(options, old(buckets), now)
    {
      var pending := buckets.Keys;
      while pending != {}
        invariant pending <= old(buckets).Keys
        invariant buckets.Keys == pending + Swept(options, old(buckets), now).Keys
        invariant forall k | k in buckets :: k in old(buckets) && buckets[k] == old(buckets)[k]
      {
        var key :| key in pending;
        if now - buckets[key].lastAccessMs > options.ttlMs {
          buckets := buckets - {key};
        }
        pending := pending - {key};
      }
    }
  }

  /** Two callers share a bucket only on one site and with one hash, which as hexadecimal digits holds no colon. */
  lemma KeysAreSeparate(limiter: TokenBucketRateLimiter, site: string, ip: string, otherSite: string, otherIp: string)
    requires ':' !in limiter.hash(ip) && ':' !in limiter.hash(otherIp)
    ensures limiter.KeyFor(site, ip) == limiter.KeyFor(otherSite, otherIp)
       <==> site == otherSite && limiter.hash(ip) == limiter.hash(otherIp)
  {
    if limiter.KeyFor(site, ip) == limiter.KeyFor(otherSite, otherIp) {
      ColonEndsSite(site, limiter.hash(ip), otherSite, limiter.hash(otherIp));
    }
  }

  lemma ColonsAlign(site: string, hash: string, otherSite: string, otherHash: string)
    requires ':' !in hash && site + ":" + hash == otherSite + ":" + otherHash
    ensures |otherSite| <= |site|
  {
    assert (otherSite + ":" + otherHash)[|otherSite|] == ':';
  }

  lemma ColonEndsSite(site: string, hash: string, otherSite: string, otherHash: string)
    requires ':' !in hash && ':' !in otherHash && site + ":" + hash == otherSite + ":" + otherHash
    ensures site == otherSite && hash == otherHash
  {
    var key, other := site + ":" + hash, otherSite + ":" + otherHash;
    ColonsAlign(site, hash, otherSite, otherHash);
    ColonsAlign(otherSite, otherHash, site, hash);
    assert key[..|site|] == site && other[..|otherSite|] == otherSite;
    assert key[|site| + 1..] == hash && other[|otherSite| + 1..] == otherHash;
  }

  // ---- runs ----

  /** The buckets after a sequence of calls. */
  function RunOf(o: Options, sweeps: bool, calls: seq<Call>): Buckets {
    if calls == [] then map[]
    else After(o, sweeps, RunOf(o, sweeps, calls[..|calls| - 1]), calls[|calls| - 1])
  }

  /** The answer to the last call of a sequence. */
  predicate LastAnswer(o: Options, sweeps: bool, calls: seq<Call>)
    requires calls != []
  {
    AnswerTo(o, sweeps, RunOf(o, sweeps, calls[..|calls| - 1]), calls[|calls| - 1])
  }

  ghost predicate MonotoneClock(calls: seq<Call>) {
    forall i, j | 0 <= i < j < |calls| :: calls[i].now <= calls[j].now
  }

  // ---- eviction is unobservable ----

  /** A bucket is kept longer than it takes to fill up. */
  predicate RefillsBeforeEviction(o: Options) {
    o.capacity == 0 || (o.ttlMs + 1) * o.refillPerMinute >= Full(o)
  }

  /** Both shipped limiters satisfy the condition: 60 and 5 requests a minute, kept for ten minutes. */
  lemma ShippedLimitersRefillInTime()
    ensures INGEST_OPTIONS == Options(60, 60, 600_000) && LOGIN_OPTIONS == Options(5, 5, 600_000) && UNIT == 60_000
    ensures RefillsBeforeEviction(INGEST_OPTIONS) && RefillsBeforeEviction(LOGIN_OPTIONS)
    ensures RefillsBeforeEviction(DEFAULT_OPTIONS)
  {}

  ghost predicate Sane(o: Options, buckets: Buckets, now: int) {
    forall k | k in buckets ::
      0 <= buckets[k].tokens <= Full(o) && buckets[k].lastRefillMs == buckets[k].lastAccessMs <= now
  }

  /** The sweeping map is the other one with some buckets that have since filled up taken out. */
  ghost predicate Simulates(o: Options, swept: Buckets, whole: Buckets, now: int) {
    && Sane(o, whole, now)
    && (forall k | k in swept :: k in whole && swept[k] == whole[k])
    && (forall k | k in whole && k !in swept :: whole[k].lastAccessMs + o.ttlMs < now)
  }

  lemma MoreTimeMoreTokens(rate: nat, less: int, more: int)
    requires less <= more
    ensures less * rate <= more * rate
  {}

  lemma LongIdleIsFull(o: Options, b: Bucket, now: int)
    requires o.capacity > 0 && RefillsBeforeEviction(o) && 0 <= b.tokens && b.lastRefillMs + o.ttlMs < now
    ensures Refilled(o, b, now) == Full(o)
  {
    MoreTimeMoreTokens(o.refillPerMinute, o.ttlMs + 1, now - b.lastRefillMs);
  }

  lemma RefilledInRange(o: Options, b: Bucket, now: int)
    requires 0 <= b.tokens <= Full(o) && b.lastRefillMs <= now
    ensures b.tokens <= Refilled(o, b, now) <= Full(o)
  {
    assert (now - b.lastRefillMs) * o.refillPerMinute >= 0;
  }

  lemma SweptSimulates(o: Options, swept: Buckets, whole: Buckets, before: int, now: int)
    requires Simulates(o, swept, whole, before) && before <= now
    ensures Simulates(o, Swept(o, swept, now), whole, now)
  {}

  lemma CallSimulates(o: Options, swept: Buckets, whole: Buckets, before: int, c: Call)
    requires RefillsBeforeEviction(o) && Simulates(o, swept, whole, before) && before <= c.now
    ensures AnswerTo(o, true, swept, c) == AnswerTo(o, false, whole, c)
    ensures Simulates(o, After(o, true, swept, c), After(o, false, whole, c), c.now)
  {
    var kept := Swept(o, swept, c.now);
    SweptSimulates(o, swept, whole, before, c.now);
    var a, b := BucketOf(o, kept, c.key, c.now), BucketOf(o, whole, c.key, c.now);
    assert Refilled(o, a, c.now) == Refilled(o, b, c.now) by {
      if c.key in whole && c.key !in kept {
        if o.capacity > 0 {
          LongIdleIsFull(o, b, c.now);
        } else {
          RefilledInRange(o, b, c.now);
        }
      }
    }
    RefilledInRange(o, b, c.now);
  }

  lemma {:induction false} RunsSimulate(o: Options, calls: seq<Call>, now: int)
    requires RefillsBeforeEviction(o) && MonotoneClock(calls)
    requires calls != [] ==> now == calls[|calls| - 1].now
    ensures Simulates(o, RunOf(o, true, calls), RunOf(o, false, calls), now)
    ensures calls != [] ==> LastAnswer(o, true, calls) == LastAnswer(o, false, calls)
  {
    if calls != [] {
      var init, last := calls[..|calls| - 1], calls[|calls| - 1];
      var before := if init == [] then last.now else init[|init| - 1].now;
      RunsSimulate(o, init, before);
      CallSimulates(o, RunOf(o, true, init), RunOf(o, false, init), before, last);
    }
  }

  /** Every call is answered as if nothing were ever evicted. */
  ghost predicate EvictionUnobservable(o: Options) {
    forall calls: seq<Call> | calls != [] && MonotoneClock(calls) :: LastAnswer(o, true, calls) == LastAnswer(o, false, calls)
  }

  /** `n` calls of one key at one moment. */
  function Burst(n: nat, now: int): seq<Call> {
    seq(n, i => Call("", now))
  }

  lemma BurstGrows(calls: seq<Call>, n: nat, now: int)
    ensures calls + Burst(n + 1, now) == (calls + Burst(n, now)) + [Call("", now)]
  {}

  lemma OneMore(o: Options, sweeps: bool, calls: seq<Call>, c: Call)
    ensures RunOf(o, sweeps, calls + [c]) == After(o, sweeps, RunOf(o, sweeps, calls), c)
    ensures LastAnswer(o, sweeps, calls + [c]) == AnswerTo(o, sweeps, RunOf(o, sweeps, calls), c)
  {
    assert (calls + [c])[..|calls|] == calls;
  }

  /** The state in which the only bucket, if any, holds `tokens` and was touched `now`. */
  predicate Holds(buckets: Buckets, tokens: int, now: int) {
    buckets == map["" := Bucket(tokens, now, now)]
  }

  /** A call that finds a whole token, in a fresh bucket or in one touched at the same moment. */
  lemma SpendOne(o: Options, sweeps: bool, buckets: Buckets, tokens: int, now: int)
    requires UNIT <= tokens <= Full(o)
    requires Holds(buckets, tokens, now) || (tokens == Full(o) && (if sweeps then Swept(o, buckets, now) else buckets) == map[])
    ensures AnswerTo(o, sweeps, buckets, Call("", now))
    ensures Holds(After(o, sweeps, buckets, Call("", now)), tokens - UNIT, now)
  {
    if Holds(buckets, tokens, now) {
      assert Swept(o, buckets, now) == buckets;
    }
  }

  /** One more call of a burst that still finds a whole token. */
  lemma BurstSpendsOne(o: Options, sweeps: bool, before: seq<Call>, tokens: int, now: int)
    requires UNIT <= tokens <= Full(o)
    requires var buckets := RunOf(o, sweeps, before);
             Holds(buckets, tokens, now) || (tokens == Full(o) && (if sweeps then Swept(o, buckets, now) else buckets) == map[])
    ensures Holds(RunOf(o, sweeps, before + [Call("", now)]), tokens - UNIT, now)
    ensures LastAnswer(o, sweeps, before + [Call("", now)])
  {
    OneMore(o, sweeps, before, Call("", now));
    SpendOne(o, sweeps, RunOf(o, sweeps, before), tokens, now);
  }

  /** From a state without usable buckets, n calls at one moment are all admitted. */
  lemma {:induction false} BurstSpends(o: Options, sweeps: bool, calls: seq<Call>, n: nat, now: int)
    requires 0 < n <= o.capacity
    requires var start := RunOf(o, sweeps, calls); (if sweeps then Swept(o, start, now) else start) == map[]
    ensures Holds(RunOf(o, sweeps, calls + Burst(n, now)), Full(o) - n * UNIT, now)
    ensures LastAnswer(o, sweeps, calls + Burst(n, now))
  {
    BurstGrows(calls, n - 1, now);
    var before := calls + Burst(n - 1, now);
    if n == 1 {
      assert before == calls;
    } else {
      BurstSpends(o, sweeps, calls, n - 1, now);
    }
    BurstSpendsOne(o, sweeps, before, Full(o) - (n - 1) * UNIT, now);
  }

  /** The first burst drains the bucket whether or not idle buckets are swept. */
  lemma FirstBurst(o: Options, sweeps: bool, n: nat)
    requires 0 < n <= o.capacity
    ensures Holds(RunOf(o, sweeps, Burst(n, 0)), Full(o) - n * UNIT, 0)
    ensures LastAnswer(o, sweeps, Burst(n, 0))
  {
    BurstSpends(o, sweeps, [], n, 0);
    assert [] + Burst(n, 0) == Burst(n, 0);
  }

  /** Drain the bucket, wait until it is evicted, and drain it again. */
  function TwoBursts(o: Options, n: nat): seq<Call> {
    Burst(o.capacity, 0) + Burst(n, o.ttlMs + 1)
  }

  lemma LongIdleIsSwept(o: Options, buckets: Buckets, tokens: int, now: int)
    requires Holds(buckets, tokens, 0) && now > o.ttlMs
    ensures Swept(o, buckets, now) == map[]
  {}

  lemma BurstAfterEviction(o: Options, calls: seq<Call>, tokens: int, n: nat, now: int)
    requires 0 < n <= o.capacity && now > o.ttlMs && Holds(RunOf(o, true, calls), tokens, 0)
    ensures LastAnswer(o, true, calls + Burst(n, now))
  {
    LongIdleIsSwept(o, RunOf(o, true, calls), tokens, now);
    BurstSpends(o, true, calls, n, now);
  }

  lemma SecondBurstSwept(o: Options, n: nat)
    requires 0 < n <= o.capacity
    ensures LastAnswer(o, true, TwoBursts(o, n))
  {
    FirstBurst(o, true, o.capacity);
    BurstAfterEviction(o, Burst(o.capacity, 0), Full(o) - o.capacity * UNIT, n, o.ttlMs + 1);
  }

  /** The n-th call since the wait leaves less than a full bucket would have, and nothing below zero. */
  predicate Short(o: Options, buckets: Buckets, n: nat, now: int) {
    && "" in buckets && buckets[""].lastRefillMs == now
    && 0 <= buckets[""].tokens < if n < o.capacity then Full(o) - n * UNIT else UNIT
  }

  lemma SpendShort(o: Options, buckets: Buckets, n: nat, now: int)
    requires n < o.capacity && Short(o, buckets, n, now)
    ensures Short(o, After(o, false, buckets, Call("", now)), n + 1, now)
    ensures n + 1 == o.capacity ==> !AnswerTo(o, false, buckets, Call("", now))
  {
    assert Refilled(o, buckets[""], now) == buckets[""].tokens;
  }

  lemma SpendAfterWait(o: Options, buckets: Buckets, now: int)
    requires o.capacity > 0 && Holds(buckets, 0, 0) && now >= 0 && now * o.refillPerMinute < Full(o)
    ensures Short(o, After(o, false, buckets, Call("", now)), 1, now)
    ensures o.capacity == 1 ==> !AnswerTo(o, false, buckets, Call("", now))
  {
    assert now * o.refillPerMinute >= 0;
    assert Refilled(o, buckets[""], now) == now * o.refillPerMinute;
  }

  lemma {:induction false} SecondBurstWhole(o: Options, n: nat)
    requires 0 < n <= o.capacity && (o.ttlMs + 1) * o.refillPerMinute < Full(o)
    ensures Short(o, RunOf(o, false, TwoBursts(o, n)), n, o.ttlMs + 1)
    ensures n == o.capacity ==> !LastAnswer(o, false, TwoBursts(o, n))
  {
    var now := o.ttlMs + 1;
    BurstGrows(Burst(o.capacity, 0), n - 1, now);
    OneMore(o, false, TwoBursts(o, n - 1), Call("", now));
    if n == 1 {
      FirstBurst(o, false, o.capacity);
      assert TwoBursts(o, 0) == Burst(o.capacity, 0);
      SpendAfterWait(o, RunOf(o, false, Burst(o.capacity, 0)), now);
    } else {
      SecondBurstWhole(o, n - 1);
      SpendShort(o, RunOf(o, false, TwoBursts(o, n - 1)), n - 1, now);
    }
  }

  lemma TwoBurstsAreMonotone(o: Options, n: nat)
    ensures MonotoneClock(TwoBursts(o, n))
  {}

  /** Eviction is unobservable exactly when a bucket is kept longer than it takes to fill up. */
  lemma EvictionUnobservableIff(o: Options)
    ensures EvictionUnobservable(o) <==> RefillsBeforeEviction(o)
  {
    if RefillsBeforeEviction(o) {
      forall calls: seq<Call> | calls != [] && MonotoneClock(calls)
        ensures LastAnswer(o, true, calls) == LastAnswer(o, false, calls)
      {
        RunsSimulate(o, calls, calls[|calls| - 1].now);
      }
    } else {
      var calls := TwoBursts(o, o.capacity);
      TwoBurstsAreMonotone(o, o.capacity);
      SecondBurstSwept(o, o.capacity);
      SecondBurstWhole(o, o.capacity);
      assert LastAnswer(o, true, calls) != LastAnswer(o, false, calls);
    }
  }

  // ---- how many calls a window admits ----

  /** The calls of `key` admitted among calls[i..j]. */
  function Admitted(o: Options, sweeps: bool, calls: seq<Call>, i: nat, j: nat, key: string): nat
    requires i <= j <= |calls|
    decreases j - i
  {
    if i == j then 0
    else
      Admitted(o, sweeps, calls, i, j - 1, key)
      + if calls[j - 1].key == key && LastAnswer(o, sweeps, calls[..j]) then 1 else 0
  }

  predicate CallsIn(calls: seq<Call>, i: nat, j: nat, key: string)
    requires i <= j <= |calls|
  {
    exists n | i <= n < j :: calls[n].key == key
  }

  lemma {:induction false} RunIsSane(o: Options, sweeps: bool, calls: seq<Call>, now: int)
    requires MonotoneClock(calls) && (calls != [] ==> calls[|calls| - 1].now <= now)
    ensures Sane(o, RunOf(o, sweeps, calls), now)
  {
    if calls != [] {
      var init, last := calls[..|calls| - 1], calls[|calls| - 1];
      RunIsSane(o, sweeps, init, last.now);
      var before := RunOf(o, sweeps, init);
      var kept := if sweeps then Swept(o, before, last.now) else before;
      RefilledInRange(o, BucketOf(o, kept, last.key, last.now), last.now);
    }
  }

  /** Admitted calls and tokens left never exceed a full bucket plus the refill since the window opened at `start`. */
  predicate WithinPotential(o: Options, b: Bucket, admitted: nat, start: int) {
    start <= b.lastRefillMs && UNIT * admitted + b.tokens <= Full(o) + (b.lastRefillMs - start) * o.refillPerMinute
  }

  lemma RefillSplits(o: Options, a: int, b: int, c: int)
    requires a <= b <= c
    ensures (b - a) * o.refillPerMinute + (c - b) * o.refillPerMinute == (c - a) * o.refillPerMinute
    ensures 0 <= (b - a) * o.refillPerMinute <= (c - a) * o.refillPerMinute
  {}

  /** One call keeps the bound: what it admits it also spends. */
  lemma SpendingKeepsPotential(o: Options, b: Bucket, admitted: nat, start: int, now: int)
    requires WithinPotential(o, b, admitted, start) && b.lastRefillMs <= now
    ensures WithinPotential(o, Spent(o, b, now), admitted + if Allows(o, b, now) then 1 else 0, start)
  {
    RefillSplits(o, start, b.lastRefillMs, now);
  }

  /** The first call of the window finds at most a full bucket. */
  lemma FirstSpendKeepsPotential(o: Options, b: Bucket, start: int, now: int)
    requires start <= now
    ensures WithinPotential(o, Spent(o, b, now), if Allows(o, b, now) then 1 else 0, start)
  {
    RefillSplits(o, start, now, now);
  }

  lemma CallsInGrows(calls: seq<Call>, i: nat, j: nat, key: string)
    requires i < j <= |calls|
    ensures CallsIn(calls, i, j, key) <==> CallsIn(calls, i, j - 1, key) || calls[j - 1].key == key
  {
    if calls[j - 1].key == key {
      assert i <= j - 1 < j;
    }
  }

  lemma {:induction false} WindowPotential(o: Options, calls: seq<Call>, i: nat, j: nat, key: string)
    requires MonotoneClock(calls) && i <= j <= |calls|
    ensures !CallsIn(calls, i, j, key) ==> Admitted(o, false, calls, i, j, key) == 0
    ensures CallsIn(calls, i, j, key) ==>
              var buckets := RunOf(o, false, calls[..j]);
              key in buckets && WithinPotential(o, buckets[key], Admitted(o, false, calls, i, j, key), calls[i].now)
    decreases j - i
  {
    if i < j {
      WindowPotential(o, calls, i, j - 1, key);
      CallsInGrows(calls, i, j, key);
      var init, c := calls[..j - 1], calls[j - 1];
      assert calls[..j] == init + [c];
      OneMore(o, false, init, c);
      var before := RunOf(o, false, init);
      if c.key == key {
        RunIsSane(o, false, init, c.now);
        OwnCallKeepsPotential(o, BucketOf(o, before, key, c.now), calls, i, j, key);
      }
    }
  }

  lemma OwnCallKeepsPotential(o: Options, b: Bucket, calls: seq<Call>, i: nat, j: nat, key: string)
    requires i < j <= |calls| && calls[j - 1].key == key && calls[i].now <= calls[j - 1].now && b.lastRefillMs <= calls[j - 1].now
    requires LastAnswer(o, false, calls[..j]) == Allows(o, b, calls[j - 1].now)
    requires CallsIn(calls, i, j - 1, key) ==> WithinPotential(o, b, Admitted(o, false, calls, i, j - 1, key), calls[i].now)
    requires !CallsIn(calls, i, j - 1, key) ==> Admitted(o, false, calls, i, j - 1, key) == 0
    ensures WithinPotential(o, Spent(o, b, calls[j - 1].now), Admitted(o, false, calls, i, j, key), calls[i].now)
  {
    var now := calls[j - 1].now;
    if CallsIn(calls, i, j - 1, key) {
      SpendingKeepsPotential(o, b, Admitted(o, false, calls, i, j - 1, key), calls[i].now, now);
    } else {
      FirstSpendKeepsPotential(o, b, calls[i].now, now);
    }
  }

  /** Over a window from calls[i] to calls[j - 1], at most a full bucket plus what the window refills. */
  predicate BoundedIn(o: Options, sweeps: bool, calls: seq<Call>, i: nat, j: nat, key: string)
    requires i < j <= |calls|
  {
    UNIT * Admitted(o, sweeps, calls, i, j, key) <= Full(o) + (calls[j - 1].now - calls[i].now) * o.refillPerMinute
  }

  ghost predicate WindowBounded(o: Options, sweeps: bool) {
    forall calls: seq<Call>, i: nat, j: nat, key: string {:trigger BoundedIn(o, sweeps, calls, i, j, key)} |
      MonotoneClock(calls) && i < j <= |calls| :: BoundedIn(o, sweeps, calls, i, j, key)
  }

  lemma BoundedWithoutEviction(o: Options, calls: seq<Call>, i: nat, j: nat, key: string)
    requires MonotoneClock(calls) && i < j <= |calls|
    ensures BoundedIn(o, false, calls, i, j, key)
  {
    WindowPotential(o, calls, i, j, key);
    if CallsIn(calls, i, j, key) {
      RunIsSane(o, false, calls[..j], calls[j - 1].now);
      RefillSplits(o, calls[i].now, RunOf(o, false, calls[..j])[key].lastRefillMs, calls[j - 1].now);
    } else {
      RefillSplits(o, calls[i].now, calls[j - 1].now, calls[j - 1].now);
    }
  }

  /** Without eviction the bound always holds. */
  lemma NeverEvictingIsBounded(o: Options)
    ensures WindowBounded(o, false)
  {
    forall calls: seq<Call>, i: nat, j: nat, key: string | MonotoneClock(calls) && i < j <= |calls|
      ensures BoundedIn(o, false, calls, i, j, key)
    {
      BoundedWithoutEviction(o, calls, i, j, key);
    }
  }

  lemma {:induction false} SameAdmissions(o: Options, calls: seq<Call>, i: nat, j: nat, key: string)
    requires RefillsBeforeEviction(o) && MonotoneClock(calls) && i <= j <= |calls|
    ensures Admitted(o, true, calls, i, j, key) == Admitted(o, false, calls, i, j, key)
    decreases j - i
  {
    if i < j {
      SameAdmissions(o, calls, i, j - 1, key);
      RunsSimulate(o, calls[..j], calls[j - 1].now);
    }
  }

  lemma {:induction false} TwoBurstsAdmitAll(o: Options, j: nat)
    requires j <= 2 * o.capacity
    ensures Admitted(o, true, TwoBursts(o, o.capacity), 0, j, "") == j
  {
    if j > 0 {
      TwoBurstsAdmitAll(o, j - 1);
      if j <= o.capacity {
        FirstBurst(o, true, j);
        assert TwoBursts(o, o.capacity)[..j] == Burst(j, 0);
      } else {
        SecondBurstSwept(o, j - o.capacity);
        assert TwoBursts(o, o.capacity)[..j] == TwoBursts(o, j - o.capacity);
      }
    }
  }

  lemma TwoBurstsSpan(o: Options)
    requires o.capacity > 0
    ensures var calls := TwoBursts(o, o.capacity);
            |calls| == 2 * o.capacity && calls[0].now == 0 && calls[2 * o.capacity - 1].now == o.ttlMs + 1
  {}

  lemma OverTheBound(o: Options, sweeps: bool, calls: seq<Call>, n: nat, start: int, end: int)
    requires 0 < n == |calls| == 2 * o.capacity && calls[0].now == start && calls[n - 1].now == end
    requires Admitted(o, sweeps, calls, 0, n, "") == n
    requires (end - start) * o.refillPerMinute < Full(o)
    ensures !BoundedIn(o, sweeps, calls, 0, n, "")
  {}

  /** Two drained buckets in a row admit twice the capacity, more than the refill of the wait allows. */
  lemma TwoBurstsBreakTheBound(o: Options, calls: seq<Call>, n: nat)
    requires !RefillsBeforeEviction(o) && calls == TwoBursts(o, o.capacity) && n == |calls|
    ensures MonotoneClock(calls) && 0 < n && !BoundedIn(o, true, calls, 0, n, "")
  {
    TwoBurstsAreMonotone(o, o.capacity);
    TwoBurstsSpan(o);
    TwoBurstsAdmitAll(o, n);
    OverTheBound(o, true, calls, n, 0, o.ttlMs + 1);
  }

  /** With eviction the bound holds exactly under the same condition. */
  lemma SweepingIsBoundedIff(o: Options)
    ensures WindowBounded(o, true) <==> RefillsBeforeEviction(o)
  {
    if RefillsBeforeEviction(o) {
      forall calls: seq<Call>, i: nat, j: nat, key: string | MonotoneClock(calls) && i < j <= |calls|
        ensures BoundedIn(o, true, calls, i, j, key)
      {
        SameAdmissions(o, calls, i, j, key);
        BoundedWithoutEviction(o, calls, i, j, key);
      }
    } else {
      var calls := TwoBursts(o, o.capacity);
      TwoBurstsBreakTheBound(o, calls, |calls|);
    }
  }

  // ---- when a call is admitted ----

  /** The bucket holds the least the windows that end here allow, and some window allows no more. */
  ghost predicate AttainsPotential(o: Options, b: Bucket, calls: seq<Call>, j: nat, key: string)
    requires j <= |calls|
  {
    exists i: nat {:trigger Attains(o, b, calls, i, j, key)} :: Attains(o, b, calls, i, j, key)
  }

  predicate Attains(o: Options, b: Bucket, calls: seq<Call>, i: nat, j: nat, key: string)
    requires j <= |calls|
  {
    && i < j && calls[i].key == key
    && b.tokens == Full(o) + (b.lastRefillMs - calls[i].now) * o.refillPerMinute - UNIT * Admitted(o, false, calls, i, j, key)
  }

  lemma AdmittedOneMore(o: Options, calls: seq<Call>, i: nat, j: nat, key: string)
    requires i < j <= |calls|
    ensures Admitted(o, false, calls, i, j, key)
         == Admitted(o, false, calls, i, j - 1, key)
            + if calls[j - 1].key == key && LastAnswer(o, false, calls[..j]) then 1 else 0
  {}

  /** A call of another key leaves the window where it was. */
  lemma OtherCallAttains(o: Options, b: Bucket, calls: seq<Call>, j: nat, key: string)
    requires 0 < j <= |calls| && calls[j - 1].key != key && AttainsPotential(o, b, calls, j - 1, key)
    ensures AttainsPotential(o, b, calls, j, key)
  {
    var i: nat :| Attains(o, b, calls, i, j - 1, key);
    assert Attains(o, b, calls, i, j, key);
  }

  lemma SpentContinues(o: Options, b: Bucket, start: int, now: int, admitted: nat)
    requires b.tokens == Full(o) + (b.lastRefillMs - start) * o.refillPerMinute - UNIT * admitted
    requires b.tokens + (now - b.lastRefillMs) * o.refillPerMinute < Full(o)
    ensures Spent(o, b, now).lastRefillMs == now
    ensures Spent(o, b, now).tokens
         == Full(o) + (now - start) * o.refillPerMinute - UNIT * (admitted + if Allows(o, b, now) then 1 else 0)
  {
    assert (now - b.lastRefillMs) * o.refillPerMinute + (b.lastRefillMs - start) * o.refillPerMinute
        == (now - start) * o.refillPerMinute;
  }

  lemma SpentOpens(o: Options, b: Bucket, now: int)
    requires b.tokens + (now - b.lastRefillMs) * o.refillPerMinute >= Full(o)
    ensures Spent(o, b, now).lastRefillMs == now
    ensures Spent(o, b, now).tokens == Full(o) + (now - now) * o.refillPerMinute - UNIT * if Allows(o, b, now) then 1 else 0
  {
    FreshBucketIsFull(o, now);
  }

  /** A call of the key continues the window, or opens one with the bucket full. */
  lemma OwnCallAttains(o: Options, b: Bucket, calls: seq<Call>, j: nat, key: string)
    requires 0 < j <= |calls| && calls[j - 1].key == key && b.lastRefillMs <= calls[j - 1].now
    requires LastAnswer(o, false, calls[..j]) == Allows(o, b, calls[j - 1].now)
    requires b.tokens + (calls[j - 1].now - b.lastRefillMs) * o.refillPerMinute < Full(o) ==> AttainsPotential(o, b, calls, j - 1, key)
    ensures AttainsPotential(o, Spent(o, b, calls[j - 1].now), calls, j, key)
  {
    var now := calls[j - 1].now;
    var spent := Spent(o, b, now);
    if b.tokens + (now - b.lastRefillMs) * o.refillPerMinute < Full(o) {
      var i: nat :| Attains(o, b, calls, i, j - 1, key);
      AdmittedOneMore(o, calls, i, j, key);
      SpentContinues(o, b, calls[i].now, now, Admitted(o, false, calls, i, j - 1, key));
      assert Attains(o, spent, calls, i, j, key);
    } else {
      AdmittedOneMore(o, calls, j - 1, j, key);
      SpentOpens(o, b, now);
      assert Attains(o, spent, calls, j - 1, j, key);
    }
  }

  lemma FreshBucketIsFull(o: Options, now: int)
    ensures (now - now) * o.refillPerMinute == 0
  {}

  lemma {:induction false} BucketAttains(o: Options, calls: seq<Call>, j: nat, key: string)
    requires MonotoneClock(calls) && j <= |calls|
    ensures var buckets := RunOf(o, false, calls[..j]);
            && (key in buckets <==> CallsIn(calls, 0, j, key))
            && (key in buckets ==> AttainsPotential(o, buckets[key], calls, j, key))
    decreases j
  {
    if j > 0 {
      BucketAttains(o, calls, j - 1, key);
      CallsInGrows(calls, 0, j, key);
      var init, c := calls[..j - 1], calls[j - 1];
      assert calls[..j] == init + [c];
      OneMore(o, false, init, c);
      var before := RunOf(o, false, init);
      if c.key == key {
        RunIsSane(o, false, init, c.now);
        FreshBucketIsFull(o, c.now);
        OwnCallAttains(o, BucketOf(o, before, key, c.now), calls, j, key);
      } else if key in before {
        OtherCallAttains(o, before[key], calls, j, key);
      }
    }
  }

  /** The window from calls[i] to the last call has room for one more token. */
  predicate HasRoom(o: Options, sweeps: bool, calls: seq<Call>, i: nat)
    requires i < |calls|
  {
    var n := |calls| - 1;
    UNIT * (Admitted(o, sweeps, calls, i, n, calls[n].key) + 1) <= Full(o) + (calls[n].now - calls[i].now) * o.refillPerMinute
  }

  /** The bucket has a token, and so has every window that began with an earlier call of the key. */
  ghost predicate EveryWindowHasRoom(o: Options, sweeps: bool, calls: seq<Call>)
    requires calls != []
  {
    && o.capacity >= 1
    && forall i: nat | i < |calls| - 1 && calls[i].key == calls[|calls| - 1].key :: HasRoom(o, sweeps, calls, i)
  }

  lemma AllowsIff(o: Options, b: Bucket, now: int)
    ensures Allows(o, b, now) <==> o.capacity >= 1 && b.tokens + (now - b.lastRefillMs) * o.refillPerMinute >= UNIT
  {}

  lemma RoomInWindow(o: Options, b: Bucket, calls: seq<Call>, i: nat)
    requires i < |calls| - 1 && b.lastRefillMs <= calls[|calls| - 1].now
    requires WithinPotential(o, b, Admitted(o, false, calls, i, |calls| - 1, calls[|calls| - 1].key), calls[i].now)
    requires b.tokens + (calls[|calls| - 1].now - b.lastRefillMs) * o.refillPerMinute >= UNIT
    ensures HasRoom(o, false, calls, i)
  {
    RefillSplits(o, calls[i].now, b.lastRefillMs, calls[|calls| - 1].now);
  }

  lemma RoomGivesToken(o: Options, b: Bucket, calls: seq<Call>, i: nat)
    requires i < |calls| - 1 && Attains(o, b, calls, i, |calls| - 1, calls[|calls| - 1].key) && HasRoom(o, false, calls, i)
    ensures b.tokens + (calls[|calls| - 1].now - b.lastRefillMs) * o.refillPerMinute >= UNIT
  {
    var now := calls[|calls| - 1].now;
    assert (now - b.lastRefillMs) * o.refillPerMinute + (b.lastRefillMs - calls[i].now) * o.refillPerMinute
        == (now - calls[i].now) * o.refillPerMinute;
  }

  lemma EveryRoomGivesToken(o: Options, b: Bucket, calls: seq<Call>)
    requires calls != [] && EveryWindowHasRoom(o, false, calls)
    requires AttainsPotential(o, b, calls, |calls| - 1, calls[|calls| - 1].key)
    ensures b.tokens + (calls[|calls| - 1].now - b.lastRefillMs) * o.refillPerMinute >= UNIT
  {
    var i: nat :| Attains(o, b, calls, i, |calls| - 1, calls[|calls| - 1].key);
    RoomGivesToken(o, b, calls, i);
  }

  lemma WithoutEarlierCalls(o: Options, calls: seq<Call>)
    requires calls != [] && !CallsIn(calls, 0, |calls| - 1, calls[|calls| - 1].key)
    requires calls[|calls| - 1].key !in RunOf(o, false, calls[..|calls| - 1])
    ensures LastAnswer(o, false, calls) <==> EveryWindowHasRoom(o, false, calls)
  {
    FreshBucketIsFull(o, calls[|calls| - 1].now);
  }

  lemma KeyedWindowPotential(o: Options, calls: seq<Call>, i: nat, n: nat, key: string)
    requires MonotoneClock(calls) && i < n <= |calls| && calls[i].key == key
    ensures var buckets := RunOf(o, false, calls[..n]);
            key in buckets && WithinPotential(o, buckets[key], Admitted(o, false, calls, i, n, key), calls[i].now)
  {
    WindowPotential(o, calls, i, n, key);
    assert CallsIn(calls, i, n, key);
  }

  /** A limiter that never evicts admits a call exactly when every window has room: nothing else is refused or let through. */
  lemma AdmitsIff(o: Options, calls: seq<Call>)
    requires MonotoneClock(calls) && calls != []
    ensures LastAnswer(o, false, calls) <==> EveryWindowHasRoom(o, false, calls)
  {
    var n, c := |calls| - 1, calls[|calls| - 1];
    var buckets := RunOf(o, false, calls[..n]);
    BucketAttains(o, calls, n, c.key);
    if c.key in buckets {
      var b := buckets[c.key];
      RunIsSane(o, false, calls[..n], c.now);
      AllowsIff(o, b, c.now);
      if LastAnswer(o, false, calls) {
        forall i: nat | i < n && calls[i].key == c.key
          ensures HasRoom(o, false, calls, i)
        {
          KeyedWindowPotential(o, calls, i, n, c.key);
          RoomInWindow(o, b, calls, i);
        }
      }
      if EveryWindowHasRoom(o, false, calls) {
        EveryRoomGivesToken(o, b, calls);
      }
    } else {
      WithoutEarlierCalls(o, calls);
    }
  }

  /** The sweeping limiter admits exactly the same, when a bucket is kept longer than it takes to fill up. */
  lemma SweepingAdmitsIff(o: Options, calls: seq<Call>)
    requires RefillsBeforeEviction(o) && MonotoneClock(calls) && calls != []
    ensures LastAnswer(o, true, calls) <==> EveryWindowHasRoom(o, true, calls)
  {
    AdmitsIff(o, calls);
    RunsSimulate(o, calls, calls[|calls| - 1].now);
    forall i: nat | i < |calls| - 1
      ensures HasRoom(o, true, calls, i) == HasRoom(o, false, calls, i)
    {
      SameAdmissions(o, calls, i, |calls| - 1, calls[|calls| - 1].key);
    }
  }

  ghost predicate SweepingIsExact(o: Options) {
    forall calls: seq<Call> | calls != [] && MonotoneClock(calls) :: LastAnswer(o, true, calls) <==> EveryWindowHasRoom(o, true, calls)
  }

  lemma NoRoomForMore(o: Options, calls: seq<Call>, n: nat, start: int, end: int)
    requires 0 < n == |calls| - 1 == 2 * o.capacity - 1 && calls[0] == Call("", start) && calls[n] == Call("", end)
    requires Admitted(o, true, calls, 0, n, "") == n && (end - start) * o.refillPerMinute < Full(o)
    ensures !EveryWindowHasRoom(o, true, calls)
  {
    assert !HasRoom(o, true, calls, 0);
  }

  /** The second of two bursts, the first evicted, ends with a call for which the whole stretch has no room. */
  lemma TwoBurstsHaveNoRoom(o: Options, calls: seq<Call>, n: nat)
    requires !RefillsBeforeEviction(o) && calls == TwoBursts(o, o.capacity) && n == |calls| - 1
    ensures MonotoneClock(calls) && LastAnswer(o, true, calls) && !EveryWindowHasRoom(o, true, calls)
  {
    TwoBurstsAreMonotone(o, o.capacity);
    TwoBurstsSpan(o);
    SecondBurstSwept(o, o.capacity);
    TwoBurstsAdmitAll(o, n);
    NoRoomForMore(o, calls, n, 0, o.ttlMs + 1);
  }

  /** And only then. */
  lemma SweepingIsExactIff(o: Options)
    ensures SweepingIsExact(o) <==> RefillsBeforeEviction(o)
  {
    if RefillsBeforeEviction(o) {
      forall calls: seq<Call> | calls != [] && MonotoneClock(calls)
        ensures LastAnswer(o, true, calls) <==> EveryWindowHasRoom(o, true, calls)
      {
        SweepingAdmitsIff(o, calls);
      }
    } else {
      TwoBurstsHaveNoRoom(o, TwoBursts(o, o.capacity), 2 * o.capacity - 1);
    }
  }

  // ---- keys do not interfere ----

  function OfKey(calls: seq<Call>, key: string): seq<Call> {
    Filter(calls, (c: Call) => c.key == key)
  }

  /** The key's bucket in the shared map is its bucket in a map of its own, or it has expired since. */
  ghost predicate SameForKey(o: Options, shared: Buckets, own: Buckets, key: string, now: int) {
    && (key in shared ==> key in own && shared[key] == own[key])
    && (key in own && key !in shared ==> own[key].lastAccessMs + o.ttlMs < now)
  }

  lemma OfKeyLast(calls: seq<Call>, key: string)
    requires calls != []
    ensures OfKey(calls, key)
         == OfKey(calls[..|calls| - 1], key) + if calls[|calls| - 1].key == key then [calls[|calls| - 1]] else []
  {
    var init, last := calls[..|calls| - 1], calls[|calls| - 1];
    assert calls == init + [last];
    FilterConcat(init, [last], (c: Call) => c.key == key);
  }

  lemma {:induction false} KeysRunAlone(o: Options, calls: seq<Call>, key: string, now: int)
    requires MonotoneClock(calls) && (calls != [] ==> calls[|calls| - 1].now <= now)
    ensures SameForKey(o, RunOf(o, true, calls), RunOf(o, true, OfKey(calls, key)), key, now)
    ensures calls != [] && calls[|calls| - 1].key == key ==>
              OfKey(calls, key) != [] && LastAnswer(o, true, calls) == LastAnswer(o, true, OfKey(calls, key))
  {
    if calls != [] {
      var init, last := calls[..|calls| - 1], calls[|calls| - 1];
      KeysRunAlone(o, init, key, last.now);
      OfKeyLast(calls, key);
      var shared, own := RunOf(o, true, init), RunOf(o, true, OfKey(init, key));
      if last.key == key {
        assert OfKey(calls, key)[..|OfKey(calls, key)| - 1] == OfKey(init, key);
        assert BucketOf(o, Swept(o, shared, last.now), key, last.now) == BucketOf(o, Swept(o, own, last.now), key, last.now);
      } else {
        assert OfKey(calls, key) == OfKey(init, key);
      }
    }
  }

  /** Calls on other keys never change a key's answers. */
  lemma OtherKeysDoNotInterfere(o: Options, calls: seq<Call>)
    requires MonotoneClock(calls) && calls != []
    ensures var own := OfKey(calls, calls[|calls| - 1].key);
            own != [] && LastAnswer(o, true, calls) == LastAnswer(o, true, own)
  {
    KeysRunAlone(o, calls, calls[|calls| - 1].key, calls[|calls| - 1].now);
  }
}
