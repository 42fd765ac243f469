/**
 The token bucket of internal/middleware/ratelimit.go as functions on values.
 Times and durations are integer nanoseconds.
 */
module TokenBucket {
  import opened Basics

  const TEN_MINUTES: int := 600_000_000_000

  datatype Config = Config(rate: int, interval: Positive, maxBurst: int) {
    /** The configurations the server runs with: at least one request per interval and a burst of at least one. */
    predicate Sane() {
      rate >= 1 && maxBurst >= 1
    }
  }

  datatype Bucket = Bucket(tokens: int, lastSeen: int)

  type Buckets = map<string, Bucket>

  /** Integer division that truncates toward zero, as a Go conversion to int does. */
  function TruncDiv(a: int, b: Positive): int {
    if a >= 0 then a / b else -((-a) / b)
  }

  /** Whole tokens earned in `elapsed`; any fraction is dropped. */
  function Refill(c: Config, elapsed: int): int {
    TruncDiv(elapsed * c.rate, c.interval)
  }

  /** One call for one identifier: the decision and the bucket it leaves behind. */
  function AllowOne(c: Config, b: Option<Bucket>, now: int): (bool, Bucket) {
    match b
    case None => (true, Bucket(c.maxBurst - 1, now))
    case Some(b) =>
      var tokens := Min(b.tokens + Refill(c, now - b.lastSeen), c.maxBurst);
      if tokens > 0 then (true, Bucket(tokens - 1, now)) else (false, Bucket(tokens, now))
  }

  /** What a cleanup at `now` evicts. */
  predicate Stale(b: Bucket, now: int) {
    b.lastSeen < now - TEN_MINUTES
  }

  function Swept(m: Buckets, now: int): Buckets {
    map id | id in m && !Stale(m[id], now) :: m[id]
  }

  /** The events of a limiter's life; the mutex makes each of them atomic. */
  datatype Op = Allow(id: string, now: int) | Cleanup(now: int)

  function Step(c: Config, m: Buckets, op: Op): Buckets {
    match op
    case Allow(id, now) => m[id := AllowOne(c, Find(m, id), now).1]
    case Cleanup(now) => Swept(m, now)
  }

  function After(c: Config, m: Buckets, ops: seq<Op>): Buckets
    decreases |ops|
  {
    if ops == [] then m else After(c, Step(c, m, ops[0]), ops[1..])
  }

  /** The answers given to the calls among `ops`, in order. */
  function Decisions(c: Config, m: Buckets, ops: seq<Op>): seq<bool>
    decreases |ops|
  {
    if ops == [] then [] else
      (match ops[0]
       case Allow(id, now) => [AllowOne(c, Find(m, id), now).0]
       case Cleanup(_) => [])
      + Decisions(c, Step(c, m, ops[0]), ops[1..])
  }

  /** The answers given to one identifier. */
  function DecisionsFor(c: Config, m: Buckets, id: string, ops: seq<Op>): seq<bool>
    decreases |ops|
  {
    if ops == [] then [] else
      (if ops[0].Allow? && ops[0].id == id then [AllowOne(c, Find(m, id), ops[0].now).0] else [])
      + DecisionsFor(c, Step(c, m, ops[0]), id, ops[1..])
  }

  /** `ops` happen in order, none before `start`: the clock is read under the lock. */
  predicate Timed(ops: seq<Op>, start: int) {
    ops == [] || (start <= ops[0].now && Timed(ops[1..], ops[0].now))
  }

  /** Every bucket is between empty and full and was last seen no later than `now`. */
  predicate InRange(c: Config, b: Bucket, now: int) {
    0 <= b.tokens <= c.maxBurst && b.lastSeen <= now
  }

  ghost predicate AllInRange(c: Config, m: Buckets, now: int) {
    forall id | id in m :: InRange(c, m[id], now)
  }

  // ---------- arithmetic of truncated refills ----------

  lemma MulCancel(p: int, q: int, d: Positive)
    requires p * d < q * d
    ensures p < q
  {
  }

  /** `x / d` is the largest integer whose multiple of `d` fits in `x`. */
  lemma DivBounds(x: int, q: int, d: Positive)
    ensures q * d <= x <==> q <= x / d
  {
    assert (x / d) * d <= x < (x / d) * d + d;
    assert (x / d + 1) * d == (x / d) * d + d;
    if q * d <= x {
      MulCancel(q, x / d + 1, d);
    } else {
      MulCancel(x / d, q, d);
    }
  }

  lemma DivMonotone(a: int, b: int, d: Positive)
    requires a <= b
    ensures a / d <= b / d
  {
    DivBounds(a, a / d, d);
    DivBounds(b, a / d, d);
  }

  /** Truncation drops less than a whole unit, toward zero on either side of it. */
  lemma Truncates(a: int, b: Positive)
    ensures 0 <= a ==> TruncDiv(a, b) * b <= a < TruncDiv(a, b) * b + b
    ensures a <= 0 ==> TruncDiv(a, b) * b - b < a <= TruncDiv(a, b) * b
  {
    var x := if a >= 0 then a else -a;
    assert x / b * b <= x < x / b * b + b;
    assert (-(x / b)) * b == -(x / b * b);
  }

  lemma RefillMonotone(c: Config, a: int, b: int)
    requires c.Sane() && 0 <= a <= b
    ensures 0 <= Refill(c, a) <= Refill(c, b)
  {
    assert 0 <= a * c.rate <= b * c.rate;
    DivMonotone(a * c.rate, b * c.rate, c.interval);
    DivMonotone(0, a * c.rate, c.interval);
  }

  /** Dropping fractions twice loses at least as much as dropping them once. */
  lemma RefillSuperadditive(c: Config, a: int, b: int)
    requires c.Sane() && 0 <= a && 0 <= b
    ensures Refill(c, a) + Refill(c, b) <= Refill(c, a + b)
  {
    var x, y, d := a * c.rate, b * c.rate, c.interval;
    assert 0 <= x && 0 <= y && (a + b) * c.rate == x + y;
    assert (x / d) * d <= x && (y / d) * d <= y;
    assert (x / d + y / d) * d <= x + y;
    DivBounds(x + y, x / d + y / d, d);
  }

  // ---------- what a cleanup keeps ----------

  /** A bucket outlives a cleanup, unchanged, exactly when it was last seen at most 600 seconds before it. */
  lemma SweptExactly(m: Buckets, now: int, id: string)
    ensures Find(Swept(m, now), id) == if id in m && now - m[id].lastSeen <= 600_000_000_000 then Some(m[id]) else None
  {
  }

  // ---------- the range invariant ----------

  lemma AllowKeepsRange(c: Config, b: Option<Bucket>, now: int)
    requires c.Sane() && (b.Some? ==> InRange(c, b.value, now))
    ensures InRange(c, AllowOne(c, b, now).1, now)
  {
  }

  lemma {:induction false} RunKeepsRange(c: Config, m: Buckets, ops: seq<Op>, start: int, end: int)
    requires c.Sane() && AllInRange(c, m, start) && Timed(ops, start)
    requires forall op | op in ops :: op.now <= end
    requires start <= end
    ensures AllInRange(c, After(c, m, ops), end)
    decreases |ops|
  {
    if ops != [] {
      var op := ops[0];
      if op.Allow? {
        AllowKeepsRange(c, Find(m, op.id), op.now);
      }
      RunKeepsRange(c, Step(c, m, op), ops[1..], op.now, end);
    }
  }
}
