/** The limiter against the ideal fractional bucket, and against a limiter that never evicts. */
module LimiterTheorems {
  import opened Basics
  import opened TokenBucket
  import opened LimiterRuns

  // ---------- the ideal token bucket ----------

  /** The textbook bucket: it keeps fractions of tokens. */
  datatype Ideal = Ideal(tokens: real, lastSeen: int)

  function IdealAllow(c: Config, b: Option<Ideal>, now: int): (bool, Ideal) {
    match b
    case None => (true, Ideal(c.maxBurst as real - 1.0, now))
    case Some(b) =>
      var earned := ((now - b.lastSeen) * c.rate) as real / c.interval as real;
      var full := c.maxBurst as real;
      var tokens := if b.tokens + earned < full then b.tokens + earned else full;
      if tokens >= 1.0 then (true, Ideal(tokens - 1.0, now)) else (false, Ideal(tokens, now))
  }

  function IdealStep(c: Config, b: Option<Ideal>, op: Op): Option<Ideal> {
    match op
    case Allow(_, now) => Some(IdealAllow(c, b, now).1)
    case Cleanup(now) => if b.Some? && b.value.lastSeen < now - TEN_MINUTES then None else b
  }

  function IdealAfter(c: Config, b: Option<Ideal>, ops: seq<Op>): Option<Ideal>
    decreases |ops|
  {
    if ops == [] then b else IdealAfter(c, IdealStep(c, b, ops[0]), ops[1..])
  }

  function IdealDecisions(c: Config, b: Option<Ideal>, ops: seq<Op>): seq<bool>
    decreases |ops|
  {
    if ops == [] then [] else
      (if ops[0].Allow? then [IdealAllow(c, b, ops[0].now).0] else [])
      + IdealDecisions(c, IdealStep(c, b, ops[0]), ops[1..])
  }

  /** The ideal bucket holds at least as much and was seen at the same time. */
  ghost predicate Dominates(c: Config, i: Option<Ideal>, b: Option<Bucket>) {
    && i.Some? == b.Some?
    && (b.Some? ==> 0 <= b.value.tokens && b.value.tokens as real <= i.value.tokens && i.value.lastSeen == b.value.lastSeen)
  }

  lemma FloorBelow(n: int, d: Positive)
    ensures (n / d) as real <= n as real / d as real
  {
  }

  lemma DominanceStep(c: Config, i: Option<Ideal>, b: Option<Bucket>, op: Op)
    requires c.Sane() && Dominates(c, i, b)
    requires b.Some? ==> b.value.lastSeen <= op.now
    ensures Dominates(c, IdealStep(c, i, op), StepOne(c, b, op))
    ensures op.Allow? && AllowOne(c, b, op.now).0 ==> IdealAllow(c, i, op.now).0
  {
    if b.Some? && op.Allow? {
      RefillMonotone(c, 0, op.now - b.value.lastSeen);
      assert (op.now - b.value.lastSeen) * c.rate >= 0;
      FloorBelow((op.now - b.value.lastSeen) * c.rate, c.interval);
    }
  }

  /**
   Dominance: run on the same calls and cleanups, the truncating bucket never
   holds more than the ideal one, and whatever it admits the ideal one admits,
   even after earlier calls that only the ideal one admitted.
   */
  lemma {:induction false} Dominance(c: Config, i: Option<Ideal>, b: Option<Bucket>, ops: seq<Op>, start: int)
    requires c.Sane() && Dominates(c, i, b) && Timed(ops, start)
    requires b.Some? ==> b.value.lastSeen <= start
    ensures Dominates(c, IdealAfter(c, i, ops), AfterOne(c, b, ops))
    ensures var ds, ideal := DecisionsOne(c, b, ops), IdealDecisions(c, i, ops);
            |ds| == |ideal| && forall k | 0 <= k < |ds| :: ds[k] ==> ideal[k]
    decreases |ops|
  {
    if ops != [] {
      DominanceStep(c, i, b, ops[0]);
      Dominance(c, IdealStep(c, i, ops[0]), StepOne(c, b, ops[0]), ops[1..], ops[0].now);
    }
  }

  /** Dominance for one identifier of a shared limiter, from an empty limiter on. */
  lemma LimiterDominated(c: Config, ops: seq<Op>, id: string, start: int)
    requires c.Sane() && Timed(ops, start)
    ensures var mine := Projection(id, ops);
            var ds, ideal := DecisionsFor(c, map[], id, ops), IdealDecisions(c, None, mine);
            && |ds| == |ideal| && (forall k | 0 <= k < |ds| :: ds[k] ==> ideal[k])
            && Dominates(c, IdealAfter(c, None, mine), Find(After(c, map[], ops), id))
  {
    NonInterference(c, map[], id, ops);
    ProjectionTimed(id, ops, start, start);
    Dominance(c, None, None, Projection(id, ops), start);
  }

  // ---------- cleanup cannot be observed ----------

  function CallsOnly(ops: seq<Op>): seq<Op> {
    if ops == [] then [] else (if ops[0].Allow? then [ops[0]] else []) + CallsOnly(ops[1..])
  }

  /** `m` is `full` without some buckets that were last seen more than ten minutes before `now`. */
  ghost predicate Evicted(m: Buckets, full: Buckets, now: int) {
    && (forall id | id in m :: id in full && full[id] == m[id])
    && (forall id | id in full && id !in m :: full[id].lastSeen < now - TEN_MINUTES)
  }

  lemma EvictedStep(c: Config, m: Buckets, full: Buckets, op: Op, start: int)
    requires c.Sane() && RefillsBeforeEviction(c)
    requires Evicted(m, full, start) && AllInRange(c, full, start) && start <= op.now
    ensures op.Cleanup? ==> Evicted(Step(c, m, op), full, op.now)
    ensures op.Allow? ==> Evicted(Step(c, m, op), Step(c, full, op), op.now)
    ensures op.Allow? ==> AllowOne(c, Find(m, op.id), op.now) == AllowOne(c, Find(full, op.id), op.now)
  {
    if op.Allow? && op.id in full && op.id !in m {
      RefillMonotone(c, TEN_MINUTES + 1, op.now - full[op.id].lastSeen);
    }
  }

  lemma {:induction false} CleanupInvisible(c: Config, m: Buckets, full: Buckets, ops: seq<Op>, start: int)
    requires c.Sane() && RefillsBeforeEviction(c)
    requires Evicted(m, full, start) && AllInRange(c, full, start) && Timed(ops, start)
    ensures Decisions(c, m, ops) == Decisions(c, full, CallsOnly(ops))
    decreases |ops|
  {
    if ops != [] {
      var op := ops[0];
      EvictedStep(c, m, full, op, start);
      if op.Allow? {
        AllowKeepsRange(c, Find(full, op.id), op.now);
        CleanupInvisible(c, Step(c, m, op), Step(c, full, op), ops[1..], op.now);
        assert CallsOnly(ops) == [op] + CallsOnly(ops[1..]);
      } else {
        CleanupInvisible(c, Step(c, m, op), full, ops[1..], op.now);
        assert CallsOnly(ops) == CallsOnly(ops[1..]);
        assert Decisions(c, m, ops) == Decisions(c, Step(c, m, op), ops[1..]);
      }
    }
  }

  // When an evicted bucket would not have been full, some client can tell.

  const CLIENT := "client"

  function Solo(tokens: int, now: int): Buckets {
    map[CLIENT := Bucket(tokens, now)]
  }

  function Repeat(now: int, n: nat): seq<Op> {
    if n == 0 then [] else [Allow(CLIENT, now)] + Repeat(now, n - 1)
  }

  /** `n` calls at one moment: as many are admitted as there are tokens. */
  function BurstAnswers(tokens: nat, n: nat): (r: seq<bool>)
    ensures |r| == n && (n > 0 ==> r[n - 1] == (tokens >= n))
  {
    if n == 0 then [] else [tokens > 0] + BurstAnswers(Left(tokens, 1), n - 1)
  }

  function Left(tokens: nat, n: nat): nat {
    if tokens >= n then tokens - n else 0
  }

  lemma {:induction false} DecisionsSplit(c: Config, m: Buckets, a: seq<Op>, b: seq<Op>)
    ensures Decisions(c, m, a + b) == Decisions(c, m, a) + Decisions(c, After(c, m, a), b)
    decreases |a|
  {
    if a == [] {
      assert a + b == b;
    } else {
      assert (a + b)[0] == a[0] && (a + b)[1..] == a[1..] + b;
      DecisionsSplit(c, Step(c, m, a[0]), a[1..], b);
    }
  }

  lemma {:induction false} CallsSplit(a: seq<Op>, b: seq<Op>)
    ensures CallsOnly(a + b) == CallsOnly(a) + CallsOnly(b)
  {
    if a == [] {
      assert a + b == b;
    } else {
      assert (a + b)[0] == a[0] && (a + b)[1..] == a[1..] + b;
      CallsSplit(a[1..], b);
    }
  }

  lemma SameMoment(c: Config, tokens: nat, now: int)
    requires c.Sane() && tokens <= c.maxBurst
    ensures AllowOne(c, Some(Bucket(tokens, now)), now) == (tokens > 0, Bucket(Left(tokens, 1), now))
  {
  }

  /** A burst whose first call finds `tokens` tokens in a limiter that knows no other client. */
  lemma {:induction false} Burst(c: Config, m: Buckets, tokens: nat, now: int, n: nat)
    requires c.Sane() && tokens <= c.maxBurst && m.Keys <= {CLIENT} && n > 0
    requires AllowOne(c, Find(m, CLIENT), now) == (tokens > 0, Bucket(Left(tokens, 1), now))
    ensures After(c, m, Repeat(now, n)) == Solo(Left(tokens, n), now)
    ensures Decisions(c, m, Repeat(now, n)) == BurstAnswers(tokens, n)
    decreases n
  {
    var t, ops := Left(tokens, 1), Repeat(now, n);
    assert ops[0] == Allow(CLIENT, now) && ops[1..] == Repeat(now, n - 1);
    assert Step(c, m, ops[0]) == Solo(t, now);
    if n > 1 {
      SameMoment(c, t, now);
      assert Find(Solo(t, now), CLIENT) == Some(Bucket(t, now));
      Burst(c, Solo(t, now), t, now, n - 1);
      assert Left(t, n - 1) == Left(tokens, n);
    }
  }

  lemma {:induction false} RepeatFacts(now: int, n: nat, rest: seq<Op>, start: int)
    requires start <= now && Timed(rest, now)
    ensures Timed(Repeat(now, n) + rest, start)
    ensures CallsOnly(Repeat(now, n)) == Repeat(now, n)
  {
    var ops := Repeat(now, n) + rest;
    if n == 0 {
      assert ops == rest;
    } else {
      assert ops[0] == Allow(CLIENT, now) && ops[1..] == Repeat(now, n - 1) + rest;
      assert Repeat(now, n)[1..] == Repeat(now, n - 1);
      RepeatFacts(now, n - 1, rest, now);
    }
  }

  /** A burst empties a bucket, a cleanup evicts it, and a second burst shows the difference. */
  function Probe(c: Config): seq<Op>
    requires c.Sane()
  {
    Repeat(0, c.maxBurst) + ([Cleanup(TEN_MINUTES + 1)] + Repeat(TEN_MINUTES + 1, c.maxBurst))
  }

  lemma ProbeShape(c: Config)
    requires c.Sane()
    ensures Timed(Probe(c), 0)
    ensures CallsOnly(Probe(c)) == Repeat(0, c.maxBurst) + Repeat(TEN_MINUTES + 1, c.maxBurst)
  {
    var n, later := c.maxBurst, TEN_MINUTES + 1;
    var tail := [Cleanup(later)] + Repeat(later, n);
    ProbeTail(n, later);
    RepeatFacts(0, n, tail, 0);
    CallsSplit(Repeat(0, n), tail);
  }

  lemma ProbeTail(n: nat, later: int)
    ensures var tail := [Cleanup(later)] + Repeat(later, n); Timed(tail, later) && CallsOnly(tail) == Repeat(later, n)
  {
    var second := Repeat(later, n);
    var tail := [Cleanup(later)] + second;
    assert tail[0] == Cleanup(later) && tail[1..] == second;
    RepeatFacts(later, n, [], later);
    assert second + [] == second;
  }

  /** After the eviction the whole second burst is admitted. */
  lemma BurstAfterEviction(c: Config)
    requires c.Sane()
    ensures var later, n := TEN_MINUTES + 1, c.maxBurst;
            Decisions(c, Solo(0, 0), [Cleanup(later)] + Repeat(later, n)) == BurstAnswers(n, n)
  {
    var later, n := TEN_MINUTES + 1, c.maxBurst;
    var tail := [Cleanup(later)] + Repeat(later, n);
    assert tail[0] == Cleanup(later) && tail[1..] == Repeat(later, n);
    assert Step(c, Solo(0, 0), Cleanup(later)) == map[];
    Burst(c, map[], n, later, n);
  }

  /** With the bucket kept, only the tokens earned meanwhile are there. */
  lemma BurstWithoutEviction(c: Config)
    requires c.Sane() && !RefillsBeforeEviction(c)
    ensures var later, n := TEN_MINUTES + 1, c.maxBurst;
            Refill(c, later) >= 0 && Decisions(c, Solo(0, 0), Repeat(later, n)) == BurstAnswers(Refill(c, later), n)
  {
    RefillMonotone(c, 0, TEN_MINUTES + 1);
    Burst(c, Solo(0, 0), Refill(c, TEN_MINUTES + 1), TEN_MINUTES + 1, c.maxBurst);
  }

  lemma ProbeSeesCleanup(c: Config)
    requires c.Sane() && !RefillsBeforeEviction(c)
    ensures Timed(Probe(c), 0)
    ensures Decisions(c, map[], Probe(c)) != Decisions(c, map[], CallsOnly(Probe(c)))
  {
    var n, later := c.maxBurst, TEN_MINUTES + 1;
    var first, second := Repeat(0, n), Repeat(later, n);
    var tail := [Cleanup(later)] + second;
    ProbeShape(c);
    Burst(c, map[], n, 0, n);
    DecisionsSplit(c, map[], first, tail);
    DecisionsSplit(c, map[], first, second);
    BurstAfterEviction(c);
    BurstWithoutEviction(c);
    var ds := BurstAnswers(n, n);
    assert ds[n - 1] != BurstAnswers(Refill(c, later), n)[n - 1];
    assert Decisions(c, map[], Probe(c))[|ds|..] == Decisions(c, Solo(0, 0), tail);
    assert Decisions(c, map[], CallsOnly(Probe(c)))[|ds|..] == Decisions(c, Solo(0, 0), second);
  }

  predicate TimeOrdered(ops: seq<Op>) {
    ops == [] || Timed(ops, ops[0].now)
  }

  /** The decisions of this run are those of its calls alone. */
  predicate SameWithoutCleanup(c: Config, ops: seq<Op>) {
    Decisions(c, map[], ops) == Decisions(c, map[], CallsOnly(ops))
  }

  /**
   Cleanup is unobservable exactly when a bucket refills completely before it
   can be evicted: then every time-ordered interleaving of calls and cleanups
   gives the decisions of the calls alone, and otherwise some interleaving does not.
   */
  lemma CleanupUnobservable(c: Config)
    requires c.Sane()
    ensures RefillsBeforeEviction(c) <==>
            forall ops: seq<Op> | TimeOrdered(ops) :: SameWithoutCleanup(c, ops)
  {
    if RefillsBeforeEviction(c) {
      forall ops: seq<Op> | TimeOrdered(ops)
        ensures SameWithoutCleanup(c, ops)
      {
        CleanupInvisible(c, map[], map[], ops, if ops == [] then 0 else ops[0].now);
      }
    } else {
      ProbeSeesCleanup(c);
      assert TimeOrdered(Probe(c)) && !SameWithoutCleanup(c, Probe(c));
    }
  }

  /** The server's default limits: 60 requests a minute with a burst of 10. */
  const DEFAULT_LIMITS := Config(60, 60_000_000_000, 10)

  /** Under the default limits cleanup is unobservable, and at most 10 + 60 calls per minute get through. */
  lemma DefaultLimits(before: seq<Op>, window: seq<Op>, id: string, start: int, s: int)
    requires Timed(before + window, start) && window != [] && window[0] == Allow(id, s)
    requires forall op | op in window :: op.now <= s + 60_000_000_000
    ensures forall ops: seq<Op> | TimeOrdered(ops) :: SameWithoutCleanup(DEFAULT_LIMITS, ops)
    ensures Count(DecisionsFor(DEFAULT_LIMITS, After(DEFAULT_LIMITS, map[], before), id, window)) <= 70
  {
    assert Refill(DEFAULT_LIMITS, TEN_MINUTES + 1) == 600;
    CleanupUnobservable(DEFAULT_LIMITS);
    WindowBound(DEFAULT_LIMITS, before, window, id, start, s, s + 60_000_000_000);
  }
}
