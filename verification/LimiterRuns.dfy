/** One identifier's view of a run: a limiter is a family of independent single buckets. */
module LimiterRuns {
  import opened Basics
  import opened TokenBucket

  // ---------- a limiter with a single bucket ----------

  function StepOne(c: Config, b: Option<Bucket>, op: Op): Option<Bucket> {
    match op
    case Allow(_, now) => Some(AllowOne(c, b, now).1)
    case Cleanup(now) => if b.Some? && Stale(b.value, now) then None else b
  }

  function AfterOne(c: Config, b: Option<Bucket>, ops: seq<Op>): Option<Bucket>
    decreases |ops|
  {
    if ops == [] then b else AfterOne(c, StepOne(c, b, ops[0]), ops[1..])
  }

  function DecisionsOne(c: Config, b: Option<Bucket>, ops: seq<Op>): seq<bool>
    decreases |ops|
  {
    if ops == [] then [] else
      (if ops[0].Allow? then [AllowOne(c, b, ops[0].now).0] else [])
      + DecisionsOne(c, StepOne(c, b, ops[0]), ops[1..])
  }

  /** The calls of one identifier, together with every cleanup. */
  function Projection(id: string, ops: seq<Op>): seq<Op> {
    if ops == [] then [] else
      (if ops[0].Cleanup? || ops[0].id == id then [ops[0]] else []) + Projection(id, ops[1..])
  }

  /** The time of the last call in `ops`, admitted or denied, or `otherwise` if there is none. */
  function LastCall(ops: seq<Op>, otherwise: int): int {
    if ops == [] then otherwise
    else LastCall(ops[1..], if ops[0].Allow? then ops[0].now else otherwise)
  }

  function Count(ds: seq<bool>): nat {
    if ds == [] then 0 else (if ds[0] then 1 else 0) + Count(ds[1..])
  }

  /**
   Non-interference: other identifiers' calls change neither the answers an
   identifier gets nor the bucket it ends with.
   */
  lemma {:induction false} NonInterference(c: Config, m: Buckets, id: string, ops: seq<Op>)
    ensures Find(After(c, m, ops), id) == AfterOne(c, Find(m, id), Projection(id, ops))
    ensures DecisionsFor(c, m, id, ops) == DecisionsOne(c, Find(m, id), Projection(id, ops))
    decreases |ops|
  {
    if ops != [] {
      var m' := Step(c, m, ops[0]);
      NonInterference(c, m', id, ops[1..]);
      if ops[0].Cleanup? || ops[0].id == id {
        assert Find(m', id) == StepOne(c, Find(m, id), ops[0]);
        var p := Projection(id, ops);
        assert p[0] == ops[0] && p[1..] == Projection(id, ops[1..]);
      } else {
        assert Find(m', id) == Find(m, id);
        assert Projection(id, ops) == Projection(id, ops[1..]);
      }
    }
  }

  lemma {:induction false} ProjectionTimed(id: string, ops: seq<Op>, start: int, earlier: int)
    requires Timed(ops, start) && earlier <= start
    ensures Timed(Projection(id, ops), earlier)
    ensures forall op | op in Projection(id, ops) :: op in ops
  {
    if ops != [] {
      if ops[0].Cleanup? || ops[0].id == id {
        ProjectionTimed(id, ops[1..], ops[0].now, ops[0].now);
        assert Projection(id, ops) == [ops[0]] + Projection(id, ops[1..]);
      } else {
        ProjectionTimed(id, ops[1..], ops[0].now, earlier);
        assert Projection(id, ops) == Projection(id, ops[1..]);
      }
    }
  }

  lemma {:induction false} LastSeenOne(c: Config, b: Option<Bucket>, ops: seq<Op>, otherwise: int)
    requires b.Some? ==> b.value.lastSeen == otherwise
    ensures var b' := AfterOne(c, b, ops); b'.Some? ==> b'.value.lastSeen == LastCall(ops, otherwise)
    decreases |ops|
  {
    if ops != [] {
      LastSeenOne(c, StepOne(c, b, ops[0]), ops[1..], if ops[0].Allow? then ops[0].now else otherwise);
    }
  }

  /** A live bucket's `lastSeen` is the time of its identifier's last call, admitted or denied. */
  lemma LastSeenIsLastCall(c: Config, id: string, ops: seq<Op>, otherwise: int)
    ensures var m := After(c, map[], ops);
            id in m ==> m[id].lastSeen == LastCall(Projection(id, ops), otherwise)
  {
    NonInterference(c, map[], id, ops);
    LastSeenOne(c, None, Projection(id, ops), otherwise);
  }

  // ---------- the exact answers to calls at one moment ----------

  function Calls(id: string, now: int, n: nat): (ops: seq<Op>)
    ensures |ops| == n && forall i | 0 <= i < n :: ops[i] == Allow(id, now)
  {
    seq(n, _ => Allow(id, now))
  }

  /** A bucket seen at this very moment admits as many calls as it has tokens. */
  lemma {:induction false} FullyCharged(c: Config, tokens: nat, id: string, now: int, n: nat)
    requires c.Sane() && tokens <= c.maxBurst
    ensures var ds := DecisionsOne(c, Some(Bucket(tokens, now)), Calls(id, now, n));
            && |ds| == n && (forall i | 0 <= i < n :: ds[i] <==> i < tokens) && Count(ds) == Min(n, tokens)
    ensures AfterOne(c, Some(Bucket(tokens, now)), Calls(id, now, n)) == Some(Bucket(tokens - Min(n, tokens), now))
  {
    if n > 0 {
      var rest := if tokens > 0 then tokens - 1 else 0;
      var ds := DecisionsOne(c, Some(Bucket(rest, now)), Calls(id, now, n - 1));
      assert Calls(id, now, n)[0] == Allow(id, now) && Calls(id, now, n)[1..] == Calls(id, now, n - 1);
      assert Refill(c, 0) == 0;
      assert AllowOne(c, Some(Bucket(tokens, now)), now) == (tokens > 0, Bucket(rest, now));
      FullyCharged(c, rest, id, now, n - 1);
      assert DecisionsOne(c, Some(Bucket(tokens, now)), Calls(id, now, n)) == [tokens > 0] + ds;
    }
  }

  /** The first call at a moment finds the bucket as charged as the pause before it allows. */
  lemma Charges(c: Config, b: Option<Bucket>, now: int)
    requires c.Sane() && (b.Some? ==> 0 <= b.value.tokens <= c.maxBurst && b.value.lastSeen <= now)
    ensures var available := if b.None? then c.maxBurst
                             else Min(b.value.tokens + (now - b.value.lastSeen) * c.rate / c.interval, c.maxBurst);
            0 <= available <= c.maxBurst && AllowOne(c, b, now) == AllowOne(c, Some(Bucket(available, now)), now)
  {
    assert Refill(c, 0) == 0;
    if b.Some? {
      RefillMonotone(c, 0, now - b.value.lastSeen);
    }
  }

  lemma OneBucketBurst(c: Config, b: Option<Bucket>, id: string, now: int, n: nat)
    requires c.Sane() && n > 0 && (b.Some? ==> 0 <= b.value.tokens <= c.maxBurst && b.value.lastSeen <= now)
    ensures var ds := DecisionsOne(c, b, Calls(id, now, n));
            var available := if b.None? then c.maxBurst
                             else Min(b.value.tokens + (now - b.value.lastSeen) * c.rate / c.interval, c.maxBurst);
            && |ds| == n && (forall i | 0 <= i < n :: ds[i] <==> i < available) && Count(ds) == Min(n, available)
            && AfterOne(c, b, Calls(id, now, n)) == Some(Bucket(available - Min(n, available), now))
  {
    var calls := Calls(id, now, n);
    var available := if b.None? then c.maxBurst
                     else Min(b.value.tokens + (now - b.value.lastSeen) * c.rate / c.interval, c.maxBurst);
    Charges(c, b, now);
    FullyCharged(c, available, id, now, n);
    assert calls[0] == Allow(id, now);
    assert StepOne(c, b, calls[0]) == StepOne(c, Some(Bucket(available, now)), calls[0]);
    assert DecisionsOne(c, b, calls) == DecisionsOne(c, Some(Bucket(available, now)), calls);
  }

  /**
   The exact answers: `n` calls of one identifier at the same moment, after any
   run and among any calls of others, are admitted up to the tokens the bucket
   had left and those earned since its last call, at most a full burst, and are
   denied from then on; a caller without a bucket has a full burst.
   */
  lemma ExactBurst(c: Config, before: seq<Op>, window: seq<Op>, id: string, start: int, now: int, n: nat)
    requires c.Sane() && Timed(before + window, start) && n > 0 && Projection(id, window) == Calls(id, now, n)
    ensures var m := After(c, map[], before);
            var ds := DecisionsFor(c, m, id, window);
            var available := if id !in m then c.maxBurst
                             else Min(m[id].tokens + (now - m[id].lastSeen) * c.rate / c.interval, c.maxBurst);
            && |ds| == n && (forall i | 0 <= i < n :: ds[i] <==> i < available) && Count(ds) == Min(n, available)
            && Find(After(c, m, window), id) == Some(Bucket(available - Min(n, available), now))
  {
    var m, calls := After(c, map[], before), Calls(id, now, n);
    TimedSplit(before, window, start);
    var mid := if before == [] then start else before[|before| - 1].now;
    RunKeepsRange(c, map[], before, start, mid);
    NonInterference(c, m, id, window);
    ProjectionTimed(id, window, mid, mid);
    assert calls[0] == Allow(id, now);
    OneBucketBurst(c, Find(m, id), id, now, n);
  }

  // ---------- how often a bucket may be evicted before it matters ----------

  /** A bucket left alone long enough to be evicted would have filled up anyway. */
  predicate RefillsBeforeEviction(c: Config) {
    Refill(c, TEN_MINUTES + 1) >= c.maxBurst
  }

  // ---------- the window bound ----------

  /** Whole bursts handed out by recreating a bucket after each eviction within a span of time. */
  function Recreated(c: Config, span: int): int {
    c.maxBurst * (span / TEN_MINUTES)
  }

  /** Tokens that a span of time can add to a bucket, evictions included. */
  function Budget(c: Config, span: int): int {
    Refill(c, span) + if RefillsBeforeEviction(c) then 0 else Recreated(c, span)
  }

  lemma RecreatedGrows(c: Config, a: int, b: int)
    requires c.Sane() && 0 <= a && 0 <= b
    ensures 0 <= Recreated(c, b) <= Recreated(c, a + b)
    ensures a > TEN_MINUTES ==> c.maxBurst + Recreated(c, b) <= Recreated(c, a + b)
  {
    var x, y := b / TEN_MINUTES, (a + b) / TEN_MINUTES;
    DivMonotone(b, a + b, TEN_MINUTES);
    MulMonotone(c.maxBurst, 0, x);
    MulMonotone(c.maxBurst, x, y);
    if a > TEN_MINUTES {
      assert x + 1 <= y;
      MulMonotone(c.maxBurst, x + 1, y);
    }
  }

  lemma MulMonotone(k: int, x: int, y: int)
    requires 0 <= k && x <= y
    ensures k * x <= k * y
    ensures k * (x + 1) == k * x + k
  {
  }

  lemma BudgetGrows(c: Config, a: int, b: int)
    requires c.Sane() && 0 <= a && 0 <= b
    ensures 0 <= Budget(c, b)
    ensures Refill(c, a) + Budget(c, b) <= Budget(c, a + b)
    ensures a > TEN_MINUTES ==> c.maxBurst + Budget(c, b) <= Budget(c, a + b)
  {
    RefillSuperadditive(c, a, b);
    RefillMonotone(c, 0, b);
    RefillMonotone(c, 0, a);
    if a > TEN_MINUTES {
      RefillMonotone(c, TEN_MINUTES + 1, a);
    }
    RecreatedGrows(c, a, b);
  }

  /**
   The potential argument: calls admitted from now on are paid for by the
   tokens in the bucket and by what time adds. An evicted bucket has no tokens,
   and its next call comes more than ten minutes after its last one.
   */
  lemma {:induction false} AdmittedWithinBudget(c: Config, b: Option<Bucket>, ops: seq<Op>, last: int, start: int, end: int)
    requires c.Sane() && Timed(ops, start) && last <= start && last <= end
    requires b.Some? ==> 0 <= b.value.tokens <= c.maxBurst && b.value.lastSeen == last
    requires b.None? ==> last + TEN_MINUTES < start
    requires forall op | op in ops :: op.now <= end
    ensures Count(DecisionsOne(c, b, ops)) <= (if b.Some? then b.value.tokens else 0) + Budget(c, end - last)
    decreases |ops|
  {
    if ops == [] {
      BudgetGrows(c, 0, end - last);
    } else {
      var op, b' := ops[0], StepOne(c, b, ops[0]);
      if op.Allow? {
        RefillMonotone(c, 0, op.now - last);
        AdmittedWithinBudget(c, b', ops[1..], op.now, op.now, end);
        BudgetGrows(c, op.now - last, end - op.now);
        var d := AllowOne(c, b, op.now).0;
        assert DecisionsOne(c, b, ops) == [d] + DecisionsOne(c, b', ops[1..]);
      } else {
        AdmittedWithinBudget(c, b', ops[1..], last, op.now, end);
        assert DecisionsOne(c, b, ops) == DecisionsOne(c, b', ops[1..]);
      }
    }
  }

  /** The bound for a single bucket, from a call at `s` on. */
  lemma OneBucketWindow(c: Config, b: Option<Bucket>, ops: seq<Op>, id: string, start: int, s: int, t: int)
    requires c.Sane() && Timed(ops, start) && ops != [] && ops[0] == Allow(id, s)
    requires b.Some? ==> 0 <= b.value.tokens <= c.maxBurst && b.value.lastSeen <= start
    requires forall op | op in ops :: op.now <= t
    ensures s <= t && Count(DecisionsOne(c, b, ops)) <= c.maxBurst + Budget(c, t - s)
  {
    assert ops[0] in ops;
    if b.Some? {
      RefillMonotone(c, 0, s - b.value.lastSeen);
    }
    var b' := StepOne(c, b, ops[0]);
    AdmittedWithinBudget(c, b', ops[1..], s, s, t);
    assert DecisionsOne(c, b, ops) == [AllowOne(c, b, s).0] + DecisionsOne(c, b', ops[1..]);
  }

  /**
   Window bound: in any run of a limiter, between a call of `id` at `s` and any
   later moment `t`, at most a burst plus the budget of `t - s` calls of `id` are admitted.
   */
  lemma WindowBound(c: Config, before: seq<Op>, window: seq<Op>, id: string, start: int, s: int, t: int)
    requires c.Sane() && Timed(before + window, start)
    requires window != [] && window[0] == Allow(id, s)
    requires forall op | op in window :: op.now <= t
    ensures var admitted := Count(DecisionsFor(c, After(c, map[], before), id, window));
            && admitted <= c.maxBurst + Recreated(c, t - s) + Refill(c, t - s)
            && (RefillsBeforeEviction(c) ==> admitted <= c.maxBurst + Refill(c, t - s))
  {
    var m := After(c, map[], before);
    TimedSplit(before, window, start);
    var mid := if before == [] then start else before[|before| - 1].now;
    RunKeepsRange(c, map[], before, start, mid);
    NonInterference(c, m, id, window);
    var ops := Projection(id, window);
    ProjectionTimed(id, window, mid, mid);
    assert ops == [window[0]] + Projection(id, window[1..]);
    OneBucketWindow(c, Find(m, id), ops, id, mid, s, t);
    RecreatedGrows(c, 0, t - s);
  }

  lemma {:induction false} TimedSplit(a: seq<Op>, b: seq<Op>, start: int)
    requires Timed(a + b, start)
    ensures var mid := if a == [] then start else a[|a| - 1].now;
            start <= mid && Timed(a, start) && Timed(b, mid) && forall op | op in a :: op.now <= mid
  {
    if a == [] {
      assert a + b == b;
    } else {
      assert (a + b)[1..] == a[1..] + b;
      TimedSplit(a[1..], b, a[0].now);
    }
  }

  // ---------- exact service rate ----------

  /** Every call comes long enough after the previous one to earn a whole token. */
  ghost predicate Spaced(c: Config, last: int, ops: seq<Op>)
    decreases |ops|
  {
    ops != [] ==>
      match ops[0]
      case Allow(_, now) => (now - last) * c.rate >= c.interval && Spaced(c, now, ops[1..])
      case Cleanup(_) => Spaced(c, last, ops[1..])
  }

  /** Every call comes too soon after the previous one to earn a whole token, and no cleanup evicts the bucket. */
  ghost predicate Hurried(c: Config, last: int, ops: seq<Op>)
    decreases |ops|
  {
    ops != [] ==>
      match ops[0]
      case Allow(_, now) => 0 <= (now - last) * c.rate < c.interval && Hurried(c, now, ops[1..])
      case Cleanup(now) => now - last <= TEN_MINUTES && Hurried(c, last, ops[1..])
  }

  lemma {:induction false} SpacedNeverDenied(c: Config, b: Option<Bucket>, ops: seq<Op>, last: int)
    requires c.Sane() && Spaced(c, last, ops)
    requires b.Some? ==> 0 <= b.value.tokens && b.value.lastSeen == last
    ensures forall d | d in DecisionsOne(c, b, ops) :: d
    decreases |ops|
  {
    if ops != [] {
      var b' := StepOne(c, b, ops[0]);
      if ops[0].Allow? {
        DivBounds((ops[0].now - last) * c.rate, 1, c.interval);
        SpacedNeverDenied(c, b', ops[1..], ops[0].now);
      } else {
        SpacedNeverDenied(c, b', ops[1..], last);
      }
    }
  }

  lemma {:induction false} HurriedAlwaysDenied(c: Config, b: Bucket, ops: seq<Op>)
    requires c.Sane() && b.tokens == 0 && Hurried(c, b.lastSeen, ops)
    ensures forall d | d in DecisionsOne(c, Some(b), ops) :: !d
    decreases |ops|
  {
    if ops != [] {
      if ops[0].Allow? {
        DivBounds((ops[0].now - b.lastSeen) * c.rate, 0, c.interval);
        DivBounds((ops[0].now - b.lastSeen) * c.rate, 1, c.interval);
        HurriedAlwaysDenied(c, Bucket(0, ops[0].now), ops[1..]);
        assert StepOne(c, Some(b), ops[0]) == Some(Bucket(0, ops[0].now));
      } else {
        HurriedAlwaysDenied(c, b, ops[1..]);
      }
    }
  }

  /**
   Exact service rate, in any run of a limiter shared with others: from any
   reachable state, calls at least `interval / rate` apart are all admitted, and
   calls closer together than that are all denied once the bucket is empty.
   An identifier without a bucket may count from any earlier moment `last`.
   */
  lemma ServiceRate(c: Config, before: seq<Op>, ops: seq<Op>, id: string, start: int, last: int)
    requires c.Sane() && Timed(before + ops, start)
    requires var m := After(c, map[], before); id in m ==> m[id].lastSeen == last
    ensures var m, mine := After(c, map[], before), Projection(id, ops);
            var ds := DecisionsFor(c, m, id, ops);
            && (Spaced(c, last, mine) ==> forall d | d in ds :: d)
            && (id in m && m[id].tokens == 0 && Hurried(c, last, mine) ==> forall d | d in ds :: !d)
  {
    var m, mine := After(c, map[], before), Projection(id, ops);
    NonInterference(c, m, id, ops);
    TimedSplit(before, ops, start);
    RunKeepsRange(c, map[], before, start, if before == [] then start else before[|before| - 1].now);
    if Spaced(c, last, mine) {
      SpacedNeverDenied(c, Find(m, id), mine, last);
    }
    if id in m && m[id].tokens == 0 && Hurried(c, last, mine) {
      HurriedAlwaysDenied(c, m[id], mine);
    }
  }
}
