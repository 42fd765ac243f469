/**
 The rate limiter of internal/middleware/ratelimit.go: a map from identifiers
 to buckets that `Allow` creates and updates in place and `Cleanup` evicts.
 The mutex makes each method one atomic step; `now` is the clock read under it.
 */
module RateLimiter {
  import opened Basics
  import TB = TokenBucket

  class BucketCell {
    var tokens: int
    var lastSeen: int

    constructor (tokens: int, lastSeen: int)
      ensures this.tokens == tokens && this.lastSeen == lastSeen
    {
      this.tokens := tokens;
      this.lastSeen := lastSeen;
    }
  }

  class RateLimiter {
    var buckets: map<string, BucketCell>
    const config: TB.Config

    /** No two identifiers share a bucket object. */
    ghost predicate Valid()
      reads this
    {
      forall i, j | i in buckets && j in buckets && i != j :: buckets[i] != buckets[j]
    }

    /** The limiter's state as a value. */
    ghost function Contents(): TB.Buckets
      reads this, buckets.Values
    {
      map id | id in buckets :: TB.Bucket(buckets[id].tokens, buckets[id].lastSeen)
    }

    constructor (rate: int, interval: Positive, maxBurst: int)
      ensures Valid() && Contents() == map[]
      ensures config == TB.Config(rate, interval, maxBurst)
    {
      buckets := map[];
      config := TB.Config(rate, interval, maxBurst);
    }

    method Allow(identifier: string, now: int) returns (allowed: bool)
      requires Valid()
      modifies this, buckets.Values
      ensures Valid() && fresh(buckets.Values - old(buckets.Values))
      ensures allowed == TB.AllowOne(config, Find(old(Contents()), identifier), now).0
      ensures Contents() == TB.Step(config, old(Contents()), TB.Allow(identifier, now))
    {
      if identifier !in buckets {
        var cell := new BucketCell(config.maxBurst - 1, now);
        buckets := buckets[identifier := cell];
        return true;
      }
      var b := buckets[identifier];
      var elapsed := now - b.lastSeen;
      var tokensToAdd := TB.Refill(config, elapsed);
      b.tokens := Min(b.tokens + tokensToAdd, config.maxBurst);
      b.lastSeen := now;
      allowed := b.tokens > 0;
      if allowed {
        b.tokens := b.tokens - 1;
      }
      OneBucketChanged(identifier);
    }

    /** Updating one bucket in place updates one entry of the contents. */
    twostate lemma OneBucketChanged(identifier: string)
      requires old(Valid()) && buckets == old(buckets) && identifier in buckets
      requires forall id | id in buckets && id != identifier :: unchanged(buckets[id])
      ensures Contents() == old(Contents())[identifier := TB.Bucket(buckets[identifier].tokens, buckets[identifier].lastSeen)]
    {
    }

    /** Dropping the stale buckets from the map sweeps the contents. */
    twostate lemma StaleDropped(now: int)
      requires forall id | id in buckets :: id in old(buckets) && buckets[id] == old(buckets[id])
      requires forall id | id in old(buckets) :: unchanged(old(buckets[id]))
      requires forall id | id in old(buckets) :: id in buckets <==> !(old(buckets[id].lastSeen) < now - TB.TEN_MINUTES)
      ensures Contents() == TB.Swept(old(Contents()), now)
    {
    }

    /** Evicts while ranging over the map in an arbitrary order, as Go's `range` does. */
    method Cleanup(now: int)
      requires Valid()
      modifies this`buckets
      ensures Valid() && buckets.Values <= old(buckets.Values)
      ensures Contents() == TB.Step(config, old(Contents()), TB.Cleanup(now))
    {
      var cutoff := now - TB.TEN_MINUTES;
      var pending := buckets.Keys;
      while pending != {}
        invariant pending <= buckets.Keys <= old(buckets.Keys)
        invariant forall id | id in buckets :: buckets[id] == old(buckets)[id]
        invariant forall id | id in old(buckets) && id !in pending ::
                    id in buckets <==> !(old(buckets)[id].lastSeen < cutoff)
        decreases |pending|
      {
        var key :| key in pending;
        pending := pending - {key};
        if buckets[key].lastSeen < cutoff {
          buckets := buckets - {key};
        }
      }
      StaleDropped(now);
    }
  }
}
