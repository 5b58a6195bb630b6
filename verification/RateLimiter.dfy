/** The per-client rate limiter of backend/main.py over the token bucket of
    backend/utils/rate_limiter.py: lazily made buckets, a last-seen map and a periodic
    cleanup that forgets stale clients. Time and tokens are exact reals. */
module RateLimiter {

  /** API_RATE_LIMIT_BURST, _REQUESTS_PER_WINDOW and _WINDOW_SECONDS. */
  datatype Settings = Settings(burst: int, perWindow: int, window: int)

  datatype Bounds = Bounds(burst: nat, rate: real, staleAfter: real)
  {
    function Capacity(): real { burst as real }

    /** A client silent for the stale age has refilled completely. */
    predicate Forgiving() { staleAfter * rate >= Capacity() }
  }

  /** What the limiter makes of its settings. The quotient is taken here once, so that nothing else
      has to reason about a division. */
  type Limits = b: Bounds | b.burst >= 1 && b.rate > 0.0 && b.staleAfter >= 300.0
    witness Bounds(1, 1.0, 300.0)

  function LimitsOf(s: Settings): Limits {
    Bounds(Max(1, s.burst), Max(1, s.perWindow) as real / Max(1, s.window) as real, Max(300, s.window * 20) as real)
  }

  const CLEANUP_EVERY: real := 60.0

  function Max(a: int, b: int): int { if a < b then b else a }
  function Min(a: real, b: real): real { if a < b then a else b }

  // ---------------------------------------------------------------------------
  // Values
  // ---------------------------------------------------------------------------

  datatype Bucket = Bucket(tokens: real, last: real)

  /** What one call reports: admitted or not, seconds to wait, tokens left. */
  datatype Verdict = Verdict(allowed: bool, wait: real, left: real)

  datatype Limiter = Limiter(buckets: map<string, Bucket>, lastSeen: map<string, real>, lastCleanup: real)

  datatype Call = Call(key: string, now: real)

  function Full(cfg: Limits, now: real): Bucket { Bucket(cfg.Capacity(), now) }

  /** Tokens a rate yields between two times. */
  function Earned(rate: real, from: real, to: real): real { (to - from) * rate }

  function Refilled(cfg: Limits, b: Bucket, now: real): Bucket {
    Bucket(Min(cfg.Capacity(), b.tokens + Earned(cfg.rate, b.last, now)), now)
  }

  /** The outcome of a call on a bucket refilled at the moment of the call. */
  function Spend(cfg: Limits, b: Bucket): (Bucket, Verdict) {
    if b.tokens >= 1.0 then (b.(tokens := b.tokens - 1.0), Verdict(true, 0.0, b.tokens - 1.0))
    else (b, Verdict(false, (1.0 - b.tokens) / cfg.rate, b.tokens))
  }

  function Lookup(cfg: Limits, m: map<string, Bucket>, c: Call): Bucket {
    if c.key in m then m[c.key] else Full(cfg, c.now)
  }

  function StaleKeys(cfg: Limits, seen: map<string, real>, now: real): set<string> {
    set k | k in seen && now - seen[k] >= cfg.staleAfter
  }

  function Swept(cfg: Limits, s: Limiter, now: real): Limiter {
    if now - s.lastCleanup < CLEANUP_EVERY then s
    else
      var stale := StaleKeys(cfg, s.lastSeen, now);
      Limiter(s.buckets - stale, s.lastSeen - stale, now)
  }

  function Put(s: Limiter, key: string, b: Bucket): Limiter { s.(buckets := s.buckets[key := b]) }

  /** The caller's bucket found or made, and refilled; the caller seen now. */
  function Touched(cfg: Limits, s: Limiter, c: Call): Limiter {
    Limiter(s.buckets[c.key := Refilled(cfg, Lookup(cfg, s.buckets, c), c.now)], s.lastSeen[c.key := c.now], s.lastCleanup)
  }

  /** One call of `consume`. */
  function Step(cfg: Limits, s: Limiter, c: Call): (Limiter, Verdict) {
    var touched := Touched(cfg, s, c);
    var (bucket, verdict) := Spend(cfg, touched.buckets[c.key]);
    (Swept(cfg, Put(touched, c.key, bucket), c.now), verdict)
  }

  /** The reference: one bucket per client, never forgotten. */
  function RefStep(cfg: Limits, m: map<string, Bucket>, c: Call): (map<string, Bucket>, Verdict) {
    var (bucket, verdict) := Spend(cfg, Refilled(cfg, Lookup(cfg, m, c), c.now));
    (m[c.key := bucket], verdict)
  }

  const FRESH: Limiter := Limiter(map[], map[], 0.0)

  // ---------------------------------------------------------------------------
  // The objects
  // ---------------------------------------------------------------------------

  class TokenBucket {
    ghost const owner: string
    const capacity: real
    const refillRate: real
    var tokens: real
    var lastRefill: real

    constructor (ghost owner: string, capacity: real, tokens: real, refillRate: real, now: real)
      ensures this.owner == owner && this.capacity == capacity && this.refillRate == refillRate
      ensures this.tokens == tokens && lastRefill == now
    {
      this.owner, this.capacity, this.refillRate := owner, capacity, refillRate;
      this.tokens, this.lastRefill := tokens, now;
    }

    function Value(): Bucket
      reads this
    {
      Bucket(tokens, lastRefill)
    }

    ghost function RefilledAt(now: real): Bucket
      reads this
    {
      Bucket(Min(capacity, tokens + Earned(refillRate, lastRefill, now)), now)
    }

    method Refill(now: real)
      modifies this
      ensures Value() == old(RefilledAt(now))
    {
      var elapsed := now - lastRefill;
      tokens := Min(capacity, tokens + elapsed * refillRate);
      lastRefill := now;
    }

    method Consume(n: real, now: real) returns (ok: bool)
      modifies this
      ensures ok == (old(RefilledAt(now)).tokens >= n)
      ensures Value() == old(RefilledAt(now)).(tokens := if ok then old(RefilledAt(now)).tokens - n else old(RefilledAt(now)).tokens)
    {
      Refill(now);
      if tokens >= n {
        tokens := tokens - n;
        return true;
      }
      return false;
    }

    method WaitTime(n: real, now: real) returns (seconds: real)
      requires refillRate > 0.0
      modifies this
      ensures Value() == old(RefilledAt(now))
      ensures seconds == if tokens >= n then 0.0 else (n - tokens) / refillRate
    {
      Refill(now);
      if tokens >= n {
        return 0.0;
      }
      var needed := n - tokens;
      return needed / refillRate;
    }

    /** A second refill at the same moment adds nothing. */
    lemma RefilledTwice(now: real)
      requires tokens <= capacity && lastRefill == now
      ensures RefilledAt(now) == Value()
    {
    }
  }

  ghost predicate Owned(m: map<string, TokenBucket>, repr: set<TokenBucket>, cfg: Limits) {
    forall k :: k in m ==>
      m[k] in repr && m[k].owner == k && m[k].capacity == cfg.Capacity() && m[k].refillRate == cfg.rate
  }

  ghost function Values(m: map<string, TokenBucket>, repr: set<TokenBucket>): map<string, Bucket>
    requires forall k :: k in m ==> m[k] in repr
    reads repr
  {
    map k | k in m :: m[k].Value()
  }

  lemma ValuesMinus(m: map<string, TokenBucket>, repr: set<TokenBucket>, gone: set<string>)
    requires forall k :: k in m ==> m[k] in repr
    ensures Values(m - gone, repr) == Values(m, repr) - gone
  {
  }

  lemma PutTwice(m: map<string, Bucket>, k: string, a: Bucket, b: Bucket)
    ensures m[k := a][k := b] == m[k := b]
  {
  }

  lemma MinusOne<T>(m: map<string, T>, gone: set<string>, k: string)
    ensures m - gone - {k} == m - (gone + {k})
  {
  }

  /** `InboundAPIRateLimiter`. The locks carry no state here: a call does not yield while it
      holds one, so only the set of their keys is kept. */
  class InboundLimiter {
    const cfg: Limits
    var buckets: map<string, TokenBucket>
    var locks: set<string>
    var lastSeen: map<string, real>
    var lastCleanup: real
    ghost var repr: set<TokenBucket>

    ghost predicate Valid()
      reads this
    {
      Owned(buckets, repr, cfg) && buckets.Keys == lastSeen.Keys == locks
    }

    ghost function View(): Limiter
      requires Owned(buckets, repr, cfg)
      reads this, repr
    {
      Limiter(Values(buckets, repr), lastSeen, lastCleanup)
    }

    constructor (settings: Settings)
      ensures Valid() && cfg == LimitsOf(settings) && View() == FRESH && fresh(repr)
    {
      cfg := LimitsOf(settings);
      buckets, locks, lastSeen, lastCleanup, repr := map[], {}, map[], 0.0, {};
    }

    method BucketFor(key: string, now: real) returns (bucket: TokenBucket)
      requires Owned(buckets, repr, cfg)
      modifies this`buckets, this`repr
      ensures Owned(buckets, repr, cfg) && key in buckets && bucket == buckets[key]
      ensures old(repr) <= repr && fresh(repr - old(repr))
      ensures Values(buckets, repr)
              == old(Values(buckets, repr))[key := Lookup(cfg, old(Values(buckets, repr)), Call(key, now))]
      ensures buckets.Keys == old(buckets).Keys + {key}
    {
      if key in buckets {
        return buckets[key];
      }
      bucket := new TokenBucket(key, cfg.Capacity(), cfg.Capacity(), cfg.rate, now);
      buckets := buckets[key := bucket];
      repr := repr + {bucket};
    }

    method Cleanup(now: real)
      requires Valid()
      modifies this`buckets, this`locks, this`lastSeen, this`lastCleanup
      ensures Valid() && View() == Swept(cfg, old(View()), now)
      ensures forall k :: k in buckets ==> k in old(buckets) && buckets[k] == old(buckets[k])
    {
      if now - lastCleanup < CLEANUP_EVERY {
        return;
      }
      var staleAfter := cfg.staleAfter;
      var staleKeys := set k | k in lastSeen && now - lastSeen[k] >= staleAfter;
      ForgetAll(staleKeys);
      lastCleanup := now;
      ValuesMinus(old(buckets), repr, staleKeys);
    }

    /** The loop of the cleanup: each key goes from all three maps. */
    method ForgetAll(staleKeys: set<string>)
      modifies this`buckets, this`locks, this`lastSeen
      ensures buckets == old(buckets) - staleKeys
      ensures lastSeen == old(lastSeen) - staleKeys
      ensures locks == old(locks) - staleKeys
    {
      var left := staleKeys;
      ghost var gone: set<string> := {};
      while left != {}
        invariant gone + left == staleKeys
        invariant buckets == old(buckets) - gone
        invariant lastSeen == old(lastSeen) - gone
        invariant locks == old(locks) - gone
      {
        var key :| key in left;
        MinusOne(old(buckets), gone, key);
        MinusOne(old(lastSeen), gone, key);
        left := left - {key};
        gone := gone + {key};
        lastSeen := lastSeen - {key};
        buckets := buckets - {key};
        locks := locks - {key};
      }
      assert gone == staleKeys;
    }

    method RefillOnly(key: string, bucket: TokenBucket, now: real)
      requires Owned(buckets, repr, cfg) && key in buckets && bucket == buckets[key]
      modifies bucket
      ensures key in old(Values(buckets, repr))
      ensures Values(buckets, repr)
              == old(Values(buckets, repr))[key := Refilled(cfg, old(Values(buckets, repr))[key], now)]
    {
      ghost var was := Values(buckets, repr);
      ghost var b := Refilled(cfg, bucket.Value(), now);
      bucket.Refill(now);
      assert bucket.Value() == b;
      forall k | k in buckets ensures Values(buckets, repr)[k] == was[key := b][k] {
      }
    }

    /** The client's bucket, found or made, and refilled. */
    method RefilledBucket(key: string, now: real) returns (bucket: TokenBucket)
      requires Owned(buckets, repr, cfg)
      modifies this`buckets, this`repr, repr
      ensures Owned(buckets, repr, cfg) && key in buckets && bucket == buckets[key]
      ensures old(repr) <= repr && fresh(repr - old(repr)) && buckets.Keys == old(buckets).Keys + {key}
      ensures Values(buckets, repr) == old(Values(buckets, repr))
                [key := Refilled(cfg, Lookup(cfg, old(Values(buckets, repr)), Call(key, now)), now)]
    {
      ghost var was := Values(buckets, repr);
      bucket := BucketFor(key, now);
      RefillOnly(key, bucket, now);
      PutTwice(was, key, Lookup(cfg, was, Call(key, now)), Refilled(cfg, Lookup(cfg, was, Call(key, now)), now));
    }

    /** The first half of `consume`: the client's bucket, refilled, and its last-seen time. */
    method Touch(key: string, now: real) returns (bucket: TokenBucket)
      requires Valid()
      modifies this, repr
      ensures Valid() && key in buckets && bucket == buckets[key]
      ensures old(repr) <= repr && fresh(repr - old(repr))
      ensures View() == Touched(cfg, old(View()), Call(key, now))
    {
      locks := locks + {key};
      bucket := RefilledBucket(key, now);
      lastSeen := lastSeen[key := now];
    }

    /** The second half: spend a token if there is one. */
    method SpendFrom(key: string, bucket: TokenBucket, now: real) returns (v: Verdict)
      requires Valid() && key in buckets && bucket == buckets[key]
      requires bucket.lastRefill == now && bucket.tokens <= cfg.Capacity()
      modifies bucket
      ensures Valid() && v == Spend(cfg, old(bucket.Value())).1
      ensures View() == Put(old(View()), key, Spend(cfg, old(bucket.Value())).0)
    {
      bucket.RefilledTwice(now);
      if bucket.tokens >= 1.0 {
        var _ := bucket.Consume(1.0, now);
        return Verdict(true, 0.0, bucket.tokens);
      }
      var waitSeconds := bucket.WaitTime(1.0, now);
      return Verdict(false, waitSeconds, bucket.tokens);
    }

    /** `consume`, with one clock reading per call. */
    method Consume(clientKey: string, now: real) returns (v: Verdict)
      requires Valid()
      modifies this, repr
      ensures Valid() && old(repr) <= repr && fresh(repr - old(repr))
      ensures (View(), v) == Step(cfg, old(View()), Call(if clientKey == "" then "unknown" else clientKey, now))
    {
      var key := if clientKey == "" then "unknown" else clientKey;
      var bucket := Touch(key, now);
      ghost var touched := View();
      SweepCommutes(cfg, touched, now, key, Spend(cfg, touched.buckets[key]).0);
      Cleanup(now);
      assert bucket.Value() == touched.buckets[key];
      v := SpendFrom(key, bucket, now);
    }
  }

  /** Sweeping never takes the client being served, so it may as well come last. */
  lemma SweepCommutes(cfg: Limits, s: Limiter, now: real, key: string, b: Bucket)
    requires key in s.buckets && key in s.lastSeen && s.lastSeen[key] == now
    ensures Swept(cfg, Put(s, key, b), now) == Put(Swept(cfg, s, now), key, b)
    ensures key in Swept(cfg, s, now).buckets && Swept(cfg, s, now).buckets[key] == s.buckets[key]
  {
    assert key !in StaleKeys(cfg, s.lastSeen, now);
  }
}
