/** What whole runs of the rate limiter keep: forgetting stale clients is invisible, and no
    client gets more than its burst plus its rate. */
module RateLimiterRuns {
  import opened RateLimiter

  predicate Timed(calls: seq<Call>, start: real) {
    calls == [] || (start <= calls[0].now && Timed(calls[1..], calls[0].now))
  }

  function Run(cfg: Limits, s: Limiter, calls: seq<Call>): (vs: seq<Verdict>)
    ensures |vs| == |calls|
    decreases |calls|
  {
    if calls == [] then []
    else [Step(cfg, s, calls[0]).1] + Run(cfg, Step(cfg, s, calls[0]).0, calls[1..])
  }

  function RefRun(cfg: Limits, m: map<string, Bucket>, calls: seq<Call>): (vs: seq<Verdict>)
    ensures |vs| == |calls|
    decreases |calls|
  {
    if calls == [] then []
    else [RefStep(cfg, m, calls[0]).1] + RefRun(cfg, RefStep(cfg, m, calls[0]).0, calls[1..])
  }

  // ---------------------------------------------------------------------------
  // Arithmetic
  // ---------------------------------------------------------------------------

  lemma EarnedSplit(rate: real, a: real, b: real, c: real)
    ensures Earned(rate, a, c) == Earned(rate, a, b) + Earned(rate, b, c)
  {
  }

  lemma EarnedPositive(rate: real, from: real, to: real)
    requires rate > 0.0 && from <= to
    ensures Earned(rate, from, to) >= 0.0
  {
  }

  lemma EarnedNothing(rate: real, now: real)
    ensures Earned(rate, now, now) == 0.0
  {
  }

  /** The settings the product ships, and any with burst at most twenty times the request quota. */
  lemma BurstWithinTwentyWindows(settings: Settings)
    requires Max(1, settings.burst) <= 20 * Max(1, settings.perWindow)
    ensures LimitsOf(settings).Forgiving()
  {
    var p, w := Max(1, settings.perWindow) as real, Max(1, settings.window) as real;
    QuotaCovers(p, w, LimitsOf(settings).staleAfter, LimitsOf(settings).Capacity());
  }

  lemma QuotaCovers(p: real, w: real, stale: real, burst: real)
    requires p > 0.0 && w > 0.0 && stale >= 20.0 * w && burst <= 20.0 * p
    ensures stale * (p / w) >= burst
  {
    var rate := p / w;
    assert rate * w == p;
    QuotaTimes(rate, w, p, stale);
  }

  lemma QuotaTimes(rate: real, w: real, p: real, stale: real)
    requires rate * w == p && rate >= 0.0 && stale >= 20.0 * w
    ensures stale * rate >= 20.0 * p
  {
    assert (stale - 20.0 * w) * rate >= 0.0;
  }

  // ---------------------------------------------------------------------------
  // Eviction is invisible
  // ---------------------------------------------------------------------------

  predicate InRange(cfg: Limits, b: Bucket, now: real) {
    b.last <= now && 0.0 <= b.tokens <= cfg.Capacity()
  }

  /** Refilling at this time, or any later one, fills the bucket. */
  predicate Recovered(cfg: Limits, b: Bucket, now: real) {
    b.tokens + Earned(cfg.rate, b.last, now) >= cfg.Capacity()
  }

  /** The limiter s agrees with the never-forgetting memory m on every client it still
      tracks, and every forgotten client would by now be full. */
  ghost predicate Tracks(cfg: Limits, s: Limiter, m: map<string, Bucket>, now: real) {
    && s.buckets.Keys == s.lastSeen.Keys
    && (forall k :: k in m ==> InRange(cfg, m[k], now))
    && (forall k :: k in s.buckets ==> k in m && s.buckets[k] == m[k] && s.lastSeen[k] == m[k].last)
    && (forall k :: k in m && k !in s.buckets ==> Recovered(cfg, m[k], now))
  }

  lemma StillRecovered(cfg: Limits, b: Bucket, now: real, later: real)
    requires Recovered(cfg, b, now) && now <= later
    ensures Recovered(cfg, b, later)
  {
    EarnedSplit(cfg.rate, b.last, now, later);
    EarnedPositive(cfg.rate, now, later);
  }

  lemma StaleIsRecovered(cfg: Limits, b: Bucket, now: real)
    requires cfg.Forgiving() && b.tokens >= 0.0 && now - b.last >= cfg.staleAfter
    ensures Recovered(cfg, b, now)
  {
    EarnedSplit(cfg.rate, b.last, b.last + cfg.staleAfter, now);
    EarnedPositive(cfg.rate, b.last + cfg.staleAfter, now);
    assert Earned(cfg.rate, b.last, b.last + cfg.staleAfter) == cfg.staleAfter * cfg.rate;
  }

  lemma HeldToCapacity(tokens: real, gain: real, capacity: real)
    requires 0.0 <= tokens <= capacity && gain >= 0.0
    ensures tokens <= Min(capacity, tokens + gain) <= capacity
    ensures Min(capacity, tokens + gain) <= tokens + gain
  {
  }

  lemma RefilledInRange(cfg: Limits, b: Bucket, now: real)
    requires InRange(cfg, b, now)
    ensures InRange(cfg, Refilled(cfg, b, now), now) && Refilled(cfg, b, now).tokens >= b.tokens
    ensures b.last == now ==> Refilled(cfg, b, now) == b
  {
    EarnedPositive(cfg.rate, b.last, now);
    if b.last == now { EarnedNothing(cfg.rate, now); }
    HeldToCapacity(b.tokens, Earned(cfg.rate, b.last, now), cfg.Capacity());
  }

  lemma SpendInRange(cfg: Limits, b: Bucket, now: real)
    requires InRange(cfg, b, now)
    ensures InRange(cfg, Spend(cfg, b).0, now) && Spend(cfg, b).0.last == b.last
  {
  }

  /** Found or made anew, the caller's bucket refills to the same value. */
  lemma SameRefill(cfg: Limits, s: Limiter, m: map<string, Bucket>, c: Call)
    requires Tracks(cfg, s, m, c.now)
    ensures Refilled(cfg, Lookup(cfg, s.buckets, c), c.now) == Refilled(cfg, Lookup(cfg, m, c), c.now)
    ensures InRange(cfg, Refilled(cfg, Lookup(cfg, m, c), c.now), c.now)
  {
    RefilledInRange(cfg, Full(cfg, c.now), c.now);
    if c.key in m { RefilledInRange(cfg, m[c.key], c.now); }
  }

  lemma TracksLater(cfg: Limits, s: Limiter, m: map<string, Bucket>, now: real, later: real)
    requires Tracks(cfg, s, m, now) && now <= later
    ensures Tracks(cfg, s, m, later)
  {
    forall k | k in m && k !in s.buckets ensures Recovered(cfg, m[k], later) {
      StillRecovered(cfg, m[k], now, later);
    }
  }

  lemma StepTracks(cfg: Limits, s: Limiter, m: map<string, Bucket>, c: Call)
    requires cfg.Forgiving() && Tracks(cfg, s, m, c.now)
    ensures Step(cfg, s, c).1 == RefStep(cfg, m, c).1
    ensures Tracks(cfg, Step(cfg, s, c).0, RefStep(cfg, m, c).0, c.now)
  {
    SameRefill(cfg, s, m, c);
    var b := Refilled(cfg, Lookup(cfg, m, c), c.now);
    SpendInRange(cfg, b, c.now);
    var after := Put(Touched(cfg, s, c), c.key, Spend(cfg, b).0);
    var m' := RefStep(cfg, m, c).0;
    assert Tracks(cfg, after, m', c.now);
    SweepTracks(cfg, after, m', c.now);
  }

  lemma SweepTracks(cfg: Limits, s: Limiter, m: map<string, Bucket>, now: real)
    requires cfg.Forgiving() && Tracks(cfg, s, m, now)
    ensures Tracks(cfg, Swept(cfg, s, now), m, now)
  {
    forall k | k in StaleKeys(cfg, s.lastSeen, now) ensures Recovered(cfg, m[k], now) {
      StaleIsRecovered(cfg, m[k], now);
    }
  }

  lemma {:induction false} RunTracks(cfg: Limits, s: Limiter, m: map<string, Bucket>, calls: seq<Call>, start: real)
    requires cfg.Forgiving() && Tracks(cfg, s, m, start) && Timed(calls, start)
    ensures Run(cfg, s, calls) == RefRun(cfg, m, calls)
    decreases |calls|
  {
    if calls != [] {
      TracksLater(cfg, s, m, start, calls[0].now);
      StepTracks(cfg, s, m, calls[0]);
      RunTracks(cfg, Step(cfg, s, calls[0]).0, RefStep(cfg, m, calls[0]).0, calls[1..], calls[0].now);
    }
  }

  /** For every timed run by any clients the limiter answers as one that never forgets:
      the same decision, the same wait, the same tokens left. */
  lemma EvictionInvisible(cfg: Limits, calls: seq<Call>, start: real)
    requires cfg.Forgiving() && Timed(calls, start)
    ensures Run(cfg, FRESH, calls) == RefRun(cfg, map[], calls)
  {
    RunTracks(cfg, FRESH, map[], calls, start);
  }

  /** After a call the caller is tracked, whatever was swept. */
  lemma CallerStays(cfg: Limits, s: Limiter, c: Call)
    ensures c.key in Step(cfg, s, c).0.buckets && c.key in Step(cfg, s, c).0.lastSeen
  {
    var t := Touched(cfg, s, c);
    SweepCommutes(cfg, t, c.now, c.key, Spend(cfg, t.buckets[c.key]).0);
  }

  // ---------------------------------------------------------------------------
  // ... and only under that condition
  // ---------------------------------------------------------------------------

  function Flags(vs: seq<Verdict>): seq<bool> {
    seq(|vs|, i requires 0 <= i < |vs| => vs[i].allowed)
  }

  function After(cfg: Limits, s: Limiter, calls: seq<Call>): Limiter
    decreases |calls|
  {
    if calls == [] then s else After(cfg, Step(cfg, s, calls[0]).0, calls[1..])
  }

  function RefAfter(cfg: Limits, m: map<string, Bucket>, calls: seq<Call>): map<string, Bucket>
    decreases |calls|
  {
    if calls == [] then m else RefAfter(cfg, RefStep(cfg, m, calls[0]).0, calls[1..])
  }

  lemma {:induction false} RunConcat(cfg: Limits, s: Limiter, a: seq<Call>, b: seq<Call>)
    ensures Run(cfg, s, a + b) == Run(cfg, s, a) + Run(cfg, After(cfg, s, a), b)
    decreases |a|
  {
    if a == [] {
      assert a + b == b;
    } else {
      assert (a + b)[1..] == a[1..] + b;
      RunConcat(cfg, Step(cfg, s, a[0]).0, a[1..], b);
    }
  }

  lemma {:induction false} RefRunConcat(cfg: Limits, m: map<string, Bucket>, a: seq<Call>, b: seq<Call>)
    ensures RefRun(cfg, m, a + b) == RefRun(cfg, m, a) + RefRun(cfg, RefAfter(cfg, m, a), b)
    decreases |a|
  {
    if a == [] {
      assert a + b == b;
    } else {
      assert (a + b)[1..] == a[1..] + b;
      RefRunConcat(cfg, RefStep(cfg, m, a[0]).0, a[1..], b);
    }
  }

  function Repeat(key: string, now: real, n: nat): (calls: seq<Call>)
    ensures |calls| == n
  {
    if n == 0 then [] else [Call(key, now)] + Repeat(key, now, n - 1)
  }

  /** Tokens a caller finds. */
  function Available(cfg: Limits, m: map<string, Bucket>, key: string, now: real): real {
    Refilled(cfg, Lookup(cfg, m, Call(key, now)), now).tokens
  }

  predicate AllAllowed(vs: seq<Verdict>) { forall i :: 0 <= i < |vs| ==> vs[i].allowed }

  lemma AvailableInRange(cfg: Limits, m: map<string, Bucket>, key: string, now: real)
    requires key in m ==> InRange(cfg, m[key], now)
    ensures 0.0 <= Available(cfg, m, key, now) <= cfg.Capacity()
    ensures key !in m ==> Available(cfg, m, key, now) == cfg.Capacity()
    ensures key in m && m[key].last == now ==> Available(cfg, m, key, now) == m[key].tokens
  {
    RefilledInRange(cfg, Lookup(cfg, m, Call(key, now)), now);
  }

  /** One admitted call costs one token, and a second refill at the same instant adds none. */
  lemma OneCallCosts(cfg: Limits, m: map<string, Bucket>, key: string, now: real)
    requires key in m ==> InRange(cfg, m[key], now)
    ensures var (m', v) := RefStep(cfg, m, Call(key, now));
            v.allowed == (Available(cfg, m, key, now) >= 1.0)
            && key in m' && InRange(cfg, m'[key], now) && m'[key].last == now
            && Available(cfg, m', key, now) == m'[key].tokens
            && m'[key].tokens == Available(cfg, m, key, now) - (if v.allowed then 1.0 else 0.0)
  {
    RefilledInRange(cfg, Lookup(cfg, m, Call(key, now)), now);
    SpendInRange(cfg, Refilled(cfg, Lookup(cfg, m, Call(key, now)), now), now);
    AvailableInRange(cfg, RefStep(cfg, m, Call(key, now)).0, key, now);
  }

  lemma {:induction false} RefDrain(cfg: Limits, m: map<string, Bucket>, key: string, now: real, n: nat)
    requires key in m ==> InRange(cfg, m[key], now)
    ensures AllAllowed(RefRun(cfg, m, Repeat(key, now, n))) <==> n == 0 || Available(cfg, m, key, now) >= n as real
    ensures Available(cfg, m, key, now) >= n as real ==>
              Available(cfg, RefAfter(cfg, m, Repeat(key, now, n)), key, now) == Available(cfg, m, key, now) - n as real
    ensures var m' := RefAfter(cfg, m, Repeat(key, now, n));
            n > 0 ==> key in m' && InRange(cfg, m'[key], now) && m'[key].last == now
                      && Available(cfg, m', key, now) == m'[key].tokens
    decreases n
  {
    if n > 0 {
      var calls := Repeat(key, now, n);
      var (m', v) := RefStep(cfg, m, Call(key, now));
      OneCallCosts(cfg, m, key, now);
      assert calls[0] == Call(key, now) && calls[1..] == Repeat(key, now, n - 1);
      RefDrain(cfg, m', key, now, n - 1);
      var vs, rest := RefRun(cfg, m, calls), RefRun(cfg, m', calls[1..]);
      assert vs == [v] + rest;
      assert AllAllowed(vs) <==> v.allowed && AllAllowed(rest) by {
        if AllAllowed(vs) { assert vs[0].allowed && forall i :: 0 <= i < |rest| ==> vs[i + 1] == rest[i]; }
      }
    }
  }

  /** While no sweep is due the limiter is the reference on what it holds. */
  lemma {:induction false} QuietRun(cfg: Limits, s: Limiter, key: string, now: real, n: nat)
    requires now - s.lastCleanup < CLEANUP_EVERY
    ensures var calls := Repeat(key, now, n);
            Run(cfg, s, calls) == RefRun(cfg, s.buckets, calls)
            && After(cfg, s, calls).buckets == RefAfter(cfg, s.buckets, calls)
            && After(cfg, s, calls).lastCleanup == s.lastCleanup
            && (n > 0 ==> key in After(cfg, s, calls).lastSeen && After(cfg, s, calls).lastSeen[key] == now)
    decreases n
  {
    if n > 0 {
      var calls := Repeat(key, now, n);
      assert calls[1..] == Repeat(key, now, n - 1);
      var (s', v) := Step(cfg, s, calls[0]);
      assert s'.buckets == RefStep(cfg, s.buckets, calls[0]).0;
      assert s'.lastSeen[key] == now;
      QuietRun(cfg, s', key, now, n - 1);
    }
  }

  const ALICE := "a"
  const BOB := "b"

  /** Drain one client, let another call trigger the sweep, then drain the first one again. */
  function Comeback(cfg: Limits): seq<Call> {
    var n := cfg.burst;
    Repeat(ALICE, 0.0, n) + ([Call(BOB, cfg.staleAfter)] + Repeat(ALICE, cfg.staleAfter, n))
  }

  lemma {:induction false} RepeatTimed(key: string, now: real, n: nat, start: real, more: seq<Call>)
    requires start <= now && Timed(more, now)
    ensures Timed(Repeat(key, now, n) + more, start)
    decreases n
  {
    var calls := Repeat(key, now, n) + more;
    if n > 0 {
      assert calls[1..] == Repeat(key, now, n - 1) + more;
      RepeatTimed(key, now, n - 1, now, more);
    } else {
      assert calls == more;
    }
  }

  /** The sweeping limiter admits every call of the comeback run by its first client. */
  lemma ComebackRun(cfg: Limits)
    ensures var vs := Run(cfg, FRESH, Comeback(cfg));
            AllAllowed(vs[..cfg.burst]) && AllAllowed(vs[cfg.burst + 1..])
  {
    var n, t := cfg.burst, cfg.staleAfter;
    var first, last := Repeat(ALICE, 0.0, n), Repeat(ALICE, t, n);
    FirstBurst(cfg, FRESH, 0.0);
    var s1 := After(cfg, FRESH, first);
    QuietRun(cfg, FRESH, ALICE, 0.0, n);
    var s2 := Step(cfg, s1, Call(BOB, t)).0;
    Forgotten(cfg, s1);
    FirstBurst(cfg, s2, t);
    var tail := [Call(BOB, t)] + last;
    assert tail[1..] == last;
    RunConcat(cfg, FRESH, first, tail);
    var vs := Run(cfg, FRESH, Comeback(cfg));
    assert vs == Run(cfg, FRESH, first) + ([Step(cfg, s1, Call(BOB, t)).1] + Run(cfg, s2, last));
    assert vs[..n] == Run(cfg, FRESH, first) && vs[n + 1..] == Run(cfg, s2, last);
  }

  /** A client the limiter does not know gets its whole burst at once. */
  lemma FirstBurst(cfg: Limits, s: Limiter, now: real)
    requires ALICE !in s.buckets && now - s.lastCleanup < CLEANUP_EVERY
    ensures AllAllowed(Run(cfg, s, Repeat(ALICE, now, cfg.burst)))
  {
    QuietRun(cfg, s, ALICE, now, cfg.burst);
    AvailableInRange(cfg, s.buckets, ALICE, now);
    RefDrain(cfg, s.buckets, ALICE, now, cfg.burst);
  }

  lemma Forgotten(cfg: Limits, s: Limiter)
    requires ALICE in s.lastSeen && s.lastSeen[ALICE] == 0.0 && s.lastCleanup == 0.0
    ensures var n := Step(cfg, s, Call(BOB, cfg.staleAfter)).0;
            ALICE !in n.buckets && n.lastCleanup == cfg.staleAfter
  {
    var t := Touched(cfg, s, Call(BOB, cfg.staleAfter));
    assert ALICE != BOB;
    assert ALICE in StaleKeys(cfg, t.lastSeen, cfg.staleAfter);
  }

  /** The limiter that never forgets does not, when the stale age is too short to refill. */
  lemma ComebackRefRun(cfg: Limits)
    requires !cfg.Forgiving()
    ensures var n := cfg.burst;
            var vs := RefRun(cfg, map[], Comeback(cfg));
            !AllAllowed(vs[n + 1..])
  {
    var n, t := cfg.burst, cfg.staleAfter;
    var first, last := Repeat(ALICE, 0.0, n), Repeat(ALICE, t, n);
    AvailableInRange(cfg, map[], ALICE, 0.0);
    RefDrain(cfg, map[], ALICE, 0.0, n);
    var m1 := RefAfter(cfg, map[], first);
    assert m1[ALICE] == Bucket(0.0, 0.0);
    var m2 := RefStep(cfg, m1, Call(BOB, t)).0;
    assert m2[ALICE] == Bucket(0.0, 0.0);
    assert Earned(cfg.rate, 0.0, t) == t * cfg.rate;
    assert Available(cfg, m2, ALICE, t) < n as real;
    RefDrain(cfg, m2, ALICE, t, n);
    var tail := [Call(BOB, t)] + last;
    assert tail[1..] == last;
    RefRunConcat(cfg, map[], first, tail);
    var vs := RefRun(cfg, map[], Comeback(cfg));
    assert vs == RefRun(cfg, map[], first) + ([RefStep(cfg, m1, Call(BOB, t)).1] + RefRun(cfg, m2, last));
    RefRunConcat(cfg, m2, last, []);
    assert vs[n + 1..] == RefRun(cfg, m2, last);
  }

  predicate SameDecisions(cfg: Limits, calls: seq<Call>) {
    Flags(Run(cfg, FRESH, calls)) == Flags(RefRun(cfg, map[], calls))
  }

  ghost predicate TimedFrom(calls: seq<Call>) { exists start :: Timed(calls, start) }

  /** Forgetting stale clients changes no decision of any timed run exactly when the rate
      times the stale age covers the burst. */
  lemma EvictionInvisibleIff(cfg: Limits)
    ensures (forall calls :: TimedFrom(calls) ==> SameDecisions(cfg, calls)) <==> cfg.Forgiving()
  {
    if cfg.Forgiving() {
      forall calls | TimedFrom(calls) ensures SameDecisions(cfg, calls) {
        var start :| Timed(calls, start);
        EvictionInvisible(cfg, calls, start);
      }
    } else {
      ComebackTimed(cfg);
      ComebackDiffers(cfg);
      assert TimedFrom(Comeback(cfg));
    }
  }

  lemma ComebackTimed(cfg: Limits)
    ensures Timed(Comeback(cfg), 0.0)
  {
    var n, t := cfg.burst, cfg.staleAfter;
    RepeatTimed(ALICE, t, n, t, []);
    assert Repeat(ALICE, t, n) + [] == Repeat(ALICE, t, n);
    var tail := [Call(BOB, t)] + Repeat(ALICE, t, n);
    assert tail[1..] == Repeat(ALICE, t, n);
    RepeatTimed(ALICE, 0.0, n, 0.0, tail);
  }

  lemma ComebackDiffers(cfg: Limits)
    requires !cfg.Forgiving()
    ensures !SameDecisions(cfg, Comeback(cfg))
  {
    var n := cfg.burst;
    ComebackRun(cfg);
    ComebackRefRun(cfg);
    var vs, ws := Run(cfg, FRESH, Comeback(cfg)), RefRun(cfg, map[], Comeback(cfg));
    FlagsDiffer(vs, ws, n + 1);
  }

  lemma FlagsDiffer(vs: seq<Verdict>, ws: seq<Verdict>, from: nat)
    requires from <= |vs| == |ws| && AllAllowed(vs[from..]) && !AllAllowed(ws[from..])
    ensures Flags(vs) != Flags(ws)
  {
    var i :| 0 <= i < |ws[from..]| && !ws[from..][i].allowed;
    assert vs[from..][i].allowed;
    assert Flags(vs)[from + i] != Flags(ws)[from + i];
  }

  // ---------------------------------------------------------------------------
  // How much one client gets
  // ---------------------------------------------------------------------------

  /** Calls of a client that were admitted. */
  function Admitted(calls: seq<Call>, vs: seq<Verdict>, key: string): nat
    requires |calls| == |vs|
    decreases |calls|
  {
    if calls == [] then 0
    else (if calls[0].key == key && vs[0].allowed then 1 else 0) + Admitted(calls[1..], vs[1..], key)
  }

  function LastTime(calls: seq<Call>, start: real): real {
    if calls == [] then start else calls[|calls| - 1].now
  }

  ghost predicate AllInRange(cfg: Limits, m: map<string, Bucket>, now: real) {
    forall k :: k in m ==> InRange(cfg, m[k], now)
  }

  lemma RefStepInRange(cfg: Limits, m: map<string, Bucket>, c: Call, start: real)
    requires AllInRange(cfg, m, start) && start <= c.now
    ensures AllInRange(cfg, RefStep(cfg, m, c).0, c.now)
  {
    RefilledInRange(cfg, Lookup(cfg, m, c), c.now);
    SpendInRange(cfg, Refilled(cfg, Lookup(cfg, m, c), c.now), c.now);
  }

  /** What a client can have later is what it has now plus the rate times the time between. */
  lemma AvailableGrows(cfg: Limits, m: map<string, Bucket>, key: string, start: real, now: real)
    requires AllInRange(cfg, m, start) && start <= now
    ensures Available(cfg, m, key, now) <= Available(cfg, m, key, start) + Earned(cfg.rate, start, now)
    ensures Available(cfg, m, key, start) <= cfg.Capacity()
  {
    EarnedPositive(cfg.rate, start, now);
    AvailableInRange(cfg, m, key, start);
    if key in m {
      EarnedSplit(cfg.rate, m[key].last, start, now);
      RefillGrows(m[key].tokens, Earned(cfg.rate, m[key].last, start), Earned(cfg.rate, start, now), cfg.Capacity());
    } else {
      AvailableInRange(cfg, m, key, now);
    }
  }

  lemma RefillGrows(tokens: real, gain: real, more: real, capacity: real)
    requires more >= 0.0
    ensures Min(capacity, tokens + (gain + more)) <= Min(capacity, tokens + gain) + more
  {
  }

  lemma {:induction false} RefBound(cfg: Limits, m: map<string, Bucket>, calls: seq<Call>, key: string, start: real)
    requires AllInRange(cfg, m, start) && Timed(calls, start)
    ensures start <= LastTime(calls, start)
    ensures Admitted(calls, RefRun(cfg, m, calls), key) as real
            <= Available(cfg, m, key, start) + Earned(cfg.rate, start, LastTime(calls, start))
    decreases |calls|
  {
    if calls == [] {
      AvailableInRange(cfg, m, key, start);
      EarnedNothing(cfg.rate, start);
    } else {
      var c := calls[0];
      var (m', v) := RefStep(cfg, m, c);
      RefStepInRange(cfg, m, c, start);
      RefBound(cfg, m', calls[1..], key, c.now);
      assert LastTime(calls[1..], c.now) == LastTime(calls, start);
      assert RefRun(cfg, m, calls)[1..] == RefRun(cfg, m', calls[1..]);
      OneStepBound(cfg, m, c, key, start);
      EarnedSplit(cfg.rate, start, c.now, LastTime(calls, start));
    }
  }

  /** One call uses up what it takes, and time gives back at most the rate. */
  lemma OneStepBound(cfg: Limits, m: map<string, Bucket>, c: Call, key: string, start: real)
    requires AllInRange(cfg, m, start) && start <= c.now
    ensures var (m', v) := RefStep(cfg, m, c);
            Available(cfg, m', key, c.now) + (if c.key == key && v.allowed then 1.0 else 0.0)
            <= Available(cfg, m, key, start) + Earned(cfg.rate, start, c.now)
  {
    var (m', v) := RefStep(cfg, m, c);
    AvailableGrows(cfg, m, key, start, c.now);
    if c.key == key {
      OneCallCosts(cfg, m, key, c.now);
    } else {
      assert Lookup(cfg, m', Call(key, c.now)) == Lookup(cfg, m, Call(key, c.now));
    }
  }

  lemma {:induction false} TimedSplit(a: seq<Call>, b: seq<Call>, start: real)
    requires Timed(a + b, start)
    ensures Timed(a, start) && Timed(b, LastTime(a, start))
    decreases |a|
  {
    if a == [] {
      assert a + b == b;
    } else {
      assert (a + b)[1..] == a[1..] + b;
      TimedSplit(a[1..], b, a[0].now);
    }
  }

  lemma {:induction false} RefAfterInRange(cfg: Limits, m: map<string, Bucket>, calls: seq<Call>, start: real)
    requires AllInRange(cfg, m, start) && Timed(calls, start)
    ensures AllInRange(cfg, RefAfter(cfg, m, calls), LastTime(calls, start))
    decreases |calls|
  {
    if calls != [] {
      RefStepInRange(cfg, m, calls[0], start);
      RefAfterInRange(cfg, RefStep(cfg, m, calls[0]).0, calls[1..], calls[0].now);
    }
  }

  lemma InRangeLater(cfg: Limits, m: map<string, Bucket>, now: real, later: real)
    requires AllInRange(cfg, m, now) && now <= later
    ensures AllInRange(cfg, m, later)
  {
  }

  /** Over a stretch of a run one client is admitted at most its burst plus its rate times the
      length of the stretch. */
  predicate Bounded(cfg: Limits, before: seq<Call>, stretch: seq<Call>, key: string) {
    var vs := Run(cfg, FRESH, before + stretch);
    stretch != [] ==>
      Admitted(stretch, vs[|before|..], key) as real
      <= cfg.Capacity() + Earned(cfg.rate, stretch[0].now, stretch[|stretch| - 1].now)
  }

  /** In every run of the sweeping limiter the bound holds over every stretch of it, counted across
      evictions. */
  lemma AdmissionBound(cfg: Limits, before: seq<Call>, stretch: seq<Call>, key: string, start: real)
    requires cfg.Forgiving() && Timed(before + stretch, start)
    ensures Bounded(cfg, before, stretch, key)
  {
    if stretch != [] {
      EvictionInvisible(cfg, before + stretch, start);
      TimedSplit(before, stretch, start);
      RefRunConcat(cfg, map[], before, stretch);
      RefAfterInRange(cfg, map[], before, start);
      var m, t := RefAfter(cfg, map[], before), stretch[0].now;
      InRangeLater(cfg, m, LastTime(before, start), t);
      RefBound(cfg, m, stretch, key, t);
      assert LastTime(stretch, t) == stretch[|stretch| - 1].now;
      AvailableGrows(cfg, m, key, t, t);
      assert Run(cfg, FRESH, before + stretch)[|before|..] == RefRun(cfg, m, stretch);
    }
  }

  lemma {:induction false} AdmittedConcat(a: seq<Call>, b: seq<Call>, va: seq<Verdict>, vb: seq<Verdict>, key: string)
    requires |a| == |va| && |b| == |vb|
    ensures Admitted(a + b, va + vb, key) == Admitted(a, va, key) + Admitted(b, vb, key)
    decreases |a|
  {
    if a == [] {
      assert a + b == b && va + vb == vb;
    } else {
      assert (a + b)[1..] == a[1..] + b && (va + vb)[1..] == va[1..] + vb;
      AdmittedConcat(a[1..], b, va[1..], vb, key);
    }
  }

  lemma {:induction false} AdmittedRepeat(key: string, now: real, n: nat, vs: seq<Verdict>)
    requires |vs| == n && AllAllowed(vs)
    ensures Admitted(Repeat(key, now, n), vs, key) == n
    decreases n
  {
    if n > 0 {
      assert Repeat(key, now, n)[1..] == Repeat(key, now, n - 1);
      AdmittedRepeat(key, now, n - 1, vs[1..]);
    }
  }

  /** In the comeback run the first client is admitted twice its burst. */
  lemma ComebackAdmits(cfg: Limits)
    ensures Admitted(Comeback(cfg), Run(cfg, FRESH, Comeback(cfg)), ALICE) == 2 * cfg.burst
  {
    var n, t := cfg.burst, cfg.staleAfter;
    var vs := Run(cfg, FRESH, Comeback(cfg));
    var first, last := Repeat(ALICE, 0.0, n), Repeat(ALICE, t, n);
    ComebackRun(cfg);
    AdmittedRepeat(ALICE, 0.0, n, vs[..n]);
    AdmittedRepeat(ALICE, t, n, vs[n + 1..]);
    AdmittedConcat([Call(BOB, t)], last, vs[n..n + 1], vs[n + 1..], ALICE);
    AdmittedConcat(first, [Call(BOB, t)] + last, vs[..n], vs[n..n + 1] + vs[n + 1..], ALICE);
    assert vs == vs[..n] + (vs[n..n + 1] + vs[n + 1..]);
    assert ALICE != BOB;
  }

  lemma ComebackEnds(cfg: Limits)
    ensures var calls := Comeback(cfg);
            calls != [] && calls[0].now == 0.0 && calls[|calls| - 1].now == cfg.staleAfter
  {
    var first, last := Repeat(ALICE, 0.0, cfg.burst), Repeat(ALICE, cfg.staleAfter, cfg.burst);
    RepeatAt(ALICE, 0.0, cfg.burst);
    RepeatAt(ALICE, cfg.staleAfter, cfg.burst);
    var calls := first + ([Call(BOB, cfg.staleAfter)] + last);
    assert calls[0] == first[0] && calls[|calls| - 1] == last[cfg.burst - 1];
  }

  lemma TwiceIsTooMuch(cfg: Limits)
    requires !cfg.Forgiving()
    ensures (2 * cfg.burst) as real > cfg.Capacity() + Earned(cfg.rate, 0.0, cfg.staleAfter)
  {
    assert Earned(cfg.rate, 0.0, cfg.staleAfter) == cfg.staleAfter * cfg.rate;
  }

  lemma ComebackExceeds(cfg: Limits)
    requires !cfg.Forgiving()
    ensures !Bounded(cfg, [], Comeback(cfg), ALICE)
  {
    ComebackAdmits(cfg);
    ComebackEnds(cfg);
    TwiceIsTooMuch(cfg);
    WholeRun(cfg, Comeback(cfg));
  }

  lemma WholeRun(cfg: Limits, calls: seq<Call>)
    ensures Run(cfg, FRESH, [] + calls)[0..] == Run(cfg, FRESH, calls)
  {
    assert [] + calls == calls;
  }

  lemma {:induction false} RepeatAt(key: string, now: real, n: nat)
    requires n > 0
    ensures Repeat(key, now, n)[0] == Repeat(key, now, n)[n - 1] == Call(key, now)
    decreases n
  {
    if n > 1 {
      RepeatAt(key, now, n - 1);
      assert Repeat(key, now, n)[n - 1] == Repeat(key, now, n - 1)[n - 2];
    }
  }

  /** Every client is held to that bound over every stretch of every timed run exactly when the rate
      times the stale age covers the burst. */
  lemma AdmissionBoundIff(cfg: Limits)
    ensures (forall before, stretch, key :: TimedFrom(before + stretch) ==> Bounded(cfg, before, stretch, key))
            <==> cfg.Forgiving()
  {
    if cfg.Forgiving() {
      forall before, stretch, key | TimedFrom(before + stretch) ensures Bounded(cfg, before, stretch, key) {
        var start :| Timed(before + stretch, start);
        AdmissionBound(cfg, before, stretch, key, start);
      }
    } else {
      ComebackTimed(cfg);
      ComebackExceeds(cfg);
      assert [] + Comeback(cfg) == Comeback(cfg);
      assert TimedFrom([] + Comeback(cfg));
    }
  }
}
