/** What the numbers in the rate limiter's answers are good for: the wait of a denied call, the tokens
    left, and how long a silent client is remembered. */
module RateLimiterWaits {
  import opened RateLimiter
  import opened RateLimiterRuns

  // ---------------------------------------------------------------------------
  // What every run keeps
  // ---------------------------------------------------------------------------

  ghost predicate Consistent(cfg: Limits, s: Limiter, now: real) {
    s.buckets.Keys == s.lastSeen.Keys
    && forall k :: k in s.buckets ==> InRange(cfg, s.buckets[k], now) && s.lastSeen[k] == s.buckets[k].last
  }

  lemma StepConsistent(cfg: Limits, s: Limiter, c: Call, start: real)
    requires Consistent(cfg, s, start) && start <= c.now
    ensures Consistent(cfg, Step(cfg, s, c).0, c.now)
  {
    var b := Lookup(cfg, s.buckets, c);
    RefilledInRange(cfg, b, c.now);
    SpendInRange(cfg, Refilled(cfg, b, c.now), c.now);
  }

  lemma {:induction false} RunConsistent(cfg: Limits, s: Limiter, calls: seq<Call>, start: real)
    requires Consistent(cfg, s, start) && Timed(calls, start)
    ensures Consistent(cfg, After(cfg, s, calls), LastTime(calls, start))
    decreases |calls|
  {
    if calls != [] {
      StepConsistent(cfg, s, calls[0], start);
      RunConsistent(cfg, Step(cfg, s, calls[0]).0, calls[1..], calls[0].now);
    }
  }

  /** The client was last served at t and has these tokens. */
  predicate Holds(s: Limiter, key: string, tokens: real, t: real) {
    key in s.buckets && s.buckets[key] == Bucket(tokens, t) && key in s.lastSeen && s.lastSeen[key] == t
  }

  /** What a verdict says of the bucket it came from. */
  predicate Reports(cfg: Limits, v: Verdict, left: real) {
    && v.left == left >= 0.0
    && (!v.allowed ==> left < 1.0 && v.wait * cfg.rate == 1.0 - left && v.wait > 0.0)
    && (v.allowed ==> v.wait == 0.0)
  }

  lemma SpendReports(cfg: Limits, b: Bucket)
    requires b.tokens >= 0.0
    ensures var (n, v) := Spend(cfg, b); Reports(cfg, v, n.tokens)
  {
    if b.tokens < 1.0 { WaitTimesRate(1.0 - b.tokens, cfg.rate); }
  }

  /** A call leaves its client with the tokens it reports left. A denied one reports less than one
      token, and as its wait the time the rate takes to make up the rest. */
  lemma Served(cfg: Limits, s: Limiter, c: Call, start: real)
    requires Consistent(cfg, s, start) && start <= c.now
    ensures var (n, v) := Step(cfg, s, c);
            Holds(n, c.key, v.left, c.now) && c.now - n.lastCleanup < 60.0 && Reports(cfg, v, v.left)
  {
    var b := Refilled(cfg, Lookup(cfg, s.buckets, c), c.now);
    RefilledInRange(cfg, Lookup(cfg, s.buckets, c), c.now);
    SpendInRange(cfg, b, c.now);
    SpendReports(cfg, b);
    var t := Touched(cfg, s, c);
    SweepCommutes(cfg, t, c.now, c.key, Spend(cfg, b).0);
    SeenStays(cfg, Put(t, c.key, Spend(cfg, b).0), c.key, c.now);
  }

  lemma SeenStays(cfg: Limits, s: Limiter, key: string, now: real)
    requires key in s.lastSeen && s.lastSeen[key] == now
    ensures var n := Swept(cfg, s, now);
            key in n.lastSeen && n.lastSeen[key] == now && now - n.lastCleanup < 60.0
  {
  }

  lemma WaitTimesRate(missing: real, rate: real)
    requires missing > 0.0 && rate > 0.0
    ensures missing / rate * rate == missing && missing / rate > 0.0
  {
  }

  // ---------------------------------------------------------------------------
  // A client that keeps silent
  // ---------------------------------------------------------------------------

  predicate NoneOf(calls: seq<Call>, key: string) { forall i :: 0 <= i < |calls| ==> calls[i].key != key }

  /** A silent client is as it was, or it is forgotten, and then it was silent for the stale age. */
  predicate HeldOrForgotten(cfg: Limits, s: Limiter, key: string, tokens: real, t: real, now: real) {
    Holds(s, key, tokens, t) || (key !in s.buckets && key !in s.lastSeen && now - t >= cfg.staleAfter)
  }

  lemma SilentStep(cfg: Limits, s: Limiter, c: Call, key: string, tokens: real, t: real, start: real)
    requires HeldOrForgotten(cfg, s, key, tokens, t, start) && start <= c.now && c.key != key
    ensures HeldOrForgotten(cfg, Step(cfg, s, c).0, key, tokens, t, c.now)
  {
  }

  lemma {:induction false} SilentRun(cfg: Limits, s: Limiter, calls: seq<Call>, key: string, tokens: real, t: real, start: real)
    requires HeldOrForgotten(cfg, s, key, tokens, t, start) && Timed(calls, start) && NoneOf(calls, key)
    ensures HeldOrForgotten(cfg, After(cfg, s, calls), key, tokens, t, LastTime(calls, start))
    decreases |calls|
  {
    if calls != [] {
      SilentStep(cfg, s, calls[0], key, tokens, t, start);
      assert NoneOf(calls[1..], key);
      SilentRun(cfg, Step(cfg, s, calls[0]).0, calls[1..], key, tokens, t, calls[0].now);
    }
  }

  /** The client's next call, from where its silence has left it. */
  lemma NextCall(cfg: Limits, s: Limiter, key: string, tokens: real, t: real, wait: real, now: real)
    requires HeldOrForgotten(cfg, s, key, tokens, t, now) && t <= now
    requires 0.0 <= tokens < 1.0 && wait * cfg.rate == 1.0 - tokens
    ensures var v := Step(cfg, s, Call(key, now)).1;
            if Holds(s, key, tokens, t) then v.allowed <==> now >= t + wait else v.allowed
  {
    if Holds(s, key, tokens, t) {
      WaitMakesOne(cfg.rate, tokens, t, wait, now);
    } else {
      EarnedNothing(cfg.rate, now);
    }
  }

  lemma WaitMakesOne(rate: real, tokens: real, t: real, wait: real, now: real)
    requires rate > 0.0 && wait * rate == 1.0 - tokens
    ensures tokens + Earned(rate, t, now) >= 1.0 <==> now >= t + wait
  {
    EarnedSplit(rate, t, t + wait, now);
    assert Earned(rate, t, t + wait) == wait * rate;
    if now >= t + wait {
      EarnedPositive(rate, t + wait, now);
    } else {
      EarnedSplit(rate, t + wait, now, t + wait);
      EarnedNothing(rate, t + wait);
      EarnedStrict(rate, now, t + wait);
    }
  }

  lemma EarnedStrict(rate: real, from: real, to: real)
    requires rate > 0.0 && from < to
    ensures Earned(rate, from, to) > 0.0
  {
  }

  // ---------------------------------------------------------------------------
  // Whole runs
  // ---------------------------------------------------------------------------

  /** A call of a client, then calls of others, then the client's next. */
  function Retry(before: seq<Call>, key: string, t: real, between: seq<Call>, again: real): seq<Call> {
    before + ([Call(key, t)] + (between + [Call(key, again)]))
  }

  /** The verdicts on the first call and on the retry. */
  function First(cfg: Limits, before: seq<Call>, key: string, t: real, between: seq<Call>, again: real): Verdict {
    Run(cfg, FRESH, Retry(before, key, t, between, again))[|before|]
  }

  function Second(cfg: Limits, before: seq<Call>, key: string, t: real, between: seq<Call>, again: real): Verdict {
    Run(cfg, FRESH, Retry(before, key, t, between, again))[|before| + 1 + |between|]
  }

  lemma RetryVerdicts(cfg: Limits, before: seq<Call>, key: string, t: real, between: seq<Call>, again: real)
    ensures var s := After(cfg, FRESH, before);
            var (n, v) := Step(cfg, s, Call(key, t));
            First(cfg, before, key, t, between, again) == v
            && Second(cfg, before, key, t, between, again) == Step(cfg, After(cfg, n, between), Call(key, again)).1
  {
    var s := After(cfg, FRESH, before);
    var c, d := Call(key, t), Call(key, again);
    var n := Step(cfg, s, c).0;
    var tail := [c] + (between + [d]);
    RunConcat(cfg, FRESH, before, tail);
    assert tail[1..] == between + [d];
    RunConcat(cfg, n, between, [d]);
    var m := After(cfg, n, between);
    assert Run(cfg, m, [d]) == [Step(cfg, m, d).1];
  }

  lemma RetryTimed(before: seq<Call>, key: string, t: real, between: seq<Call>, again: real, start: real)
    requires Timed(Retry(before, key, t, between, again), start)
    ensures Timed(before, start) && LastTime(before, start) <= t
    ensures Timed(between, t) && LastTime(between, t) <= again && t <= LastTime(between, t)
  {
    var tail := [Call(key, t)] + (between + [Call(key, again)]);
    TimedSplit(before, tail, start);
    assert tail[1..] == between + [Call(key, again)];
    TimedSplit(between, [Call(key, again)], t);
    TimedRises(between, t);
  }

  lemma {:induction false} TimedRises(calls: seq<Call>, start: real)
    requires Timed(calls, start)
    ensures start <= LastTime(calls, start)
    decreases |calls|
  {
    if calls != [] { TimedRises(calls[1..], calls[0].now); }
  }

  /** What is claimed of a denied call's wait, given the verdict on the client's next call. */
  predicate WaitHolds(cfg: Limits, first: Verdict, second: Verdict, t: real, again: real) {
    && first.wait * cfg.rate <= 1.0
    && (again >= t + first.wait ==> second.allowed)
    && (again < t + first.wait && again - t < cfg.staleAfter ==> !second.allowed)
  }

  lemma WaitFrom(cfg: Limits, s: Limiter, key: string, t: real, between: seq<Call>, again: real, start: real)
    requires Consistent(cfg, s, start) && start <= t
    requires Timed(between, t) && t <= LastTime(between, t) <= again && NoneOf(between, key)
    ensures var (n, v) := Step(cfg, s, Call(key, t));
            !v.allowed ==> WaitHolds(cfg, v, Step(cfg, After(cfg, n, between), Call(key, again)).1, t, again)
  {
    Served(cfg, s, Call(key, t), start);
    var (n, v) := Step(cfg, s, Call(key, t));
    if !v.allowed {
      SilentRun(cfg, n, between, key, v.left, t, t);
      NextCall(cfg, After(cfg, n, between), key, v.left, t, v.wait, again);
    }
  }

  /** A denied call's wait in any timed run: with no call of the client in between, its next call is
      admitted once the wait is over, and denied before, as long as the client has not been silent
      for the stale age. */
  lemma WaitIsHonest(cfg: Limits, before: seq<Call>, key: string, t: real, between: seq<Call>, again: real, start: real)
    requires Timed(Retry(before, key, t, between, again), start) && NoneOf(between, key)
    ensures var first, second := First(cfg, before, key, t, between, again), Second(cfg, before, key, t, between, again);
            !first.allowed ==> WaitHolds(cfg, first, second, t, again)
  {
    RetryTimed(before, key, t, between, again, start);
    RetryVerdicts(cfg, before, key, t, between, again);
    RunConsistent(cfg, FRESH, before, start);
    WaitFrom(cfg, After(cfg, FRESH, before), key, t, between, again, LastTime(before, start));
  }

  /** In any timed run a call is told to wait exactly if it is denied. */
  lemma WaitsIfDenied(cfg: Limits, before: seq<Call>, c: Call, start: real)
    requires Timed(before + [c], start)
    ensures var v := Run(cfg, FRESH, before + [c])[|before|];
            if v.allowed then v.wait == 0.0 else v.wait > 0.0
  {
    TimedSplit(before, [c], start);
    RunConsistent(cfg, FRESH, before, start);
    Served(cfg, After(cfg, FRESH, before), c, LastTime(before, start));
    RunConcat(cfg, FRESH, before, [c]);
    assert Run(cfg, After(cfg, FRESH, before), [c]) == [Step(cfg, After(cfg, FRESH, before), c).1];
  }

  predicate Honest(cfg: Limits, before: seq<Call>, key: string, t: real, between: seq<Call>, again: real) {
    var first, second := First(cfg, before, key, t, between, again), Second(cfg, before, key, t, between, again);
    !first.allowed ==> (second.allowed <==> again >= t + first.wait)
  }

  /** Every denied call of every timed run gives the exact time from which the client's next call is
      admitted, if and only if the limiter remembers clients for as long as one token takes. */
  lemma WaitHonestIff(cfg: Limits)
    ensures (forall before, key, t, between, again ::
               TimedFrom(Retry(before, key, t, between, again)) && NoneOf(between, key)
               ==> Honest(cfg, before, key, t, between, again))
            <==> cfg.staleAfter * cfg.rate >= 1.0
  {
    if cfg.staleAfter * cfg.rate >= 1.0 {
      forall before, key, t, between, again | TimedFrom(Retry(before, key, t, between, again)) && NoneOf(between, key)
        ensures Honest(cfg, before, key, t, between, again)
      {
        var start :| Timed(Retry(before, key, t, between, again), start);
        WaitIsHonest(cfg, before, key, t, between, again, start);
        WithinStaleAge(cfg, First(cfg, before, key, t, between, again).wait);
      }
    } else {
      ForgottenTooSoon(cfg);
    }
  }

  lemma WithinStaleAge(cfg: Limits, wait: real)
    requires cfg.staleAfter * cfg.rate >= 1.0
    ensures wait * cfg.rate <= 1.0 ==> wait <= cfg.staleAfter
  {
    if wait > cfg.staleAfter { StrictlyMore(cfg.rate, cfg.staleAfter, wait); }
  }

  lemma StrictlyMore(rate: real, a: real, b: real)
    requires rate > 0.0 && a < b
    ensures a * rate < b * rate
  {
    EarnedStrict(rate, a, b);
  }

  lemma LongWait(cfg: Limits, wait: real)
    requires cfg.staleAfter * cfg.rate < 1.0 && wait * cfg.rate == 1.0
    ensures wait > cfg.staleAfter
  {
    MoreIsLonger(cfg.rate, wait, cfg.staleAfter, wait * cfg.rate, cfg.staleAfter * cfg.rate);
  }

  lemma MoreIsLonger(rate: real, a: real, b: real, pa: real, pb: real)
    requires rate > 0.0 && pa == a * rate && pb == b * rate && pa > pb
    ensures a > b
  {
    assert Earned(rate, a, b) == pb - pa;
    if a <= b { EarnedPositive(rate, a, b); }
  }

  lemma ComebackRetryTimed(cfg: Limits)
    ensures var before, between := Repeat(ALICE, 0.0, cfg.burst), [Call(BOB, cfg.staleAfter)];
            Timed(Retry(before, ALICE, 0.0, between, cfg.staleAfter), 0.0)
  {
    var between, late := [Call(BOB, cfg.staleAfter)], cfg.staleAfter;
    var tail := [Call(ALICE, 0.0)] + (between + [Call(ALICE, late)]);
    assert Timed([Call(ALICE, late)], late);
    assert (between + [Call(ALICE, late)])[1..] == [Call(ALICE, late)];
    assert tail[1..] == between + [Call(ALICE, late)];
    RepeatTimed(ALICE, 0.0, cfg.burst, 0.0, tail);
  }

  lemma UnknownAdmitted(cfg: Limits, s: Limiter, key: string, now: real)
    requires key !in s.buckets
    ensures Step(cfg, s, Call(key, now)).1.allowed
  {
    EarnedNothing(cfg.rate, now);
  }

  /** Drain a client, have it denied once, let another call trigger the sweep: it is admitted at once,
      though its wait is not over. */
  lemma ForgottenTooSoon(cfg: Limits)
    requires cfg.staleAfter * cfg.rate < 1.0
    ensures var before, between := Repeat(ALICE, 0.0, cfg.burst), [Call(BOB, cfg.staleAfter)];
            && TimedFrom(Retry(before, ALICE, 0.0, between, cfg.staleAfter)) && NoneOf(between, ALICE)
            && !Honest(cfg, before, ALICE, 0.0, between, cfg.staleAfter)
  {
    var before, between, late := Repeat(ALICE, 0.0, cfg.burst), [Call(BOB, cfg.staleAfter)], cfg.staleAfter;
    ComebackRetryTimed(cfg);
    RetryVerdicts(cfg, before, ALICE, 0.0, between, late);
    Drained(cfg);
    var (n, v) := Step(cfg, After(cfg, FRESH, before), Call(ALICE, 0.0));
    Forgotten(cfg, n);
    UnknownAdmitted(cfg, Step(cfg, n, Call(BOB, late)).0, ALICE, late);
    OneMore(cfg, n, Call(BOB, late));
    LongWait(cfg, v.wait);
  }

  lemma OneMore(cfg: Limits, s: Limiter, c: Call)
    ensures After(cfg, s, [c]) == Step(cfg, s, c).0
  {
    assert [c][1..] == [];
    assert After(cfg, Step(cfg, s, c).0, []) == Step(cfg, s, c).0;
  }

  /** A client that has had its burst has no token left, and has to wait for a whole one. */
  lemma Drained(cfg: Limits)
    ensures var s := After(cfg, FRESH, Repeat(ALICE, 0.0, cfg.burst));
            var (n, v) := Step(cfg, s, Call(ALICE, 0.0));
            !v.allowed && v.wait * cfg.rate == 1.0
            && ALICE in n.lastSeen && n.lastSeen[ALICE] == 0.0 && n.lastCleanup == 0.0
  {
    var s := After(cfg, FRESH, Repeat(ALICE, 0.0, cfg.burst));
    QuietRun(cfg, FRESH, ALICE, 0.0, cfg.burst);
    AvailableInRange(cfg, map[], ALICE, 0.0);
    RefDrain(cfg, map[], ALICE, 0.0, cfg.burst);
    assert s.buckets[ALICE] == Bucket(0.0, 0.0);
    EarnedNothing(cfg.rate, 0.0);
    WaitTimesRate(1.0, cfg.rate);
  }

  /** The tokens a call reports left are exactly how many more calls the client can make at once. */
  lemma LeftIsLeft(cfg: Limits, before: seq<Call>, key: string, t: real, n: nat, start: real)
    requires Timed(before + [Call(key, t)], start)
    ensures var vs := Run(cfg, FRESH, before + ([Call(key, t)] + Repeat(key, t, n)));
            AllAllowed(vs[|before| + 1..]) <==> n == 0 || vs[|before|].left >= n as real
  {
    var s, c, more := After(cfg, FRESH, before), Call(key, t), Repeat(key, t, n);
    TimedSplit(before, [c], start);
    RunConsistent(cfg, FRESH, before, start);
    Served(cfg, s, c, LastTime(before, start));
    var (m, v) := Step(cfg, s, c);
    RunConcat(cfg, FRESH, before, [c] + more);
    assert ([c] + more)[1..] == more;
    var vs := Run(cfg, FRESH, before + ([c] + more));
    assert vs == Run(cfg, FRESH, before) + ([v] + Run(cfg, m, more));
    assert vs[|before| + 1..] == Run(cfg, m, more);
    StepConsistent(cfg, s, c, LastTime(before, start));
    QuietRun(cfg, m, key, t, n);
    AvailableInRange(cfg, m.buckets, key, t);
    RefDrain(cfg, m.buckets, key, t, n);
  }

  // ---------------------------------------------------------------------------
  // How long a client is remembered
  // ---------------------------------------------------------------------------

  /** At the last cleanup nobody still tracked had been silent for the stale age. */
  ghost predicate SweptAt(cfg: Limits, s: Limiter, now: real) {
    && s.lastCleanup <= now
    && forall k :: k in s.lastSeen ==> s.lastCleanup - s.lastSeen[k] < cfg.staleAfter && s.lastSeen[k] <= now
  }

  lemma StepSwept(cfg: Limits, s: Limiter, c: Call, start: real)
    requires SweptAt(cfg, s, start) && start <= c.now
    ensures var n := Step(cfg, s, c).0; SweptAt(cfg, n, c.now) && c.now - n.lastCleanup < 60.0
  {
  }

  lemma {:induction false} RunSwept(cfg: Limits, s: Limiter, calls: seq<Call>, start: real)
    requires SweptAt(cfg, s, start) && Timed(calls, start)
    ensures var n, last := After(cfg, s, calls), LastTime(calls, start);
            SweptAt(cfg, n, last) && (calls != [] ==> last - n.lastCleanup < 60.0)
    decreases |calls|
  {
    if calls != [] {
      StepSwept(cfg, s, calls[0], start);
      RunSwept(cfg, Step(cfg, s, calls[0]).0, calls[1..], calls[0].now);
    }
  }

  /** After any timed run a client still tracked has been silent for less than the stale age and a
      minute. */
  lemma TrackedAreRecent(cfg: Limits, calls: seq<Call>, key: string)
    requires Timed(calls, 0.0) && calls != []
    ensures var n := After(cfg, FRESH, calls);
            key in n.lastSeen ==> calls[|calls| - 1].now - n.lastSeen[key] < cfg.staleAfter + 60.0
  {
    RunSwept(cfg, FRESH, calls, 0.0);
  }

  // ---------------------------------------------------------------------------
  // What the settings mean
  // ---------------------------------------------------------------------------

  /** One window earns the quota, a new client has the burst, and a client is stale after twenty windows
      but not before five minutes; a setting below one counts as one. */
  lemma SettingsMean(s: Settings, now: real)
    ensures var l := LimitsOf(s);
            var window := if s.window < 1 then 1 else s.window;
            var quota := if s.perWindow < 1 then 1 else s.perWindow;
            && Earned(l.rate, now, now + window as real) == quota as real
            && l.burst == (if s.burst < 1 then 1 else s.burst)
            && l.staleAfter == if s.window < 15 then 300.0 else 20.0 * s.window as real
  {
    var w, p := Max(1, s.window) as real, Max(1, s.perWindow) as real;
    QuotientTimes(p, w);
    assert Earned(p / w, now, now + w) == w * (p / w);
  }

  lemma QuotientTimes(p: real, w: real)
    requires w > 0.0
    ensures w * (p / w) == p
  {
  }

  /** A client the limiter does not know gets exactly its burst at once. */
  lemma NewClientHasBurst(cfg: Limits, key: string, t: real, n: nat)
    ensures AllAllowed(Run(cfg, FRESH, Repeat(key, t, n))) || t >= 60.0 || n > cfg.burst
    ensures t < 60.0 && n > cfg.burst ==> !AllAllowed(Run(cfg, FRESH, Repeat(key, t, n)))
  {
    if t < 60.0 {
      QuietRun(cfg, FRESH, key, t, n);
      AvailableInRange(cfg, map[], key, t);
      RefDrain(cfg, map[], key, t, n);
    }
  }
}
