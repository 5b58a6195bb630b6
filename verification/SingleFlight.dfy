/** The single-flight, time-limited storage summary of backend/api/routes_dataset.py:
    any number of callers, interleaved at their awaits, share one cached scan. */
module SingleFlight {
  import opened Wrappers

  /** Providers with their bytes and file counts, and the total. */
  datatype Summary = Summary(providers: seq<(string, nat, nat)>, total: nat)

  const NOTHING: Summary := Summary([], 0)
  const TTL: real := 600.0

  /** Where a caller is: awaiting the lock, awaiting the scan it started, or back with a value. */
  datatype Task = Waiting | Scanning | Returned(value: Summary)

  /** A finished scan. A scan that raised counts as one that found nothing. */
  datatype Scan = Scan(start: real, finish: real, result: Summary)

  /** History: which scan a caller's value came from, its own or, looked up at a time, the cache's. */
  datatype Origin = Own(scan: nat) | Cached(scan: nat, lookedAt: real)

  datatype History = History(clock: real, started: real, scans: seq<Scan>, origin: map<nat, Origin>)

  /** The module globals, the lock, the callers, and the history. */
  datatype State = State(cache: Option<Summary>, cacheAt: real, holder: Option<nat>, tasks: map<nat, Task>, h: History)

  const INITIAL: State := State(None, 0.0, None, map[], History(0.0, 0.0, [], map[]))

  /** The steps between awaits. Every step reads the clock. */
  datatype Event =
    | Call(task: nat, now: real)       // up to the wait for the lock
    | Acquire(task: nat, now: real)    // lock taken: look again, then return or start the scan
    | Finish(task: nat, now: real, found: Option<Summary>)  // the scan came back, or raised

  predicate Fresh(s: State, now: real) { s.cache.Some? && now - s.cacheAt < TTL }

  predicate Enabled(s: State, e: Event) {
    s.h.clock <= e.now &&
    match e
    case Call(t, _) => t !in s.tasks
    case Acquire(t, _) => t in s.tasks && s.tasks[t].Waiting? && s.holder == None
    case Finish(t, _, _) => t in s.tasks && s.tasks[t].Scanning?
  }

  /** A caller leaves with the cached value. */
  function Serve(s: State, t: nat, now: real): State
    requires s.cache.Some? && s.h.scans != []
  {
    s.(tasks := s.tasks[t := Returned(s.cache.value)],
       h := s.h.(clock := now, origin := s.h.origin[t := Cached(|s.h.scans| - 1, now)]))
  }

  function Next(s: State, e: Event): State
    requires Enabled(s, e) && (s.cache.Some? ==> s.h.scans != [])
  {
    match e
    case Call(t, now) =>
      if Fresh(s, now) then Serve(s, t, now)
      else s.(tasks := s.tasks[t := Waiting], h := s.h.(clock := now))
    case Acquire(t, now) =>
      if Fresh(s, now) then Serve(s, t, now)
      else s.(holder := Some(t), tasks := s.tasks[t := Scanning], h := s.h.(clock := now, started := now))
    case Finish(t, now, found) =>
      var result := if found.Some? then found.value else NOTHING;
      State(Some(result), now, None, s.tasks[t := Returned(result)],
            s.h.(clock := now, scans := s.h.scans + [Scan(s.h.started, now, result)],
                 origin := s.h.origin[t := Own(|s.h.scans|)]))
  }

  // ---------------------------------------------------------------------------
  // What every step keeps
  // ---------------------------------------------------------------------------

  /** The lock is held exactly by the one caller that scans. */
  ghost predicate OneScanner(s: State) {
    forall t :: t in s.tasks && s.tasks[t].Scanning? <==> s.holder == Some(t)
  }

  /** The cache is the result of the last scan, stamped with its end. */
  ghost predicate CacheIsLastScan(s: State) {
    if s.h.scans == [] then s.cache == None
    else var last := s.h.scans[|s.h.scans| - 1]; s.cache == Some(last.result) && s.cacheAt == last.finish
  }

  /** Scans do not overlap, and each starts at least one TTL after the one before ended. */
  ghost predicate ScansApart(s: State) {
    && (forall i :: 0 <= i < |s.h.scans| ==> s.h.scans[i].start <= s.h.scans[i].finish <= s.h.clock)
    && (forall i, j {:trigger s.h.scans[i], s.h.scans[j]} :: 0 <= i && j == i + 1 && j < |s.h.scans| ==>
          s.h.scans[i].finish + TTL <= s.h.scans[j].start)
    && (s.holder.Some? ==>
          s.h.started <= s.h.clock
          && (s.h.scans != [] ==> s.h.scans[|s.h.scans| - 1].finish + TTL <= s.h.started))
  }

  /** A value handed out is that of the caller's own scan, or of the latest scan finished when
      the caller looked, less than one TTL before. */
  ghost predicate Justified(s: State, t: nat)
    requires t in s.tasks && s.tasks[t].Returned?
  {
    t in s.h.origin &&
    match s.h.origin[t]
    case Own(k) => k < |s.h.scans| && s.tasks[t].value == s.h.scans[k].result
    case Cached(k, at) =>
      k < |s.h.scans| && s.tasks[t].value == s.h.scans[k].result
      && s.h.scans[k].finish <= at <= s.h.clock && at - s.h.scans[k].finish < TTL
      && (k + 1 < |s.h.scans| ==> at <= s.h.scans[k + 1].finish)
  }

  ghost predicate Inv(s: State) {
    OneScanner(s) && CacheIsLastScan(s) && ScansApart(s)
    && forall t :: t in s.tasks && s.tasks[t].Returned? ==> Justified(s, t)
  }

  lemma StepKeepsScans(s: State, e: Event)
    requires OneScanner(s) && CacheIsLastScan(s) && ScansApart(s) && Enabled(s, e)
    ensures CacheIsLastScan(Next(s, e)) && ScansApart(Next(s, e))
  {
    if e.Finish? {
      assert s.holder == Some(e.task);
    }
  }

  lemma StepKeepsJustified(s: State, e: Event, t: nat)
    requires CacheIsLastScan(s) && ScansApart(s) && Enabled(s, e)
    requires t in s.tasks && s.tasks[t].Returned? ==> Justified(s, t)
    ensures var n := Next(s, e); t in n.tasks && n.tasks[t].Returned? ==> Justified(n, t)
  {
  }

  lemma StepKeepsInv(s: State, e: Event)
    requires Inv(s) && Enabled(s, e)
    ensures Inv(Next(s, e))
  {
    StepKeepsScans(s, e);
    var n := Next(s, e);
    forall t | t in n.tasks && n.tasks[t].Returned? ensures Justified(n, t) {
      StepKeepsJustified(s, e, t);
    }
  }

  // ---------------------------------------------------------------------------
  // Runs
  // ---------------------------------------------------------------------------

  /** Every event is enabled where it happens. */
  ghost predicate Runs(s: State, es: seq<Event>)
    requires Inv(s)
    decreases |es|
  {
    es == [] || (Enabled(s, es[0]) && (StepKeepsInv(s, es[0]); Runs(Next(s, es[0]), es[1..])))
  }

  ghost function After(s: State, es: seq<Event>): State
    requires Inv(s) && Runs(s, es)
    decreases |es|
  {
    if es == [] then s else (StepKeepsInv(s, es[0]); After(Next(s, es[0]), es[1..]))
  }

  lemma {:induction false} RunKeepsInv(s: State, es: seq<Event>)
    requires Inv(s) && Runs(s, es)
    ensures Inv(After(s, es))
    decreases |es|
  {
    if es != [] {
      StepKeepsInv(s, es[0]);
      RunKeepsInv(Next(s, es[0]), es[1..]);
    }
  }

  /** In every interleaving at most one scan is in flight, successive scans are at least one TTL
      apart, and every caller's value is justified. */
  lemma SingleFlightSafe(es: seq<Event>)
    requires Runs(INITIAL, es)
    ensures var s := After(INITIAL, es);
            (forall t, u :: t in s.tasks && u in s.tasks && s.tasks[t].Scanning? && s.tasks[u].Scanning? ==> t == u)
            && ScansApart(s)
            && (forall t :: t in s.tasks && s.tasks[t].Returned? ==> Justified(s, t))
  {
    RunKeepsInv(INITIAL, es);
  }

  /** The storage is read at most once per TTL: n finished scans take at least n - 1 of them. */
  lemma ScanBudget(es: seq<Event>)
    requires Runs(INITIAL, es)
    ensures var h := After(INITIAL, es).h;
            h.scans != [] ==> (|h.scans| - 1) as real * TTL <= h.clock - h.scans[0].start
  {
    RunKeepsInv(INITIAL, es);
    var s := After(INITIAL, es);
    if s.h.scans != [] { ScansSpread(s, |s.h.scans| - 1); }
  }

  lemma {:induction false} ScansSpread(s: State, k: nat)
    requires ScansApart(s) && k < |s.h.scans|
    ensures k as real * TTL <= s.h.scans[k].finish - s.h.scans[0].start
    decreases k
  {
    if k > 0 {
      ScansSpread(s, k - 1);
      assert s.h.scans[k - 1].finish + TTL <= s.h.scans[k].start;
    }
  }

  // ---------------------------------------------------------------------------
  // Progress
  // ---------------------------------------------------------------------------

  predicate Settled(s: State) { forall t :: t in s.tasks ==> s.tasks[t].Returned? }

  /** Nobody waits for ever on a lock nobody will give back: while some caller has not returned,
      a step other than a new call is enabled. */
  lemma NoDeadlock(s: State)
    requires Inv(s) && !Settled(s)
    ensures exists e: Event :: !e.Call? && Enabled(s, e)
  {
    var t :| t in s.tasks && !s.tasks[t].Returned?;
    match s.holder
    case None =>
      assert s.tasks[t].Waiting?;
      assert Enabled(s, Acquire(t, s.h.clock));
    case Some(u) =>
      assert Enabled(s, Finish(u, s.h.clock, None));
  }

  function WaitingOnes(s: State): set<nat> { set t | t in s.tasks && s.tasks[t].Waiting? }
  function ScanningOnes(s: State): set<nat> { set t | t in s.tasks && s.tasks[t].Scanning? }

  /** Steps the callers still have to take: at most two for one that waits, one for one that scans. */
  function Left(s: State): nat { 2 * |WaitingOnes(s)| + |ScanningOnes(s)| }

  lemma StepsRunOut(s: State, e: Event)
    requires Inv(s) && Enabled(s, e) && !e.Call?
    ensures Left(Next(s, e)) < Left(s)
  {
    var n := Next(s, e);
    if e.Acquire? {
      assert WaitingOnes(n) == WaitingOnes(s) - {e.task};
      assert ScanningOnes(n) == if Fresh(s, e.now) then ScanningOnes(s) else ScanningOnes(s) + {e.task};
    } else {
      assert WaitingOnes(n) == WaitingOnes(s);
      assert ScanningOnes(n) == ScanningOnes(s) - {e.task};
    }
  }

  lemma {:induction false} StepsBounded(s: State, es: seq<Event>)
    requires Inv(s) && Runs(s, es) && forall e :: e in es ==> !e.Call?
    ensures |es| <= Left(s)
    ensures |es| == Left(s) ==> Settled(After(s, es))
    decreases |es|
  {
    if es != [] {
      StepsRunOut(s, es[0]);
      StepKeepsInv(s, es[0]);
      StepsBounded(Next(s, es[0]), es[1..]);
    } else if !Settled(s) {
      var t :| t in s.tasks && !s.tasks[t].Returned?;
      assert t in WaitingOnes(s) || t in ScanningOnes(s);
    }
  }

  /** No step but a new call can be taken. */
  ghost predicate OnlyCalls(s: State) { forall e: Event :: Enabled(s, e) ==> e.Call? }

  /** With no new calls a run takes no more than that many steps, and where no step is left to take,
      and only there, every caller has returned. */
  lemma EveryoneReturns(s: State, es: seq<Event>)
    requires Inv(s) && Runs(s, es) && forall e :: e in es ==> !e.Call?
    ensures |es| <= Left(s)
    ensures |es| == Left(s) ==> Settled(After(s, es))
    ensures OnlyCalls(After(s, es)) <==> Settled(After(s, es))
  {
    StepsBounded(s, es);
    RunKeepsInv(s, es);
    if !Settled(After(s, es)) { NoDeadlock(After(s, es)); }
  }

  // ---------------------------------------------------------------------------
  // The code, step by step
  // ---------------------------------------------------------------------------

  /** The process: the two globals and the lock, and the event loop's callers. Each method runs
      one caller from one await to the next. */
  class Process {
    var cache: Option<Summary>
    var cacheAt: real
    var holder: Option<nat>
    var tasks: map<nat, Task>
    ghost var h: History

    ghost function View(): State
      reads this
    {
      State(cache, cacheAt, holder, tasks, h)
    }

    ghost predicate Valid()
      reads this
    {
      Inv(View())
    }

    constructor ()
      ensures Valid() && View() == INITIAL
    {
      cache, cacheAt, holder, tasks := None, 0.0, None, map[];
      h := History(0.0, 0.0, [], map[]);
    }

    method CallSummary(t: nat, now: real)
      requires Valid() && Enabled(View(), Call(t, now))
      modifies this
      ensures Valid() && View() == Next(old(View()), Call(t, now))
    {
      StepKeepsInv(View(), Call(t, now));
      var cached := cache;
      if cached != None && now - cacheAt < TTL {
        h := h.(clock := now, origin := h.origin[t := Cached(|h.scans| - 1, now)]);
        tasks := tasks[t := Returned(cached.value)];
        return;
      }
      h := h.(clock := now);
      tasks := tasks[t := Waiting];
    }

    method LockAcquired(t: nat, now: real)
      requires Valid() && Enabled(View(), Acquire(t, now))
      modifies this
      ensures Valid() && View() == Next(old(View()), Acquire(t, now))
    {
      StepKeepsInv(View(), Acquire(t, now));
      holder := Some(t);
      var cached := cache;
      if cached != None && now - cacheAt < TTL {
        h := h.(clock := now, origin := h.origin[t := Cached(|h.scans| - 1, now)]);
        tasks := tasks[t := Returned(cached.value)];
        holder := None;
        return;
      }
      h := h.(clock := now, started := now);
      tasks := tasks[t := Scanning];
    }

    method ScanDone(t: nat, now: real, found: Option<Summary>)
      requires Valid() && Enabled(View(), Finish(t, now, found))
      modifies this
      ensures Valid() && View() == Next(old(View()), Finish(t, now, found))
    {
      StepKeepsInv(View(), Finish(t, now, found));
      var result := NOTHING;
      if found.Some? {
        result := found.value;
      }
      h := h.(clock := now, scans := h.scans + [Scan(h.started, now, result)],
              origin := h.origin[t := Own(|h.scans|)]);
      cache := Some(result);
      cacheAt := now;
      tasks := tasks[t := Returned(result)];
      holder := None;
    }
  }
}
