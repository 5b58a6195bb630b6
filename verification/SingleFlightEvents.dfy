/** What the callers of the storage summary get, told in the events of the run alone: which scan a
    value is from, and when scans start. */
module SingleFlightEvents {
  import opened Wrappers
  import opened SingleFlight

  /** What a scan that came back found; nothing if it raised. */
  function Findings(e: Event): Summary
    requires e.Finish?
  {
    if e.found.Some? then e.found.value else Summary([], 0)
  }

  predicate NoFinish(es: seq<Event>, from: nat, to: nat) {
    forall j :: from <= j < to && j < |es| ==> !es[j].Finish?
  }

  /** The caller takes the lock at m to scan: ten minutes or more after every scan that had ended. */
  predicate StartsScan(es: seq<Event>, m: nat, t: nat) {
    m < |es| && es[m].Acquire? && es[m].task == t
    && forall i :: 0 <= i < m && es[i].Finish? ==> es[i].now + 600.0 <= es[m].now
  }

  /** The caller looks at m and is handed what the scan that ended last, at k, found less than ten
      minutes before. */
  predicate HandedOn(es: seq<Event>, k: nat, m: nat, t: nat, v: Summary) {
    && k < m < |es| && es[k].Finish? && NoFinish(es, k + 1, m)
    && !es[m].Finish? && es[m].task == t && es[m].now - es[k].now < 600.0
    && v == Findings(es[k])
  }

  ghost predicate FromCache(es: seq<Event>, t: nat, v: Summary) { exists k: nat, m: nat :: HandedOn(es, k, m, t, v) }

  predicate ScanOf(es: seq<Event>, k: nat, t: nat) { k < |es| && es[k].Finish? && es[k].task == t }

  ghost predicate Scanned(es: seq<Event>, t: nat) { exists k: nat :: ScanOf(es, k, t) }

  /** The value of a caller that scanned is what its scan found; of another, what it was handed. */
  ghost predicate Told(es: seq<Event>, t: nat, v: Summary) {
    && (forall k: nat :: ScanOf(es, k, t) ==> v == Findings(es[k]))
    && (!Scanned(es, t) ==> FromCache(es, t, v))
  }

  /** The scan that ends at j was started at some m with no scan ending in between. */
  ghost predicate Begun(es: seq<Event>, j: nat, t: nat) {
    exists m: nat :: m < j && StartsScan(es, m, t) && NoFinish(es, m + 1, j)
  }

  // ---------------------------------------------------------------------------
  // Events and states
  // ---------------------------------------------------------------------------

  lemma {:induction false} RunsSnoc(s: State, es: seq<Event>, e: Event)
    requires Inv(s) && Runs(s, es + [e])
    ensures Runs(s, es) && Enabled(After(s, es), e) && Inv(After(s, es))
    ensures After(s, es + [e]) == Next(After(s, es), e)
    decreases |es|
  {
    if es == [] {
      assert [] + [e] == [e] && [e][1..] == [];
      StepKeepsInv(s, e);
      assert After(Next(s, e), []) == Next(s, e);
    } else {
      assert (es + [e])[0] == es[0] && (es + [e])[1..] == es[1..] + [e];
      StepKeepsInv(s, es[0]);
      RunsSnoc(Next(s, es[0]), es[1..], e);
    }
  }

  ghost predicate CacheTold(es: seq<Event>, s: State) {
    && (s.cache == None <==> NoFinish(es, 0, |es|))
    && (forall k :: 0 <= k < |es| && es[k].Finish? && NoFinish(es, k + 1, |es|) ==>
          s.cache == Some(Findings(es[k])) && s.cacheAt == es[k].now)
  }

  ghost predicate ClockTold(es: seq<Event>, s: State) {
    && (forall i :: 0 <= i < |es| ==> es[i].now <= s.h.clock)
    && (forall i, j :: 0 <= i <= j < |es| ==> es[i].now <= es[j].now)
  }

  ghost predicate TasksTold(es: seq<Event>, s: State) {
    && (forall t :: t in s.tasks && s.tasks[t].Returned? ==> Told(es, t, s.tasks[t].value))
    && (forall t :: t in s.tasks && s.tasks[t].Scanning? ==> Begun(es, |es|, t))
    && (forall k: nat, t :: ScanOf(es, k, t) ==> t in s.tasks && s.tasks[t].Returned?)
  }

  ghost predicate ScansTold(es: seq<Event>) {
    forall j :: 0 <= j < |es| && es[j].Finish? ==> Begun(es, j, es[j].task)
  }

  lemma FindLastFinish(es: seq<Event>) returns (k: nat)
    requires !NoFinish(es, 0, |es|)
    ensures k < |es| && es[k].Finish? && NoFinish(es, k + 1, |es|)
  {
    k := |es| - 1;
    while !es[k].Finish?
      invariant k < |es| && NoFinish(es, k + 1, |es|)
      decreases k
    {
      if k == 0 {
        assert NoFinish(es, 0, |es|);
      }
      k := k - 1;
    }
  }

  lemma CacheSnoc(es: seq<Event>, e: Event, s: State)
    requires Inv(s) && Enabled(s, e) && CacheTold(es, s)
    ensures CacheTold(es + [e], Next(s, e))
  {
    var more, n := es + [e], Next(s, e);
    assert more[|es|] == e;
    assert forall i :: 0 <= i < |es| ==> more[i] == es[i];
    assert NoFinish(more, 0, |more|) <==> NoFinish(es, 0, |es|) && !e.Finish?;
    forall k | 0 <= k < |more| && more[k].Finish? && NoFinish(more, k + 1, |more|)
      ensures n.cache == Some(Findings(more[k])) && n.cacheAt == more[k].now
    {
      if k < |es| {
        assert !more[|es|].Finish?;
        assert NoFinish(es, k + 1, |es|);
      }
    }
  }

  lemma ClockSnoc(es: seq<Event>, e: Event, s: State)
    requires Enabled(s, e) && ClockTold(es, s) && (s.cache.Some? ==> s.h.scans != [])
    ensures ClockTold(es + [e], Next(s, e))
  {
    var more := es + [e];
    assert forall i :: 0 <= i < |more| ==> more[i] == if i < |es| then es[i] else e;
  }

  /** More events change nothing about the ones before. */
  lemma BegunLater(es: seq<Event>, e: Event, j: nat, t: nat)
    requires Begun(es, j, t) && j <= |es|
    ensures Begun(es + [e], j, t)
  {
    var more := es + [e];
    assert forall i :: 0 <= i < |es| ==> more[i] == es[i];
    var m: nat :| m < j && StartsScan(es, m, t) && NoFinish(es, m + 1, j);
    assert StartsScan(more, m, t) && NoFinish(more, m + 1, j);
  }

  lemma BegunOneMore(es: seq<Event>, e: Event, t: nat)
    requires Begun(es, |es|, t) && !e.Finish?
    ensures Begun(es + [e], |es| + 1, t)
  {
    var more := es + [e];
    assert forall i :: 0 <= i < |es| ==> more[i] == es[i];
    var m: nat :| m < |es| && StartsScan(es, m, t) && NoFinish(es, m + 1, |es|);
    assert StartsScan(more, m, t) && NoFinish(more, m + 1, |es| + 1);
  }

  lemma ToldLater(es: seq<Event>, e: Event, t: nat, v: Summary)
    requires Told(es, t, v) && !(e.Finish? && e.task == t)
    ensures Told(es + [e], t, v)
  {
    var more := es + [e];
    assert forall i :: 0 <= i < |es| ==> more[i] == es[i];
    forall k: nat | ScanOf(more, k, t) ensures v == Findings(more[k]) { assert ScanOf(es, k, t); }
    if !Scanned(more, t) {
      forall k: nat ensures !ScanOf(es, k, t) { assert ScanOf(es, k, t) ==> ScanOf(more, k, t); }
      var k: nat, m: nat :| HandedOn(es, k, m, t, v);
      assert HandedOn(more, k, m, t, v);
    }
  }

  /** A caller that finds the cache fresh is handed what the last scan found. */
  lemma ServedTold(es: seq<Event>, e: Event, s: State)
    requires Inv(s) && Enabled(s, e) && !e.Finish? && Fresh(s, e.now)
    requires CacheTold(es, s) && TasksTold(es, s)
    requires e.task in s.tasks ==> !s.tasks[e.task].Returned?
    ensures Told(es + [e], e.task, s.cache.value)
  {
    var more := es + [e];
    var k := FindLastFinish(es);
    assert forall i :: 0 <= i < |es| ==> more[i] == es[i];
    assert more[|es|] == e;
    assert HandedOn(more, k, |es|, e.task, s.cache.value);
    forall j: nat ensures !ScanOf(more, j, e.task) { assert ScanOf(more, j, e.task) ==> ScanOf(es, j, e.task); }
  }

  lemma FinishTold(es: seq<Event>, e: Event, s: State)
    requires e.Finish? && TasksTold(es, s) && e.task in s.tasks && s.tasks[e.task].Scanning?
    ensures Told(es + [e], e.task, Findings(e))
  {
    var more := es + [e];
    assert more[|es|] == e && ScanOf(more, |es|, e.task);
    forall j: nat | ScanOf(more, j, e.task) ensures j == |es| { assert j < |es| ==> ScanOf(es, j, e.task); }
  }

  lemma StartTold(es: seq<Event>, e: Event, s: State)
    requires Inv(s) && Enabled(s, e) && e.Acquire? && !Fresh(s, e.now) && CacheTold(es, s) && ClockTold(es, s)
    ensures Begun(es + [e], |es| + 1, e.task)
  {
    var more := es + [e];
    assert forall i :: 0 <= i < |es| ==> more[i] == es[i];
    assert more[|es|] == e;
    forall i | 0 <= i < |es| && more[i].Finish? ensures more[i].now + 600.0 <= e.now {
      var k := FindLastFinish(es);
      assert i <= k;
    }
    assert StartsScan(more, |es|, e.task) && NoFinish(more, |es| + 1, |es| + 1);
  }

  lemma TaskSnoc(es: seq<Event>, e: Event, s: State, t: nat)
    requires Inv(s) && Enabled(s, e) && CacheTold(es, s) && ClockTold(es, s) && TasksTold(es, s)
    ensures var n := Next(s, e);
            && (t in n.tasks && n.tasks[t].Returned? ==> Told(es + [e], t, n.tasks[t].value))
            && (t in n.tasks && n.tasks[t].Scanning? ==> Begun(es + [e], |es| + 1, t))
  {
    var n := Next(s, e);
    if t != e.task {
      if t in s.tasks && s.tasks[t].Returned? { ToldLater(es, e, t, s.tasks[t].value); }
      if t in s.tasks && s.tasks[t].Scanning? {
        assert !e.Finish?;
        BegunOneMore(es, e, t);
      }
    } else if e.Finish? {
      FinishTold(es, e, s);
    } else if Fresh(s, e.now) {
      ServedTold(es, e, s);
    } else if e.Acquire? {
      StartTold(es, e, s);
    }
  }

  lemma TasksSnoc(es: seq<Event>, e: Event, s: State)
    requires Inv(s) && Enabled(s, e) && CacheTold(es, s) && ClockTold(es, s) && TasksTold(es, s)
    ensures TasksTold(es + [e], Next(s, e))
  {
    var more, n := es + [e], Next(s, e);
    forall t | t in n.tasks && n.tasks[t].Returned? ensures Told(more, t, n.tasks[t].value) { TaskSnoc(es, e, s, t); }
    forall t | t in n.tasks && n.tasks[t].Scanning? ensures Begun(more, |more|, t) { TaskSnoc(es, e, s, t); }
    forall k: nat, t: nat | ScanOf(more, k, t) ensures t in n.tasks && n.tasks[t].Returned? {
      if k < |es| { assert ScanOf(es, k, t); }
    }
  }

  lemma ScansSnoc(es: seq<Event>, e: Event, s: State)
    requires Enabled(s, e) && TasksTold(es, s) && ScansTold(es)
    ensures ScansTold(es + [e])
  {
    var more := es + [e];
    forall j | 0 <= j < |more| && more[j].Finish? ensures Begun(more, j, more[j].task) {
      if j < |es| { assert more[j] == es[j]; }
      BegunLater(es, e, j, more[j].task);
    }
  }

  lemma {:induction false} RunTold(es: seq<Event>)
    requires Runs(INITIAL, es)
    ensures var s := After(INITIAL, es);
            Inv(s) && CacheTold(es, s) && ClockTold(es, s) && TasksTold(es, s) && ScansTold(es)
    decreases |es|
  {
    RunKeepsInv(INITIAL, es);
    if es != [] {
      var front, e := es[..|es| - 1], es[|es| - 1];
      assert es == front + [e];
      RunsSnoc(INITIAL, front, e);
      RunTold(front);
      var s := After(INITIAL, front);
      CacheSnoc(front, e, s);
      ClockSnoc(front, e, s);
      TasksSnoc(front, e, s);
      ScansSnoc(front, e, s);
    }
  }

  // ---------------------------------------------------------------------------
  // Main results
  // ---------------------------------------------------------------------------

  /** In every interleaving, a caller that scanned returns what its own scan found, or nothing if that
      raised; any other returns what the last scan to end before it looked had found, less than ten
      minutes earlier. */
  lemma ReturnsFindings(es: seq<Event>, t: nat)
    requires Runs(INITIAL, es)
    ensures var s := After(INITIAL, es);
            t in s.tasks && s.tasks[t].Returned? ==>
              (forall k: nat :: ScanOf(es, k, t) ==> s.tasks[t].value == Findings(es[k]))
              && (!Scanned(es, t) ==> FromCache(es, t, s.tasks[t].value))
  {
    RunTold(es);
    var s := After(INITIAL, es);
    if t in s.tasks && s.tasks[t].Returned? { assert Told(es, t, s.tasks[t].value); }
  }

  /** In every interleaving each scan was started by its caller taking the lock, with no other scan
      ending under it, ten minutes or more after every scan that had ended. */
  lemma ScansFarApart(es: seq<Event>, j: nat)
    requires Runs(INITIAL, es) && j < |es| && es[j].Finish?
    ensures exists m: nat :: m < j && StartsScan(es, m, es[j].task) && NoFinish(es, m + 1, j)
  {
    RunTold(es);
    assert Begun(es, j, es[j].task);
  }
}
