/** What the launcher's poll threads achieve, told from outside a pass: from the state it was entered
    in, the answers fetched, and the steps taken. */
module SupervisionRuns {
  import opened Wrappers
  import opened WorkerPlanes
  import opened SupervisionThreads

  lemma {:induction false} RunConcat(s: State, a: seq<Step>, b: seq<Step>)
    ensures Run(s, a + b) == Run(Run(s, a), b)
    decreases |b|
  {
    if b == [] {
      assert a + b == a;
    } else {
      assert (a + b)[..|a + b| - 1] == a + b[..|b| - 1];
      RunConcat(s, a, b[..|b| - 1]);
    }
  }

  // ---------------------------------------------------------------------------
  // A pass, from the state it was entered in
  // ---------------------------------------------------------------------------

  /** Neither leaves the pass of thread i nor ends the process of p. */
  predicate Spares(step: Step, i: nat, p: Plane) {
    step != Step.LeavePass(i) && step != Step.ProcessExits(p)
  }

  predicate AllSpare(steps: seq<Step>, i: nat, p: Plane) {
    forall k :: 0 <= k < |steps| ==> Spares(steps[k], i, p)
  }

  /** Thread i is inside the pass it entered from that state, and p has not exited since. */
  predicate Within(entry: State, fails: set<Plane>, s: State, i: nat, p: Plane) {
    && Passing(s, i)
    && s.on == entry.on && s.flags == entry.flags
    && var t := s.threads[i];
       t.active == (entry.on && entry.backendUp) && t.from == entry.procs && t.fails == fails && p !in t.exited
  }

  lemma Entered(s: State, i: nat, fails: set<Plane>, p: Plane)
    requires Inv(s) && At(s, i, Fetched)
    ensures Within(s, fails, Next(s, Step.EnterPass(i, fails)), i, p)
  {
    if s.passInflight {
      var j: nat :| Passing(s, j);
      assert Polling(s, i);
      NoOtherPass(s, i, j);
    }
  }

  lemma NoFetchNow(s: State, i: nat, j: nat)
    requires Inv(s) && Passing(s, i)
    ensures !At(s, j, Fetching)
  {
    if At(s, j, Fetching) {
      assert Polling(s, j);
      NoOtherPass(s, j, i);
    }
  }

  /** The thread a step belongs to, if it is one's. */
  predicate Its(step: Step, i: nat) {
    match step
    case Tick => false
    case ProcessExits(_) => false
    case BackendIs(_) => false
    case _ => step.i == i
  }

  lemma QuietLeave(s: State, step: Step, i: nat)
    requires i < |s.threads| && !Its(step, i) && Quiet(step)
    ensures i < |Next(s, step).threads| && Next(s, step).threads[i] == s.threads[i]
  {
    match step
    case Tick =>
    case EnterPoll(j) =>
    case FetchFails(j) =>
    case LeavePass(j) =>
    case LeavePoll(j) =>
    case BackendIs(up) =>
  }

  lemma OthersLeave(s: State, step: Step, i: nat)
    requires i < |s.threads| && !Its(step, i) && !step.ProcessExits?
    ensures i < |Next(s, step).threads| && Next(s, step).threads[i] == s.threads[i]
  {
    if Quiet(step) {
      QuietLeave(s, step, i);
    } else {
      match step
      case FetchOk(j, payload) =>
      case EnterPass(j, fails) =>
      case ReconcileNext(j) =>
    }
  }

  lemma ExitNoticed(s: State, q: Plane, i: nat)
    requires i < |s.threads|
    ensures var n := Next(s, Step.ProcessExits(q));
            i < |n.threads| && (n.threads[i] == s.threads[i] || n.threads[i] == Noticed(s.threads[i], q))
  {
  }

  lemma PassingIgnores(s: State, step: Step, i: nat)
    requires Passing(s, i) && Its(step, i) && !step.ReconcileNext? && !step.LeavePass?
    ensures Next(s, step) == s
  {
    match step
    case EnterPoll(j) =>
    case FetchOk(j, payload) =>
    case FetchFails(j) =>
    case EnterPass(j, fails) =>
    case LeavePoll(j) =>
  }

  /** What a pass keeps of its entry. */
  predicate SameEntry(t: Thread, u: Thread, p: Plane)
    requires t.InPass?
  {
    u.InPass? && u.active == t.active && u.from == t.from && u.fails == t.fails && (p !in t.exited ==> p !in u.exited)
  }

  lemma TurnKeepsEntry(s: State, i: nat, p: Plane)
    requires Passing(s, i)
    ensures var n := Next(s, Step.ReconcileNext(i)); i < |n.threads| && SameEntry(s.threads[i], n.threads[i], p)
  {
  }

  lemma ThreadStays(s: State, step: Step, i: nat, p: Plane)
    requires Passing(s, i) && Spares(step, i, p)
    ensures i < |Next(s, step).threads| && SameEntry(s.threads[i], Next(s, step).threads[i], p)
  {
    if step.ProcessExits? {
      ExitNoticed(s, step.plane, i);
    } else if !Its(step, i) {
      OthersLeave(s, step, i);
    } else if step.ReconcileNext? {
      TurnKeepsEntry(s, i, p);
    } else {
      PassingIgnores(s, step, i);
    }
  }

  lemma FlagsStay(s: State, step: Step, i: nat)
    requires Inv(s) && Passing(s, i)
    ensures Next(s, step).flags == s.flags
  {
    match step
    case FetchOk(j, payload) => NoFetchNow(s, i, j);
    case _ => FlagsKept(s, step);
  }

  lemma StaysWithin(entry: State, fails: set<Plane>, s: State, step: Step, i: nat, p: Plane)
    requires Inv(s) && Within(entry, fails, s, i, p) && Spares(step, i, p)
    ensures Within(entry, fails, Next(s, step), i, p)
  {
    ThreadStays(s, step, i, p);
    FlagsStay(s, step, i);
    NextKeepsOn(s, step);
  }

  lemma {:induction false} RunStaysWithin(entry: State, fails: set<Plane>, s: State, steps: seq<Step>, i: nat, p: Plane)
    requires Inv(s) && Within(entry, fails, s, i, p) && AllSpare(steps, i, p)
    ensures Inv(Run(s, steps)) && Within(entry, fails, Run(s, steps), i, p)
    decreases |steps|
  {
    if steps != [] {
      var front, last := steps[..|steps| - 1], steps[|steps| - 1];
      assert AllSpare(front, i, p) && Spares(last, i, p);
      RunStaysWithin(entry, fails, s, front, i, p);
      StaysWithin(entry, fails, Run(s, front), last, i, p);
      StepKeepsInv(Run(s, front), last);
    }
  }

  /** The thread may leave its pass: its turns are over. */
  predicate MayLeave(s: State, i: nat) { At(Next(s, Step.LeavePass(i)), i, Finishing) }

  lemma EndedPass(entry: State, fails: set<Plane>, s: State, i: nat, p: Plane)
    requires Inv(s) && Within(entry, fails, s, i, p)
    ensures entry.on && entry.backendUp && MayLeave(s, i) ==>
              Same(s.procs, AfterPass(entry.procs, entry.flags, fails), p)
              && (Live(s.procs, p) <==> Enabled(entry.flags, p) && (Live(entry.procs, p) || p !in fails))
    ensures !(entry.on && entry.backendUp) ==> Same(s.procs, entry.procs, p) && MayLeave(s, i)
  {
    var t := s.threads[i];
    assert OnTrack(s, t);
    if entry.on && entry.backendUp {
      if MayLeave(s, i) { EndStands(s, t, p); }
    } else {
      assert StandsAs(s, t, Place(p));
    }
  }

  /** In any interleaving, from the state in which a fetched thread enters its pass to any moment
      before it leaves: with supervision on and the backend up at entry, once its turns are over every
      plane that did not exit meanwhile is as an uninterrupted pass over the processes and flags at
      entry leaves it; otherwise no such plane has come up or been stopped, and the turns are over. */
  lemma PassFromEntry(on: bool, before: seq<Step>, i: nat, fails: set<Plane>, during: seq<Step>, p: Plane)
    requires At(Run(Start(on), before), i, Fetched) && AllSpare(during, i, p)
    ensures var entry := Run(Start(on), before);
            var s := Run(Start(on), before + ([Step.EnterPass(i, fails)] + during));
            entry.on == on
            && (if on && entry.backendUp then
                  MayLeave(s, i) ==>
                    Same(s.procs, AfterPass(entry.procs, entry.flags, fails), p)
                    && (Live(s.procs, p) <==> Enabled(entry.flags, p) && (Live(entry.procs, p) || p !in fails))
                else Same(s.procs, entry.procs, p) && MayLeave(s, i))
  {
    var entry := Run(Start(on), before);
    var enter := Step.EnterPass(i, fails);
    RunKeepsInv(on, before);
    Entered(entry, i, fails, p);
    StepKeepsInv(entry, enter);
    var s := Run(Next(entry, enter), during);
    RunStaysWithin(entry, fails, Next(entry, enter), during, i, p);
    EndedPass(entry, fails, s, i, p);
    RunConcat(Start(on), before, [enter] + during);
    RunConcat(entry, [enter], during);
    OneStep(entry, enter);
  }

  lemma OneStep(s: State, step: Step)
    ensures Run(s, [step]) == Next(s, step)
  {
    assert [step][..0] == [];
    assert Run(s, []) == s;
  }

  // ---------------------------------------------------------------------------
  // The flags in force
  // ---------------------------------------------------------------------------

  /** The flags the last answer carried, of the answers some thread was waiting for. */
  function LastAnswer(on: bool, steps: seq<Step>): Option<Flags>
    decreases |steps|
  {
    if steps == [] then None
    else
      var front, last := steps[..|steps| - 1], steps[|steps| - 1];
      if last.FetchOk? && At(Run(Start(on), front), last.i, Fetching) && last.payload.Some? then last.payload
      else LastAnswer(on, front)
  }

  /** In any interleaving the flags in force are those of the last answer fetched, or the defaults
      before the first; an answer without flags changes none. */
  lemma {:induction false} FlagsInForce(on: bool, steps: seq<Step>, sub: Subsystem)
    ensures var s := Run(Start(on), steps);
            sub in s.flags && s.flags[sub] == Told(LastAnswer(on, steps), sub)
    decreases |steps|
  {
    if steps != [] {
      var front, last := steps[..|steps| - 1], steps[|steps| - 1];
      FlagsInForce(on, front, sub);
      var s := Run(Start(on), front);
      if last.FetchOk? {
        FetchedFlags(s, last.i, last.payload, sub);
      } else {
        FlagsKept(s, last);
      }
    }
  }

  lemma FetchedFlags(s: State, i: nat, payload: Option<Flags>, sub: Subsystem)
    requires sub in s.flags
    ensures var n := Next(s, Step.FetchOk(i, payload));
            sub in n.flags
            && n.flags[sub] == if At(s, i, Fetching) && payload.Some? then Told(payload, sub) else s.flags[sub]
  {
    match sub
    case Scanner =>
    case NewsFeed =>
    case Weather =>
    case WalletDiscovery =>
  }

  /** Whether the backend was last seen coming up. */
  predicate LastSeenUp(steps: seq<Step>)
    decreases |steps|
  {
    if steps == [] then false
    else if steps[|steps| - 1].BackendIs? then steps[|steps| - 1].up
    else LastSeenUp(steps[..|steps| - 1])
  }

  lemma BackendKept(s: State, step: Step)
    requires !step.BackendIs?
    ensures Next(s, step).backendUp == s.backendUp
  {
  }

  lemma {:induction false} BackendInForce(on: bool, steps: seq<Step>)
    ensures Run(Start(on), steps).backendUp == LastSeenUp(steps)
    decreases |steps|
  {
    if steps != [] {
      var front, last := steps[..|steps| - 1], steps[|steps| - 1];
      BackendInForce(on, front);
      if !last.BackendIs? { BackendKept(Run(Start(on), front), last); }
    }
  }

  // ---------------------------------------------------------------------------
  // Polls that fail
  // ---------------------------------------------------------------------------

  predicate OnTheWayOut(s: State, i: nat) { i < |s.threads| && (s.threads[i].Finishing? || s.threads[i].Returned?) }

  lemma OwnWayOut(s: State, step: Step, i: nat)
    requires OnTheWayOut(s, i) && Its(step, i)
    ensures OnTheWayOut(Next(s, step), i)
  {
    match step
    case EnterPoll(j) =>
    case FetchOk(j, payload) =>
    case FetchFails(j) =>
    case EnterPass(j, fails) =>
    case ReconcileNext(j) =>
    case LeavePass(j) =>
    case LeavePoll(j) =>
  }

  lemma StepWayOut(s: State, step: Step, i: nat)
    requires OnTheWayOut(s, i)
    ensures OnTheWayOut(Next(s, step), i)
  {
    if step.ProcessExits? {
      ExitNoticed(s, step.plane, i);
    } else if Its(step, i) {
      OwnWayOut(s, step, i);
    } else {
      OthersLeave(s, step, i);
    }
  }

  /** A poll whose fetch fails never comes to supervise. */
  lemma {:induction false} FailedPollNeverPasses(s: State, i: nat, more: seq<Step>)
    requires At(s, i, Fetching)
    ensures OnTheWayOut(Run(Next(s, Step.FetchFails(i)), more), i)
    ensures !Passing(Run(Next(s, Step.FetchFails(i)), more), i)
    decreases |more|
  {
    if more != [] {
      FailedPollNeverPasses(s, i, more[..|more| - 1]);
      StepWayOut(Run(Next(s, Step.FetchFails(i)), more[..|more| - 1]), more[|more| - 1], i);
    }
  }
}
