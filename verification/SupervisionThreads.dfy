/** The threads that poll the backend's health and supervise the worker planes (gui.py): any
    number of them, interleaved between the lock-protected regions and between the planes of a
    pass, while worker processes exit and the backend comes and goes. */
module SupervisionThreads {
  import opened Wrappers
  import opened WorkerPlanes

  /** Where a poll thread stands. `from`, `fails` and `exited` record, for a thread inside a pass,
      the processes it found, the planes whose spawn raises, and those that exited since. */
  datatype Thread =
    | Started
    | Fetching
    | Fetched
    | InPass(next: nat, active: bool, from: Procs, fails: set<Plane>, exited: set<Plane>)
    | Finishing
    | Returned

  datatype State = State(
    on: bool, backendUp: bool, procs: Procs, flags: Flags,
    pollInflight: bool, passInflight: bool, threads: seq<Thread>)

  datatype Step =
    | Tick                                                // the timer starts one more poll thread
    | EnterPoll(i: nat)
    | FetchOk(i: nat, payload: Option<Flags>)
    | FetchFails(i: nat)
    | EnterPass(i: nat, fails: set<Plane>)
    | ReconcileNext(i: nat)
    | LeavePass(i: nat)
    | LeavePoll(i: nat)
    | ProcessExits(plane: Plane)
    | BackendIs(up: bool)

  function Start(on: bool): State {
    State(on, false, map[], INITIAL_FLAGS, false, false, [])
  }

  predicate At(s: State, i: nat, t: Thread) { i < |s.threads| && s.threads[i] == t }

  predicate Passing(s: State, i: nat) { i < |s.threads| && s.threads[i].InPass? }

  function Move(s: State, i: nat, t: Thread): State
    requires i < |s.threads|
  {
    s.(threads := s.threads[i := t])
  }

  function Noticed(t: Thread, p: Plane): Thread {
    if t.InPass? then t.(exited := t.exited + {p}) else t
  }

  function Notice(ts: seq<Thread>, p: Plane): (ns: seq<Thread>)
    ensures |ns| == |ts| && forall i :: 0 <= i < |ts| ==> ns[i] == Noticed(ts[i], p)
  {
    seq(|ts|, i requires 0 <= i < |ts| => Noticed(ts[i], p))
  }

  /** One step; a step its thread is not ready for changes nothing. */
  function Next(s: State, step: Step): State {
    match step
    case Tick => s.(threads := s.threads + [Started])
    case EnterPoll(i) =>
      if !At(s, i, Started) then s
      else if s.pollInflight then Move(s, i, Returned)
      else Move(s, i, Fetching).(pollInflight := true)
    case FetchOk(i, payload) =>
      if !At(s, i, Fetching) then s
      else Move(s, i, Fetched).(flags := PolledFlags(s.flags, payload))
    case FetchFails(i) =>
      if !At(s, i, Fetching) then s else Move(s, i, Finishing)
    case EnterPass(i, fails) =>
      if !At(s, i, Fetched) then s
      else if s.passInflight then Move(s, i, Finishing)
      else
        var active := s.on && s.backendUp;
        Move(s, i, InPass(if active then 0 else |PLANES|, active, s.procs, fails, {})).(passInflight := true)
    case ReconcileNext(i) =>
      if !Passing(s, i) || s.threads[i].next >= |PLANES| then s
      else
        var t := s.threads[i];
        var procs := Do(s.procs, ActionFor(s.procs, s.flags, t.fails, PLANES[t.next]));
        Move(s, i, t.(next := t.next + 1)).(procs := procs)
    case LeavePass(i) =>
      if !Passing(s, i) || s.threads[i].next < |PLANES| then s
      else Move(s, i, Finishing).(passInflight := false)
    case LeavePoll(i) =>
      if !At(s, i, Finishing) then s else Move(s, i, Returned).(pollInflight := false)
    case ProcessExits(p) =>
      if p !in s.procs then s
      else s.(procs := s.procs[p := Exited], threads := Notice(s.threads, p))
    case BackendIs(up) => s.(backendUp := up)
  }

  function Run(s: State, steps: seq<Step>): State
    decreases |steps|
  {
    if steps == [] then s else Next(Run(s, steps[..|steps| - 1]), steps[|steps| - 1])
  }

  // ---------------------------------------------------------------------------
  // The same steps, in place
  // ---------------------------------------------------------------------------

  class Supervision {
    const launcher: Launcher
    var pollInflight: bool
    var passInflight: bool
    var threads: seq<Thread>

    ghost function Now(): State
      reads this, launcher
    {
      State(launcher.workerSupervisionEnabled, launcher.backendUp, launcher.workerProcs, launcher.subsystemFlags,
            pollInflight, passInflight, threads)
    }

    constructor (workers: bool)
      ensures fresh(launcher) && Now() == Start(workers)
    {
      launcher := new Launcher(workers);
      pollInflight, passInflight, threads := false, false, [];
    }

    /** `with self._health_poll_lock` at the head of a poll. */
    method EnterPoll(i: nat)
      requires At(Now(), i, Started)
      modifies this
      ensures Now() == Next(old(Now()), Step.EnterPoll(i))
    {
      if pollInflight {
        threads := threads[i := Returned];
        return;
      }
      pollInflight := true;
      threads := threads[i := Fetching];
    }

    method FetchOk(i: nat, payload: Option<Flags>)
      requires At(Now(), i, Fetching)
      modifies this, launcher`subsystemFlags
      ensures Now() == Next(old(Now()), Step.FetchOk(i, payload))
    {
      launcher.TakeFlags(payload);
      threads := threads[i := Fetched];
    }

    method FetchFails(i: nat)
      requires At(Now(), i, Fetching)
      modifies this`threads
      ensures Now() == Next(old(Now()), Step.FetchFails(i))
    {
      threads := threads[i := Finishing];
    }

    /** `with self._worker_supervisor_lock` at the head of a pass, and the pass's early returns. */
    method EnterPass(i: nat, fails: set<Plane>)
      requires At(Now(), i, Fetched)
      modifies this
      ensures Now() == Next(old(Now()), Step.EnterPass(i, fails))
    {
      if passInflight {
        threads := threads[i := Finishing];
        return;
      }
      passInflight := true;
      var active := launcher.workerSupervisionEnabled && launcher.backendUp;
      threads := threads[i := InPass(if active then 0 else |PLANES|, active, launcher.workerProcs, fails, {})];
    }

    method ReconcileNext(i: nat)
      requires Passing(Now(), i) && threads[i].next < |PLANES|
      modifies this, launcher`workerProcs, launcher`log
      ensures Now() == Next(old(Now()), Step.ReconcileNext(i))
    {
      var t := threads[i];
      launcher.Reconcile(PLANES[t.next], t.fails);
      threads := threads[i := t.(next := t.next + 1)];
    }

    /** The `finally` of a pass. */
    method LeavePass(i: nat)
      requires Passing(Now(), i) && threads[i].next >= |PLANES|
      modifies this
      ensures Now() == Next(old(Now()), Step.LeavePass(i))
    {
      passInflight := false;
      threads := threads[i := Finishing];
    }

    /** The `finally` of a poll. */
    method LeavePoll(i: nat)
      requires At(Now(), i, Finishing)
      modifies this
      ensures Now() == Next(old(Now()), Step.LeavePoll(i))
    {
      pollInflight := false;
      threads := threads[i := Returned];
    }
  }

  // ---------------------------------------------------------------------------
  // What every interleaving keeps
  // ---------------------------------------------------------------------------

  /** Between the two lock-protected regions of a poll that was let in. */
  predicate Polling(s: State, i: nat) {
    i < |s.threads| && !s.threads[i].Started? && !s.threads[i].Returned?
  }

  /** The flags are up exactly while some thread is inside, and at most one thread is in a poll. */
  ghost predicate Guarded(s: State) {
    && (forall i, j :: Polling(s, i) && Polling(s, j) ==> i == j)
    && (s.pollInflight <==> exists i :: Polling(s, i))
    && (s.passInflight <==> exists i :: Passing(s, i))
  }

  /** The plane at `k` stands as a pass left it if the pass has come to it, and as the pass found it
      otherwise, unless its process exited meanwhile. */
  predicate StandsAs(s: State, t: Thread, k: nat)
    requires t.InPass?
  {
    k < |PLANES| && PLANES[k] !in t.exited ==>
      Same(s.procs, if t.active && k < t.next then Own(t.from, s.flags, t.fails, PLANES[k]) else t.from, PLANES[k])
  }

  ghost predicate OnTrack(s: State, t: Thread) {
    t.InPass? ==>
      && t.next <= |PLANES|
      && (t.active ==> s.on)
      && (!t.active ==> t.next == |PLANES|)
      && forall k: nat {:trigger StandsAs(s, t, k)} :: StandsAs(s, t, k)
  }

  ghost predicate Inv(s: State) {
    Guarded(s) && forall i: nat {:trigger s.threads[i]} :: i < |s.threads| ==> OnTrack(s, s.threads[i])
  }

  /** A thread that changes neither group's membership leaves the guards right. */
  lemma MoveInside(s: State, i: nat, t: Thread)
    requires Guarded(s) && Polling(s, i) && !s.threads[i].InPass?
    requires t.Fetched? || t.Finishing?
    ensures Guarded(Move(s, i, t))
  {
    var n := Move(s, i, t);
    assert forall j: nat :: Polling(n, j) <==> Polling(s, j);
    assert forall j: nat :: Passing(n, j) <==> Passing(s, j);
  }

  lemma SameMembers(s: State, n: State)
    requires Guarded(s) && n.pollInflight == s.pollInflight && n.passInflight == s.passInflight
    requires forall j: nat :: Polling(n, j) <==> Polling(s, j)
    requires forall j: nat :: Passing(n, j) <==> Passing(s, j)
    ensures Guarded(n)
  {
  }

  lemma EnterPollGuards(s: State, i: nat)
    requires Guarded(s) && At(s, i, Started) && !s.pollInflight
    ensures Guarded(Next(s, Step.EnterPoll(i)))
  {
    var n := Next(s, Step.EnterPoll(i));
    assert Polling(n, i);
    assert forall j: nat :: Polling(n, j) <==> j == i || Polling(s, j);
    assert forall j: nat :: Passing(s, j) ==> Polling(s, j);
    assert forall j: nat :: Passing(n, j) <==> Passing(s, j);
  }

  lemma EnterPassGuards(s: State, i: nat, fails: set<Plane>)
    requires Guarded(s) && At(s, i, Fetched) && !s.passInflight
    ensures Guarded(Next(s, Step.EnterPass(i, fails)))
  {
    var n := Next(s, Step.EnterPass(i, fails));
    assert Passing(n, i) && Polling(s, i);
    assert forall j: nat :: Polling(n, j) <==> Polling(s, j);
  }

  lemma TurnGuards(s: State, i: nat)
    requires Guarded(s)
    ensures Guarded(Next(s, Step.ReconcileNext(i)))
  {
    SameMembers(s, Next(s, Step.ReconcileNext(i)));
  }

  lemma LeavePassGuards(s: State, i: nat)
    requires Guarded(s) && Passing(s, i) && s.threads[i].next >= |PLANES|
    ensures Guarded(Next(s, Step.LeavePass(i)))
  {
    var n := Next(s, Step.LeavePass(i));
    assert Polling(s, i) && Polling(n, i);
    assert forall j: nat :: Polling(n, j) <==> Polling(s, j);
    forall j: nat | Passing(s, j) ensures j == i { assert Polling(s, j); }
    assert forall j: nat :: Passing(n, j) ==> Passing(s, j) && j != i;
  }

  lemma LeavePollGuards(s: State, i: nat)
    requires Guarded(s) && At(s, i, Finishing)
    ensures Guarded(Next(s, Step.LeavePoll(i)))
  {
    var n := Next(s, Step.LeavePoll(i));
    assert Polling(s, i);
    assert forall j: nat :: Polling(n, j) <==> Polling(s, j) && j != i;
    assert forall j: nat :: Passing(n, j) <==> Passing(s, j);
  }

  lemma ExitGuards(s: State, p: Plane)
    requires Guarded(s)
    ensures Guarded(Next(s, Step.ProcessExits(p)))
  {
    SameMembers(s, Next(s, Step.ProcessExits(p)));
  }

  lemma GuardsKept(s: State, step: Step)
    requires Guarded(s)
    ensures Guarded(Next(s, step))
  {
    var n := Next(s, step);
    if n != s {
      match step
      case EnterPoll(i) => if s.pollInflight { SameMembers(s, n); } else { EnterPollGuards(s, i); }
      case FetchOk(i, payload) => MoveInside(s, i, Fetched); SameMembers(Move(s, i, Fetched), n);
      case FetchFails(i) => MoveInside(s, i, Finishing);
      case EnterPass(i, fails) => if s.passInflight { MoveInside(s, i, Finishing); } else { EnterPassGuards(s, i, fails); }
      case ReconcileNext(i) => TurnGuards(s, i);
      case LeavePass(i) => LeavePassGuards(s, i);
      case LeavePoll(i) => LeavePollGuards(s, i);
      case ProcessExits(p) => ExitGuards(s, p);
      case _ => SameMembers(s, n);
    }
  }

  /** While a thread is inside a poll and not in a pass, no thread is in a pass. */
  lemma NoOtherPass(s: State, i: nat, j: nat)
    requires Guarded(s) && Polling(s, i) && Passing(s, j)
    ensures i == j
  {
    assert Polling(s, j);
  }

  /** One plane's turn moves that plane as its action on the found table would, and no other. */
  lemma TurnStands(s: State, i: nat, k: nat)
    requires Passing(s, i) && s.threads[i].next < |PLANES| && OnTrack(s, s.threads[i])
    ensures var n := Next(s, Step.ReconcileNext(i)); StandsAs(n, n.threads[i], k)
  {
    var t := s.threads[i];
    assert StandsAs(s, t, k) && StandsAs(s, t, t.next);
    if k < |PLANES| && PLANES[k] !in t.exited {
      PlanesDistinct();
      var mine := PLANES[t.next];
      if k == t.next {
        OneAction(s.procs, t.from, s.flags, t.fails, mine, mine);
        assert ActionFor(s.procs, s.flags, t.fails, mine) == ActionFor(t.from, s.flags, t.fails, mine);
      } else {
        assert PLANES[k] != mine;
        OneAction(s.procs, s.procs, s.flags, t.fails, mine, PLANES[k]);
      }
    }
  }

  /** Nothing about a pass changes under a step that leaves processes, flags and the thread alone. */
  lemma TrackUntouched(s: State, n: State, t: Thread)
    requires OnTrack(s, t) && n.on == s.on && n.procs == s.procs && n.flags == s.flags
    ensures OnTrack(n, t)
  {
    if t.InPass? {
      forall k: nat ensures StandsAs(n, t, k) { assert StandsAs(s, t, k); }
    }
  }

  lemma TrackAfterExit(s: State, p: Plane, t: Thread)
    requires OnTrack(s, t) && p in s.procs
    ensures OnTrack(Next(s, Step.ProcessExits(p)), Noticed(t, p))
  {
    if t.InPass? {
      var n, u := Next(s, Step.ProcessExits(p)), Noticed(t, p);
      forall k: nat ensures StandsAs(n, u, k) { assert StandsAs(s, t, k); }
    }
  }

  lemma TrackAfterTurn(s: State, i: nat)
    requires Passing(s, i) && s.threads[i].next < |PLANES| && OnTrack(s, s.threads[i])
    ensures var n := Next(s, Step.ReconcileNext(i)); OnTrack(n, n.threads[i])
  {
    var n := Next(s, Step.ReconcileNext(i));
    forall k: nat ensures StandsAs(n, n.threads[i], k) { TurnStands(s, i, k); }
  }

  lemma TrackFromStart(s: State, i: nat, fails: set<Plane>)
    requires At(s, i, Fetched) && !s.passInflight
    ensures var n := Next(s, Step.EnterPass(i, fails)); OnTrack(n, n.threads[i])
  {
    var n := Next(s, Step.EnterPass(i, fails));
    forall k: nat ensures StandsAs(n, n.threads[i], k) { }
  }

  lemma TrackAfterFetch(s: State, i: nat, payload: Option<Flags>, j: nat)
    requires Guarded(s) && At(s, i, Fetching)
    ensures !Passing(Next(s, Step.FetchOk(i, payload)), j)
  {
    assert Polling(s, i);
    if j != i && Passing(s, j) { NoOtherPass(s, i, j); }
  }

  lemma OnlyTurn(s: State, i: nat, j: nat)
    requires Guarded(s) && Passing(s, i) && Passing(Next(s, Step.ReconcileNext(i)), j)
    ensures i == j
  {
    assert Polling(s, i);
    NoOtherPass(s, i, j);
  }

  /** The steps that touch neither processes nor flags and put no thread into a pass. */
  predicate Quiet(step: Step) {
    step.Tick? || step.EnterPoll? || step.FetchFails? || step.LeavePass? || step.LeavePoll? || step.BackendIs?
  }

  lemma ProcsKept(s: State, step: Step)
    requires !step.ReconcileNext? && !step.ProcessExits?
    ensures Next(s, step).procs == s.procs
  {
  }

  lemma NextKeepsOn(s: State, step: Step)
    ensures Next(s, step).on == s.on
  {
  }

  lemma FlagsKept(s: State, step: Step)
    requires !step.FetchOk?
    ensures Next(s, step).flags == s.flags
  {
  }

  lemma QuietPasses(s: State, step: Step, j: nat)
    requires Quiet(step) && Passing(Next(s, step), j)
    ensures Passing(s, j) && Next(s, step).threads[j] == s.threads[j]
  {
    match step
    case Tick =>
    case EnterPoll(i) =>
    case FetchFails(i) =>
    case LeavePass(i) =>
    case LeavePoll(i) =>
    case BackendIs(up) =>
  }

  lemma TrackQuiet(s: State, step: Step, j: nat)
    requires Quiet(step) && Passing(Next(s, step), j)
    requires j < |s.threads| ==> OnTrack(s, s.threads[j])
    ensures OnTrack(Next(s, step), Next(s, step).threads[j])
  {
    ProcsKept(s, step);
    FlagsKept(s, step);
    NextKeepsOn(s, step);
    QuietPasses(s, step, j);
    var n := Next(s, step);
    TrackUntouched(s, n, s.threads[j]);
  }

  lemma TrackAfterEntry(s: State, i: nat, fails: set<Plane>, j: nat)
    requires Passing(Next(s, Step.EnterPass(i, fails)), j)
    requires j < |s.threads| ==> OnTrack(s, s.threads[j])
    ensures var n := Next(s, Step.EnterPass(i, fails)); OnTrack(n, n.threads[j])
  {
    var n := Next(s, Step.EnterPass(i, fails));
    if n != s {
      if j == i { TrackFromStart(s, i, fails); } else { TrackUntouched(s, n, s.threads[j]); }
    }
  }

  lemma TrackKept(s: State, step: Step, j: nat)
    requires Inv(s) && Passing(Next(s, step), j)
    ensures OnTrack(Next(s, step), Next(s, step).threads[j])
  {
    assert j < |s.threads| ==> OnTrack(s, s.threads[j]);
    if Quiet(step) {
      TrackQuiet(s, step, j);
    } else if Next(s, step) != s {
      match step
      case FetchOk(i, payload) => TrackAfterFetch(s, i, payload, j);
      case EnterPass(i, fails) => TrackAfterEntry(s, i, fails, j);
      case ReconcileNext(i) => OnlyTurn(s, i, j); TrackAfterTurn(s, i);
      case ProcessExits(p) => TrackAfterExit(s, p, s.threads[j]);
    }
  }

  lemma StepKeepsInv(s: State, step: Step)
    requires Inv(s)
    ensures Inv(Next(s, step))
  {
    GuardsKept(s, step);
    var n := Next(s, step);
    forall j: nat | j < |n.threads| ensures OnTrack(n, n.threads[j]) {
      if Passing(n, j) { TrackKept(s, step, j); }
    }
  }

  lemma {:induction false} RunKeepsInv(on: bool, steps: seq<Step>)
    ensures Inv(Run(Start(on), steps)) && Run(Start(on), steps).on == on
    decreases |steps|
  {
    if steps == [] {
      assert !exists i: nat :: Polling(Start(on), i);
    } else {
      var s := Run(Start(on), steps[..|steps| - 1]);
      RunKeepsInv(on, steps[..|steps| - 1]);
      StepKeepsInv(s, steps[|steps| - 1]);
      NextKeepsOn(s, steps[|steps| - 1]);
    }
  }

  // ---------------------------------------------------------------------------
  // Main results
  // ---------------------------------------------------------------------------

  /** In any interleaving at most one thread is inside a poll and at most one inside a pass, and
      when no thread is inside, neither flag is left up. */
  lemma AtMostOneInside(on: bool, steps: seq<Step>)
    ensures var s := Run(Start(on), steps);
            && (forall i, j :: Polling(s, i) && Polling(s, j) ==> i == j)
            && (forall i, j :: Passing(s, i) && Passing(s, j) ==> i == j)
            && ((forall i :: !Polling(s, i)) ==> !s.pollInflight && !s.passInflight)
  {
    var s := Run(Start(on), steps);
    RunKeepsInv(on, steps);
    assert forall i: nat :: Passing(s, i) ==> Polling(s, i);
  }

  /** A new poll is turned away exactly while another is under way, and a poll that has fetched is
      never turned away from its pass. */
  lemma WhoIsTurnedAway(on: bool, steps: seq<Step>, i: nat, fails: set<Plane>)
    ensures var s := Run(Start(on), steps);
            && (At(s, i, Started) ==>
                  (At(Next(s, Step.EnterPoll(i)), i, Returned) <==> exists j :: Polling(s, j)))
            && (At(s, i, Fetched) ==> Passing(Next(s, Step.EnterPass(i, fails)), i))
  {
    var s := Run(Start(on), steps);
    RunKeepsInv(on, steps);
    if At(s, i, Fetched) && s.passInflight {
      var j: nat :| Passing(s, j);
      assert Polling(s, i);
      NoOtherPass(s, i, j);
    }
  }

  /** However its turns were interleaved with other threads, exits and backend changes, a pass that
      has come to its end leaves every plane that did not exit under it as the uninterrupted pass
      over the processes it found would. */
  lemma PassAsIfAlone(on: bool, steps: seq<Step>, i: nat, p: Plane)
    requires Passing(Run(Start(on), steps), i)
    requires var t := Run(Start(on), steps).threads[i]; t.next == |PLANES| && t.active && p !in t.exited
    ensures var s := Run(Start(on), steps);
            var t := s.threads[i];
            && Same(s.procs, AfterPass(t.from, s.flags, t.fails), p)
            && (Live(s.procs, p) <==> Enabled(s.flags, p) && (Live(t.from, p) || p !in t.fails))
  {
    var s := Run(Start(on), steps);
    RunKeepsInv(on, steps);
    EndStands(s, s.threads[i], p);
  }

  lemma EndStands(s: State, t: Thread, p: Plane)
    requires OnTrack(s, t) && t.InPass? && t.next == |PLANES| && t.active && p !in t.exited
    ensures Same(s.procs, AfterPass(t.from, s.flags, t.fails), p)
    ensures Live(s.procs, p) <==> Enabled(s.flags, p) && (Live(t.from, p) || p !in t.fails)
  {
    assert StandsAs(s, t, Place(p));
    PassOwns(t.from, s.flags, t.fails, p);
    PassReconciles(t.from, s.flags, t.fails, p);
  }

  /** Between two tables a plane comes up only if allowed, and goes down only if exited or disabled. */
  predicate Warranted(s: State, step: Step, now: Procs, p: Plane) {
    && (Live(now, p) && !Live(s.procs, p) ==> s.on && Enabled(s.flags, p))
    && (Live(s.procs, p) && !Live(now, p) ==> step == Step.ProcessExits(p) || (s.on && !Enabled(s.flags, p)))
  }

  lemma OneWarranted(procs: Procs, flags: Flags, fails: set<Plane>, mine: Plane, p: Plane)
    ensures var now := Do(procs, ActionFor(procs, flags, fails, mine));
            && (Live(now, p) && !Live(procs, p) ==> Enabled(flags, p))
            && (Live(procs, p) && !Live(now, p) ==> !Enabled(flags, p))
  {
    OneAction(procs, procs, flags, fails, mine, p);
    if p == mine {
      var act := ActionFor(procs, flags, fails, p);
      DoAtMostOne(procs, act);
      assert act == [] || act == [Spawn(p)] || act == [Stop(p)];
    }
  }

  lemma TurnWarranted(s: State, i: nat, p: Plane)
    requires Inv(s)
    ensures Warranted(s, Step.ReconcileNext(i), Next(s, Step.ReconcileNext(i)).procs, p)
  {
    if Passing(s, i) && s.threads[i].next < |PLANES| {
      var t := s.threads[i];
      assert OnTrack(s, t);
      OneWarranted(s.procs, s.flags, t.fails, PLANES[t.next], p);
    }
  }

  lemma ExitProcs(s: State, q: Plane)
    ensures Next(s, Step.ProcessExits(q)).procs == if q in s.procs then s.procs[q := Exited] else s.procs
  {
  }

  lemma ExitWarranted(s: State, q: Plane, p: Plane)
    ensures Warranted(s, Step.ProcessExits(q), if q in s.procs then s.procs[q := Exited] else s.procs, p)
  {
  }

  /** In any interleaving a step brings a plane up only with supervision on and the plane enabled by
      the flags in force, and takes one down only if its process exited or it is disabled. */
  lemma ChangesWarranted(on: bool, steps: seq<Step>, step: Step, p: Plane)
    ensures Run(Start(on), steps).on == on
    ensures Warranted(Run(Start(on), steps), step, Next(Run(Start(on), steps), step).procs, p)
  {
    RunKeepsInv(on, steps);
    var s := Run(Start(on), steps);
    match step
    case ReconcileNext(i) => TurnWarranted(s, i, p);
    case ProcessExits(q) => ExitProcs(s, q); ExitWarranted(s, q, p);
    case _ => ProcsKept(s, step);
  }
}
