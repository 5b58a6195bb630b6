/** The launcher's worker planes (gui.py): which planes should run, the supervision pass that
    reconciles the running ones with that. */
module WorkerPlanes {
  import opened Wrappers

  /** A process handle that is still running, or has exited. */
  datatype Proc = Running | Exited

  datatype Action = Spawn(plane: Plane) | Stop(plane: Plane)

  datatype Plane =
    | KalshiPaperTest | KalshiPortfolio | Trading | News | Discovery
    | Recording | Detection | Reconciliation | Services | Jobs

  datatype Subsystem = Scanner | NewsFeed | Weather | WalletDiscovery

  type Flags = map<Subsystem, bool>
  type Procs = map<Plane, Proc>

  /** `_WORKER_PLANES`, in order. */
  const PLANES: seq<Plane> :=
    [KalshiPaperTest, KalshiPortfolio, Trading, News, Discovery, Recording, Detection, Reconciliation, Services, Jobs]

  /** The subsystems that gate a plane; none for a core plane. */
  function Subsystems(plane: Plane): seq<Subsystem> {
    match plane
    case Detection => [Scanner]
    case News => [NewsFeed, Weather]
    case Discovery => [WalletDiscovery]
    case _ => []
  }

  predicate DefaultEnabled(s: Subsystem) { s.Scanner? }

  /** `_SUBSYSTEM_DEFAULT_ENABLED`. */
  const INITIAL_FLAGS: Flags := map[Scanner := true, NewsFeed := false, Weather := false, WalletDiscovery := false]

  function Flag(flags: Flags, s: Subsystem): bool {
    if s in flags then flags[s] else DefaultEnabled(s)
  }

  /** `_plane_globally_enabled`. */
  predicate Enabled(flags: Flags, plane: Plane) {
    var gates := Subsystems(plane);
    gates == [] || exists i :: 0 <= i < |gates| && Flag(flags, gates[i])
  }

  predicate Live(procs: Procs, plane: Plane) { plane in procs && procs[plane].Running? }

  // ---------------------------------------------------------------------------
  // Specification of a pass
  // ---------------------------------------------------------------------------

  /** What a pass does for one plane; `fails` are the planes whose spawn raises. */
  function ActionFor(procs: Procs, flags: Flags, fails: set<Plane>, plane: Plane): seq<Action> {
    if !Enabled(flags, plane) then (if Live(procs, plane) then [Stop(plane)] else [])
    else if Live(procs, plane) || plane in fails then []
    else [Spawn(plane)]
  }

  function DoOne(procs: Procs, a: Action): Procs {
    match a
    case Spawn(p) => procs[p := Running]
    case Stop(p) => procs - {p}
  }

  function Do(procs: Procs, actions: seq<Action>): Procs
    decreases |actions|
  {
    if actions == [] then procs else Do(DoOne(procs, actions[0]), actions[1..])
  }

  function Actions(procs: Procs, flags: Flags, fails: set<Plane>, planes: seq<Plane>): seq<Action> {
    if planes == [] then []
    else ActionFor(procs, flags, fails, planes[0]) + Actions(procs, flags, fails, planes[1..])
  }

  /** The actions of one pass over the launcher's planes. */
  function PassActions(on: bool, backendUp: bool, procs: Procs, flags: Flags, fails: set<Plane>): seq<Action> {
    if on && backendUp then Actions(procs, flags, fails, PLANES) else []
  }

  // ---------------------------------------------------------------------------
  // The launcher
  // ---------------------------------------------------------------------------

  class Launcher {
    const workerSupervisionEnabled: bool
    var backendUp: bool
    var workerProcs: Procs
    var subsystemFlags: Flags
    ghost var log: seq<Action>

    constructor (workers: bool)
      ensures workerSupervisionEnabled == workers && !backendUp && workerProcs == map[] && log == []
      ensures subsystemFlags == INITIAL_FLAGS
    {
      workerSupervisionEnabled := workers;
      backendUp, workerProcs, log := false, map[], [];
      subsystemFlags := INITIAL_FLAGS;
    }

    method SpawnWorkerPlane(plane: Plane, fails: bool) returns (ok: bool)
      modifies this`workerProcs, this`log
      ensures ok == !fails
      ensures workerProcs == (if ok then old(workerProcs)[plane := Running] else old(workerProcs))
      ensures log == (if ok then old(log) + [Spawn(plane)] else old(log))
    {
      if fails {
        return false;
      }
      workerProcs := workerProcs[plane := Running];
      log := log + [Spawn(plane)];
      return true;
    }

    method TerminateWorkerPlane(plane: Plane)
      modifies this`workerProcs, this`log
      ensures workerProcs == old(workerProcs) - {plane}
      ensures log == if Live(old(workerProcs), plane) then old(log) + [Stop(plane)] else old(log)
    {
      if plane !in workerProcs {
        return;
      }
      if workerProcs[plane].Running? {
        log := log + [Stop(plane)];
      }
      workerProcs := workerProcs - {plane};
    }

    /** One turn of the pass's loop. */
    method Reconcile(plane: Plane, fails: set<Plane>)
      modifies this`workerProcs, this`log
      ensures var actions := ActionFor(old(workerProcs), subsystemFlags, fails, plane);
              workerProcs == Do(old(workerProcs), actions) && log == old(log) + actions
    {
      if !Enabled(subsystemFlags, plane) {
        if plane in workerProcs && workerProcs[plane].Running? {
          TerminateWorkerPlane(plane);
        }
        return;
      }
      if plane in workerProcs && workerProcs[plane].Running? {
        return;
      }
      var _ := SpawnWorkerPlane(plane, plane in fails);
    }

    method ReconcileAll(planes: seq<Plane>, fails: set<Plane>)
      requires Distinct(planes)
      modifies this`workerProcs, this`log
      ensures workerProcs == After(old(workerProcs), subsystemFlags, fails, planes)
      ensures log == old(log) + Actions(old(workerProcs), subsystemFlags, fails, planes)
    {
      ghost var procs, flags := workerProcs, subsystemFlags;
      ghost var done: seq<Action> := [];
      for i := 0 to |planes|
        invariant done == Actions(procs, flags, fails, planes[..i])
        invariant workerProcs == After(procs, flags, fails, planes[..i])
        invariant log == old(log) + done
      {
        LoopTurn(procs, flags, fails, planes, i);
        ghost var mine := ActionFor(workerProcs, flags, fails, planes[i]);
        Reconcile(planes[i], fails);
        AppendTwice(old(log), done, mine);
        done := done + mine;
      }
      assert planes[..|planes|] == planes;
    }

    /** `_ensure_worker_planes_alive`. */
    method EnsureWorkerPlanesAlive(fails: set<Plane>)
      modifies this`workerProcs, this`log
      ensures var actions := PassActions(workerSupervisionEnabled, backendUp, old(workerProcs), subsystemFlags, fails);
              workerProcs == Do(old(workerProcs), actions) && log == old(log) + actions
    {
      if !workerSupervisionEnabled || !backendUp {
        return;
      }
      PlanesDistinct();
      ReconcileAll(PLANES, fails);
    }

    /** A poll's answer: the subsystem flags it carries replace the known ones. */
    method TakeFlags(payload: Option<Flags>)
      modifies this`subsystemFlags
      ensures subsystemFlags == PolledFlags(old(subsystemFlags), payload)
    {
      if payload.None? {
        return;
      }
      var flags := payload.value;
      subsystemFlags := map[
        Scanner := if Scanner in flags then flags[Scanner] else true,
        NewsFeed := if NewsFeed in flags then flags[NewsFeed] else false,
        Weather := if Weather in flags then flags[Weather] else false,
        WalletDiscovery := if WalletDiscovery in flags then flags[WalletDiscovery] else false];
    }

    /** A successful health poll: take over the subsystem flags, then supervise on the same tick. */
    method HealthPolled(payload: Option<Flags>, fails: set<Plane>)
      modifies this`workerProcs, this`log, this`subsystemFlags
      ensures subsystemFlags == PolledFlags(old(subsystemFlags), payload)
      ensures var actions := PassActions(workerSupervisionEnabled, backendUp, old(workerProcs), subsystemFlags, fails);
              workerProcs == Do(old(workerProcs), actions) && log == old(log) + actions
    {
      TakeFlags(payload);
      EnsureWorkerPlanesAlive(fails);
    }
  }

  /** The flags after a poll; `None` if it carried no subsystem flags. */
  function PolledFlags(flags: Flags, payload: Option<Flags>): Flags {
    match payload
    case None => flags
    case Some(f) =>
      map[Scanner := Flag(f, Scanner), NewsFeed := Flag(f, NewsFeed),
          Weather := Flag(f, Weather), WalletDiscovery := Flag(f, WalletDiscovery)]
  }

  // ---------------------------------------------------------------------------
  // One plane's action does not touch another
  // ---------------------------------------------------------------------------

  predicate Distinct(planes: seq<Plane>) { forall i, j :: 0 <= i < j < |planes| ==> planes[i] != planes[j] }

  /** A plane's place in the order of a pass. */
  function Place(p: Plane): (k: nat)
    ensures k < |PLANES| && PLANES[k] == p
  {
    match p
    case KalshiPaperTest => 0
    case KalshiPortfolio => 1
    case Trading => 2
    case News => 3
    case Discovery => 4
    case Recording => 5
    case Detection => 6
    case Reconciliation => 7
    case Services => 8
    case Jobs => 9
  }

  lemma PlanesDistinct()
    ensures Distinct(PLANES) && forall p :: p in PLANES
  {
    forall p ensures p in PLANES { assert PLANES[Place(p)] == p; }
  }

  lemma {:induction false} DoConcat(procs: Procs, a: seq<Action>, b: seq<Action>)
    ensures Do(procs, a + b) == Do(Do(procs, a), b)
    decreases |a|
  {
    if a == [] {
      assert a + b == b;
    } else {
      assert (a + b)[1..] == a[1..] + b;
      DoConcat(DoOne(procs, a[0]), a[1..], b);
    }
  }

  lemma {:induction false} ActionsConcat(procs: Procs, flags: Flags, fails: set<Plane>, a: seq<Plane>, b: seq<Plane>)
    ensures Actions(procs, flags, fails, a + b) == Actions(procs, flags, fails, a) + Actions(procs, flags, fails, b)
    decreases |a|
  {
    if a == [] {
      assert a + b == b;
    } else {
      assert (a + b)[1..] == a[1..] + b;
      ActionsConcat(procs, flags, fails, a[1..], b);
    }
  }

  /** The two tables hold the same for a plane. */
  predicate Same(a: Procs, b: Procs, p: Plane) { (p in a <==> p in b) && (p in a ==> a[p] == b[p]) }

  /** The table after a pass's actions for these planes. */
  function After(procs: Procs, flags: Flags, fails: set<Plane>, planes: seq<Plane>): Procs {
    Do(procs, Actions(procs, flags, fails, planes))
  }

  /** The table after the plane's own action alone. */
  function Own(procs: Procs, flags: Flags, fails: set<Plane>, p: Plane): Procs {
    Do(procs, ActionFor(procs, flags, fails, p))
  }

  lemma DoAtMostOne(procs: Procs, actions: seq<Action>)
    requires |actions| <= 1
    ensures Do(procs, actions) == if actions == [] then procs else DoOne(procs, actions[0])
  {
  }

  /** A plane's action, decided on the table before the pass, does to its plane the same on any
      table that agrees there, and nothing to another plane. */
  lemma OneAction(now: Procs, procs: Procs, flags: Flags, fails: set<Plane>, plane: Plane, p: Plane)
    requires Same(now, procs, plane)
    ensures var next := Do(now, ActionFor(procs, flags, fails, plane));
            if p == plane then Same(next, Own(procs, flags, fails, p), p) else Same(next, now, p)
  {
    var act := ActionFor(procs, flags, fails, plane);
    DoAtMostOne(now, act);
    DoAtMostOne(procs, act);
  }

  lemma AfterOneMore(procs: Procs, flags: Flags, fails: set<Plane>, before: seq<Plane>, plane: Plane)
    ensures Actions(procs, flags, fails, before + [plane])
            == Actions(procs, flags, fails, before) + ActionFor(procs, flags, fails, plane)
    ensures After(procs, flags, fails, before + [plane])
            == Do(After(procs, flags, fails, before), ActionFor(procs, flags, fails, plane))
  {
    ActionsConcat(procs, flags, fails, before, [plane]);
    var mine := ActionFor(procs, flags, fails, plane);
    assert Actions(procs, flags, fails, [plane]) == mine + [] == mine;
    DoConcat(procs, Actions(procs, flags, fails, before), mine);
  }

  lemma DistinctFront(before: seq<Plane>, plane: Plane)
    requires Distinct(before + [plane])
    ensures Distinct(before) && plane !in before
  {
    var all := before + [plane];
    assert forall i :: 0 <= i < |before| ==> all[i] == before[i];
    assert all[|before|] == plane;
  }

  /** Each plane ends as its own action leaves it, in whatever order the planes come. */
  lemma {:induction false} PassOn(procs: Procs, flags: Flags, fails: set<Plane>, planes: seq<Plane>, p: Plane)
    requires Distinct(planes)
    ensures Same(After(procs, flags, fails, planes), if p in planes then Own(procs, flags, fails, p) else procs, p)
    decreases |planes|
  {
    if planes != [] {
      var last := planes[|planes| - 1];
      var front := planes[..|planes| - 1];
      assert planes == front + [last];
      DistinctFront(front, last);
      AfterOneMore(procs, flags, fails, front, last);
      PassOn(procs, flags, fails, front, last);
      PassOn(procs, flags, fails, front, p);
      OneAction(After(procs, flags, fails, front), procs, flags, fails, last, p);
    }
  }

  /** The loop's next plane is untouched by the planes before it, so its action decided on the
      spot is the one decided before the pass. */
  lemma LoopTurn(procs: Procs, flags: Flags, fails: set<Plane>, planes: seq<Plane>, i: nat)
    requires Distinct(planes) && i < |planes|
    ensures var mid := After(procs, flags, fails, planes[..i]);
            var mine := ActionFor(mid, flags, fails, planes[i]);
            && Actions(procs, flags, fails, planes[..i + 1]) == Actions(procs, flags, fails, planes[..i]) + mine
            && After(procs, flags, fails, planes[..i + 1]) == Do(mid, mine)
  {
    var before, plane := planes[..i], planes[i];
    assert planes[..i + 1] == before + [plane];
    DistinctFront(before, plane);
    PassOn(procs, flags, fails, before, plane);
    AfterOneMore(procs, flags, fails, before, plane);
  }

  lemma AppendTwice(log: seq<Action>, a: seq<Action>, b: seq<Action>)
    ensures (log + a) + b == log + (a + b)
  {
  }

  // ---------------------------------------------------------------------------
  // What a pass achieves
  // ---------------------------------------------------------------------------

  function AfterPass(procs: Procs, flags: Flags, fails: set<Plane>): Procs {
    After(procs, flags, fails, PLANES)
  }

  /** A pass does to each plane what its own action alone would. */
  lemma PassOwns(procs: Procs, flags: Flags, fails: set<Plane>, p: Plane)
    ensures Same(AfterPass(procs, flags, fails), Own(procs, flags, fails, p), p)
  {
    PlanesDistinct();
    PassOn(procs, flags, fails, PLANES, p);
  }

  /** After a pass with supervision on and the backend up, a plane is live exactly when it is
      enabled, unless it had to be spawned and the spawn failed. */
  lemma PassReconciles(procs: Procs, flags: Flags, fails: set<Plane>, p: Plane)
    ensures Live(AfterPass(procs, flags, fails), p) <==> Enabled(flags, p) && (Live(procs, p) || p !in fails)
    ensures !Enabled(flags, p) && Live(procs, p) ==> p !in AfterPass(procs, flags, fails)
  {
    PassOwns(procs, flags, fails, p);
    DoAtMostOne(procs, ActionFor(procs, flags, fails, p));
  }

  /** A second pass with nothing changed spawns and stops nothing. */
  lemma SecondPassIdle(procs: Procs, flags: Flags, fails: set<Plane>)
    ensures PassActions(true, true, AfterPass(procs, flags, fails), flags, fails) == []
    ensures AfterPass(AfterPass(procs, flags, fails), flags, fails) == AfterPass(procs, flags, fails)
  {
    forall p ensures ActionFor(AfterPass(procs, flags, fails), flags, fails, p) == [] {
      PassReconciles(procs, flags, fails, p);
    }
    NothingToDo(AfterPass(procs, flags, fails), flags, fails, PLANES);
  }

  lemma {:induction false} NothingToDo(procs: Procs, flags: Flags, fails: set<Plane>, planes: seq<Plane>)
    requires forall p :: p in planes ==> ActionFor(procs, flags, fails, p) == []
    ensures Actions(procs, flags, fails, planes) == []
    decreases |planes|
  {
    if planes != [] { NothingToDo(procs, flags, fails, planes[1..]); }
  }

  /** A plane is spawned only with supervision on and the backend up, only while enabled and only
      when it is not running; it is stopped only while disabled and running. */
  lemma ActionsWarranted(on: bool, up: bool, procs: Procs, flags: Flags, fails: set<Plane>, a: Action)
    requires a in PassActions(on, up, procs, flags, fails)
    ensures on && up
    ensures match a
            case Spawn(p) => Enabled(flags, p) && !Live(procs, p) && p !in fails
            case Stop(p) => !Enabled(flags, p) && Live(procs, p)
  {
    SomePlanesAction(procs, flags, fails, PLANES, a);
  }

  lemma {:induction false} SomePlanesAction(procs: Procs, flags: Flags, fails: set<Plane>, planes: seq<Plane>, a: Action)
    requires a in Actions(procs, flags, fails, planes)
    ensures a.plane in planes && a in ActionFor(procs, flags, fails, a.plane)
    decreases |planes|
  {
    if a !in ActionFor(procs, flags, fails, planes[0]) {
      SomePlanesAction(procs, flags, fails, planes[1..], a);
    }
  }

  /** What an answer, or none, says of a subsystem: the scanner runs unless told otherwise, nothing else
      does. */
  predicate Told(answer: Option<Flags>, sub: Subsystem) {
    if answer.Some? && sub in answer.value then answer.value[sub] else sub == Scanner
  }

  predicate Complete(flags: Flags) {
    Scanner in flags && NewsFeed in flags && Weather in flags && WalletDiscovery in flags
  }

  /** The gates, one by one. */
  lemma GatesAre(flags: Flags, p: Plane)
    requires Complete(flags)
    ensures Enabled(flags, p)
            <==> match p
                 case Detection => flags[Scanner]
                 case News => flags[NewsFeed] || flags[Weather]
                 case Discovery => flags[WalletDiscovery]
                 case _ => true
  {
    var gates := Subsystems(p);
    if gates != [] && Flag(flags, gates[0]) { assert Enabled(flags, p); }
    if |gates| > 1 && Flag(flags, gates[1]) { assert Enabled(flags, p); }
  }

  /** After a poll with no failed spawn the gated planes run exactly as the flags it carried say, and
      the core planes always. */
  lemma PollFollowsPayload(procs: Procs, flags: Flags, sent: Flags, p: Plane)
    ensures Live(AfterPass(procs, PolledFlags(flags, Some(sent)), {}), p)
            <==> match p
                 case Detection => Told(Some(sent), Scanner)
                 case News => Told(Some(sent), NewsFeed) || Told(Some(sent), Weather)
                 case Discovery => Told(Some(sent), WalletDiscovery)
                 case _ => true
  {
    PassReconciles(procs, PolledFlags(flags, Some(sent)), {}, p);
    GatesAre(PolledFlags(flags, Some(sent)), p);
  }

  /** With the flags a launcher starts with, everything runs but news and discovery. */
  lemma FirstPassRuns(procs: Procs, flags: Flags, p: Plane)
    requires flags == INITIAL_FLAGS
    ensures Live(AfterPass(procs, flags, {}), p) <==> p != News && p != Discovery
  {
    PassReconciles(procs, flags, {}, p);
    GatesAre(flags, p);
  }

  // ---------------------------------------------------------------------------
  // Whole runs
  // ---------------------------------------------------------------------------

  datatype World = World(on: bool, backendUp: bool, procs: Procs, flags: Flags)

  /** What happens to a launcher: processes exit, the backend comes and goes, settings change, polls
      supervise, and the children are all killed. */
  datatype Event =
    | ProcessExits(plane: Plane)
    | Backend(up: bool)
    | Poll(payload: Option<Flags>, fails: set<Plane>)
    | KillAll

  function Happen(w: World, e: Event): (World, seq<Action>) {
    match e
    case ProcessExits(p) => (if p in w.procs then w.(procs := w.procs[p := Exited]) else w, [])
    case Backend(up) => (w.(backendUp := up), [])
    case KillAll => (w.(procs := map[]), [])
    case Poll(payload, fails) =>
      var flags := PolledFlags(w.flags, payload);
      var actions := PassActions(w.on, w.backendUp, w.procs, flags, fails);
      (w.(flags := flags, procs := Do(w.procs, actions)), actions)
  }

  function Through(w: World, es: seq<Event>): World
    decreases |es|
  {
    if es == [] then w else Through(Happen(w, es[0]).0, es[1..])
  }

  /** A launcher started without the workers switch never has a worker process. */
  lemma {:induction false} WithoutWorkersNone(w: World, es: seq<Event>)
    requires !w.on && w.procs == map[]
    ensures Through(w, es).procs == map[] && !Through(w, es).on
    decreases |es|
  {
    if es != [] { WithoutWorkersNone(Happen(w, es[0]).0, es[1..]); }
  }

  lemma {:induction false} StaysOn(w: World, es: seq<Event>)
    ensures Through(w, es).on == w.on
    decreases |es|
  {
    if es != [] { StaysOn(Happen(w, es[0]).0, es[1..]); }
  }

  /** At any moment of any run, a poll that finds the backend up leaves exactly the enabled planes
      running, whatever crashed or was toggled before, if no spawn fails. */
  lemma EveryPollReconciles(w: World, es: seq<Event>, payload: Option<Flags>)
    requires w.on && Through(w, es).backendUp
    ensures var n := Happen(Through(w, es), Poll(payload, {})).0;
            forall p :: Live(n.procs, p) <==> Enabled(n.flags, p)
  {
    var v := Through(w, es);
    StaysOn(w, es);
    var n := Happen(v, Poll(payload, {})).0;
    forall p ensures Live(n.procs, p) <==> Enabled(n.flags, p) {
      PassReconciles(v.procs, n.flags, {}, p);
    }
  }
}
