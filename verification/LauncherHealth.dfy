/** When the launcher calls the backend offline (gui.py): one missed poll is forgiven, and so is any
    number of them within a grace period after the last answer. */
module LauncherHealth {

  const FAILURES_BEFORE_OFFLINE: nat := 2
  const OFFLINE_GRACE_SECONDS: real := 10.0

  /** The outcome of a poll, with the monotonic clock when it is applied. */
  datatype Outcome = Answered(now: real) | Missed(now: real)

  datatype Health = Health(healthy: bool, failures: nat, lastSuccess: real, polls: nat)

  const UNKNOWN: Health := Health(false, 0, 0.0, 0)

  function Apply(h: Health, o: Outcome): Health {
    match o
    case Answered(now) => Health(true, 0, now, h.polls + 1)
    case Missed(now) =>
      var failures := h.failures + 1;
      var forgiven := h.lastSuccess > 0.0
                      && (failures < FAILURES_BEFORE_OFFLINE || now - h.lastSuccess < OFFLINE_GRACE_SECONDS);
      h.(failures := failures, healthy := h.healthy && forgiven)
  }

  function After(os: seq<Outcome>): Health {
    if os == [] then UNKNOWN else Apply(After(os[..|os| - 1]), os[|os| - 1])
  }

  class Monitor {
    var backendHealthy: bool
    var consecutiveFailures: nat
    var lastSuccess: real
    var pollCount: nat

    function Now(): Health
      reads this
    {
      Health(backendHealthy, consecutiveFailures, lastSuccess, pollCount)
    }

    constructor ()
      ensures Now() == After([])
    {
      backendHealthy, consecutiveFailures, lastSuccess, pollCount := false, 0, 0.0, 0;
    }

    method ApplyHealth(now: real)
      modifies this
      ensures Now() == Apply(old(Now()), Answered(now))
    {
      backendHealthy := true;
      pollCount := pollCount + 1;
      consecutiveFailures := 0;
      lastSuccess := now;
    }

    method ApplyHealthOffline(now: real)
      modifies this
      ensures Now() == Apply(old(Now()), Missed(now))
    {
      consecutiveFailures := consecutiveFailures + 1;
      if lastSuccess > 0.0 {
        if consecutiveFailures < FAILURES_BEFORE_OFFLINE {
          return;
        }
        var age := now - lastSuccess;
        if age < OFFLINE_GRACE_SECONDS {
          return;
        }
      }
      backendHealthy := false;
    }
  }

  /** The last answer among the outcomes. */
  predicate LastAnswer(os: seq<Outcome>, i: nat) {
    i < |os| && os[i].Answered? && forall k :: i < k < |os| ==> os[k].Missed?
  }

  /** The miss at `k` is one the answer at `i` does not excuse. */
  predicate Inexcusable(os: seq<Outcome>, i: nat, k: nat) {
    && i < k < |os|
    && (os[i].now <= 0.0 || (k - i >= 2 && os[k].now - os[i].now >= 10.0))
  }

  lemma {:induction false} SinceLastAnswer(os: seq<Outcome>, i: nat)
    requires LastAnswer(os, i)
    ensures After(os).failures == |os| - 1 - i && After(os).lastSuccess == os[i].now
    ensures After(os).healthy <==> !exists k: nat :: Inexcusable(os, i, k)
    decreases |os|
  {
    var front := os[..|os| - 1];
    if i < |os| - 1 {
      assert LastAnswer(front, i);
      SinceLastAnswer(front, i);
      forall k: nat | k < |os| - 1 ensures Inexcusable(front, i, k) <==> Inexcusable(os, i, k) { }
      var miss := os[|os| - 1];
      assert Inexcusable(os, i, |os| - 1) <==>
             os[i].now <= 0.0 || (|os| - 1 - i >= 2 && miss.now - os[i].now >= 10.0);
      if k: nat :| Inexcusable(front, i, k) { assert Inexcusable(os, i, k); }
    }
  }

  lemma {:induction false} NeverAnswered(os: seq<Outcome>)
    requires forall k :: 0 <= k < |os| ==> os[k].Missed?
    ensures !After(os).healthy && After(os).lastSuccess == 0.0
    decreases |os|
  {
    if os != [] { NeverAnswered(os[..|os| - 1]); }
  }

  /** Exactly when the launcher shows the backend as healthy: it has answered, and no miss since the
      last answer was inexcusable. */
  lemma HealthyIff(os: seq<Outcome>)
    ensures After(os).healthy <==> exists i: nat :: LastAnswer(os, i) && !exists k: nat :: Inexcusable(os, i, k)
  {
    if exists k :: 0 <= k < |os| && os[k].Answered? {
      var i := FindLastAnswer(os);
      SinceLastAnswer(os, i);
      forall j: nat | LastAnswer(os, j) ensures j == i { }
    } else {
      NeverAnswered(os);
    }
  }

  lemma {:induction false} FindLastAnswer(os: seq<Outcome>) returns (i: nat)
    requires exists k :: 0 <= k < |os| && os[k].Answered?
    ensures LastAnswer(os, i)
    decreases |os|
  {
    if os[|os| - 1].Answered? {
      i := |os| - 1;
    } else {
      var front := os[..|os| - 1];
      var k :| 0 <= k < |os| && os[k].Answered?;
      assert front[k].Answered?;
      i := FindLastAnswer(front);
    }
  }

  predicate ClockRuns(os: seq<Outcome>) {
    forall a, b :: 0 <= a < b < |os| ==> os[a].now <= os[b].now
  }

  /** With a clock that never runs back only the latest outcome matters: the backend is shown
      offline exactly from the second consecutive miss that comes ten seconds or more after the
      last answer, and an answer always brings it back. */
  lemma OfflineIff(os: seq<Outcome>, i: nat)
    requires ClockRuns(os) && LastAnswer(os, i) && os[i].now > 0.0
    ensures !After(os).healthy <==>
            |os| - 1 - i >= 2 && os[|os| - 1].now - os[i].now >= 10.0
  {
    SinceLastAnswer(os, i);
    var last := |os| - 1;
    if k: nat :| Inexcusable(os, i, k) {
      assert os[k].now <= os[last].now;
      assert Inexcusable(os, i, last);
    }
  }

  /** Once offline, only an answer brings the backend back. */
  lemma {:induction false} StaysOffline(os: seq<Outcome>, more: seq<Outcome>)
    requires !After(os).healthy && forall k :: 0 <= k < |more| ==> more[k].Missed?
    ensures !After(os + more).healthy
    decreases |more|
  {
    if more == [] {
      assert os + more == os;
    } else {
      var front := more[..|more| - 1];
      StaysOffline(os, front);
      assert (os + more)[..|os + more| - 1] == os + front;
    }
  }

  function Answers(os: seq<Outcome>): nat {
    if os == [] then 0 else (if os[0].Answered? then 1 else 0) + Answers(os[1..])
  }

  lemma {:induction false} AnswersSnoc(os: seq<Outcome>, o: Outcome)
    ensures Answers(os + [o]) == Answers(os) + (if o.Answered? then 1 else 0)
    decreases |os|
  {
    if os == [] {
      assert os + [o] == [o] && [o][1..] == [];
    } else {
      assert (os + [o])[1..] == os[1..] + [o];
      AnswersSnoc(os[1..], o);
    }
  }

  /** The poll counter counts the answers. */
  lemma {:induction false} PollsAreAnswers(os: seq<Outcome>)
    ensures After(os).polls == Answers(os)
    decreases |os|
  {
    if os != [] {
      var front, last := os[..|os| - 1], os[|os| - 1];
      assert os == front + [last];
      PollsAreAnswers(front);
      AnswersSnoc(front, last);
    }
  }
}
