/** The launcher's two process-graph walks (gui.py): the breadth-first tree kill over a process
    snapshot, and the parent-chain walk that spares the launcher's own ancestors. */
module ProcessTree {
  import opened Wrappers

  datatype Entry = Entry(pid: int, parent: int)

  // ---------------------------------------------------------------------------
  // The snapshot
  // ---------------------------------------------------------------------------

  function Kids(children: map<int, seq<int>>, pid: int): seq<int> {
    if pid in children then children[pid] else []
  }

  /** Each process's children, in snapshot order. */
  function ChildMap(entries: seq<Entry>): map<int, seq<int>> {
    if entries == [] then map[]
    else
      var (rest, e) := (ChildMap(entries[..|entries| - 1]), entries[|entries| - 1]);
      rest[e.parent := Kids(rest, e.parent) + [e.pid]]
  }

  function ParentMap(entries: seq<Entry>): map<int, int> {
    if entries == [] then map[]
    else var e := entries[|entries| - 1]; ParentMap(entries[..|entries| - 1])[e.pid := e.parent]
  }

  /** One entry, hence one parent, per process. */
  predicate OneParent(entries: seq<Entry>) {
    forall i, j :: 0 <= i < j < |entries| ==> entries[i].pid != entries[j].pid
  }

  method BuildChildren(entries: seq<Entry>) returns (children: map<int, seq<int>>)
    ensures children == ChildMap(entries)
  {
    children := map[];
    for i := 0 to |entries|
      invariant children == ChildMap(entries[..i])
    {
      assert entries[..i + 1][..i] == entries[..i];
      var e := entries[i];
      if e.parent !in children {
        children := children[e.parent := []];
      }
      children := children[e.parent := children[e.parent] + [e.pid]];
    }
    assert entries[..|entries|] == entries;
  }

  predicate NoDup(s: seq<int>) { forall i, j :: 0 <= i < j < |s| ==> s[i] != s[j] }

  /** The child lists and the parent map say the same. */
  ghost predicate Agree(children: map<int, seq<int>>, parent: map<int, int>) {
    && (forall p {:trigger Kids(children, p)} :: NoDup(Kids(children, p)))
    && (forall p, c :: c in Kids(children, p) <==> c in parent && parent[c] == p)
  }

  lemma {:induction false} MapsAgree(entries: seq<Entry>)
    requires OneParent(entries)
    ensures Agree(ChildMap(entries), ParentMap(entries))
    ensures forall c :: c in ParentMap(entries) <==> exists i :: 0 <= i < |entries| && entries[i].pid == c
    decreases |entries|
  {
    if entries != [] {
      var front, e := entries[..|entries| - 1], entries[|entries| - 1];
      MapsAgree(front);
      var was, now := ChildMap(front), ChildMap(entries);
      assert e.pid !in ParentMap(front);
      forall p, c ensures c in Kids(now, p) <==> c in ParentMap(entries) && ParentMap(entries)[c] == p {
        assert c in Kids(was, p) <==> c in ParentMap(front) && ParentMap(front)[c] == p;
      }
      forall p ensures NoDup(Kids(now, p)) {
        assert NoDup(Kids(was, p)) && e.pid !in Kids(was, p);
      }
      forall c | c in ParentMap(entries) ensures exists i :: 0 <= i < |entries| && entries[i].pid == c {
        if c == e.pid {
          assert entries[|entries| - 1].pid == c;
        } else {
          var i :| 0 <= i < |front| && front[i].pid == c;
          assert entries[i].pid == c;
        }
      }
    }
  }

  /** The parent map says what the snapshot says. */
  lemma {:induction false} ParentMapIs(entries: seq<Entry>, i: nat)
    requires OneParent(entries) && i < |entries|
    ensures entries[i].pid in ParentMap(entries) && ParentMap(entries)[entries[i].pid] == entries[i].parent
    decreases |entries|
  {
    var front := entries[..|entries| - 1];
    if i < |front| {
      assert front[i] == entries[i];
      ParentMapIs(front, i);
    }
  }

  // ---------------------------------------------------------------------------
  // Ancestors
  // ---------------------------------------------------------------------------

  /** The ancestor n generations up, if the snapshot knows it. */
  function Up(parent: map<int, int>, c: int, n: nat): Option<int>
    decreases n
  {
    if n == 0 then Some(c) else if c in parent then Up(parent, parent[c], n - 1) else None
  }

  /** c is the root or one of its descendants. */
  ghost predicate Below(parent: map<int, int>, root: int, c: int) { exists n: nat :: Up(parent, c, n) == Some(root) }

  /** The root is its own ancestor: the snapshot has a cycle through it. */
  ghost predicate Cyclic(parent: map<int, int>, root: int) { exists n: nat :: n > 0 && Up(parent, root, n) == Some(root) }

  lemma {:induction false} UpOneMore(parent: map<int, int>, c: int, n: nat)
    ensures Up(parent, c, n + 1)
            == match Up(parent, c, n) case None => None case Some(p) => if p in parent then Some(parent[p]) else None
    decreases n
  {
    if n > 0 && c in parent { UpOneMore(parent, parent[c], n - 1); }
  }

  lemma ChildBelow(parent: map<int, int>, root: int, c: int)
    requires c in parent && Below(parent, root, parent[c])
    ensures Below(parent, root, c) && (c == root ==> Cyclic(parent, root))
  {
    var n: nat :| Up(parent, parent[c], n) == Some(root);
    assert Up(parent, c, n + 1) == Some(root);
  }

  // ---------------------------------------------------------------------------
  // The breadth-first walk
  // ---------------------------------------------------------------------------

  /** The processes taken off the queue so far followed by those still on it, after n rounds. */
  function Found(children: map<int, seq<int>>, root: int, n: nat): seq<int> {
    if n == 0 then [root]
    else
      var before := Found(children, root, n - 1);
      if n - 1 < |before| then before + Kids(children, before[n - 1]) else before
  }

  /** The parent of entry j stands before it, among the first n. */
  ghost predicate ParentBefore(parent: map<int, int>, found: seq<int>, n: nat, j: nat)
    requires j < |found|
  {
    found[j] in parent && exists i :: 0 <= i < j && i < n && found[i] == parent[found[j]]
  }

  /** After n rounds: no process twice, each below the root, each after its parent, and the
      children of the first n all found. */
  ghost predicate Level(children: map<int, seq<int>>, parent: map<int, int>, root: int, found: seq<int>, n: nat) {
    && n <= |found| && found != [] && found[0] == root && NoDup(found)
    && (forall j {:trigger found[j]} :: 0 <= j < |found| ==> Below(parent, root, found[j]))
    && (forall j {:trigger ParentBefore(parent, found, n, j)} :: 0 < j < |found| ==> ParentBefore(parent, found, n, j))
    && (forall i, c :: 0 <= i < n && c in Kids(children, found[i]) ==> c in found)
  }

  lemma RootBelow(parent: map<int, int>, root: int)
    ensures Below(parent, root, root)
  {
    assert Up(parent, root, 0) == Some(root);
  }

  /** Children of the process at the front of the queue are new. */
  lemma KidsAreNew(children: map<int, seq<int>>, parent: map<int, int>, root: int, found: seq<int>, n: nat, c: int)
    requires Agree(children, parent) && !Cyclic(parent, root)
    requires Level(children, parent, root, found, n) && n < |found|
    requires c in Kids(children, found[n])
    ensures c !in found && c in parent && parent[c] == found[n] && Below(parent, root, c)
  {
    ChildBelow(parent, root, c);
    forall j | 0 <= j < |found| ensures found[j] != c {
      assert j > 0 ==> ParentBefore(parent, found, n, j);
    }
  }

  lemma NextLevel(children: map<int, seq<int>>, parent: map<int, int>, root: int, found: seq<int>, n: nat)
    requires Agree(children, parent) && !Cyclic(parent, root)
    requires Level(children, parent, root, found, n) && n < |found|
    ensures Level(children, parent, root, found + Kids(children, found[n]), n + 1)
  {
    var kids := Kids(children, found[n]);
    var more := found + kids;
    forall c | c in kids ensures c !in found && c in parent && parent[c] == found[n] && Below(parent, root, c) {
      KidsAreNew(children, parent, root, found, n, c);
    }
    forall j | 0 <= j < |more| ensures Below(parent, root, more[j]) {
      assert more[j] == if j < |found| then found[j] else kids[j - |found|];
    }
    var n' := n + 1;
    forall j | 0 < j < |more| ensures ParentBefore(parent, more, n', j) {
      if j < |found| {
        assert ParentBefore(parent, found, n, j);
        var i :| 0 <= i < j && i < n && found[i] == parent[found[j]];
        assert more[i] == parent[more[j]];
      } else {
        assert more[j] == kids[j - |found|] && more[n] == found[n];
      }
    }
    assert NoDup(kids);
    forall i, j | 0 <= i < j < |more| ensures more[i] != more[j] {
      assert more[i] == if i < |found| then found[i] else kids[i - |found|];
      assert more[j] == if j < |found| then found[j] else kids[j - |found|];
    }
  }

  function Elems(s: seq<int>): set<int> { set x | x in s }

  lemma {:induction false} NoDupSize(s: seq<int>)
    requires NoDup(s)
    ensures |Elems(s)| == |s|
    decreases |s|
  {
    if s != [] {
      var front := s[..|s| - 1];
      NoDupSize(front);
      assert Elems(s) == Elems(front) + {s[|s| - 1]};
    }
  }

  lemma SubsetSize(a: set<int>, b: set<int>)
    requires a <= b
    ensures |a| <= |b|
  {
    assert b == a + (b - a);
  }

  /** There are no more processes to find than the snapshot lists, and the root. */
  lemma LevelBounded(children: map<int, seq<int>>, parent: map<int, int>, root: int, found: seq<int>, n: nat)
    requires Level(children, parent, root, found, n)
    ensures |found| <= |parent| + 1
  {
    NoDupSize(found);
    forall x | x in found ensures x in parent.Keys + {root} {
      var j :| 0 <= j < |found| && found[j] == x;
      if j > 0 { assert ParentBefore(parent, found, n, j); }
    }
    SubsetSize(Elems(found), parent.Keys + {root});
  }

  /** When the queue is empty everything below the root has been found. */
  lemma {:induction false} AllFound(children: map<int, seq<int>>, parent: map<int, int>, root: int, found: seq<int>, c: int, n: nat)
    requires Agree(children, parent) && Level(children, parent, root, found, |found|)
    requires Up(parent, c, n) == Some(root)
    ensures c in found
    decreases n
  {
    if n > 0 {
      AllFound(children, parent, root, found, parent[c], n - 1);
      assert c in Kids(children, parent[c]);
    }
  }

  function Reversed(s: seq<int>): seq<int> { seq(|s|, i requires 0 <= i < |s| => s[|s| - 1 - i]) }

  /** Each process other than the root stands before its parent. */
  ghost predicate ChildrenFirst(parent: map<int, int>, root: int, killed: seq<int>) {
    forall i, j :: 0 <= i < |killed| && 0 <= j < |killed| && Child(parent, root, killed[i], killed[j]) ==> i < j
  }

  predicate Child(parent: map<int, int>, root: int, c: int, p: int) {
    c != root && c in parent && parent[c] == p
  }

  /** Taking the front of the queue over to the found ones and its children to the back. */
  lemma QueueTurn(found: seq<int>, n: nat, kids: seq<int>)
    requires n < |found|
    ensures found[..n] + [found[n]] == (found + kids)[..n + 1]
    ensures found[n..][1..] + kids == (found + kids)[n + 1..]
  {
  }

  lemma WalkTurn(children: map<int, seq<int>>, parent: map<int, int>, root: int, n: nat)
    requires Agree(children, parent) && !Cyclic(parent, root)
    requires Level(children, parent, root, Found(children, root, n), n) && n < |Found(children, root, n)|
    ensures n <= |parent|
    ensures Found(children, root, n + 1) == Found(children, root, n) + Kids(children, Found(children, root, n)[n])
    ensures Level(children, parent, root, Found(children, root, n + 1), n + 1)
  {
    LevelBounded(children, parent, root, Found(children, root, n), n);
    NextLevel(children, parent, root, Found(children, root, n), n);
  }

  /** The queue loop of the tree kill. */
  method Walk(children: map<int, seq<int>>, root: int, ghost parent: map<int, int>) returns (toKill: seq<int>)
    requires Agree(children, parent) && !Cyclic(parent, root)
    ensures Level(children, parent, root, toKill, |toKill|)
    ensures toKill == Found(children, root, |toKill|)
  {
    RootBelow(parent, root);
    var queue := [root];
    toKill := [];
    ghost var n: nat, found: seq<int> := 0, [root];
    while queue != []
      invariant found == Found(children, root, n) && n <= |found|
      invariant toKill == found[..n] && queue == found[n..]
      invariant Level(children, parent, root, found, n)
      decreases |parent| + 1 - n
    {
      WalkTurn(children, parent, root, n);
      var pid := queue[0];
      QueueTurn(found, n, Kids(children, pid));
      queue := queue[1..];
      toKill := toKill + [pid];
      queue := queue + Kids(children, pid);
      found, n := found + Kids(children, pid), n + 1;
    }
    assert toKill == found;
  }

  /** `_terminate_process_tree`: the processes in the order they are killed. Every descendant of the
      root is killed exactly once, nothing else is, and every process dies before its parent. */
  method TerminateTree(entries: seq<Entry>, root: int) returns (killed: seq<int>)
    requires OneParent(entries) && !Cyclic(ParentMap(entries), root)
    ensures NoDup(killed) && ChildrenFirst(ParentMap(entries), root, killed)
    ensures forall c :: c in killed <==> Below(ParentMap(entries), root, c)
    ensures killed == Reversed(Found(ChildMap(entries), root, |killed|))
  {
    var children := BuildChildren(entries);
    MapsAgree(entries);
    var toKill := Walk(children, root, ParentMap(entries));
    killed := Reversed(toKill);
    KillOrder(children, ParentMap(entries), root, toKill);
  }

  lemma KillOrder(children: map<int, seq<int>>, parent: map<int, int>, root: int, found: seq<int>)
    requires Agree(children, parent) && Level(children, parent, root, found, |found|)
    ensures var killed := Reversed(found);
            NoDup(killed) && ChildrenFirst(parent, root, killed) && forall c :: c in killed <==> Below(parent, root, c)
  {
    var killed, last := Reversed(found), |found| - 1;
    forall c ensures c in killed <==> Below(parent, root, c) {
      if c in found {
        var j :| 0 <= j < |found| && found[j] == c;
        assert killed[last - j] == c;
      }
      if Below(parent, root, c) {
        var n: nat :| Up(parent, c, n) == Some(root);
        AllFound(children, parent, root, found, c, n);
      }
    }
    forall i, j | 0 <= i < |killed| && 0 <= j < |killed| && Child(parent, root, killed[i], killed[j]) ensures i < j {
      assert ParentBefore(parent, found, |found|, last - i);
      var k :| 0 <= k < last - i && found[k] == parent[found[last - i]];
      assert found[k] == found[last - j];
    }
  }

  // ---------------------------------------------------------------------------
  // Breadth first
  // ---------------------------------------------------------------------------

  function Times(g: nat, n: nat): (gs: seq<nat>)
    ensures |gs| == n && forall i :: 0 <= i < n ==> gs[i] == g
  {
    seq(n, i requires 0 <= i < n => g)
  }

  /** How many generations below the root each process found is. */
  function Generations(children: map<int, seq<int>>, root: int, n: nat): (gs: seq<nat>)
    ensures |gs| == |Found(children, root, n)|
  {
    if n == 0 then [0]
    else
      var before, gs := Found(children, root, n - 1), Generations(children, root, n - 1);
      if n - 1 < |before| then gs + Times(gs[n - 1] + 1, |Kids(children, before[n - 1])|) else gs
  }

  predicate GenerationAt(parent: map<int, int>, root: int, found: seq<int>, gs: seq<nat>, i: nat)
    requires i < |found| == |gs|
  {
    Up(parent, found[i], gs[i]) == Some(root)
  }

  predicate Rises(gs: seq<nat>, i: nat, j: nat)
    requires i < |gs| && j < |gs|
  {
    gs[i] <= gs[j]
  }

  predicate Near(gs: seq<nat>, i: nat, j: nat)
    requires i < |gs| && j < |gs|
  {
    gs[j] <= gs[i] + 1
  }

  /** Generations never go down along the queue, and the queue spans at most two. */
  ghost predicate ByGeneration(parent: map<int, int>, root: int, found: seq<int>, gs: seq<nat>, n: nat) {
    && |gs| == |found|
    && (forall i {:trigger GenerationAt(parent, root, found, gs, i)} ::
          0 <= i < |found| ==> GenerationAt(parent, root, found, gs, i))
    && (forall i, j {:trigger Rises(gs, i, j)} :: 0 <= i <= j < |gs| ==> Rises(gs, i, j))
    && (forall i, j {:trigger Near(gs, i, j)} :: n <= i < |gs| && 0 <= j < |gs| ==> Near(gs, i, j))
  }

  lemma NextGeneration(children: map<int, seq<int>>, parent: map<int, int>, found: seq<int>, gs: seq<nat>, root: int, n: nat)
    requires Agree(children, parent) && ByGeneration(parent, root, found, gs, n) && n < |found|
    ensures var kids := Kids(children, found[n]);
            ByGeneration(parent, root, found + kids, gs + Times(gs[n] + 1, |kids|), n + 1)
  {
    var kids := Kids(children, found[n]);
    var more, gs' := found + kids, gs + Times(gs[n] + 1, |kids|);
    forall i | 0 <= i < |more| ensures GenerationAt(parent, root, more, gs', i) {
      if i >= |found| {
        assert more[i] == kids[i - |found|] && more[i] in kids;
        assert parent[more[i]] == found[n] && GenerationAt(parent, root, found, gs, n);
      } else {
        assert GenerationAt(parent, root, found, gs, i) && more[i] == found[i] && gs'[i] == gs[i];
      }
    }
    forall i, j | 0 <= i <= j < |gs'| ensures Rises(gs', i, j) {
      if j < |gs| { assert Rises(gs, i, j); } else if i < |gs| { assert Near(gs, n, i); }
    }
    forall i, j | n + 1 <= i < |gs'| && 0 <= j < |gs'| ensures Near(gs', i, j) {
      if i < |gs| { assert Rises(gs, n, i); }
      if j < |gs| { assert Near(gs, n, j); }
      if i < |gs| && j < |gs| { assert Near(gs, i, j); }
    }
  }

  lemma FirstGeneration(parent: map<int, int>, root: int)
    ensures ByGeneration(parent, root, [root], [0], 0)
  {
  }

  lemma LastGeneration(parent: map<int, int>, root: int, found: seq<int>, gs: seq<nat>, n: nat)
    requires ByGeneration(parent, root, found, gs, n)
    ensures ByGeneration(parent, root, found, gs, n + 1)
  {
  }

  /** After n rounds the processes found stand in order of their distance below the root. */
  ghost predicate InOrder(children: map<int, seq<int>>, parent: map<int, int>, root: int, n: nat) {
    ByGeneration(parent, root, Found(children, root, n), Generations(children, root, n), n)
  }

  lemma FirstInOrder(children: map<int, seq<int>>, parent: map<int, int>, root: int)
    ensures InOrder(children, parent, root, 0)
  {
    FirstGeneration(parent, root);
  }

  lemma NextInOrder(children: map<int, seq<int>>, parent: map<int, int>, root: int, n: nat)
    requires Agree(children, parent) && n > 0 && InOrder(children, parent, root, n - 1)
    ensures InOrder(children, parent, root, n)
  {
    var found, gs := Found(children, root, n - 1), Generations(children, root, n - 1);
    if n - 1 < |found| {
      NextGeneration(children, parent, found, gs, root, n - 1);
    } else {
      LastGeneration(parent, root, found, gs, n - 1);
    }
  }

  /** The walk is breadth first: they stand so at every moment. */
  lemma {:induction false} BreadthFirst(children: map<int, seq<int>>, parent: map<int, int>, root: int, n: nat)
    requires Agree(children, parent)
    ensures InOrder(children, parent, root, n)
    decreases n
  {
    if n == 0 {
      FirstInOrder(children, parent, root);
    } else {
      BreadthFirst(children, parent, root, n - 1);
      NextInOrder(children, parent, root, n);
    }
  }

  // ---------------------------------------------------------------------------
  // When the walk ends
  // ---------------------------------------------------------------------------

  /** The loop has emptied its queue after some number of rounds. */
  ghost predicate Terminates(children: map<int, seq<int>>, root: int) {
    exists n: nat :: |Found(children, root, n)| <= n
  }

  lemma {:induction false} FoundLevel(children: map<int, seq<int>>, parent: map<int, int>, root: int, n: nat)
    requires Agree(children, parent) && !Cyclic(parent, root)
    requires forall m: nat :: m < n ==> m < |Found(children, root, m)|
    ensures Level(children, parent, root, Found(children, root, n), n)
    decreases n
  {
    if n == 0 {
      RootBelow(parent, root);
    } else {
      FoundLevel(children, parent, root, n - 1);
      NextLevel(children, parent, root, Found(children, root, n - 1), n - 1);
    }
  }

  /** Some ancestor of the root is still on the queue. */
  ghost predicate AncestorQueued(parent: map<int, int>, root: int, found: seq<int>, n: nat) {
    exists j, k: nat :: n <= j < |found| && Up(parent, root, k) == Some(found[j])
  }

  lemma {:induction false} CycleNeverEnds(children: map<int, seq<int>>, parent: map<int, int>, root: int, n: nat)
    requires Agree(children, parent) && Cyclic(parent, root)
    ensures AncestorQueued(parent, root, Found(children, root, n), n)
    decreases n
  {
    var found := Found(children, root, n);
    if n == 0 {
      assert Up(parent, root, 0) == Some(found[0]);
    } else {
      CycleNeverEnds(children, parent, root, n - 1);
      var before := Found(children, root, n - 1);
      var j, k: nat :| n - 1 <= j < |before| && Up(parent, root, k) == Some(before[j]);
      if j > n - 1 {
        assert found[j] == before[j];
      } else {
        var period: nat :| period > 0 && Up(parent, root, period) == Some(root);
        var k' := if k > 0 then k else period;
        UpOneMore(parent, root, k' - 1);
        var c := Up(parent, root, k' - 1).value;
        var kids := Kids(children, before[j]);
        assert c in kids;
        var m :| 0 <= m < |kids| && kids[m] == c;
        assert found[|before| + m] == c;
      }
    }
  }

  /** With one parent per process the walk ends if and only if the root is not its own ancestor. */
  lemma TerminatesIff(entries: seq<Entry>, root: int)
    requires OneParent(entries)
    ensures Terminates(ChildMap(entries), root) <==> !Cyclic(ParentMap(entries), root)
  {
    var children, parent := ChildMap(entries), ParentMap(entries);
    MapsAgree(entries);
    if Cyclic(parent, root) {
      forall n: nat ensures |Found(children, root, n)| > n { CycleNeverEnds(children, parent, root, n); }
    } else if !Terminates(children, root) {
      var n := |parent| + 2;
      FoundLevel(children, parent, root, n);
      LevelBounded(children, parent, root, Found(children, root, n), n);
    }
  }

  /** Two processes recorded as each other's parent: the walk from either never ends. */
  lemma TwoCycleNeverEnds()
    ensures var entries := [Entry(1, 2), Entry(2, 1)];
            OneParent(entries) && Cyclic(ParentMap(entries), 1) && !Terminates(ChildMap(entries), 1)
  {
    var entries := [Entry(1, 2), Entry(2, 1)];
    var front := [Entry(1, 2)];
    assert entries[..1] == front && front[..0] == [];
    assert ParentMap(front) == map[1 := 2];
    assert ParentMap(entries) == map[1 := 2, 2 := 1];
    assert Up(ParentMap(entries), 1, 2) == Some(1) by {
      assert Up(ParentMap(entries), 2, 1) == Up(ParentMap(entries), 1, 0) == Some(1);
    }
    TerminatesIff(entries, 1);
  }

  // ---------------------------------------------------------------------------
  // The parent chain
  // ---------------------------------------------------------------------------

  /** Entries whose numbers do not parse are skipped; of several for one process the last counts. */
  function LineageMap(entries: seq<Option<Entry>>): map<int, int> {
    if entries == [] then map[]
    else
      var (rest, e) := (LineageMap(entries[..|entries| - 1]), entries[|entries| - 1]);
      if e.Some? && e.value.pid > 0 then rest[e.value.pid := e.value.parent] else rest
  }

  /** The entry at i is the last that parses, with a positive number, for this process. */
  predicate LastFor(entries: seq<Option<Entry>>, i: nat, pid: int) {
    && i < |entries| && entries[i].Some? && entries[i].value.pid == pid && pid > 0
    && forall j :: i < j < |entries| && entries[j].Some? ==> entries[j].value.pid != pid
  }

  /** The lineage's parent map: a process is known if some entry for it parses, and its parent is that of
      the last. */
  lemma {:induction false} LineageMapIs(entries: seq<Option<Entry>>, pid: int)
    ensures pid in LineageMap(entries) <==> exists i: nat :: LastFor(entries, i, pid)
    ensures forall i: nat :: LastFor(entries, i, pid) ==> LineageMap(entries)[pid] == entries[i].value.parent
    decreases |entries|
  {
    if entries != [] {
      var front, last := entries[..|entries| - 1], |entries| - 1;
      LineageMapIs(front, pid);
      if entries[last].Some? && entries[last].value.pid == pid && pid > 0 {
        assert LastFor(entries, last, pid);
      } else {
        forall i: nat | i < last ensures LastFor(entries, i, pid) <==> LastFor(front, i, pid) { LastForFront(entries, i, pid); }
        if i: nat :| LastFor(front, i, pid) { assert LastFor(entries, i, pid); }
        if i: nat :| LastFor(entries, i, pid) { assert LastFor(front, i, pid); }
      }
    }
  }

  lemma LastForFront(entries: seq<Option<Entry>>, i: nat, pid: int)
    requires i < |entries| - 1
    requires entries[|entries| - 1].Some? && pid > 0 ==> entries[|entries| - 1].value.pid != pid
    ensures LastFor(entries, i, pid) <==> LastFor(entries[..|entries| - 1], i, pid)
  {
    var front := entries[..|entries| - 1];
    assert forall j :: 0 <= j < |front| ==> front[j] == entries[j];
  }

  /** Closed under known parents that are not 0. */
  predicate Closed(parent: map<int, int>, s: set<int>) {
    forall p :: p in s && p in parent && parent[p] != 0 ==> parent[p] in s
  }

  function ParentOr0(parent: map<int, int>, p: int): int { if p in parent then parent[p] else 0 }

  /** `_current_windows_python_lineage`: for every parent map, cyclic or not, the walk ends with the
      least set that holds the own process and is closed under known non-zero parents. */
  method Lineage(own: int, entries: seq<Option<Entry>>) returns (lineage: set<int>)
    ensures own in lineage && Closed(LineageMap(entries), lineage)
    ensures forall s: set<int> :: own in s && Closed(LineageMap(entries), s) ==> lineage <= s
  {
    lineage := {own};
    var parentByPid: map<int, int> := map[];
    for i := 0 to |entries|
      invariant parentByPid == LineageMap(entries[..i])
    {
      assert entries[..i + 1][..i] == entries[..i];
      if entries[i].Some? {
        var Entry(pid, parentPid) := entries[i].value;
        if pid > 0 {
          parentByPid := parentByPid[pid := parentPid];
        }
      }
    }
    assert entries[..|entries|] == entries;
    var cursor := ParentOr0(parentByPid, own);
    ghost var last := own;
    while cursor != 0 && cursor !in lineage
      invariant own in lineage && last in lineage && cursor == ParentOr0(parentByPid, last)
      invariant forall p :: p in lineage && p != last && ParentOr0(parentByPid, p) != 0 ==> parentByPid[p] in lineage
      invariant forall s: set<int> :: own in s && Closed(parentByPid, s) ==> lineage <= s
      decreases parentByPid.Values - lineage
    {
      assert last in parentByPid && cursor in parentByPid.Values;
      lineage := lineage + {cursor};
      last := cursor;
      cursor := ParentOr0(parentByPid, cursor);
    }
  }
}
