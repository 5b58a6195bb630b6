/** What every run of the discovery-profile handlers keeps, and where the loader and the
    table part ways. */
module ProfileHistoryRuns {
  import opened Wrappers
  import opened ProfileHistory

  // ---------------------------------------------------------------------------
  // The history of one profile
  // ---------------------------------------------------------------------------

  /** Snapshot i carries number i + 1 and the number before it; only the last is the latest. */
  predicate EntryAt(s: seq<Snapshot>, i: nat)
    requires i < |s|
  {
    s[i].version == i + 1 && (s[i].isLatest <==> i == |s| - 1) && s[i].parent == if i == 0 then None else Some(i)
  }

  /** The snapshots are numbered 1, 2, ... with no gap up to the live version; exactly the last is
      the latest, and it is the live row in every snapshotted field. */
  ghost predicate GoodHistory(row: Row, s: seq<Snapshot>) {
    && s != [] && row.version == |s|
    && (forall i {:trigger EntryAt(s, i)} :: 0 <= i < |s| ==> EntryAt(s, i))
    && s[|s| - 1] == TakeSnapshot(row, s[|s| - 1].parent)
  }

  ghost predicate GoodAt(st: State, id: Id)
    requires id in st.rows
  {
    id in st.snaps && GoodHistory(st.rows[id], st.snaps[id])
  }

  /** Different profiles have different slugs and are not both active. */
  predicate Apart(st: State, i: Id, j: Id)
    requires i in st.rows && j in st.rows
  {
    i == j || (st.rows[i].slug != st.rows[j].slug && !(st.rows[i].isActive && st.rows[j].isActive))
  }

  ghost predicate Inv(st: State) {
    && st.rows.Keys == st.snaps.Keys
    && (forall id {:trigger GoodAt(st, id)} :: id in st.rows ==> GoodAt(st, id))
    && (forall i, j {:trigger Apart(st, i, j)} :: i in st.rows && j in st.rows ==> Apart(st, i, j))
  }

  /** A new id is fresh; the handlers draw it at random. */
  predicate Possible(st: State, op: Op) { op.Create? ==> op.id !in st.rows && op.id !in st.snaps }

  lemma {:induction false} MatchingOfNumbered(s: seq<Snapshot>, from: nat, version: nat)
    requires forall i :: 0 <= i < |s| ==> s[i].version == from + i
    ensures Matching(s, version) == if from <= version < from + |s| then [s[version - from]] else []
    decreases |s|
  {
    if s != [] {
      MatchingOfNumbered(s[1..], from + 1, version);
    }
  }

  /** Appending the next number to a good history makes a good one. */
  lemma CommitNext(s: seq<Snapshot>, before: Row, row: Row)
    requires GoodHistory(before, s) && row.version == before.version + 1
    ensures !HasVersion(s, row.version)
    ensures GoodHistory(row, ClearLatest(s) + [TakeSnapshot(row, Some(before.version))])
  {
    var t := ClearLatest(s) + [TakeSnapshot(row, Some(before.version))];
    forall i | 0 <= i < |t| ensures EntryAt(t, i) {
      assert i < |s| ==> EntryAt(s, i);
    }
    forall i | 0 <= i < |s| ensures s[i].version != row.version {
      assert EntryAt(s, i);
    }
  }

  /** The live number is always taken. */
  lemma VersionTaken(s: seq<Snapshot>, row: Row)
    requires GoodHistory(row, s)
    ensures HasVersion(s, row.version)
  {
    assert EntryAt(s, |s| - 1);
  }

  lemma PutRowKeepsInv(st: State, id: Id, row: Row, s: seq<Snapshot>)
    requires Inv(st) && GoodHistory(row, s)
    requires if id in st.rows then st.rows[id].slug == row.slug && st.rows[id].isActive == row.isActive
             else SlugFree(st, row.slug) && !row.isActive
    ensures Inv(st.(rows := st.rows[id := row], snaps := st.snaps[id := s]))
  {
    var n := st.(rows := st.rows[id := row], snaps := st.snaps[id := s]);
    forall k | k in n.rows ensures GoodAt(n, k) {
      if k != id { assert GoodAt(st, k); }
    }
    forall i, j | i in n.rows && j in n.rows ensures Apart(n, i, j) {
      if i in st.rows && j in st.rows { assert Apart(st, i, j); }
    }
  }

  lemma LoaderKeepsInv(st: State, loaded: map<string, Runtime>)
    requires Inv(st)
    ensures Inv(st.(loaded := loaded))
  {
    var n := st.(loaded := loaded);
    forall k | k in n.rows ensures GoodAt(n, k) { assert GoodAt(st, k); }
    forall i, j | i in n.rows && j in n.rows ensures Apart(n, i, j) { assert Apart(st, i, j); }
  }

  lemma CommitKeepsInv(st: State, id: Id, row: Row)
    requires Inv(st) && id in st.rows
    requires row.slug == st.rows[id].slug && row.isActive == st.rows[id].isActive
    requires st.rows[id].version <= row.version <= st.rows[id].version + 1
    ensures var (n, outcome) := Commit(st, id, row, Some(st.rows[id].version));
            Inv(n) && (if row.version == st.rows[id].version then outcome == Refused && n == st else outcome == Done)
  {
    assert GoodAt(st, id);
    if row.version == st.rows[id].version {
      VersionTaken(st.snaps[id], st.rows[id]);
    } else {
      CommitNext(st.snaps[id], st.rows[id], row);
      PutRowKeepsInv(st, id, row, ClearLatest(st.snaps[id]) + [TakeSnapshot(row, Some(st.rows[id].version))]);
    }
  }

  /** What an update comes to before its commit: the loader, and the row the session holds. */
  function Session(st: State, id: Id, req: UpdateRequest, v: Verdict): (State, Row)
    requires id in st.rows
  {
    var before := st.rows[id];
    var row := Edited(before, req, v.found);
    var (loaded, status) := if NeedsReload(before, req) then ReloadEdited(st, row, v.loads) else (st.loaded, row.status);
    (st.(loaded := loaded),
     row.(status := status, version := if SourceChanged(before, req) then VersionOr1(before.version) + 1 else row.version))
  }

  predicate Accepted(st: State, id: Id, req: UpdateRequest, v: Verdict) {
    id in st.rows && !(Validates(st.rows[id], req) && v.found == None)
  }

  /** With a good history an update commits when it changes the source or nothing at all, and is
      refused otherwise. */
  lemma UpdateIs(st: State, id: Id, req: UpdateRequest, v: Verdict)
    requires Inv(st) && Accepted(st, id, req, v)
    ensures var (mid, row) := Session(st, id, req, v);
            var before := st.rows[id];
            UpdateSpec(st, id, req, v)
            == if SourceChanged(before, req) then Commit(mid, id, row, Some(before.version))
               else if NeedsSnapshot(before, req) then (mid, Refused)
               else (st, Done)
    ensures Inv(UpdateSpec(st, id, req, v).0)
  {
    assert GoodAt(st, id);
    var before := st.rows[id];
    var (mid, row) := Session(st, id, req, v);
    LoaderKeepsInv(st, mid.loaded);
    if NeedsSnapshot(before, req) {
      CommitKeepsInv(mid, id, row);
    } else {
      assert row == before && st.rows[id := row] == st.rows;
    }
  }

  lemma UpdateKeepsInv(st: State, id: Id, req: UpdateRequest, v: Verdict)
    requires Inv(st)
    ensures Inv(UpdateSpec(st, id, req, v).0)
  {
    if Accepted(st, id, req, v) { UpdateIs(st, id, req, v); }
  }

  lemma MatchingOfGood(row: Row, s: seq<Snapshot>, version: nat)
    requires GoodHistory(row, s)
    ensures Matching(s, version) == if 1 <= version <= row.version then [s[version - 1]] else []
  {
    forall i | 0 <= i < |s| ensures s[i].version == 1 + i { assert EntryAt(s, i); }
    MatchingOfNumbered(s, 1, version);
  }

  /** A reachable profile can be restored to any of its versions, and only to those; it never
      matters which of several snapshots is meant. */
  lemma RestoreIs(st: State, id: Id, version: nat, v: Verdict)
    requires Inv(st) && id in st.rows
    ensures var (n, outcome) := RestoreSpec(st, id, version, v);
            var s := st.snaps[id];
            Inv(n) && |s| == st.rows[id].version && outcome == (if 1 <= version <= st.rows[id].version then Done else NotFound)
            && (outcome == Done ==>
                  |n.snaps[id]| == |s| + 1 && n.snaps[id][..|s|] == ClearLatest(s)
                  && n.rows[id].body == RestoredBody(s[version - 1].body)
                  && n.rows[id].version == st.rows[id].version + 1
                  && n.rows[id].enabled == st.rows[id].enabled)
  {
    assert GoodAt(st, id);
    var before, s := st.rows[id], st.snaps[id];
    MatchingOfGood(before, s, version);
    if 1 <= version <= before.version {
      var body := RestoredBody(s[version - 1].body);
      var load := before.enabled && Python(body.kind);
      var row := before.(body := body, version := before.version + 1);
      var mid := st.(loaded := if load then Reloaded(st.loaded, row, v.loads) else st.loaded - {row.slug});
      LoaderKeepsInv(st, mid.loaded);
      CommitKeepsInv(mid, id, row.(status := if load then LoadStatus(v.loads) else Unloaded));
    }
  }

  lemma CreateKeepsInv(st: State, id: Id, req: CreateRequest, v: Verdict)
    requires Inv(st) && id !in st.rows && id !in st.snaps
    ensures Inv(CreateSpec(st, id, req, v).0) && CreateSpec(st, id, req, v).1 != Refused
  {
    var (n, outcome) := CreateSpec(st, id, req, v);
    if outcome == Done {
      var row := n.rows[id];
      var s := [TakeSnapshot(row, None)];
      assert EntryAt(s, 0);
      LoaderKeepsInv(st, n.loaded);
      PutRowKeepsInv(st.(loaded := n.loaded), id, row, s);
      assert ClearLatest([]) + s == s;
    }
  }

  lemma ActivateKeepsInv(st: State, id: Id)
    requires Inv(st)
    ensures Inv(ActivateSpec(st, id).0)
  {
    var n := ActivateSpec(st, id).0;
    forall k | k in n.rows ensures GoodAt(n, k) { assert GoodAt(st, k); }
    forall i, j | i in n.rows && j in n.rows ensures Apart(n, i, j) { assert Apart(st, i, j); }
  }

  lemma ReloadKeepsInv(st: State, id: Id, v: Verdict)
    requires Inv(st)
    ensures Inv(ReloadSpec(st, id, v).0)
  {
    if id in st.rows && st.rows[id].enabled {
      assert GoodAt(st, id);
      var row := st.rows[id];
      var mid := st.(loaded := Reloaded(st.loaded, row, v.loads));
      LoaderKeepsInv(st, mid.loaded);
      PutRowKeepsInv(mid, id, row.(status := LoadStatus(v.loads)), st.snaps[id]);
      assert mid.snaps[id := st.snaps[id]] == mid.snaps;
    }
  }

  lemma DeleteKeepsInv(st: State, id: Id)
    requires Inv(st)
    ensures Inv(DeleteSpec(st, id).0)
  {
    var n := DeleteSpec(st, id).0;
    forall k | k in n.rows ensures GoodAt(n, k) { assert GoodAt(st, k); }
    forall i, j | i in n.rows && j in n.rows ensures Apart(n, i, j) { assert Apart(st, i, j); }
  }

  lemma ApplyKeepsInv(st: State, op: Op)
    requires Inv(st) && Possible(st, op)
    ensures Inv(Apply(st, op).0)
  {
    match op
    case Create(id, req, v) => CreateKeepsInv(st, id, req, v);
    case Update(id, req, v) => UpdateKeepsInv(st, id, req, v);
    case Restore(id, version, v) => if id in st.rows { RestoreIs(st, id, version, v); }
    case Activate(id) => ActivateKeepsInv(st, id);
    case Reload(id, v) => ReloadKeepsInv(st, id, v);
    case Delete(id) => DeleteKeepsInv(st, id);
  }

  // ---------------------------------------------------------------------------
  // Runs
  // ---------------------------------------------------------------------------

  predicate PossibleRun(st: State, ops: seq<Op>)
    decreases |ops|
  {
    ops == [] || (Possible(st, ops[0]) && PossibleRun(Apply(st, ops[0]).0, ops[1..]))
  }

  function After(st: State, ops: seq<Op>): State
    decreases |ops|
  {
    if ops == [] then st else After(Apply(st, ops[0]).0, ops[1..])
  }

  lemma {:induction false} RunKeepsInv(st: State, ops: seq<Op>)
    requires Inv(st) && PossibleRun(st, ops)
    ensures Inv(After(st, ops))
    decreases |ops|
  {
    if ops != [] {
      ApplyKeepsInv(st, ops[0]);
      RunKeepsInv(Apply(st, ops[0]).0, ops[1..]);
    }
  }

  /** After every run of the handlers, every profile has a snapshot for each number from 1 to its
      live version and no other, exactly one of them is latest, and that one is the live row; and
      at most one profile is active. */
  lemma ReachableHistories(ops: seq<Op>, id: Id)
    requires PossibleRun(EMPTY, ops) && id in After(EMPTY, ops).rows
    ensures var st := After(EMPTY, ops);
            id in st.snaps &&
            var row, s := st.rows[id], st.snaps[id];
            |s| == row.version > 0
            && (forall i :: 0 <= i < |s| ==> s[i].version == i + 1)
            && (forall i :: 0 <= i < |s| ==> (s[i].isLatest <==> i == |s| - 1))
            && var last := s[|s| - 1];
               last.slug == row.slug && last.body == row.body && last.enabled == row.enabled
               && last.isSystem == row.isSystem && last.sortOrder == row.sortOrder && last.version == row.version
    ensures var rows := After(EMPTY, ops).rows;
            forall j :: j in rows && rows[j].isActive && rows[id].isActive ==> j == id
  {
    RunKeepsInv(EMPTY, ops);
    var st := After(EMPTY, ops);
    assert GoodAt(st, id);
    forall i | 0 <= i < |st.snaps[id]|
      ensures st.snaps[id][i].version == i + 1 && (st.snaps[id][i].isLatest <==> i == |st.snaps[id]| - 1)
    {
      assert EntryAt(st.snaps[id], i);
    }
    forall j | j in st.rows && st.rows[j].isActive && st.rows[id].isActive ensures j == id { assert Apart(st, j, id); }
  }

  /** Whether an operation adds a number to a profile's history. */
  predicate Grows(st: State, op: Op, id: Id)
    requires id in st.rows
  {
    op.id == id && Apply(st, op).1 == Done
    && (op.Restore? || (op.Update? && SourceChanged(st.rows[id], op.update)))
  }

  /** One number more and one snapshot more, or none; what was there stays, latest flags aside. */
  predicate Grown(st: State, n: State, id: Id, grows: bool)
    requires id in st.rows && id in st.snaps && id in n.rows && id in n.snaps
  {
    var s, t := st.snaps[id], n.snaps[id];
    if grows then n.rows[id].version == st.rows[id].version + 1 && |t| == |s| + 1 && t[..|s|] == ClearLatest(s)
    else n.rows[id].version == st.rows[id].version && t == s
  }

  lemma UpdateGrows(st: State, id: Id, req: UpdateRequest, v: Verdict, k: Id)
    requires Inv(st) && k in st.rows
    ensures var (n, outcome) := UpdateSpec(st, id, req, v);
            k in n.rows && k in n.snaps
            && Grown(st, n, k, k == id && outcome == Done && SourceChanged(st.rows[k], req))
  {
    assert GoodAt(st, k);
    if Accepted(st, id, req, v) {
      UpdateIs(st, id, req, v);
      if k == id && SourceChanged(st.rows[id], req) {
        CommitNext(st.snaps[id], st.rows[id], Session(st, id, req, v).1);
      }
    }
  }

  lemma RestoreGrows(st: State, id: Id, version: nat, v: Verdict, k: Id)
    requires Inv(st) && k in st.rows
    ensures var (n, outcome) := RestoreSpec(st, id, version, v);
            k in n.rows && k in n.snaps && Grown(st, n, k, k == id && outcome == Done)
  {
    assert GoodAt(st, k);
    if id in st.rows { RestoreIs(st, id, version, v); }
  }

  /** Numbers never go down; they rise, and by one, exactly on a restore or a committed change of
      source. The history before stays as it was, latest flags aside. */
  lemma HistoryGrows(st: State, op: Op, id: Id)
    requires Inv(st) && Possible(st, op) && id in st.rows && id in Apply(st, op).0.rows
    ensures id in st.snaps && id in Apply(st, op).0.snaps
    ensures Grown(st, Apply(st, op).0, id, Grows(st, op, id))
  {
    match op
    case Update(k, req, v) => UpdateGrows(st, k, req, v, id);
    case Restore(k, version, v) => RestoreGrows(st, k, version, v, id);
    case _ => assert GoodAt(st, id);
  }

  /** An edit of name, description, schema, kind, configuration or the enabled flag that leaves the
      source alone is refused on every profile the handlers made: its snapshot would carry a number
      that is taken. */
  lemma MetadataEditRefusedIff(st: State, id: Id, req: UpdateRequest, v: Verdict)
    requires Inv(st) && id in st.rows
    ensures UpdateSpec(st, id, req, v).1 == Refused
            <==> NeedsSnapshot(st.rows[id], req) && !SourceChanged(st.rows[id], req)
    ensures UpdateSpec(st, id, req, v).1 == Refused ==> UpdateSpec(st, id, req, v).0.(loaded := st.loaded) == st
  {
    if Accepted(st, id, req, v) {
      UpdateIs(st, id, req, v);
      if SourceChanged(st.rows[id], req) {
        assert GoodAt(st, id);
        CommitNext(st.snaps[id], st.rows[id], Session(st, id, req, v).1);
      }
    }
  }

  /** Changing the source and restoring the version before brings the whole body back, two numbers
      later, exactly when the profile had named its kind. */
  lemma RestoreUndoesUpdate(st: State, id: Id, req: UpdateRequest, v: Verdict, w: Verdict)
    requires Inv(st) && Accepted(st, id, req, v) && SourceChanged(st.rows[id], req)
    ensures var before := st.rows[id];
            var n := RestoreSpec(UpdateSpec(st, id, req, v).0, id, before.version, w).0;
            id in n.rows && n.rows[id].version == before.version + 2
            && (n.rows[id].body == before.body <==> before.body.kind != "")
  {
    assert GoodAt(st, id);
    var before, s := st.rows[id], st.snaps[id];
    UpdateIs(st, id, req, v);
    var (mid, row) := Session(st, id, req, v);
    CommitNext(s, before, row);
    var n := UpdateSpec(st, id, req, v).0;
    assert n.snaps[id][before.version - 1].body == before.body;
    RestoreIs(n, id, before.version, w);
  }

  // ---------------------------------------------------------------------------
  // The loader beside the table
  // ---------------------------------------------------------------------------

  /** A row says loaded exactly when its slug has a runtime; the row is then enabled, and the runtime
      was made from its source and configuration. */
  ghost predicate CoherentAt(st: State, id: Id)
    requires id in st.rows
  {
    var row := st.rows[id];
    && (row.status.Loaded? <==> row.slug in st.loaded)
    && (row.status.Loaded? ==> row.enabled && st.loaded[row.slug] == Runtime(row.body.source, row.body.config))
  }

  ghost predicate Owned(st: State, slug: string) { exists id :: id in st.rows && st.rows[id].slug == slug }

  /** So for every row, and every runtime is some row's. */
  ghost predicate Coherent(st: State) {
    && (forall id {:trigger CoherentAt(st, id)} :: id in st.rows ==> CoherentAt(st, id))
    && (forall slug {:trigger Owned(st, slug)} :: slug in st.loaded ==> Owned(st, slug))
  }

  /** The edits that leave a row and its runtime apart. A new source under a kind the loader skips
      leaves a loaded row with the old runtime. Any other edit that reaches the loader is refused by
      the table after the loader has acted: what was unloaded was loaded before, what was loaded has
      another configuration, or belongs to a row that does not say so. */
  predicate Drifts(row: Row, req: UpdateRequest, v: Verdict) {
    var enabled, kind := Or(req.enabled, row.enabled), Or(req.kind, row.body.kind);
    if SourceChanged(row, req) then enabled && !Python(kind) && row.status.Loaded?
    else if !NeedsReload(row, req) then false
    else if enabled && Python(kind) then v.loads || row.status.Loaded?
    else !enabled && row.status.Loaded?
  }

  /** Touching one row and the runtime of its slug leaves the other rows coherent. */
  lemma OthersCoherent(st: State, n: State, id: Id)
    requires Inv(st) && Coherent(st) && id in st.rows && n.rows.Keys == st.rows.Keys
    requires forall k :: k in st.rows && k != id ==> n.rows[k] == st.rows[k]
    requires n.rows[id].slug == st.rows[id].slug
    requires forall slug :: slug != st.rows[id].slug ==>
               (slug in n.loaded <==> slug in st.loaded) && (slug in n.loaded ==> n.loaded[slug] == st.loaded[slug])
    ensures Coherent(n) <==> CoherentAt(n, id)
  {
    forall k | k in n.rows && k != id ensures CoherentAt(n, k) {
      assert CoherentAt(st, k) && Apart(st, k, id);
    }
    forall slug | slug in n.loaded ensures Owned(n, slug) {
      if slug == st.rows[id].slug {
        assert n.rows[id].slug == slug;
      } else {
        assert Owned(st, slug);
        var k :| k in st.rows && st.rows[k].slug == slug;
        assert n.rows[k].slug == slug;
      }
    }
  }

  /** The row and the loader an accepted update ends with. */
  lemma UpdatedRowCoherent(st: State, id: Id, req: UpdateRequest, v: Verdict)
    requires Inv(st) && Accepted(st, id, req, v) && CoherentAt(st, id)
    ensures var n := UpdateSpec(st, id, req, v).0;
            id in n.rows && (CoherentAt(n, id) <==> !Drifts(st.rows[id], req, v))
  {
    UpdateIs(st, id, req, v);
    var before := st.rows[id];
    if SourceChanged(before, req) {
      assert GoodAt(st, id);
      CommitNext(st.snaps[id], before, Session(st, id, req, v).1);
    }
  }

  /** An update keeps rows and runtimes together exactly when it is none of those. */
  lemma UpdateCoherentIff(st: State, id: Id, req: UpdateRequest, v: Verdict)
    requires Inv(st) && Coherent(st) && id in st.rows
    ensures Coherent(UpdateSpec(st, id, req, v).0) <==> !Drifts(st.rows[id], req, v)
  {
    assert CoherentAt(st, id);
    if Accepted(st, id, req, v) {
      UpdateIs(st, id, req, v);
      UpdatedRowCoherent(st, id, req, v);
      OthersCoherent(st, UpdateSpec(st, id, req, v).0, id);
    }
  }

  lemma RestoreCoherent(st: State, id: Id, version: nat, v: Verdict)
    requires Inv(st) && Coherent(st) && id in st.rows
    ensures Coherent(RestoreSpec(st, id, version, v).0)
  {
    assert CoherentAt(st, id);
    RestoreIs(st, id, version, v);
    OthersCoherent(st, RestoreSpec(st, id, version, v).0, id);
  }

  lemma CreateCoherent(st: State, id: Id, req: CreateRequest, v: Verdict)
    requires Coherent(st) && id !in st.rows && id !in st.snaps
    ensures Coherent(CreateSpec(st, id, req, v).0)
  {
    var (n, outcome) := CreateSpec(st, id, req, v);
    if outcome == Done || outcome == Refused {
      assert req.slug !in st.loaded by { assert req.slug in st.loaded ==> Owned(st, req.slug); }
    }
    forall k | k in n.rows ensures CoherentAt(n, k) { if k in st.rows { assert CoherentAt(st, k); } }
    forall slug | slug in n.loaded ensures Owned(n, slug) {
      if slug in st.loaded {
        assert Owned(st, slug);
        var k :| k in st.rows && st.rows[k].slug == slug;
        assert n.rows[k].slug == slug;
      } else {
        assert n.rows[id].slug == slug;
      }
    }
  }

  lemma DeleteCoherent(st: State, id: Id)
    requires Inv(st) && Coherent(st) && id in st.rows
    ensures Coherent(DeleteSpec(st, id).0)
  {
    var n := DeleteSpec(st, id).0;
    forall k | k in n.rows ensures CoherentAt(n, k) { assert CoherentAt(st, k) && Apart(st, k, id); }
    forall slug | slug in n.loaded ensures Owned(n, slug) {
      assert Owned(st, slug);
      var k :| k in st.rows && st.rows[k].slug == slug;
      assert k != id && n.rows[k].slug == slug;
    }
  }

  lemma ActivateCoherent(st: State, id: Id)
    requires Coherent(st) && id in st.rows
    ensures Coherent(ActivateSpec(st, id).0)
  {
    var n := ActivateSpec(st, id).0;
    forall k | k in n.rows ensures CoherentAt(n, k) { assert CoherentAt(st, k); }
    forall slug | slug in n.loaded ensures Owned(n, slug) {
      assert Owned(st, slug);
      var k :| k in st.rows && st.rows[k].slug == slug;
      assert n.rows[k].slug == slug;
    }
  }

  /** Every other handler keeps them together. */
  lemma OtherOpsCoherent(st: State, op: Op)
    requires Inv(st) && Coherent(st) && Possible(st, op) && !op.Update?
    ensures Coherent(Apply(st, op).0)
  {
    match op
    case Restore(id, version, v) => if id in st.rows { RestoreCoherent(st, id, version, v); }
    case Reload(id, v) => if id in st.rows { OthersCoherent(st, ReloadSpec(st, id, v).0, id); }
    case Create(id, req, v) => CreateCoherent(st, id, req, v);
    case Activate(id) => if id in st.rows { ActivateCoherent(st, id); }
    case Delete(id) => if id in st.rows { DeleteCoherent(st, id); }
  }

  /** Somewhere on the way an update drifts. */
  predicate SomeDrifts(st: State, ops: seq<Op>)
    decreases |ops|
  {
    ops != [] && (Drifting(st, ops[0]) || SomeDrifts(Apply(st, ops[0]).0, ops[1..]))
  }

  predicate Drifting(st: State, op: Op) {
    op.Update? && op.id in st.rows && Drifts(st.rows[op.id], op.update, op.verdict)
  }

  lemma {:induction false} RunKeepsCoherent(st: State, ops: seq<Op>)
    requires Inv(st) && Coherent(st) && PossibleRun(st, ops) && !SomeDrifts(st, ops)
    ensures Coherent(After(st, ops))
    decreases |ops|
  {
    if ops != [] {
      var op := ops[0];
      ApplyKeepsInv(st, op);
      if !op.Update? {
        OtherOpsCoherent(st, op);
      } else if op.id in st.rows {
        UpdateCoherentIff(st, op.id, op.update, op.verdict);
      }
      RunKeepsCoherent(Apply(st, op).0, ops[1..]);
    }
  }

  ghost predicate EnabledOwner(st: State, slug: string) {
    exists id :: id in st.rows && st.rows[id].slug == slug && st.rows[id].enabled
  }

  /** Over every run of the handlers in which no update drifts, a profile says loaded exactly when it
      has a runtime, that runtime is of its own source and configuration, and every runtime is an
      enabled profile's. */
  lemma ReachableCoherent(ops: seq<Op>)
    requires PossibleRun(EMPTY, ops) && !SomeDrifts(EMPTY, ops)
    ensures var st := After(EMPTY, ops);
            && (forall id :: id in st.rows ==> (st.rows[id].status.Loaded? <==> st.rows[id].slug in st.loaded))
            && (forall id :: id in st.rows && st.rows[id].status.Loaded? ==>
                  st.loaded[st.rows[id].slug] == Runtime(st.rows[id].body.source, st.rows[id].body.config))
            && (forall slug :: slug in st.loaded ==> EnabledOwner(st, slug))
  {
    RunKeepsCoherent(EMPTY, ops);
    var st := After(EMPTY, ops);
    forall id | id in st.rows ensures CoherentAt(st, id) { }
    forall slug | slug in st.loaded ensures EnabledOwner(st, slug) {
      assert Owned(st, slug);
      var id :| id in st.rows && st.rows[id].slug == slug;
      assert CoherentAt(st, id);
    }
  }

  // ---------------------------------------------------------------------------
  // The ways apart, on concrete runs
  // ---------------------------------------------------------------------------

  const SCOUT: Body := Body("Scout", None, "class Scout: ...", Some("Scout"), map[], map[], "python")
  const LOADS: Verdict := Verdict(Some("Scout"), true)
  const RETUNE: UpdateRequest := UpdateRequest(None, None, None, Some(map["top_n" := "5"]), None, None, None)
  const ENABLE: UpdateRequest := UpdateRequest(None, None, None, None, None, Some(true), None)

  lemma ScoutCreated(enabled: bool)
    ensures var (n, outcome) := CreateSpec(EMPTY, "p1", CreateRequest("scout", SCOUT, enabled), LOADS);
            && outcome == Done && Inv(n) && Coherent(n) && "p1" in n.rows
            && n.rows["p1"] == Row("scout", SCOUT, enabled, false, 0, 1, false, if enabled then Loaded else Unloaded)
            && n.loaded == (if enabled then map["scout" := Runtime(SCOUT.source, SCOUT.config)] else map[])
            && n.activeSlug == None && n.rows.Keys == {"p1"}
  {
    var slug := "scout";
    assert Slug.ValidSlug(slug);
    CreateKeepsInv(EMPTY, "p1", CreateRequest("scout", SCOUT, enabled), LOADS);
    CreateCoherent(EMPTY, "p1", CreateRequest("scout", SCOUT, enabled), LOADS);
  }

  /** Make a profile, then change only its configuration. The edit is refused, the row keeps its old
      configuration, the runtime has the new one. */
  lemma ConfigEditDrifts()
    ensures var st := CreateSpec(EMPTY, "p1", CreateRequest("scout", SCOUT, true), LOADS).0;
            var (n, outcome) := UpdateSpec(st, "p1", RETUNE, LOADS);
            && Inv(st) && Coherent(st) && outcome == Refused && !Coherent(n)
            && n.rows["p1"].status.Loaded? && n.rows["p1"].body.config == map[]
            && "scout" in n.loaded && n.loaded["scout"].config == map["top_n" := "5"]
  {
    ScoutCreated(true);
    var st := CreateSpec(EMPTY, "p1", CreateRequest("scout", SCOUT, true), LOADS).0;
    assert map["top_n" := "5"] != map[] by { assert "top_n" in map["top_n" := "5"]; }
    MetadataEditRefusedIff(st, "p1", RETUNE, LOADS);
    UpdateCoherentIff(st, "p1", RETUNE, LOADS);
  }

  /** Make a disabled profile, then enable it. The edit is refused and the row stays disabled and
      unloaded, and its runtime is live. */
  lemma EnableEditDrifts()
    ensures var st := CreateSpec(EMPTY, "p1", CreateRequest("scout", SCOUT, false), LOADS).0;
            var (n, outcome) := UpdateSpec(st, "p1", ENABLE, LOADS);
            && Inv(st) && Coherent(st) && outcome == Refused && !Coherent(n)
            && !n.rows["p1"].enabled && n.rows["p1"].status.Unloaded? && "scout" in n.loaded
  {
    ScoutCreated(false);
    var st := CreateSpec(EMPTY, "p1", CreateRequest("scout", SCOUT, false), LOADS).0;
    MetadataEditRefusedIff(st, "p1", ENABLE, LOADS);
    UpdateCoherentIff(st, "p1", ENABLE, LOADS);
  }

  // ---------------------------------------------------------------------------
  // The active profile
  // ---------------------------------------------------------------------------

  predicate ActiveAt(st: State, id: Id)
    requires id in st.rows
  {
    st.rows[id].isActive <==> st.activeSlug == Some(st.rows[id].slug)
  }

  /** The loader's active slug is the slug of the active row, if there is one. */
  ghost predicate ActiveAgrees(st: State) {
    && (forall id {:trigger ActiveAt(st, id)} :: id in st.rows ==> ActiveAt(st, id))
    && (st.activeSlug.Some? ==> exists id :: id in st.rows && st.rows[id].slug == st.activeSlug.value)
  }

  /** A handler that changes no slug and no active flag changes nothing here. */
  lemma SameActive(st: State, n: State)
    requires n.rows.Keys == st.rows.Keys && n.activeSlug == st.activeSlug
    requires forall k :: k in st.rows ==> n.rows[k].slug == st.rows[k].slug && n.rows[k].isActive == st.rows[k].isActive
    requires ActiveAgrees(st)
    ensures ActiveAgrees(n)
  {
    forall k | k in n.rows ensures ActiveAt(n, k) { assert ActiveAt(st, k); }
    if st.activeSlug.Some? {
      var k :| k in st.rows && st.rows[k].slug == st.activeSlug.value;
      assert n.rows[k].slug == n.activeSlug.value;
    }
  }

  lemma UpdateKeepsActive(st: State, id: Id, req: UpdateRequest, v: Verdict)
    requires Inv(st) && ActiveAgrees(st)
    ensures ActiveAgrees(UpdateSpec(st, id, req, v).0)
  {
    if Accepted(st, id, req, v) {
      UpdateIs(st, id, req, v);
      SameActive(st, UpdateSpec(st, id, req, v).0);
    }
  }

  lemma CreateKeepsActive(st: State, id: Id, req: CreateRequest, v: Verdict)
    requires ActiveAgrees(st) && id !in st.rows && id !in st.snaps
    ensures ActiveAgrees(CreateSpec(st, id, req, v).0)
  {
    var n := CreateSpec(st, id, req, v).0;
    forall k | k in n.rows ensures ActiveAt(n, k) { if k in st.rows { assert ActiveAt(st, k); } }
    if st.activeSlug.Some? {
      var k :| k in st.rows && st.rows[k].slug == st.activeSlug.value;
      assert n.rows[k].slug == n.activeSlug.value;
    }
  }

  lemma ActivateKeepsActive(st: State, id: Id)
    requires Inv(st) && id in st.rows
    ensures ActiveAgrees(ActivateSpec(st, id).0)
  {
    var n := ActivateSpec(st, id).0;
    forall k | k in n.rows ensures ActiveAt(n, k) { assert Apart(st, k, id); }
    assert n.rows[id].slug == n.activeSlug.value;
  }

  lemma DeleteActiveIff(st: State, id: Id)
    requires Inv(st) && ActiveAgrees(st) && id in st.rows
    ensures ActiveAgrees(DeleteSpec(st, id).0) <==> !st.rows[id].isActive
  {
    var n := DeleteSpec(st, id).0;
    assert ActiveAt(st, id);
    if st.rows[id].isActive {
      forall k | k in n.rows ensures n.rows[k].slug != n.activeSlug.value { assert Apart(st, k, id); }
    } else {
      forall k | k in n.rows ensures ActiveAt(n, k) { assert ActiveAt(st, k); }
      if st.activeSlug.Some? {
        var k :| k in st.rows && st.rows[k].slug == st.activeSlug.value;
        assert k != id && n.rows[k].slug == n.activeSlug.value;
      }
    }
  }

  /** Only deleting the active profile breaks that: the loader goes on naming it, and a later
      profile of the same slug would be served as the active one. */
  lemma ActiveAgreesIff(st: State, op: Op)
    requires Inv(st) && ActiveAgrees(st) && Possible(st, op)
    ensures ActiveAgrees(Apply(st, op).0) <==> !(op.Delete? && op.id in st.rows && st.rows[op.id].isActive)
  {
    var n := Apply(st, op).0;
    match op
    case Create(id, req, v) => CreateKeepsActive(st, id, req, v);
    case Activate(id) => if id in st.rows { ActivateKeepsActive(st, id); }
    case Delete(id) => if id in st.rows { DeleteActiveIff(st, id); }
    case Update(id, req, v) => UpdateKeepsActive(st, id, req, v);
    case Restore(id, version, v) => SameActive(st, n);
    case Reload(id, v) => SameActive(st, n);
  }

  /** Make a profile, activate it and delete it: the loader still names it. */
  lemma DeleteLeavesActive()
    ensures var st := CreateSpec(EMPTY, "p1", CreateRequest("scout", SCOUT, true), LOADS).0;
            var active := ActivateSpec(st, "p1").0;
            var (n, outcome) := DeleteSpec(active, "p1");
            && Inv(active) && ActiveAgrees(active) && outcome == Done && !ActiveAgrees(n)
            && n.activeSlug == Some("scout") && n.rows == map[]
  {
    ScoutCreated(true);
    var st := CreateSpec(EMPTY, "p1", CreateRequest("scout", SCOUT, true), LOADS).0;
    var active := ActivateSpec(st, "p1").0;
    ActivateKeepsInv(st, "p1");
    ActivateKeepsActive(st, "p1");
    DeleteActiveIff(active, "p1");
    var n := DeleteSpec(active, "p1").0;
    assert n.rows.Keys == {};
  }
}
