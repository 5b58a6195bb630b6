/** What every run of the data-source handlers keeps, and exactly where registry and loader part ways. */
module SourceRegistryRuns {
  import opened Wrappers
  import opened SourceRegistry
  import Slug

  /** A new id is fresh; the handlers draw it at random. */
  predicate Possible(st: State, op: Op) { op.Create? ==> op.id !in st.rows }

  /** Nothing changes but one row and the runtimes of its old and new slug. */
  ghost predicate OnlyTouches(st: State, n: State, id: Id)
    requires id in st.rows
  {
    && n.rows.Keys == st.rows.Keys
    && (forall k :: k in st.rows && k != id ==> n.rows[k] == st.rows[k])
    && (forall slug {:trigger SameRuntime(st.runtimes, n.runtimes, slug)} ::
          slug != st.rows[id].slug && slug != n.rows[id].slug ==> SameRuntime(st.runtimes, n.runtimes, slug))
  }

  /** Then it is a question of that row, of the slug it left, and of the slug it took. */
  lemma TouchOne(st: State, n: State, id: Id)
    requires Sound(st) && id in st.rows && OnlyTouches(st, n, id)
    requires RowSound(n, id)
    requires n.rows[id].slug != st.rows[id].slug ==>
               st.rows[id].slug !in n.runtimes && SlugFree(st, n.rows[id].slug, Some(id))
    ensures Sound(n)
    ensures Own(st) ==> (Own(n) <==> RowOwn(n, id))
  {
    forall i, j | i in n.rows && j in n.rows ensures Apart(n, i, j) { assert Apart(st, i, j); }
    forall k | k in n.rows && k != id ensures RowSound(n, k) && (Own(st) ==> RowOwn(n, k)) {
      assert RowSound(st, k) && Apart(st, k, id);
      assert SameRuntime(st.runtimes, n.runtimes, st.rows[k].slug);
      assert Own(st) ==> RowOwn(st, k);
    }
    forall slug | slug in n.runtimes ensures Owned(n, slug) {
      if slug != n.rows[id].slug {
        assert SameRuntime(st.runtimes, n.runtimes, slug) && Owned(st, slug);
        var k :| k in st.rows && st.rows[k].slug == slug;
        assert n.rows[k].slug == slug;
      }
    }
  }

  lemma UpdatedRow(st: State, id: Id, req: UpdateRequest, v: Verdict)
    requires Check(st, id, req, v) == Done && RowSound(st, id)
    requires Or(req.slug, st.rows[id].slug) in st.runtimes ==> Or(req.slug, st.rows[id].slug) == st.rows[id].slug
    ensures var n := UpdateSpec(st, id, req, v).0;
            id in n.rows && RowSound(n, id) && (RowOwn(st, id) ==> RowOwn(n, id))
            && n.rows[id].slug == Or(req.slug, st.rows[id].slug)
            && (n.rows[id].slug != st.rows[id].slug ==> st.rows[id].slug !in n.runtimes)
  {
  }

  lemma UpdateKeeps(st: State, id: Id, req: UpdateRequest, v: Verdict)
    requires Sound(st)
    ensures var n := UpdateSpec(st, id, req, v).0; Sound(n) && (Own(st) ==> Own(n))
  {
    if Check(st, id, req, v) == Done {
      assert RowSound(st, id) && (Own(st) ==> RowOwn(st, id));
      var slug := Or(req.slug, st.rows[id].slug);
      if slug in st.runtimes { assert Owned(st, slug); }
      UpdatedRow(st, id, req, v);
      TouchOne(st, UpdateSpec(st, id, req, v).0, id);
    }
  }

  lemma CreateKeeps(st: State, id: Id, req: CreateRequest, v: Verdict)
    requires Sound(st) && id !in st.rows
    ensures var n := CreateSpec(st, id, req, v).0; Sound(n) && (Own(st) ==> Own(n))
  {
    var (n, outcome) := CreateSpec(st, id, req, v);
    if outcome == Done {
      assert req.slug !in st.runtimes by { assert req.slug in st.runtimes ==> Owned(st, req.slug); }
      forall i, j | i in n.rows && j in n.rows ensures Apart(n, i, j) {
        if i in st.rows && j in st.rows { assert Apart(st, i, j); }
      }
      forall k | k in n.rows ensures RowSound(n, k) && (Own(st) ==> RowOwn(n, k)) {
        if k != id { assert RowSound(st, k) && (Own(st) ==> RowOwn(st, k)); }
      }
      forall slug | slug in n.runtimes ensures Owned(n, slug) {
        if slug == req.slug {
          assert n.rows[id].slug == slug;
        } else {
          assert Owned(st, slug);
          var k :| k in st.rows && st.rows[k].slug == slug;
          assert n.rows[k].slug == slug;
        }
      }
    }
  }

  lemma DeleteKeeps(st: State, id: Id)
    requires Sound(st)
    ensures var n := DeleteSpec(st, id).0; Sound(n) && (Own(st) ==> Own(n))
  {
    if id in st.rows {
      var n := DeleteSpec(st, id).0;
      forall i, j | i in n.rows && j in n.rows ensures Apart(n, i, j) { assert Apart(st, i, j); }
      forall k | k in n.rows ensures RowSound(n, k) && (Own(st) ==> RowOwn(n, k)) {
        assert RowSound(st, k) && (Own(st) ==> RowOwn(st, k)) && Apart(st, k, id);
      }
      forall slug | slug in n.runtimes ensures Owned(n, slug) {
        assert Owned(st, slug);
        var k :| k in st.rows && st.rows[k].slug == slug;
        assert k != id && n.rows[k].slug == slug;
      }
    }
  }

  lemma ReloadKeeps(st: State, id: Id, v: Verdict)
    requires Sound(st)
    ensures var n := ReloadSpec(st, id, v).0; Sound(n) && (Own(st) ==> Own(n))
  {
    if id in st.rows {
      assert RowSound(st, id);
      TouchOne(st, ReloadSpec(st, id, v).0, id);
    }
  }

  /** A preview loads a disabled source; or a run that was under way while its source was changed
      comes to its end on a disabled row, or succeeds for a slug that has no runtime. */
  predicate Strays(st: State, op: Op) {
    match op
    case Preview(id, v, _) => id in st.rows && !st.rows[id].enabled && v.loadsAs.Some?
    case RunEnds(id, fetches) =>
      id in st.rows && (!st.rows[id].enabled || (fetches && st.rows[id].slug !in st.runtimes))
    case _ => false
  }

  /** A run succeeds on a runtime of another source or configuration than its row's. */
  predicate Revives(st: State, op: Op) {
    && (op.Run? || op.RunEnds?) && op.fetches && op.id in st.rows && st.rows[op.id].enabled
    && st.rows[op.id].slug in st.runtimes && !Of(st.runtimes[st.rows[op.id].slug], st.rows[op.id])
  }

  lemma RunStartsKeeps(st: State, id: Id, v: Verdict)
    requires Sound(st)
    ensures var n := RunStartsSpec(st, id, v).0; Sound(n) && (Own(st) ==> Own(n))
  {
    if id in st.rows {
      assert RowSound(st, id);
      assert Own(st) ==> RowOwn(st, id);
      TouchOne(st, RunStartsSpec(st, id, v).0, id);
    }
  }

  lemma RunEndsKeepsIff(st: State, id: Id, fetches: bool)
    requires Sound(st)
    ensures var n, op := RunEndsSpec(st, id, fetches).0, RunEnds(id, fetches);
            (Sound(n) <==> !Strays(st, op)) && (Own(st) ==> (Own(n) <==> !Revives(st, op)))
  {
    if id in st.rows {
      var n := RunEndsSpec(st, id, fetches).0;
      assert RowSound(st, id);
      if RowSound(n, id) { TouchOne(st, n, id); }
      forall k | k in n.rows && k != id ensures Own(st) ==> RowOwn(n, k) { assert Own(st) ==> RowOwn(st, k); }
      assert Own(st) ==> (Own(n) <==> RowOwn(n, id));
    }
  }

  lemma RunKeeps(st: State, id: Id, v: Verdict, fetches: bool)
    requires Sound(st)
    ensures var n := RunSpec(st, id, v, fetches).0;
            Sound(n) && (Own(st) ==> (Own(n) <==> !Revives(st, Op.Run(id, v, fetches))))
  {
    RunStartsKeeps(st, id, v);
    var (mid, outcome) := RunStartsSpec(st, id, v);
    if outcome == Done { RunEndsKeepsIff(mid, id, fetches && mid.rows[id].slug in mid.runtimes); }
  }

  lemma PreviewKeepsIff(st: State, id: Id, v: Verdict, fetches: bool)
    requires Sound(st)
    ensures var n := PreviewSpec(st, id, v, fetches).0;
            (Sound(n) <==> !Strays(st, Preview(id, v, fetches))) && (Own(st) ==> Own(n))
  {
    if id in st.rows {
      var n := PreviewSpec(st, id, v, fetches).0;
      assert RowSound(st, id);
      forall k | k in n.rows ensures Own(st) ==> RowOwn(n, k) {
        assert Apart(st, k, id) && RowSound(st, k) && (Own(st) ==> RowOwn(st, k));
      }
      if RowSound(n, id) { TouchOne(st, n, id); }
    }
  }

  /** Every handler keeps slugs, statuses and runtimes sound, save exactly a preview of a disabled
      source that loads, and a run whose source was disabled, or lost its runtime, under it. */
  lemma ApplySoundIff(st: State, op: Op)
    requires Sound(st) && Possible(st, op)
    ensures Sound(Apply(st, op).0) <==> !Strays(st, op)
  {
    match op
    case Create(id, req, v) => CreateKeeps(st, id, req, v);
    case Update(id, req, v) => UpdateKeeps(st, id, req, v);
    case Delete(id) => DeleteKeeps(st, id);
    case Reload(id, v) => ReloadKeeps(st, id, v);
    case RunStarts(id, v) => RunStartsKeeps(st, id, v);
    case RunEnds(id, fetches) => RunEndsKeepsIff(st, id, fetches);
    case Run(id, v, fetches) => RunKeeps(st, id, v, fetches);
    case Preview(id, v, fetches) => PreviewKeepsIff(st, id, v, fetches);
  }

  /** Every handler leaves each loaded row with a runtime of its own source and configuration, save
      exactly a run that succeeds on a row whose cached runtime is of another. */
  lemma ApplyOwnIff(st: State, op: Op)
    requires Sound(st) && Own(st) && Possible(st, op)
    ensures Own(Apply(st, op).0) <==> !Revives(st, op)
  {
    match op
    case Create(id, req, v) => CreateKeeps(st, id, req, v);
    case Update(id, req, v) => UpdateKeeps(st, id, req, v);
    case Delete(id) => DeleteKeeps(st, id);
    case Reload(id, v) => ReloadKeeps(st, id, v);
    case RunStarts(id, v) => RunStartsKeeps(st, id, v);
    case RunEnds(id, fetches) => RunEndsKeepsIff(st, id, fetches);
    case Run(id, v, fetches) => RunKeeps(st, id, v, fetches);
    case Preview(id, v, fetches) => PreviewKeepsIff(st, id, v, fetches);
  }

  // ---------------------------------------------------------------------------
  // Runs
  // ---------------------------------------------------------------------------

  predicate PossibleRun(st: State, ops: seq<Op>)
    decreases |ops|
  {
    ops == [] || (Possible(st, ops[0]) && PossibleRun(Apply(st, ops[0]).0, ops[1..]))
  }

  function After(st: State, ops: seq<Op>): State
    decreases |ops|
  {
    if ops == [] then st else After(Apply(st, ops[0]).0, ops[1..])
  }

  /** Somewhere on the way an operation strays, or revives. */
  predicate SomeStrays(st: State, ops: seq<Op>)
    decreases |ops|
  {
    ops != [] && (Strays(st, ops[0]) || SomeStrays(Apply(st, ops[0]).0, ops[1..]))
  }

  predicate SomeRevives(st: State, ops: seq<Op>)
    decreases |ops|
  {
    ops != [] && (Revives(st, ops[0]) || SomeRevives(Apply(st, ops[0]).0, ops[1..]))
  }

  lemma {:induction false} RunsKeep(st: State, ops: seq<Op>)
    requires Sound(st) && PossibleRun(st, ops) && !SomeStrays(st, ops)
    ensures Sound(After(st, ops))
    ensures Own(st) && !SomeRevives(st, ops) ==> Own(After(st, ops))
    decreases |ops|
  {
    if ops != [] {
      ApplySoundIff(st, ops[0]);
      if Own(st) { ApplyOwnIff(st, ops[0]); }
      RunsKeep(Apply(st, ops[0]).0, ops[1..]);
    }
  }

  ghost predicate EnabledOwner(st: State, slug: string) {
    exists id :: id in st.rows && st.rows[id].slug == slug && st.rows[id].enabled
  }

  /** Over every sequence of creations, updates, renames, deletions, reloads, previews and runs, the
      runs interleaved with the rest at their fetch, in which none strays: slugs are unique, every runtime belongs to an enabled row, a row that says
      loaded has a runtime, and one that says unloaded has none. If moreover no run succeeds on
      another source's runtime, a loaded row's runtime is of its own source and configuration. */
  lemma RegistryAgrees(ops: seq<Op>)
    requires PossibleRun(EMPTY, ops) && !SomeStrays(EMPTY, ops)
    ensures var st := After(EMPTY, ops);
            && (forall i, j :: i in st.rows && j in st.rows && st.rows[i].slug == st.rows[j].slug ==> i == j)
            && (forall slug :: slug in st.runtimes ==> EnabledOwner(st, slug))
            && (forall id :: id in st.rows && st.rows[id].status.Loaded? ==> st.rows[id].slug in st.runtimes)
            && (forall id :: id in st.rows && st.rows[id].status.Unloaded? ==> st.rows[id].slug !in st.runtimes)
            && (!SomeRevives(EMPTY, ops) ==>
                  forall id :: id in st.rows && st.rows[id].status.Loaded? ==>
                    st.runtimes[st.rows[id].slug].source == st.rows[id].source
                    && st.runtimes[st.rows[id].slug].config == st.rows[id].config)
  {
    RunsKeep(EMPTY, ops);
    var st := After(EMPTY, ops);
    forall i, j | i in st.rows && j in st.rows && st.rows[i].slug == st.rows[j].slug ensures i == j { assert Apart(st, i, j); }
    forall slug | slug in st.runtimes ensures EnabledOwner(st, slug) {
      assert Owned(st, slug);
      var id :| id in st.rows && st.rows[id].slug == slug;
      assert RowSound(st, id);
    }
    forall id | id in st.rows ensures RowSound(st, id) { }
    if !SomeRevives(EMPTY, ops) {
      forall id | id in st.rows ensures RowOwn(st, id) { }
    }
  }

  /** Whatever previews and runs have left behind, a refresh from the table puts it right. */
  lemma RefreshHeals(st: State, loads: map<Id, string>, n: State)
    requires UniqueSlugs(st) && Refreshed(st, loads, n)
    ensures Sound(n) && Own(n)
  {
    forall i, j | i in n.rows && j in n.rows ensures Apart(n, i, j) { assert Apart(st, i, j); }
    forall k | k in n.rows ensures RowSound(n, k) && RowOwn(n, k) {
      assert RefreshedRuntime(st.rows[k], LoadsAs(loads, k), st.runtimes, n.runtimes);
    }
    forall slug | slug in n.runtimes ensures Owned(n, slug) {
      assert Owned(st, slug);
      var k :| k in st.rows && st.rows[k].slug == slug;
      assert n.rows[k].slug == slug;
    }
  }

  // ---------------------------------------------------------------------------
  // The ways apart, on concrete runs
  // ---------------------------------------------------------------------------

  const LOADS := Verdict(Some("Feed"), Some("Feed"))
  const BROKEN := Verdict(Some("Feed"), None)

  function FeedRequest(enabled: bool): CreateRequest {
    CreateRequest("feed", Python, "class Feed: ...", "", map[], enabled)
  }

  const NEW_SOURCE: UpdateRequest := UpdateRequest(false, None, None, Some("class Feed: raise"), "", None, None)

  const DISABLE: UpdateRequest := UpdateRequest(false, None, None, None, "", None, Some(false))

  lemma FeedCreated(enabled: bool)
    ensures var (n, outcome) := CreateSpec(EMPTY, "f1", FeedRequest(enabled), LOADS);
            outcome == Done && "f1" in n.rows
            && n.rows["f1"] == Row("feed", Python, "class Feed: ...", Some("Feed"), map[], false, enabled,
                                   if enabled then Loaded else Unloaded, 1)
            && n.runtimes == if enabled then map["feed" := Runtime("class Feed: ...", map[], "Feed")] else map[]
  {
    var slug := "feed";
    assert Slug.ValidSlug(slug);
    var source := "class Feed: ...";
    assert !IsSpace(source[0]);
    assert !Blank(source);
  }

  /** Create a disabled source and preview it: it says unloaded and has a runtime. */
  lemma PreviewLeavesRuntime()
    ensures var ops := [Create("f1", FeedRequest(false), LOADS), Preview("f1", LOADS, true)];
            var n := After(EMPTY, ops);
            && PossibleRun(EMPTY, ops) && !Sound(n)
            && "f1" in n.rows && n.rows["f1"].status.Unloaded? && !n.rows["f1"].enabled && "feed" in n.runtimes
  {
    FeedCreated(false);
    var st := CreateSpec(EMPTY, "f1", FeedRequest(false), LOADS).0;
    var n := PreviewSpec(st, "f1", LOADS, true).0;
    assert !RowSound(n, "f1");
    TwoOps(EMPTY, Create("f1", FeedRequest(false), LOADS), Preview("f1", LOADS, true));
  }

  lemma TwoOps(st: State, a: Op, b: Op)
    ensures After(st, [a, b]) == Apply(Apply(st, a).0, b).0
    ensures PossibleRun(st, [a, b]) == (Possible(st, a) && Possible(Apply(st, a).0, b))
  {
    assert [a, b][1..] == [b] && [b][1..] == [];
    var mid := Apply(st, a).0;
    assert After(mid, [b]) == After(Apply(mid, b).0, []) == Apply(mid, b).0;
    assert PossibleRun(mid, [b]) == (Possible(mid, b) && PossibleRun(Apply(mid, b).0, []));
  }

  /** Give a loaded source new code that does not load, then run it: the run succeeds on the old code
      and the row says loaded with the new code beside it. */
  lemma RunRevives()
    ensures var st := CreateSpec(EMPTY, "f1", FeedRequest(true), LOADS).0;
            var broken := UpdateSpec(st, "f1", NEW_SOURCE, BROKEN);
            var run := RunSpec(broken.0, "f1", BROKEN, true);
            && broken.1 == Done && run.1 == Done && Sound(run.0) && !Own(run.0)
            && "f1" in broken.0.rows && broken.0.rows["f1"].status.Failed?
            && "f1" in run.0.rows && run.0.rows["f1"].status.Loaded? && run.0.rows["f1"].source == "class Feed: raise"
            && "feed" in run.0.runtimes && run.0.runtimes["feed"].source == "class Feed: ..."
  {
    FeedCreated(true);
    var st := CreateSpec(EMPTY, "f1", FeedRequest(true), LOADS).0;
    CreateKeeps(EMPTY, "f1", FeedRequest(true), LOADS);
    var source := "class Feed: raise";
    assert !IsSpace(source[0]) && !Blank(source);
    assert source[12] == 'r' && "class Feed: ..."[12] == '.';
    var broken := UpdateSpec(st, "f1", NEW_SOURCE, BROKEN).0;
    UpdateKeeps(st, "f1", NEW_SOURCE, BROKEN);
    RunKeeps(broken, "f1", BROKEN, true);
    assert !RowOwn(RunSpec(broken, "f1", BROKEN, true).0, "f1");
  }

  /** Disable a source while its run fetches: the run comes to its end with an error, and the
      disabled row says failed. */
  lemma DisabledUnderRun()
    ensures var st := CreateSpec(EMPTY, "f1", FeedRequest(true), LOADS).0;
            var started := RunStartsSpec(st, "f1", LOADS);
            var off := UpdateSpec(started.0, "f1", DISABLE, LOADS);
            var ended := RunEndsSpec(off.0, "f1", true);
            && started.1 == Done && off.1 == Done && Sound(off.0) && ended.1 == Errored && !Sound(ended.0)
            && "f1" in ended.0.rows && !ended.0.rows["f1"].enabled && ended.0.rows["f1"].status.Failed?
  {
    FeedCreated(true);
    CreateKeeps(EMPTY, "f1", FeedRequest(true), LOADS);
    var st := CreateSpec(EMPTY, "f1", FeedRequest(true), LOADS).0;
    RunStartsKeeps(st, "f1", LOADS);
    var started := RunStartsSpec(st, "f1", LOADS).0;
    var source := "class Feed: ...";
    assert !IsSpace(source[0]) && !Blank(source);
    UpdateKeeps(started, "f1", DISABLE, LOADS);
    var off := UpdateSpec(started, "f1", DISABLE, LOADS).0;
    RunEndsKeepsIff(off, "f1", true);
  }

  // ---------------------------------------------------------------------------
  // Versions and renames
  // ---------------------------------------------------------------------------

  /** An update that is turned away changes nothing; one that goes through raises the version by
      one exactly when the source changes. */
  lemma UpdateVersionIff(st: State, id: Id, req: UpdateRequest, v: Verdict)
    ensures var (n, outcome) := UpdateSpec(st, id, req, v);
            if outcome != Done then n == st
            else
              id in st.rows && id in n.rows
              && n.rows[id].version == st.rows[id].version + (if n.rows[id].source != st.rows[id].source then 1 else 0)
              && (req.source.Some? && !Blank(req.source.value) ==> n.rows[id].source == req.source.value)
  {
  }

  /** How often a source's code changes over a run. */
  function Changes(st: State, ops: seq<Op>, id: Id): nat
    decreases |ops|
  {
    if ops == [] then 0
    else
      var n := Apply(st, ops[0]).0;
      (if id in st.rows && id in n.rows && n.rows[id].source != st.rows[id].source then 1 else 0)
      + Changes(n, ops[1..], id)
  }

  lemma OpVersion(st: State, op: Op, id: Id)
    requires Possible(st, op) && id in st.rows && !(op.Delete? && op.id == id)
    ensures var n := Apply(st, op).0;
            id in n.rows
            && n.rows[id].version == st.rows[id].version + (if n.rows[id].source != st.rows[id].source then 1 else 0)
  {
    match op
    case Update(k, req, v) => UpdateVersionIff(st, k, req, v);
    case _ =>
  }

  /** Over any run that does not delete it a source's version counts the changes of its code. */
  lemma {:induction false} VersionCounts(st: State, ops: seq<Op>, id: Id)
    requires PossibleRun(st, ops) && id in st.rows
    requires forall k :: 0 <= k < |ops| ==> !(ops[k].Delete? && ops[k].id == id)
    ensures id in After(st, ops).rows
    ensures After(st, ops).rows[id].version == st.rows[id].version + Changes(st, ops, id)
    decreases |ops|
  {
    if ops != [] {
      OpVersion(st, ops[0], id);
      VersionCounts(Apply(st, ops[0]).0, ops[1..], id);
    }
  }

  /** A rename that loads moves the runtime: the old slug has none, the new one has the row's. */
  lemma RenameMovesRuntime(st: State, id: Id, req: UpdateRequest, v: Verdict)
    requires Sound(st) && id in st.rows && Check(st, id, req, v) == Done
    requires req.slug.Some? && req.slug.value != st.rows[id].slug && Or(req.enabled, st.rows[id].enabled)
    ensures var n := UpdateSpec(st, id, req, v).0;
            st.rows[id].slug !in n.runtimes
            && (req.slug.value in n.runtimes <==> v.loadsAs.Some?)
            && n.runtimes.Keys == st.runtimes.Keys - {st.rows[id].slug} + (if v.loadsAs.Some? then {req.slug.value} else {})
  {
    var slug := req.slug.value;
    assert slug !in st.runtimes by { assert slug in st.runtimes ==> Owned(st, slug); }
  }
}
