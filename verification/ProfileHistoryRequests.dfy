/** What the discovery-profile handlers do with a request, told in the request's own fields. */
module ProfileHistoryRequests {
  import opened Wrappers
  import opened ProfileHistory
  import opened ProfileHistoryRuns
  import Slug

  /** The loader holds for the slug what this row compiles to, or nothing; other slugs are untouched. */
  ghost predicate LoaderIs(before: map<string, Runtime>, now: map<string, Runtime>, row: Row, live: bool) {
    && (row.slug in now <==> live)
    && (live ==> now[row.slug] == Runtime(row.body.source, row.body.config))
    && (forall slug :: slug != row.slug ==>
          (slug in now <==> slug in before) && (slug in before ==> now[slug] == before[slug]))
  }

  /** No other profile is touched. */
  ghost predicate OthersKept(st: State, n: State, id: Id) {
    forall k :: k != id ==>
      (k in n.rows <==> k in st.rows) && (k in st.rows ==> n.rows[k] == st.rows[k])
      && (k in n.snaps <==> k in st.snaps) && (k in st.snaps ==> n.snaps[k] == st.snaps[k])
  }

  /** The snapshot says what the row says. */
  predicate Records(s: Snapshot, row: Row) {
    && s.slug == row.slug && s.version == row.version && s.enabled == row.enabled
    && s.isSystem == row.isSystem && s.sortOrder == row.sortOrder && s.isLatest
    && s.body.name == row.body.name && s.body.description == row.body.description
    && s.body.source == row.body.source && s.body.className == row.body.className
    && s.body.config == row.body.config && s.body.schema == row.body.schema && s.body.kind == row.body.kind
  }

  predicate Taken(st: State, slug: string) { exists k :: k in st.rows && st.rows[k].slug == slug }

  // ---------------------------------------------------------------------------
  // Creating
  // ---------------------------------------------------------------------------

  lemma CreateAcceptedIff(st: State, id: Id, req: CreateRequest, v: Verdict)
    requires id !in st.rows && id !in st.snaps
    ensures CreateSpec(st, id, req, v).1 == Done <==>
              Slug.ValidSlug(req.slug) && (req.body.kind == "python" ==> v.found.Some?) && !Taken(st, req.slug)
    ensures CreateSpec(st, id, req, v).1 != Done ==> CreateSpec(st, id, req, v).0 == st
  {
    if SlugFree(st, req.slug) {
      assert !Taken(st, req.slug);
    } else {
      var k :| k in st.rows && st.rows[k].slug == req.slug;
      assert Taken(st, req.slug);
    }
  }

  /** A created profile is as requested, with the class the validation found, first version, inactive;
      its one snapshot records that. */
  lemma CreateStores(st: State, id: Id, req: CreateRequest, v: Verdict)
    requires id !in st.rows && id !in st.snaps && CreateSpec(st, id, req, v).1 == Done
    ensures var n := CreateSpec(st, id, req, v).0;
            && id in n.rows && id in n.snaps && OthersKept(st, n, id) && n.activeSlug == st.activeSlug
            && var row := n.rows[id];
               && row.slug == req.slug && row.enabled == req.enabled && row.version == 1
               && !row.isActive && !row.isSystem && row.sortOrder == 0
               && row.body.name == req.body.name && row.body.description == req.body.description
               && row.body.source == req.body.source && row.body.config == req.body.config
               && row.body.schema == req.body.schema && row.body.kind == req.body.kind
               && row.body.className == (if req.body.kind == "python" then v.found else None)
               && |n.snaps[id]| == 1 && Records(n.snaps[id][0], row) && n.snaps[id][0].parent == None
  {
  }

  /** It is loaded if it is enabled, of Python and loads, and then says so. */
  lemma CreateLoads(st: State, id: Id, req: CreateRequest, v: Verdict)
    requires id !in st.rows && id !in st.snaps && CreateSpec(st, id, req, v).1 == Done && req.slug !in st.loaded
    ensures var n := CreateSpec(st, id, req, v).0;
            var loads := req.enabled && req.body.kind == "python";
            && id in n.rows && LoaderIs(st.loaded, n.loaded, n.rows[id], loads && v.loads)
            && n.rows[id].status == (if !loads then Unloaded else if v.loads then Loaded else Failed)
  {
  }

  // ---------------------------------------------------------------------------
  // Updating
  // ---------------------------------------------------------------------------

  /** The kind that decides: an empty one counts as the one before for validation. */
  predicate NewSourceValidated(row: Row, req: UpdateRequest) {
    if req.kind == None || req.kind == Some("") then row.body.kind == "python" else req.kind == Some("python")
  }

  /** An update that changes the source is accepted unless that source has to be valid and is not. */
  lemma UpdateAcceptedIff(st: State, id: Id, req: UpdateRequest, v: Verdict)
    requires Inv(st) && id in st.rows && req.source.Some? && req.source.value != st.rows[id].body.source
    ensures UpdateSpec(st, id, req, v).1 == (if NewSourceValidated(st.rows[id], req) && v.found == None then BadRequest else Done)
    ensures UpdateSpec(st, id, req, v).1 == BadRequest ==> UpdateSpec(st, id, req, v).0 == st
  {
    if Accepted(st, id, req, v) {
      assert GoodAt(st, id);
      UpdateIs(st, id, req, v);
      CommitNext(st.snaps[id], st.rows[id], Session(st, id, req, v).1);
    }
  }

  /** Such an update, accepted, stores every field as requested and the others as they were, one version
      on; one more snapshot records that. */
  lemma UpdateStores(st: State, id: Id, req: UpdateRequest, v: Verdict)
    requires Inv(st) && id in st.rows && req.source.Some? && req.source.value != st.rows[id].body.source
    requires UpdateSpec(st, id, req, v).1 == Done
    ensures var n := UpdateSpec(st, id, req, v).0;
            && id in n.rows && id in n.snaps && OthersKept(st, n, id) && n.activeSlug == st.activeSlug
            && var before, row := st.rows[id], n.rows[id];
               && row.slug == before.slug && row.isActive == before.isActive && row.isSystem == before.isSystem
               && row.sortOrder == before.sortOrder && row.version == before.version + 1
               && row.enabled == (if req.enabled.Some? then req.enabled.value else before.enabled)
               && row.body.source == req.source.value
               && row.body.name == (if req.name.Some? then req.name.value else before.body.name)
               && row.body.description == (if req.description.Some? then req.description else before.body.description)
               && row.body.config == (if req.config.Some? then req.config.value else before.body.config)
               && row.body.schema == (if req.schema.Some? then req.schema.value else before.body.schema)
               && row.body.kind == (if req.kind.Some? then req.kind.value else before.body.kind)
               && row.body.className == (if NewSourceValidated(before, req) then v.found else before.body.className)
               && |n.snaps[id]| == |st.snaps[id]| + 1 && Records(n.snaps[id][|st.snaps[id]|], row)
               && n.snaps[id][|st.snaps[id]|].parent == Some(before.version)
  {
    assert GoodAt(st, id);
    UpdateIs(st, id, req, v);
    CommitNext(st.snaps[id], st.rows[id], Session(st, id, req, v).1);
  }

  /** And what it loads. */
  lemma UpdateLoads(st: State, id: Id, req: UpdateRequest, v: Verdict)
    requires Inv(st) && id in st.rows && req.source.Some? && req.source.value != st.rows[id].body.source
    requires UpdateSpec(st, id, req, v).1 == Done
    ensures var n := UpdateSpec(st, id, req, v).0;
            && id in n.rows
            && var before, row := st.rows[id], n.rows[id];
               var python := row.body.kind == "python" || row.body.kind == "";
               if row.enabled && !python then n.loaded == st.loaded && row.status == before.status
               else
                 LoaderIs(st.loaded, n.loaded, row, row.enabled && v.loads)
                 && row.status == (if !row.enabled then Unloaded else if v.loads then Loaded else Failed)
  {
    assert GoodAt(st, id);
    UpdateIs(st, id, req, v);
    CommitNext(st.snaps[id], st.rows[id], Session(st, id, req, v).1);
  }

  /** An update that leaves the source alone changes no row and no snapshot, whatever else it asks for. */
  lemma OtherUpdatesStoreNothing(st: State, id: Id, req: UpdateRequest, v: Verdict)
    requires Inv(st) && id in st.rows && (req.source == None || req.source.value == st.rows[id].body.source)
    ensures var (n, outcome) := UpdateSpec(st, id, req, v);
            n.rows == st.rows && n.snaps == st.snaps && n.activeSlug == st.activeSlug && (outcome == Done || outcome == Refused)
  {
    UpdateIs(st, id, req, v);
  }

  /** But it does reach the loader, if the configuration or the enabled flag would change: the runtime
      is made anew from the requested configuration, or gone. */
  lemma OtherUpdatesLoad(st: State, id: Id, req: UpdateRequest, v: Verdict)
    requires Inv(st) && id in st.rows && (req.source == None || req.source.value == st.rows[id].body.source)
    ensures var (n, outcome) := UpdateSpec(st, id, req, v);
            var before := st.rows[id];
            var enabled := if req.enabled.Some? then req.enabled.value else before.enabled;
            var kind := if req.kind.Some? then req.kind.value else before.body.kind;
            var asked := (if req.config.Some? then req.config.value else before.body.config);
            if asked == before.body.config && enabled == before.enabled then n.loaded == st.loaded
            else if !enabled then LoaderIs(st.loaded, n.loaded, before, false)
            else if kind != "python" && kind != "" then n.loaded == st.loaded
            else LoaderIs(st.loaded, n.loaded, before.(body := before.body.(config := asked)), v.loads)
  {
    UpdateIs(st, id, req, v);
  }

  // ---------------------------------------------------------------------------
  // Restoring, reloading, activating and deleting
  // ---------------------------------------------------------------------------

  /** A restored profile has the snapshot's source, class name, name, description, configuration, schema
      and kind, Python if that is empty, and everything else as it was, one version on. */
  lemma RestoreStores(st: State, id: Id, version: nat, v: Verdict)
    requires Inv(st) && id in st.rows && 1 <= version <= st.rows[id].version
    ensures id in st.snaps && |st.snaps[id]| == st.rows[id].version
    ensures var (n, outcome) := RestoreSpec(st, id, version, v);
            && outcome == Done && id in n.rows && id in n.snaps && OthersKept(st, n, id) && n.activeSlug == st.activeSlug
            && var before, row, from := st.rows[id], n.rows[id], st.snaps[id][version - 1].body;
               && st.snaps[id][version - 1].version == version
               && row.slug == before.slug && row.isActive == before.isActive && row.isSystem == before.isSystem
               && row.sortOrder == before.sortOrder && row.enabled == before.enabled && row.version == before.version + 1
               && row.body.source == from.source && row.body.className == from.className && row.body.name == from.name
               && row.body.description == from.description && row.body.config == from.config
               && row.body.schema == from.schema && row.body.kind == (if from.kind == "" then "python" else from.kind)
               && |n.snaps[id]| == before.version + 1 && Records(n.snaps[id][before.version], row)
  {
    assert GoodAt(st, id);
    assert EntryAt(st.snaps[id], version - 1);
    RestoreIs(st, id, version, v);
    MatchingOfGood(st.rows[id], st.snaps[id], version);
  }

  lemma RestoreLoads(st: State, id: Id, version: nat, v: Verdict)
    requires Inv(st) && id in st.rows && 1 <= version <= st.rows[id].version
    ensures var n := RestoreSpec(st, id, version, v).0;
            && id in n.rows
            && var row := n.rows[id];
               var loads := row.enabled && row.body.kind == "python";
               LoaderIs(st.loaded, n.loaded, row, loads && v.loads)
               && row.status == (if !loads then Unloaded else if v.loads then Loaded else Failed)
  {
    assert GoodAt(st, id);
    RestoreIs(st, id, version, v);
    MatchingOfGood(st.rows[id], st.snaps[id], version);
  }

  lemma ReloadLoads(st: State, id: Id, v: Verdict)
    requires id in st.rows
    ensures var (n, outcome) := ReloadSpec(st, id, v);
            var row := st.rows[id];
            if !row.enabled then outcome == BadRequest && n == st
            else
              && outcome == (if v.loads then Done else BadRequest) && OthersKept(st, n, id) && n.snaps == st.snaps
              && id in n.rows && n.rows[id] == row.(status := if v.loads then Loaded else Failed)
              && LoaderIs(st.loaded, n.loaded, row, v.loads) && n.activeSlug == st.activeSlug
  {
  }

  lemma ActivateMarks(st: State, id: Id)
    requires id in st.rows
    ensures var (n, outcome) := ActivateSpec(st, id);
            && outcome == Done && n.rows.Keys == st.rows.Keys && n.snaps == st.snaps && n.loaded == st.loaded
            && n.activeSlug == Some(st.rows[id].slug)
            && forall k :: k in st.rows ==> n.rows[k] == st.rows[k].(isActive := k == id)
  {
  }

  lemma DeleteForgets(st: State, id: Id)
    requires id in st.rows
    ensures var (n, outcome) := DeleteSpec(st, id);
            && outcome == Done && id !in n.rows && id !in n.snaps && OthersKept(st, n, id)
            && LoaderIs(st.loaded, n.loaded, st.rows[id], false) && n.activeSlug == st.activeSlug
  {
  }
}
