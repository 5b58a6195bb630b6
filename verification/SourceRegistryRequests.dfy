/** What the data-source handlers do with a request, told in the request's own fields. */
module SourceRegistryRequests {
  import opened Wrappers
  import opened SourceRegistry
  import Slug

  /** Nothing but this row and the runtimes of these slugs is touched. */
  ghost predicate Only(st: State, n: State, id: Id, slugs: set<string>) {
    && (forall k :: k != id ==> (k in n.rows <==> k in st.rows) && (k in st.rows ==> n.rows[k] == st.rows[k]))
    && (forall slug :: slug !in slugs ==>
          (slug in n.runtimes <==> slug in st.runtimes) && (slug in st.runtimes ==> n.runtimes[slug] == st.runtimes[slug]))
  }

  /** Some other row has the slug. */
  predicate TakenByOther(st: State, id: Id, slug: string) { exists k :: k in st.rows && k != id && st.rows[k].slug == slug }

  // ---------------------------------------------------------------------------
  // Creating
  // ---------------------------------------------------------------------------

  /** The source a create works with: what it was sent, or for a templated kind what the template builds. */
  function CreatedSource(req: CreateRequest): string {
    if Blank(req.source) && req.kind != Python then req.built else req.source
  }

  lemma CreateAcceptedIff(st: State, id: Id, req: CreateRequest, v: Verdict)
    requires id !in st.rows
    ensures CreateSpec(st, id, req, v).1 == Done <==>
              Slug.ValidSlug(req.slug) && v.found.Some? && !TakenByOther(st, id, req.slug)
              && !(req.kind == Python && Blank(req.source))
    ensures CreateSpec(st, id, req, v).1 != Done ==> CreateSpec(st, id, req, v).0 == st
  {
    if SlugFree(st, req.slug, None) {
      assert !TakenByOther(st, id, req.slug);
    } else {
      var k :| k in st.rows && st.rows[k].slug == req.slug;
      assert TakenByOther(st, id, req.slug);
    }
  }

  /** A created source is as requested; it is loaded if it is enabled and loads, and then says so. */
  lemma CreateStores(st: State, id: Id, req: CreateRequest, v: Verdict)
    requires id !in st.rows && CreateSpec(st, id, req, v).1 == Done
    ensures var n := CreateSpec(st, id, req, v).0;
            var live := req.enabled && v.loadsAs.Some?;
            && Only(st, n, id, {req.slug}) && id in n.rows && n.tombstones == st.tombstones
            && n.rows[id] == Row(req.slug, req.kind, CreatedSource(req), v.found, req.config, false, req.enabled,
                                 if !req.enabled then Unloaded else if v.loadsAs.Some? then Loaded else Failed, 1)
            && (live ==> req.slug in n.runtimes
                         && n.runtimes[req.slug] == Runtime(CreatedSource(req), req.config, v.loadsAs.value))
            && (!live ==> n.runtimes == st.runtimes)
  {
  }

  // ---------------------------------------------------------------------------
  // Updating
  // ---------------------------------------------------------------------------

  /** The kind an update ends with, and whether that is another. */
  function NewKind(row: Row, req: UpdateRequest): Kind { if req.kind.Some? then req.kind.value else row.kind }

  /** The source an update works with: what it was sent, nothing if the kind becomes a templated one,
      else what was there; and for nothing, what the template builds. */
  function NewSource(row: Row, req: UpdateRequest): string {
    var sent := if req.source.Some? then req.source.value
                else if NewKind(row, req) != row.kind && NewKind(row, req) != Python then ""
                else row.source;
    if Blank(sent) then req.built else sent
  }

  /** Whether there is a source at all: only a Python source has no template. */
  predicate HasSource(row: Row, req: UpdateRequest) {
    NewKind(row, req) != Python || !Blank(if req.source.Some? then req.source.value else row.source)
  }

  /** Whether the source is validated: it was sent, its kind changes, or it has to be built. */
  predicate IsValidated(row: Row, req: UpdateRequest) {
    req.source.Some? || NewKind(row, req) != row.kind || (NewKind(row, req) != Python && Blank(row.source))
  }

  /** What makes an update touch the loader. */
  predicate CallsForReload(row: Row, req: UpdateRequest) {
    || req.config.Some?
    || (req.slug.Some? && req.slug.value != row.slug)
    || (req.enabled.Some? && req.enabled.value != row.enabled)
    || NewKind(row, req) != row.kind
    || (IsValidated(row, req) && NewSource(row, req) != row.source)
  }

  /** An update goes through exactly when the source exists and is not locked, its new slug is valid and
      not another's, there is a source, and it is valid where it has to be. */
  lemma UpdateAcceptedIff(st: State, id: Id, req: UpdateRequest, v: Verdict)
    ensures UpdateSpec(st, id, req, v).1 == Done <==>
              && id in st.rows
              && (st.rows[id].isSystem ==> req.unlockSystem)
              && (req.slug.Some? ==>
                    Slug.ValidSlug(req.slug.value)
                    && (req.slug.value == st.rows[id].slug || !TakenByOther(st, id, req.slug.value)))
              && HasSource(st.rows[id], req)
              && (IsValidated(st.rows[id], req) ==> v.found.Some?)
    ensures UpdateSpec(st, id, req, v).1 != Done ==> UpdateSpec(st, id, req, v).0 == st
  {
    if id in st.rows && req.slug.Some? {
      if SlugFree(st, req.slug.value, Some(id)) {
        assert !TakenByOther(st, id, req.slug.value);
      } else {
        var k :| k in st.rows && Some(k) != Some(id) && st.rows[k].slug == req.slug.value;
        assert TakenByOther(st, id, req.slug.value);
      }
    }
  }

  /** What the row says after an accepted update: every field requested is as requested, every other as
      it was. */
  lemma UpdateStores(st: State, id: Id, req: UpdateRequest, v: Verdict)
    requires UpdateSpec(st, id, req, v).1 == Done
    ensures id in st.rows && id in UpdateSpec(st, id, req, v).0.rows
    ensures var before, row := st.rows[id], UpdateSpec(st, id, req, v).0.rows[id];
            && row.slug == (if req.slug.Some? then req.slug.value else before.slug)
            && row.kind == (if req.kind.Some? then req.kind.value else before.kind)
            && row.config == (if req.config.Some? then req.config.value else before.config)
            && row.enabled == (if req.enabled.Some? then req.enabled.value else before.enabled)
            && row.isSystem == before.isSystem
  {
  }

  /** And its source, version and class name. */
  lemma UpdateSources(st: State, id: Id, req: UpdateRequest, v: Verdict)
    requires UpdateSpec(st, id, req, v).1 == Done
    ensures id in st.rows && id in UpdateSpec(st, id, req, v).0.rows
    ensures var before, row := st.rows[id], UpdateSpec(st, id, req, v).0.rows[id];
            && row.source == (if IsValidated(before, req) then NewSource(before, req) else before.source)
            && row.version == (if row.source != before.source then before.version + 1 else before.version)
            && row.className == (if CallsForReload(before, req) && row.enabled && v.loadsAs.Some? then v.loadsAs
                                 else if IsValidated(before, req) then v.found else before.className)
  {
  }

  /** What the loader holds after an accepted update, and what the row says of it. */
  lemma UpdateLoads(st: State, id: Id, req: UpdateRequest, v: Verdict)
    requires UpdateSpec(st, id, req, v).1 == Done
    ensures id in st.rows && id in UpdateSpec(st, id, req, v).0.rows
    ensures var n := UpdateSpec(st, id, req, v).0;
            var before, row := st.rows[id], n.rows[id];
            && Only(st, n, id, {before.slug, row.slug}) && n.tombstones == st.tombstones
            && (row.slug != before.slug ==> before.slug !in n.runtimes)
            && (if !CallsForReload(before, req) then n.runtimes == st.runtimes && row.status == before.status
                else if !row.enabled then row.slug !in n.runtimes && row.status == Unloaded
                else if v.loadsAs.Some? then
                  row.slug in n.runtimes && n.runtimes[row.slug] == Runtime(row.source, row.config, v.loadsAs.value)
                  && row.status == Loaded
                else
                  row.status == Failed
                  && (row.slug in n.runtimes <==> row.slug in st.runtimes)
                  && (row.slug in st.runtimes ==> n.runtimes[row.slug] == st.runtimes[row.slug]))
  {
  }

  // ---------------------------------------------------------------------------
  // Reloading, deleting and refreshing
  // ---------------------------------------------------------------------------

  lemma ReloadLoads(st: State, id: Id, v: Verdict)
    requires id in st.rows
    ensures var (n, outcome) := ReloadSpec(st, id, v);
            var row := st.rows[id];
            && Only(st, n, id, {row.slug}) && id in n.rows
            && (if !row.enabled then outcome == Done && n.rows[id] == row.(status := Unloaded) && row.slug !in n.runtimes
                else if v.loadsAs.Some? then
                  outcome == Done && n.rows[id] == row.(status := Loaded, className := v.loadsAs)
                  && row.slug in n.runtimes && n.runtimes[row.slug] == Runtime(row.source, row.config, v.loadsAs.value)
                else outcome == BadRequest && n.rows[id] == row.(status := Failed) && n.runtimes == st.runtimes)
  {
  }

  lemma DeleteForgets(st: State, id: Id)
    requires id in st.rows
    ensures var (n, outcome) := DeleteSpec(st, id);
            var row := st.rows[id];
            && outcome == Done && Only(st, n, id, {row.slug}) && id !in n.rows && row.slug !in n.runtimes
            && (forall slug :: slug in n.tombstones <==> slug in st.tombstones || (row.isSystem && slug == row.slug))
  {
  }

  /** After a refresh an enabled source that loads says so, with a runtime of its own; one that does not
      says error and keeps the runtime it had; a disabled one says unloaded and has none. */
  lemma RefreshLoads(st: State, loads: map<Id, string>, n: State, id: Id)
    requires Refreshed(st, loads, n) && id in st.rows
    ensures id in n.rows
    ensures var row, now := st.rows[id], n.rows[id];
            if !row.enabled then now == row.(status := Unloaded) && row.slug !in n.runtimes
            else if id in loads then
              now == row.(status := Loaded, className := Some(loads[id]))
              && row.slug in n.runtimes && n.runtimes[row.slug] == Runtime(row.source, row.config, loads[id])
            else
              now == row.(status := Failed)
              && (row.slug in n.runtimes <==> row.slug in st.runtimes)
              && (row.slug in st.runtimes ==> n.runtimes[row.slug] == st.runtimes[row.slug])
  {
    assert RefreshedRuntime(st.rows[id], LoadsAs(loads, id), st.runtimes, n.runtimes);
  }

  // ---------------------------------------------------------------------------
  // Running and previewing
  // ---------------------------------------------------------------------------

  /** The runtime a run or a preview works with: the one there is, else a new one of the row's own. */
  ghost predicate WorksWith(st: State, n: State, row: Row, v: Verdict) {
    if row.slug in st.runtimes then n.runtimes == st.runtimes
    else if v.loadsAs.Some? then
      row.slug in n.runtimes && n.runtimes[row.slug] == Runtime(row.source, row.config, v.loadsAs.value)
    else n.runtimes == st.runtimes
  }

  lemma RunStartLoads(st: State, id: Id, v: Verdict)
    ensures var (n, outcome) := RunStartsSpec(st, id, v);
            && outcome == (if id !in st.rows then NotFound else if !st.rows[id].enabled then BadRequest else Done)
            && n.rows == st.rows && n.tombstones == st.tombstones
            && (outcome != Done ==> n == st)
            && (outcome == Done ==> WorksWith(st, n, st.rows[id], v) && Only(st, n, id, {st.rows[id].slug}))
  {
  }

  /** A run's end writes one of two statuses, and nothing else, to a row that is still there. */
  lemma RunEndStores(st: State, id: Id, fetches: bool)
    ensures var (n, outcome) := RunEndsSpec(st, id, fetches);
            && n.runtimes == st.runtimes && n.tombstones == st.tombstones && Only(st, n, id, {})
            && (id !in st.rows ==> n == st && outcome == Errored)
            && (id in st.rows ==>
                  var ok := fetches && st.rows[id].enabled;
                  id in n.rows && n.rows[id] == st.rows[id].(status := if ok then Loaded else Failed)
                  && outcome == (if ok then Done else Errored))
  {
  }

  lemma RunStores(st: State, id: Id, v: Verdict, fetches: bool)
    requires id in st.rows && st.rows[id].enabled
    ensures var (n, outcome) := RunSpec(st, id, v, fetches);
            var row := st.rows[id];
            var ok := fetches && (row.slug in st.runtimes || v.loadsAs.Some?);
            && WorksWith(st, n, row, v) && Only(st, n, id, {row.slug}) && id in n.rows
            && n.rows[id] == row.(status := if ok then Loaded else Failed)
            && outcome == (if ok then Done else Errored)
  {
  }

  /** A preview writes nothing to the table. */
  lemma PreviewLoads(st: State, id: Id, v: Verdict, fetches: bool)
    ensures var (n, outcome) := PreviewSpec(st, id, v, fetches);
            && n.rows == st.rows && n.tombstones == st.tombstones
            && (id !in st.rows ==> n == st && outcome == NotFound)
            && (id in st.rows ==>
                  var row := st.rows[id];
                  && WorksWith(st, n, row, v) && Only(st, n, id, {row.slug})
                  && outcome == (if row.slug !in st.runtimes && v.loadsAs == None then BadRequest
                                 else if fetches then Done else Errored))
  {
  }
}
