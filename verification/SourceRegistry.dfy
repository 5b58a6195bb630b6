/** The registry of data sources (backend/api/routes_data_sources.py) and the loader's runtime
    map (backend/services/data_source_loader.py, backend/services/data_source_runner.py). */
module SourceRegistry {
  import opened Wrappers
  import Slug

  type Id = string
  type Json = map<string, string>

  datatype Kind = Python | Rss | RestApi | Twitter

  datatype Status = Unloaded | Loaded | Failed

  datatype Row = Row(slug: string, kind: Kind, source: string, className: Option<string>, config: Json,
                     isSystem: bool, enabled: bool, status: Status, version: nat)

  datatype Runtime = Runtime(source: string, config: Json, className: string)

  datatype State = State(rows: map<Id, Row>, runtimes: map<string, Runtime>, tombstones: set<string>)

  const EMPTY: State := State(map[], map[], {})

  /** `Errored`: a run that reports an error result, or a preview whose fetch raised. */
  datatype Outcome = Done | NotFound | Forbidden | BadRequest | SlugTaken | Errored

  /** What validation finds in the source at hand, and the class a load of it ends with, if it does. */
  datatype Verdict = Verdict(found: Option<string>, loadsAs: Option<string>)

  /** `built` is the source the template of a templated kind would produce. */
  datatype CreateRequest = CreateRequest(slug: string, kind: Kind, source: string, built: string, config: Json, enabled: bool)

  datatype UpdateRequest = UpdateRequest(
    unlockSystem: bool, slug: Option<string>, kind: Option<Kind>, source: Option<string>, built: string,
    config: Option<Json>, enabled: Option<bool>)

  datatype Op =
    | Create(id: Id, create: CreateRequest, verdict: Verdict)
    | Update(id: Id, update: UpdateRequest, verdict: Verdict)
    | Delete(id: Id)
    | Reload(id: Id, verdict: Verdict)
    | RunStarts(id: Id, verdict: Verdict)
    | RunEnds(id: Id, fetches: bool)                     // fetches: everything from the load on went well
    | Run(id: Id, verdict: Verdict, fetches: bool)       // a run with nothing in between
    | Preview(id: Id, verdict: Verdict, fetches: bool)

  // ---------------------------------------------------------------------------
  // Specification
  // ---------------------------------------------------------------------------

  function Or<T>(o: Option<T>, default: T): T { if o.Some? then o.value else default }

  /** `not s.strip()`. */
  predicate Blank(s: string) { forall i :: 0 <= i < |s| ==> IsSpace(s[i]) }

  predicate SlugFree(st: State, slug: string, except: Option<Id>) {
    forall id :: id in st.rows && Some(id) != except ==> st.rows[id].slug != slug
  }

  /** `_resolve_source_code_for_kind`. */
  function Resolve(kind: Kind, source: string, built: string): Option<string> {
    if !Blank(source) then Some(source) else if kind.Python? then None else Some(built)
  }

  /** `load`: a source that does not load leaves the map as it was. */
  function Load(runtimes: map<string, Runtime>, row: Row, loadsAs: Option<string>): map<string, Runtime> {
    if loadsAs.Some? then runtimes[row.slug := Runtime(row.source, row.config, loadsAs.value)] else runtimes
  }

  function LoadedRow(row: Row, loadsAs: Option<string>): Row {
    if loadsAs.Some? then row.(status := Loaded, className := loadsAs) else row.(status := Failed)
  }

  function CreateSpec(st: State, id: Id, req: CreateRequest, v: Verdict): (State, Outcome) {
    var source := Resolve(req.kind, req.source, req.built);
    if !Slug.ValidSlug(req.slug) || source == None || v.found == None then (st, BadRequest)
    else if !SlugFree(st, req.slug, None) then (st, SlugTaken)
    else
      var row := Row(req.slug, req.kind, source.value, v.found, req.config, false, req.enabled, Unloaded, 1);
      if !req.enabled then (st.(rows := st.rows[id := row]), Done)
      else
        (st.(rows := st.rows[id := row.(status := if v.loadsAs.Some? then Loaded else Failed)],
             runtimes := Load(st.runtimes, row, v.loadsAs)), Done)
  }

  predicate KindChanged(row: Row, req: UpdateRequest) { req.kind.Some? && req.kind.value != row.kind }

  /** The source an update works with, before templates. */
  function SourceInput(row: Row, req: UpdateRequest): string {
    if req.source.Some? then req.source.value
    else if KindChanged(row, req) && !Or(req.kind, row.kind).Python? then ""
    else row.source
  }

  predicate Validates(row: Row, req: UpdateRequest) {
    req.source.Some? || KindChanged(row, req) || (!Or(req.kind, row.kind).Python? && Blank(row.source))
  }

  function CheckSlug(st: State, id: Id, req: UpdateRequest): Outcome
    requires id in st.rows
  {
    if req.slug == None then Done
    else if !Slug.ValidSlug(req.slug.value) then BadRequest
    else if req.slug.value != st.rows[id].slug && !SlugFree(st, req.slug.value, Some(id)) then SlugTaken
    else Done
  }

  function CheckSource(row: Row, req: UpdateRequest, v: Verdict): Outcome {
    if Resolve(Or(req.kind, row.kind), SourceInput(row, req), req.built) == None then BadRequest
    else if Validates(row, req) && v.found == None then BadRequest
    else Done
  }

  /** Why an update is turned away, `Done` if it is not. */
  function Check(st: State, id: Id, req: UpdateRequest, v: Verdict): Outcome {
    if id !in st.rows then NotFound
    else if st.rows[id].isSystem && !req.unlockSystem then Forbidden
    else if CheckSlug(st, id, req) != Done then CheckSlug(st, id, req)
    else CheckSource(st.rows[id], req, v)
  }

  /** The row with the requested fields, before loading. */
  function Edited(row: Row, req: UpdateRequest, v: Verdict): Row {
    var kind := Or(req.kind, row.kind);
    var resolved := Or(Resolve(kind, SourceInput(row, req), req.built), row.source);
    var source := if Validates(row, req) then resolved else row.source;
    row.(slug := Or(req.slug, row.slug), kind := kind, source := source,
         className := if Validates(row, req) then v.found else row.className,
         config := Or(req.config, row.config), enabled := Or(req.enabled, row.enabled),
         version := if source != row.source then row.version + 1 else row.version)
  }

  predicate NeedsReload(row: Row, edited: Row, req: UpdateRequest) {
    edited.slug != row.slug || edited.source != row.source || edited.kind != row.kind
    || edited.enabled != row.enabled || req.config.Some?
  }

  function UpdateSpec(st: State, id: Id, req: UpdateRequest, v: Verdict): (State, Outcome) {
    var outcome := Check(st, id, req, v);
    if outcome != Done then (st, outcome)
    else
      var before := st.rows[id];
      var row := Edited(before, req, v);
      if !NeedsReload(before, row, req) then (st.(rows := st.rows[id := row]), Done)
      else
        var runtimes := if row.slug != before.slug then st.runtimes - {before.slug} else st.runtimes;
        if row.enabled then
          (st.(rows := st.rows[id := LoadedRow(row, v.loadsAs)], runtimes := Load(runtimes, row, v.loadsAs)), Done)
        else
          (st.(rows := st.rows[id := row.(status := Unloaded)], runtimes := runtimes - {row.slug}), Done)
  }

  function DeleteSpec(st: State, id: Id): (State, Outcome) {
    if id !in st.rows then (st, NotFound)
    else
      var row := st.rows[id];
      (State(st.rows - {id}, st.runtimes - {row.slug}, if row.isSystem then st.tombstones + {row.slug} else st.tombstones), Done)
  }

  function ReloadSpec(st: State, id: Id, v: Verdict): (State, Outcome) {
    if id !in st.rows then (st, NotFound)
    else
      var row := st.rows[id];
      if !row.enabled then
        (st.(rows := st.rows[id := row.(status := Unloaded)], runtimes := st.runtimes - {row.slug}), Done)
      else
        (st.(rows := st.rows[id := LoadedRow(row, v.loadsAs)], runtimes := Load(st.runtimes, row, v.loadsAs)),
         if v.loadsAs.Some? then Done else BadRequest)
  }

  /** The runtimes after a load on demand: a slug that has a runtime keeps it, whatever it is of. */
  function LoadMissing(runtimes: map<string, Runtime>, row: Row, loadsAs: Option<string>): map<string, Runtime> {
    if row.slug in runtimes then runtimes else Load(runtimes, row, loadsAs)
  }

  /** A run up to its fetch: an enabled source gets a runtime if it has none. */
  function RunStartsSpec(st: State, id: Id, v: Verdict): (State, Outcome) {
    if id !in st.rows then (st, NotFound)
    else if !st.rows[id].enabled then (st, BadRequest)
    else (st.(runtimes := LoadMissing(st.runtimes, st.rows[id], v.loadsAs)), Done)
  }

  /** What a run writes after its fetch, to whatever has become of the row: loaded if all went well
      and the source is still enabled, else failed. */
  function RunEndsSpec(st: State, id: Id, fetches: bool): (State, Outcome) {
    if id !in st.rows then (st, Errored)
    else
      var row := st.rows[id];
      var ok := row.enabled && fetches;
      (st.(rows := st.rows[id := row.(status := if ok then Loaded else Failed)]), if ok then Done else Errored)
  }

  /** A run with nothing in between. A load that fails is an error result like any other. */
  function RunSpec(st: State, id: Id, v: Verdict, fetches: bool): (State, Outcome) {
    var (mid, outcome) := RunStartsSpec(st, id, v);
    if outcome != Done then (mid, outcome) else RunEndsSpec(mid, id, fetches && mid.rows[id].slug in mid.runtimes)
  }

  /** A preview does not ask whether the source is enabled and writes no status. */
  function PreviewSpec(st: State, id: Id, v: Verdict, fetches: bool): (State, Outcome) {
    if id !in st.rows then (st, NotFound)
    else
      var row := st.rows[id];
      var runtimes := LoadMissing(st.runtimes, row, v.loadsAs);
      (st.(runtimes := runtimes),
       if row.slug !in runtimes then BadRequest else if fetches then Done else Errored)
  }

  function Apply(st: State, op: Op): (State, Outcome) {
    match op
    case Create(id, req, v) => CreateSpec(st, id, req, v)
    case Update(id, req, v) => UpdateSpec(st, id, req, v)
    case Delete(id) => DeleteSpec(st, id)
    case Reload(id, v) => ReloadSpec(st, id, v)
    case RunStarts(id, v) => RunStartsSpec(st, id, v)
    case RunEnds(id, fetches) => RunEndsSpec(st, id, fetches)
    case Run(id, v, fetches) => RunSpec(st, id, v, fetches)
    case Preview(id, v, fetches) => PreviewSpec(st, id, v, fetches)
  }

  // ---------------------------------------------------------------------------
  // Registry and runtimes agree
  // ---------------------------------------------------------------------------

  predicate Apart(st: State, i: Id, j: Id)
    requires i in st.rows && j in st.rows
  {
    i == j || st.rows[i].slug != st.rows[j].slug
  }

  /** The unique constraint on the slug column. */
  ghost predicate UniqueSlugs(st: State) {
    forall i, j {:trigger Apart(st, i, j)} :: i in st.rows && j in st.rows ==> Apart(st, i, j)
  }

  /** A disabled row, and no other, is unloaded and has no runtime; a loaded row has one. */
  predicate RowSound(st: State, id: Id)
    requires id in st.rows
  {
    var row := st.rows[id];
    && (row.status.Unloaded? <==> !row.enabled)
    && (row.status.Unloaded? ==> row.slug !in st.runtimes)
    && (row.status.Loaded? ==> row.slug in st.runtimes)
  }

  /** The runtime was made from the row's source and configuration. */
  predicate Of(runtime: Runtime, row: Row) { runtime.source == row.source && runtime.config == row.config }

  /** A loaded row that has a runtime has one of its own source and configuration. */
  predicate RowOwn(st: State, id: Id)
    requires id in st.rows
  {
    var row := st.rows[id];
    row.status.Loaded? && row.slug in st.runtimes ==> Of(st.runtimes[row.slug], row)
  }

  ghost predicate Owned(st: State, slug: string) { exists id :: id in st.rows && st.rows[id].slug == slug }

  ghost predicate Sound(st: State) {
    && UniqueSlugs(st)
    && (forall id {:trigger RowSound(st, id)} :: id in st.rows ==> RowSound(st, id))
    && (forall slug {:trigger Owned(st, slug)} :: slug in st.runtimes ==> Owned(st, slug))
  }

  ghost predicate Own(st: State) {
    forall id {:trigger RowOwn(st, id)} :: id in st.rows ==> RowOwn(st, id)
  }

  // ---------------------------------------------------------------------------
  // Refreshing everything from the table
  // ---------------------------------------------------------------------------

  /** The row a refresh leaves, given what each enabled row loads as. */
  function RefreshedRow(row: Row, loadsAs: Option<string>): Row {
    if row.enabled then LoadedRow(row, loadsAs) else row.(status := Unloaded)
  }

  function LoadsAs(loads: map<Id, string>, id: Id): Option<string> { if id in loads then Some(loads[id]) else None }

  predicate SameRuntime(a: map<string, Runtime>, b: map<string, Runtime>, slug: string) {
    (slug in a <==> slug in b) && (slug in a ==> a[slug] == b[slug])
  }

  /** The runtime a refresh leaves for a row: a new one if it loads, the one it had if it is enabled
      but does not load, none if it is disabled. */
  predicate RefreshedRuntime(row: Row, loadsAs: Option<string>, was: map<string, Runtime>, now: map<string, Runtime>) {
    if !row.enabled then row.slug !in now
    else if loadsAs.Some? then row.slug in now && now[row.slug] == Runtime(row.source, row.config, loadsAs.value)
    else SameRuntime(was, now, row.slug)
  }

  /** What `refresh_all_from_db` leaves behind. */
  ghost predicate Refreshed(st: State, loads: map<Id, string>, n: State) {
    && n.tombstones == st.tombstones
    && n.rows == (map id | id in st.rows :: RefreshedRow(st.rows[id], LoadsAs(loads, id)))
    && (forall id :: id in st.rows ==> RefreshedRuntime(st.rows[id], LoadsAs(loads, id), st.runtimes, n.runtimes))
    && (forall slug {:trigger Owned(st, slug)} :: slug in n.runtimes ==> Owned(st, slug))
  }

  /** `DataSourceLoader` over the table, with the handlers' effects on both. */
  class Registry {
    var rows: map<Id, Row>
    var runtimes: map<string, Runtime>
    var tombstones: set<string>

    ghost function View(): State
      reads this
    {
      State(rows, runtimes, tombstones)
    }

    constructor ()
      ensures View() == EMPTY
    {
      rows, runtimes, tombstones := map[], map[], {};
    }

    /** `data_source_loader.load`. */
    method LoadSource(slug: string, source: string, config: Json, loadsAs: Option<string>) returns (ok: bool)
      modifies this`runtimes
      ensures ok == loadsAs.Some?
      ensures runtimes == if ok then old(runtimes)[slug := Runtime(source, config, loadsAs.value)] else old(runtimes)
    {
      if loadsAs == None {
        return false;
      }
      runtimes := runtimes[slug := Runtime(source, config, loadsAs.value)];
      return true;
    }

    /** `data_source_loader.unload`. */
    method Unload(slug: string)
      modifies this`runtimes
      ensures runtimes == old(runtimes) - {slug}
    {
      runtimes := runtimes - {slug};
    }

    method CreateSource(id: Id, req: CreateRequest, v: Verdict) returns (outcome: Outcome)
      modifies this
      ensures (View(), outcome) == CreateSpec(old(View()), id, req, v)
    {
      if !Slug.ValidSlug(req.slug) {
        return BadRequest;
      }
      var source := req.source;
      if Blank(source) && !req.kind.Python? {
        source := req.built;
      } else if Blank(source) {
        return BadRequest;
      }
      if v.found == None {
        return BadRequest;
      }
      if exists k :: k in rows && rows[k].slug == req.slug {
        return SlugTaken;
      }
      var status := Unloaded;
      if req.enabled {
        var ok := LoadSource(req.slug, source, req.config, v.loadsAs);
        status := if ok then Loaded else Failed;
      }
      rows := rows[id := Row(req.slug, req.kind, source, v.found, req.config, false, req.enabled, status, 1)];
      return Done;
    }

    method NextSlug(id: Id, req: UpdateRequest) returns (outcome: Outcome, slug: string)
      requires id in rows
      ensures outcome == CheckSlug(View(), id, req)
      ensures outcome == Done ==> slug == Or(req.slug, rows[id].slug)
    {
      slug := rows[id].slug;
      if req.slug.Some? {
        var nextSlug := req.slug.value;
        if !Slug.ValidSlug(nextSlug) {
          return BadRequest, slug;
        }
        if nextSlug != slug {
          if exists k :: k in rows && k != id && rows[k].slug == nextSlug {
            return SlugTaken, slug;
          }
          slug := nextSlug;
        }
      }
      outcome := Done;
    }

    /** The source, version and class name an update ends with. */
    static method NextSource(row: Row, req: UpdateRequest, v: Verdict)
      returns (outcome: Outcome, source: string, version: nat, className: Option<string>)
      ensures outcome == CheckSource(row, req, v)
      ensures outcome == Done ==> var e := Edited(row, req, v);
                                  source == e.source && version == e.version && className == e.className
    {
      source, version, className := row.source, row.version, row.className;
      var kind := row.kind;
      if req.kind.Some? {
        kind := req.kind.value;
      }
      var kindChanged := kind != row.kind;
      var sourceInput := source;
      if req.source.Some? {
        sourceInput := req.source.value;
      } else if kindChanged && !kind.Python? {
        sourceInput := "";
      }
      var resolved := Resolve(kind, sourceInput, req.built);
      if resolved == None {
        return BadRequest, source, version, className;
      }
      if req.source.Some? || kindChanged || (!kind.Python? && Blank(source)) {
        if v.found == None {
          return BadRequest, source, version, className;
        }
        if source != resolved.value {
          source, version := resolved.value, version + 1;
        }
        className := v.found;
      }
      outcome := Done;
    }

    /** The checks and field-by-field edits of an update, and whether the runtime has to follow. */
    method EditRow(id: Id, req: UpdateRequest, v: Verdict) returns (outcome: Outcome, row: Row, reload: bool)
      requires id in rows
      ensures outcome == Check(View(), id, req, v)
      ensures outcome == Done ==> row == Edited(rows[id], req, v) && reload == NeedsReload(rows[id], row, req)
    {
      row := rows[id];
      reload := false;
      if row.isSystem && !req.unlockSystem {
        return Forbidden, row, false;
      }
      var slug, source, version, className;
      outcome, slug := NextSlug(id, req);
      if outcome != Done {
        return;
      }
      outcome, source, version, className := NextSource(row, req, v);
      if outcome != Done {
        return;
      }
      row := row.(slug := slug, kind := Or(req.kind, row.kind), source := source, version := version,
                  className := className, config := Or(req.config, row.config), enabled := Or(req.enabled, row.enabled));
      reload := slug != rows[id].slug || req.config.Some? || source != rows[id].source
                || row.kind != rows[id].kind || row.enabled != rows[id].enabled;
    }

    method UpdateSource(id: Id, req: UpdateRequest, v: Verdict) returns (outcome: Outcome)
      modifies this
      ensures (View(), outcome) == UpdateSpec(old(View()), id, req, v)
    {
      if id !in rows {
        return NotFound;
      }
      var originalSlug := rows[id].slug;
      var row, reload;
      outcome, row, reload := EditRow(id, req, v);
      if outcome != Done {
        return;
      }
      if reload {
        if row.slug != originalSlug {
          Unload(originalSlug);
        }
        if row.enabled {
          var ok := LoadSource(row.slug, row.source, row.config, v.loadsAs);
          if ok {
            row := row.(className := v.loadsAs, status := Loaded);
          } else {
            row := row.(status := Failed);
          }
        } else {
          Unload(row.slug);
          row := row.(status := Unloaded);
        }
      }
      rows := rows[id := row];
    }

    method DeleteSource(id: Id) returns (outcome: Outcome)
      modifies this
      ensures (View(), outcome) == DeleteSpec(old(View()), id)
    {
      if id !in rows {
        return NotFound;
      }
      var slug := rows[id].slug;
      if rows[id].isSystem {
        tombstones := tombstones + {slug};
      }
      Unload(slug);
      rows := rows - {id};
      return Done;
    }

    method ReloadSource(id: Id, v: Verdict) returns (outcome: Outcome)
      modifies this
      ensures (View(), outcome) == ReloadSpec(old(View()), id, v)
    {
      if id !in rows {
        return NotFound;
      }
      var row := rows[id];
      if !row.enabled {
        Unload(row.slug);
        rows := rows[id := row.(status := Unloaded)];
        return Done;
      }
      var ok := LoadSource(row.slug, row.source, row.config, v.loadsAs);
      if ok {
        rows := rows[id := row.(status := Loaded, className := v.loadsAs)];
        return Done;
      }
      rows := rows[id := row.(status := Failed)];
      return BadRequest;
    }

    /** `run_data_source` up to its fetch; `ok` if there is a runtime to fetch with. */
    method StartRun(id: Id, v: Verdict) returns (outcome: Outcome, ok: bool)
      modifies this`runtimes
      ensures (View(), outcome) == RunStartsSpec(old(View()), id, v)
      ensures outcome == Done ==> (ok <==> rows[id].slug in runtimes)
    {
      ok := false;
      if id !in rows {
        return NotFound, ok;
      }
      var row := rows[id];
      if !row.enabled {
        return BadRequest, ok;
      }
      ok := true;
      if row.slug !in runtimes {
        ok := LoadSource(row.slug, row.source, row.config, v.loadsAs);
      }
      outcome := Done;
    }

    /** `run_data_source` after its fetch: the writeback, or the error path. */
    method EndRun(id: Id, fetches: bool) returns (outcome: Outcome)
      modifies this`rows
      ensures (View(), outcome) == RunEndsSpec(old(View()), id, fetches)
    {
      if id !in rows {
        return Errored;
      }
      var row := rows[id];
      if fetches && row.enabled {
        rows := rows[id := row.(status := Loaded)];
        return Done;
      }
      rows := rows[id := row.(status := Failed)];
      return Errored;
    }

    method RunSource(id: Id, v: Verdict, fetches: bool) returns (outcome: Outcome)
      modifies this`runtimes, this`rows
      ensures (View(), outcome) == RunSpec(old(View()), id, v, fetches)
    {
      var ok;
      outcome, ok := StartRun(id, v);
      if outcome == Done {
        outcome := EndRun(id, ok && fetches);
      }
    }

    /** `preview_data_source`. */
    method PreviewSource(id: Id, v: Verdict, fetches: bool) returns (outcome: Outcome)
      modifies this`runtimes
      ensures (View(), outcome) == PreviewSpec(old(View()), id, v, fetches)
    {
      if id !in rows {
        return NotFound;
      }
      var row := rows[id];
      if row.slug !in runtimes {
        var ok := LoadSource(row.slug, row.source, row.config, v.loadsAs);
        if !ok {
          return BadRequest;
        }
      }
      return if fetches then Done else Errored;
    }

    /** `refresh_all_from_db`: every row loaded or unloaded, then the runtimes of no row dropped. */
    method RefreshAll(loads: map<Id, string>)
      requires UniqueSlugs(View())
      modifies this
      ensures Refreshed(old(View()), loads, View())
    {
      ghost var st := View();
      RefreshRows(loads);
      DropOrphans();
      forall slug | slug in runtimes ensures Owned(st, slug) { assert Owned(View(), slug); }
      rows := map id | id in rows :: RefreshedRow(rows[id], LoadsAs(loads, id));
    }

    method RefreshRows(loads: map<Id, string>)
      requires UniqueSlugs(View())
      modifies this`runtimes
      ensures forall id :: id in rows ==> RefreshedRuntime(rows[id], LoadsAs(loads, id), old(runtimes), runtimes)
    {
      ghost var before := runtimes;
      var todo := rows.Keys;
      while todo != {}
        invariant todo <= rows.Keys
        invariant forall id :: id in rows && id !in todo ==>
                    RefreshedRuntime(rows[id], LoadsAs(loads, id), before, runtimes)
        invariant forall id :: id in todo ==> SameRuntime(before, runtimes, rows[id].slug)
      {
        var id :| id in todo;
        forall k | k in rows ensures k == id || rows[k].slug != rows[id].slug { assert Apart(View(), k, id); }
        ghost var was := runtimes;
        RefreshRow(rows[id], LoadsAs(loads, id));
        forall k | k in rows && k != id ensures SameRuntime(was, runtimes, rows[k].slug) { }
        todo := todo - {id};
      }
    }

    method RefreshRow(row: Row, loadsAs: Option<string>)
      modifies this`runtimes
      ensures RefreshedRuntime(row, loadsAs, old(runtimes), runtimes)
      ensures forall slug :: slug != row.slug ==> SameRuntime(old(runtimes), runtimes, slug)
    {
      if !row.enabled {
        Unload(row.slug);
      } else {
        var _ := LoadSource(row.slug, row.source, row.config, loadsAs);
      }
    }

    method DropOrphans()
      modifies this`runtimes
      ensures forall slug {:trigger Owned(View(), slug)} :: slug in runtimes ==> Owned(View(), slug)
      ensures forall id :: id in rows ==> SameRuntime(old(runtimes), runtimes, rows[id].slug)
    {
      var active := set id | id in rows :: rows[id].slug;
      var left := runtimes.Keys;
      while left != {}
        invariant forall slug :: slug in runtimes && slug !in left ==> slug in active
        invariant forall slug :: slug in active ==> SameRuntime(old(runtimes), runtimes, slug)
      {
        var slug :| slug in left;
        if slug !in active {
          Unload(slug);
        }
        left := left - {slug};
      }
    }
  }
}
