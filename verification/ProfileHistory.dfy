/** Versioned discovery profiles (backend/api/routes_discovery_profiles.py): a live row, an
    append-only list of snapshots with one number each (backend/models/database.py), and the
    loader's runtimes (backend/services/discovery_profile_loader.py). */
module ProfileHistory {
  import opened Wrappers
  import Slug

  type Id = string
  type Json = map<string, string>

  /** What restoring a snapshot brings back. */
  datatype Body = Body(name: string, description: Option<string>, source: string, className: Option<string>,
                       config: Json, schema: Json, kind: string)

  datatype Status = Unloaded | Loaded | Failed

  datatype Row = Row(slug: string, body: Body, enabled: bool, isSystem: bool, sortOrder: int,
                     version: nat, isActive: bool, status: Status)

  datatype Snapshot = Snapshot(slug: string, body: Body, enabled: bool, isSystem: bool, sortOrder: int,
                               version: nat, isLatest: bool, parent: Option<nat>)

  /** What the loader compiled: a source and the overrides it was configured with. */
  datatype Runtime = Runtime(source: string, config: Json)

  /** The two tables (snapshots by profile, in order of insertion) and the loader's memory. */
  datatype State = State(rows: map<Id, Row>, snaps: map<Id, seq<Snapshot>>,
                         loaded: map<string, Runtime>, activeSlug: Option<string>)

  const EMPTY: State := State(map[], map[], map[], None)

  /** `Refused`: the commit failed on the (profile, version) constraint and was rolled back.
      `Ambiguous`: several snapshots carry the version asked for. */
  datatype Outcome = Done | NotFound | BadRequest | SlugTaken | Refused | Ambiguous

  /** What validating and loading the source at hand comes to: the class found, if valid, and
      whether it then loads. */
  datatype Verdict = Verdict(found: Option<string>, loads: bool)

  datatype CreateRequest = CreateRequest(slug: string, body: Body, enabled: bool)

  datatype UpdateRequest = UpdateRequest(
    name: Option<string>, description: Option<string>, source: Option<string>, config: Option<Json>,
    schema: Option<Json>, enabled: Option<bool>, kind: Option<string>)

  datatype Op =
    | Create(id: Id, create: CreateRequest, verdict: Verdict)
    | Update(id: Id, update: UpdateRequest, verdict: Verdict)
    | Restore(id: Id, version: nat, verdict: Verdict)
    | Activate(id: Id)
    | Reload(id: Id, verdict: Verdict)
    | Delete(id: Id)

  // ---------------------------------------------------------------------------
  // Specification
  // ---------------------------------------------------------------------------

  function Or<T>(o: Option<T>, default: T): T { if o.Some? then o.value else default }

  /** `kind or "python"`. */
  predicate Python(kind: string) { kind == "" || kind == "python" }

  function VersionOr1(v: nat): nat { if v == 0 then 1 else v }

  function TakeSnapshot(r: Row, parent: Option<nat>): Snapshot {
    Snapshot(r.slug, r.body, r.enabled, r.isSystem, r.sortOrder, VersionOr1(r.version), true, parent)
  }

  function ClearLatest(s: seq<Snapshot>): (t: seq<Snapshot>)
    ensures |t| == |s| && forall i :: 0 <= i < |s| ==> t[i] == s[i].(isLatest := false)
  {
    seq(|s|, i requires 0 <= i < |s| => s[i].(isLatest := false))
  }

  predicate HasVersion(s: seq<Snapshot>, version: nat) { exists i :: 0 <= i < |s| && s[i].version == version }

  function History(st: State, id: Id): seq<Snapshot> { if id in st.snaps then st.snaps[id] else [] }

  /** Clear the latest flags, add a snapshot of the new row and commit, unless its number is taken. */
  function Commit(st: State, id: Id, row: Row, parent: Option<nat>): (State, Outcome) {
    var snap := TakeSnapshot(row, parent);
    if HasVersion(History(st, id), snap.version) then (st, Refused)
    else (st.(rows := st.rows[id := row], snaps := st.snaps[id := ClearLatest(History(st, id)) + [snap]]), Done)
  }

  /** The loader's `reload`: unload, then load; a failure leaves nothing. */
  function Reloaded(loaded: map<string, Runtime>, row: Row, loads: bool): map<string, Runtime> {
    if loads then loaded[row.slug := Runtime(row.body.source, row.body.config)] else loaded - {row.slug}
  }

  function LoadStatus(loads: bool): Status { if loads then Loaded else Failed }

  predicate SlugFree(st: State, slug: string) { forall id :: id in st.rows ==> st.rows[id].slug != slug }

  function CreateSpec(st: State, id: Id, req: CreateRequest, v: Verdict): (State, Outcome) {
    if !Slug.ValidSlug(req.slug) then (st, BadRequest)
    else if req.body.kind == "python" && v.found == None then (st, BadRequest)
    else if !SlugFree(st, req.slug) then (st, SlugTaken)
    else
      var body := req.body.(className := if req.body.kind == "python" then v.found else None);
      var load := req.enabled && req.body.kind == "python";
      var row := Row(req.slug, body, req.enabled, false, 0, 1, false, if load then LoadStatus(v.loads) else Unloaded);
      var st := if load && v.loads then st.(loaded := st.loaded[req.slug := Runtime(body.source, body.config)]) else st;
      Commit(st, id, row, None)
  }

  predicate SourceChanged(row: Row, req: UpdateRequest) { req.source.Some? && req.source.value != row.body.source }
  predicate ConfigChanged(row: Row, req: UpdateRequest) { req.config.Some? && req.config.value != row.body.config }
  predicate EnabledChanged(row: Row, req: UpdateRequest) { req.enabled.Some? && req.enabled.value != row.enabled }

  /** The kind that decides whether a new source is validated. */
  predicate Validates(row: Row, req: UpdateRequest) {
    SourceChanged(row, req) && (if req.kind.Some? && req.kind.value != "" then req.kind.value else row.body.kind) == "python"
  }

  predicate NeedsReload(row: Row, req: UpdateRequest) {
    SourceChanged(row, req) || ConfigChanged(row, req) || EnabledChanged(row, req)
  }

  predicate NeedsSnapshot(row: Row, req: UpdateRequest) {
    NeedsReload(row, req) || req.schema.Some? || req.name.Some? || req.description.Some? || req.kind.Some?
  }

  /** The row with the requested fields, before loading and numbering. */
  function Edited(row: Row, req: UpdateRequest, found: Option<string>): Row {
    row.(enabled := Or(req.enabled, row.enabled),
         body := Body(Or(req.name, row.body.name),
                      if req.description.Some? then req.description else row.body.description,
                      Or(req.source, row.body.source),
                      if Validates(row, req) then found else row.body.className,
                      Or(req.config, row.body.config),
                      Or(req.schema, row.body.schema),
                      Or(req.kind, row.body.kind)))
  }

  /** The loader after an edit, and the status it leaves on the row. */
  function ReloadEdited(st: State, row: Row, loads: bool): (map<string, Runtime>, Status) {
    if row.enabled && Python(row.body.kind) then (Reloaded(st.loaded, row, loads), LoadStatus(loads))
    else if !row.enabled then (st.loaded - {row.slug}, Unloaded)
    else (st.loaded, row.status)
  }

  function UpdateSpec(st: State, id: Id, req: UpdateRequest, v: Verdict): (State, Outcome) {
    if id !in st.rows then (st, NotFound)
    else
      var before := st.rows[id];
      if Validates(before, req) && v.found == None then (st, BadRequest)
      else
        var prior := VersionOr1(before.version);
        var row := Edited(before, req, v.found);
        var (loaded, status) := if NeedsReload(before, req) then ReloadEdited(st, row, v.loads) else (st.loaded, row.status);
        var row := row.(status := status, version := if SourceChanged(before, req) then prior + 1 else row.version);
        var st := st.(loaded := loaded);
        if NeedsSnapshot(before, req) then Commit(st, id, row, Some(prior))
        else (st.(rows := st.rows[id := row]), Done)
  }

  function Matching(s: seq<Snapshot>, version: nat): seq<Snapshot> {
    if s == [] then [] else (if s[0].version == version then [s[0]] else []) + Matching(s[1..], version)
  }

  function RestoredBody(b: Body): Body { b.(kind := if b.kind == "" then "python" else b.kind) }

  function RestoreSpec(st: State, id: Id, version: nat, v: Verdict): (State, Outcome) {
    if id !in st.rows then (st, NotFound)
    else
      var found := Matching(History(st, id), version);
      if |found| > 1 then (st, Ambiguous)
      else if found == [] then (st, NotFound)
      else
        var prior := VersionOr1(st.rows[id].version);
        var row := st.rows[id].(body := RestoredBody(found[0].body), version := prior + 1);
        var load := row.enabled && Python(row.body.kind);
        var loaded := if load then Reloaded(st.loaded, row, v.loads) else st.loaded - {row.slug};
        var row := row.(status := if load then LoadStatus(v.loads) else Unloaded);
        Commit(st.(loaded := loaded), id, row, Some(prior))
  }

  function ActivateSpec(st: State, id: Id): (State, Outcome) {
    if id !in st.rows then (st, NotFound)
    else (st.(rows := map k | k in st.rows :: st.rows[k].(isActive := k == id), activeSlug := Some(st.rows[id].slug)), Done)
  }

  function ReloadSpec(st: State, id: Id, v: Verdict): (State, Outcome) {
    if id !in st.rows then (st, NotFound)
    else if !st.rows[id].enabled then (st, BadRequest)
    else
      var row := st.rows[id];
      (st.(loaded := Reloaded(st.loaded, row, v.loads), rows := st.rows[id := row.(status := LoadStatus(v.loads))]),
       if v.loads then Done else BadRequest)
  }

  /** Snapshots go with their profile. */
  function DeleteSpec(st: State, id: Id): (State, Outcome) {
    if id !in st.rows then (st, NotFound)
    else (st.(loaded := st.loaded - {st.rows[id].slug}, rows := st.rows - {id}, snaps := st.snaps - {id}), Done)
  }

  function Apply(st: State, op: Op): (State, Outcome) {
    match op
    case Create(id, req, v) => CreateSpec(st, id, req, v)
    case Update(id, req, v) => UpdateSpec(st, id, req, v)
    case Restore(id, version, v) => RestoreSpec(st, id, version, v)
    case Activate(id) => ActivateSpec(st, id)
    case Reload(id, v) => ReloadSpec(st, id, v)
    case Delete(id) => DeleteSpec(st, id)
  }

  // ---------------------------------------------------------------------------
  // The handlers
  // ---------------------------------------------------------------------------

  /** The database and the loader. A handler's edits to a row live in its session until the commit. */
  class Store {
    var rows: map<Id, Row>
    var snaps: map<Id, seq<Snapshot>>
    var loaded: map<string, Runtime>
    var activeSlug: Option<string>

    ghost function View(): State
      reads this
    {
      State(rows, snaps, loaded, activeSlug)
    }

    constructor ()
      ensures View() == EMPTY
    {
      rows, snaps, loaded, activeSlug := map[], map[], map[], None;
    }

    /** Clear `is_latest` on the profile's snapshots, add the new one and commit. */
    method CommitRow(id: Id, row: Row, parent: Option<nat>) returns (outcome: Outcome)
      modifies this`rows, this`snaps
      ensures (View(), outcome) == Commit(old(View()), id, row, parent)
    {
      var history := if id in snaps then snaps[id] else [];
      var snap := TakeSnapshot(row, parent);
      var cleared: seq<Snapshot> := [];
      for i := 0 to |history|
        invariant |cleared| == i && forall j :: 0 <= j < i ==> cleared[j] == history[j].(isLatest := false)
        invariant forall j :: 0 <= j < i ==> history[j].version != snap.version
      {
        if history[i].version == snap.version {
          return Refused;
        }
        cleared := cleared + [history[i].(isLatest := false)];
      }
      assert cleared == ClearLatest(history);
      rows := rows[id := row];
      snaps := snaps[id := cleared + [snap]];
      return Done;
    }

    method LoaderReload(row: Row, loads: bool)
      modifies this`loaded
      ensures loaded == Reloaded(old(loaded), row, loads)
    {
      loaded := loaded - {row.slug};
      if loads {
        loaded := loaded[row.slug := Runtime(row.body.source, row.body.config)];
      }
      assert loads ==> loaded == Reloaded(old(loaded), row, loads);
    }

    method CreateProfile(id: Id, req: CreateRequest, v: Verdict) returns (outcome: Outcome)
      modifies this
      ensures (View(), outcome) == CreateSpec(old(View()), id, req, v)
    {
      if !Slug.ValidSlug(req.slug) {
        return BadRequest;
      }
      var className := None;
      if req.body.kind == "python" {
        if v.found == None {
          return BadRequest;
        }
        className := v.found;
      }
      if exists k :: k in rows && rows[k].slug == req.slug {
        return SlugTaken;
      }
      var status := Unloaded;
      if req.enabled && req.body.kind == "python" {
        if v.loads {
          loaded := loaded[req.slug := Runtime(req.body.source, req.body.config)];
          status := Loaded;
        } else {
          status := Failed;
        }
      }
      var row := Row(req.slug, req.body.(className := className), req.enabled, false, 0, 1, false, status);
      outcome := CommitRow(id, row, None);
    }

    /** The field-by-field edits of an update, and what they call for. */
    static method EditRow(before: Row, req: UpdateRequest, v: Verdict)
      returns (row: Row, valid: bool, sourceChanged: bool, needsReload: bool, snapshotNeeded: bool)
      ensures valid <==> !(Validates(before, req) && v.found == None)
      ensures valid ==> row == Edited(before, req, v.found) && sourceChanged == SourceChanged(before, req)
                        && needsReload == NeedsReload(before, req) && snapshotNeeded == NeedsSnapshot(before, req)
    {
      row, sourceChanged, needsReload, snapshotNeeded := before, false, false, false;
      var Body(name, description, source, className, config, schema, kind) := before.body;
      var enabled := before.enabled;
      if req.source.Some? && req.source.value != source {
        if (if req.kind.Some? && req.kind.value != "" then req.kind.value else kind) == "python" {
          if v.found == None {
            return before, false, false, false, false;
          }
          className := v.found;
        }
        source := req.source.value;
        sourceChanged, needsReload, snapshotNeeded := true, true, true;
      }
      if req.config.Some? && req.config.value != config {
        config := req.config.value;
        needsReload, snapshotNeeded := true, true;
      }
      if req.schema.Some? {
        schema := req.schema.value;
        snapshotNeeded := true;
      }
      if req.name.Some? {
        name := req.name.value;
        snapshotNeeded := true;
      }
      if req.description.Some? {
        description := req.description;
        snapshotNeeded := true;
      }
      if req.kind.Some? {
        kind := req.kind.value;
        snapshotNeeded := true;
      }
      if req.enabled.Some? && req.enabled.value != enabled {
        enabled := req.enabled.value;
        needsReload, snapshotNeeded := true, true;
      }
      row := before.(enabled := enabled, body := Body(name, description, source, className, config, schema, kind));
      valid := true;
    }

    method UpdateProfile(id: Id, req: UpdateRequest, v: Verdict) returns (outcome: Outcome)
      modifies this
      ensures (View(), outcome) == UpdateSpec(old(View()), id, req, v)
    {
      if id !in rows {
        return NotFound;
      }
      var row, valid, sourceChanged, needsReload, snapshotNeeded := EditRow(rows[id], req, v);
      if !valid {
        return BadRequest;
      }
      var priorVersion := VersionOr1(rows[id].version);
      if needsReload {
        if row.enabled && Python(row.body.kind) {
          LoaderReload(row, v.loads);
          row := row.(status := if v.loads then Loaded else Failed);
        } else if !row.enabled {
          loaded := loaded - {row.slug};
          row := row.(status := Unloaded);
        }
      }
      if snapshotNeeded {
        if sourceChanged {
          row := row.(version := priorVersion + 1);
        }
        outcome := CommitRow(id, row, Some(priorVersion));
      } else {
        rows := rows[id := row];
        outcome := Done;
      }
    }

    method RestoreVersion(id: Id, version: nat, v: Verdict) returns (outcome: Outcome)
      modifies this
      ensures (View(), outcome) == RestoreSpec(old(View()), id, version, v)
    {
      if id !in rows {
        return NotFound;
      }
      var found := Matching(if id in snaps then snaps[id] else [], version);
      if |found| > 1 {
        return Ambiguous;
      }
      if |found| == 0 {
        return NotFound;
      }
      var row := rows[id];
      var priorVersion := VersionOr1(row.version);
      row := row.(body := RestoredBody(found[0].body), version := priorVersion + 1);
      if row.enabled && Python(row.body.kind) {
        LoaderReload(row, v.loads);
        row := row.(status := if v.loads then Loaded else Failed);
      } else {
        loaded := loaded - {row.slug};
        row := row.(status := Unloaded);
      }
      outcome := CommitRow(id, row, Some(priorVersion));
    }

    method SetActive(id: Id) returns (outcome: Outcome)
      modifies this
      ensures (View(), outcome) == ActivateSpec(old(View()), id)
    {
      if id !in rows {
        return NotFound;
      }
      rows := map k | k in rows :: rows[k].(isActive := false);
      rows := rows[id := rows[id].(isActive := true)];
      assert rows == ActivateSpec(old(View()), id).0.rows;
      activeSlug := Some(rows[id].slug);
      return Done;
    }

    method ReloadProfile(id: Id, v: Verdict) returns (outcome: Outcome)
      modifies this
      ensures (View(), outcome) == ReloadSpec(old(View()), id, v)
    {
      if id !in rows {
        return NotFound;
      }
      if !rows[id].enabled {
        return BadRequest;
      }
      LoaderReload(rows[id], v.loads);
      rows := rows[id := rows[id].(status := if v.loads then Loaded else Failed)];
      return if v.loads then Done else BadRequest;
    }

    method DeleteProfile(id: Id) returns (outcome: Outcome)
      modifies this
      ensures (View(), outcome) == DeleteSpec(old(View()), id)
    {
      if id !in rows {
        return NotFound;
      }
      loaded := loaded - {rows[id].slug};
      rows := rows - {id};
      snaps := snaps - {id};
      return Done;
    }
  }
}
