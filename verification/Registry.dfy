/**
  The model registry: a dictionary of models, each a dictionary of versions. The rest of the runtime
  sees one flat table of versions; the operations here are proved to be those of the flat table.
*/
module Registry {
  import opened Prelude
  import opened Models

  type Table = map<ModelId, map<Version, LoadState>>

  datatype Key = Key(model: ModelId, version: Version)

  datatype StateChange = StateChange(key: Key, from: LoadState, to: LoadState)

  /** The flat table: the state of a version, if it is registered. */
  function Lookup(t: Table, k: Key): Option<LoadState> {
    if k.model in t && k.version in t[k.model] then Some(t[k.model][k.version]) else None
  }

  /** `t'` is `t` with the entry of `k` set to `entry` and every other entry as before. */
  ghost predicate DiffersAt(t: Table, t': Table, k: Key, entry: Option<LoadState>) {
    forall j :: Lookup(t', j) == if j == k then entry else Lookup(t, j)
  }

  function VersionsOf(t: Table, m: ModelId): map<Version, LoadState> {
    if m in t then t[m] else map[]
  }

  /** `register_version`: the parent model is created when it is missing. */
  function Registered(t: Table, k: Key, state: LoadState): Table {
    t[k.model := VersionsOf(t, k.model)[k.version := state]]
  }

  /** `unregister_version`: a model that loses its last version goes with it. */
  function Unregistered(t: Table, k: Key): Table {
    if Lookup(t, k).None? then t
    else
      var rest := t[k.model] - {k.version};
      if |rest| == 0 then t - {k.model} else t[k.model := rest]
  }

  lemma RegisterIsFlat(t: Table, k: Key, state: LoadState)
    ensures DiffersAt(t, Registered(t, k, state), k, Some(state))
  {
  }

  lemma UnregisterIsFlat(t: Table, k: Key)
    ensures DiffersAt(t, Unregistered(t, k), k, None)
  {
  }

  /** A new model brings the versions of its descriptor and changes no other. */
  lemma RegisterModelIsFlat(t: Table, m: ModelId, versions: map<Version, LoadState>)
    requires m !in t
    ensures forall j: Key :: j.model != m ==> Lookup(t[m := versions], j) == Lookup(t, j)
    ensures forall v :: Lookup(t[m := versions], Key(m, v)) == if v in versions then Some(versions[v]) else None
  {
  }

  lemma UnregisterModelIsFlat(t: Table, m: ModelId)
    ensures forall j :: Lookup(t - {m}, j) == if j.model == m then None else Lookup(t, j)
  {
  }

  /** Unregistering undoes the registration of a new version, except that a model registered without
      any version does not survive it. */
  lemma UnregisterUndoesRegister(t: Table, k: Key, state: LoadState)
    requires Lookup(t, k).None?
    ensures Unregistered(Registered(t, k, state), k) == t <==> !(k.model in t && |t[k.model]| == 0)
  {
    var r := Registered(t, k, state);
    var versions := VersionsOf(t, k.model);
    assert r[k.model] - {k.version} == versions;
    if k.model !in t {
      assert r - {k.model} == t;
    } else if |versions| != 0 {
      assert r[k.model := versions] == t;
    } else {
      assert k.model !in r - {k.model};
    }
  }

  // ---------- the flat map ----------

  /** Names that tell versions apart, as "model:version" does while model ids contain no colon. */
  ghost predicate Naming(name: Key -> QualifiedId) {
    forall j, k :: name(j) == name(k) ==> j == k
  }

  ghost predicate EntryIs(flat: map<QualifiedId, LoadState>, id: QualifiedId, entry: Option<LoadState>) {
    match entry
    case Some(state) => id in flat && flat[id] == state
    case None => id !in flat
  }

  /** The map by qualified id that coordinator and recovery manager see through the registry's methods. */
  ghost predicate Represents(flat: map<QualifiedId, LoadState>, t: Table, name: Key -> QualifiedId) {
    forall k :: EntryIs(flat, name(k), Lookup(t, k))
  }

  /** A step that changes the table at one version writes, or removes, one entry of that map. */
  lemma StepOfFlatMap(flat: map<QualifiedId, LoadState>, t: Table, t': Table, k: Key, entry: Option<LoadState>,
                      name: Key -> QualifiedId)
    requires Naming(name) && Represents(flat, t, name) && DiffersAt(t, t', k, entry)
    ensures Represents(if entry.Some? then flat[name(k) := entry.value] else flat - {name(k)}, t', name)
  {
    var flat' := if entry.Some? then flat[name(k) := entry.value] else flat - {name(k)};
    forall j ensures EntryIs(flat', name(j), Lookup(t', j)) {
      assert EntryIs(flat, name(j), Lookup(t, j));
    }
  }

  // ---------- the object ----------

  class ModelRegistry {
    var models: Table
    ghost var changes: seq<StateChange>

    constructor ()
      ensures models == map[] && changes == []
    {
      models, changes := map[], [];
    }

    /** `register_model`: a new model comes with the versions of its descriptor; a known one is left alone. */
    method RegisterModel(m: ModelId, versions: map<Version, LoadState>)
      modifies this`models
      ensures models == if m in old(models) then old(models) else old(models)[m := versions]
    {
      if m !in models {
        models := models[m := versions];
      }
    }

    method RegisterVersion(k: Key, state: LoadState)
      modifies this`models
      ensures models == Registered(old(models), k, state)
      ensures DiffersAt(old(models), models, k, Some(state))
    {
      RegisterIsFlat(models, k, state);
      ghost var before := models;
      if k.model !in models {
        models := models[k.model := map[]];
      }
      models := models[k.model := models[k.model][k.version := state]];
      assert models == Registered(before, k, state);
    }

    method UnregisterVersion(k: Key) returns (removed: bool)
      modifies this`models
      ensures removed == Lookup(old(models), k).Some?
      ensures models == Unregistered(old(models), k)
      ensures DiffersAt(old(models), models, k, None)
    {
      UnregisterIsFlat(models, k);
      if k.model !in models || k.version !in models[k.model] {
        return false;
      }
      ghost var before := models;
      var rest := models[k.model] - {k.version};
      models := models[k.model := rest];
      if |rest| == 0 {
        models := models - {k.model};
        assert models == before - {k.model};
      }
      assert models == Unregistered(before, k);
      return true;
    }

    method UnregisterModel(m: ModelId) returns (removed: bool)
      modifies this`models
      ensures removed == (m in old(models))
      ensures m !in models
      ensures forall j :: Lookup(models, j) == if j.model == m then None else Lookup(old(models), j)
    {
      UnregisterModelIsFlat(models, m);
      removed := m in models;
      models := models - {m};
    }

    /** `update_state`: the entry of the flat table changes, and one event tells the listeners from what
        to what; nothing happens for an unknown version. */
    method UpdateState(k: Key, to: LoadState) returns (updated: bool)
      modifies this
      ensures updated == Lookup(old(models), k).Some?
      ensures updated ==> DiffersAt(old(models), models, k, Some(to))
      ensures updated ==> changes == old(changes) + [StateChange(k, Lookup(old(models), k).value, to)]
      ensures !updated ==> models == old(models) && changes == old(changes)
    {
      if k.model !in models || k.version !in models[k.model] {
        return false;
      }
      RegisterIsFlat(models, k, to);
      changes := changes + [StateChange(k, models[k.model][k.version], to)];
      models := models[k.model := models[k.model][k.version := to]];
      return true;
    }
  }
}
