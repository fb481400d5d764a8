/**
  Value-level description of what the tenant scheduler builds: schedule keys,
  an entry's tenant schemas, the cached tenant list, the schedule loaded from
  every tenant (`all_as_schedule`) and the entries merged by
  `update_from_dict`. The classes in the `Entries` and `Scheduler` modules are
  proved to produce exactly these values.
*/
module ScheduleSpec {
  import opened Wrappers

  /** The schema an entry falls back to when it is built without tenant schemas. */
  const DefaultSchema: string := "public"

  /** How long the tenant list stays cached, in seconds. */
  const SchemasCacheTtl: int := 60

  /** The schedule key of an entry: `"<schema>:<name>"`. */
  function EntryKey(schema: string, name: string): string
  {
    schema + ":" + name
  }

  /** A key names one (schema, name) pair as long as schema names hold no
      colon, as tenant schema names never do. */
  lemma EntryKeyInjective(schema: string, name: string, schema': string, name': string)
    requires ':' !in schema && ':' !in schema'
    requires EntryKey(schema, name) == EntryKey(schema', name')
    ensures schema == schema' && name == name'
  {
    var key := EntryKey(schema, name);
    assert key[|schema|] == ':' && key[|schema'|] == ':';
    assert forall k :: 0 <= k < |schema| ==> key[k] == schema[k];
    assert forall k :: 0 <= k < |schema'| ==> key[k] == schema'[k];
    assert schema == key[..|schema|] == schema';
    assert name == key[|schema| + 1..] == name';
  }

  /** The tenant schemas an entry built from code ends up with: the ones asked
      for, or the default schema when none are given. */
  function DefaultSchemas(requested: seq<string>): (schemas: seq<string>)
    ensures |schemas| > 0
    ensures requested != [] ==> schemas == requested
    ensures requested == [] ==> schemas == [DefaultSchema]
  {
    if requested == [] then [DefaultSchema] else requested
  }

  /** The schema a due entry is sent from: its first tenant schema, or the
      public schema for an entry with none. */
  function DispatchScope(tenantSchemas: seq<string>, publicSchema: string): (scope: string)
    ensures tenantSchemas != [] ==> scope == tenantSchemas[0]
    ensures tenantSchemas == [] ==> scope == publicSchema
  {
    if tenantSchemas != [] then tenantSchemas[0] else publicSchema
  }

  // ----- The cached tenant list -----

  /** What the cache holds under the tenant-list key, and until when. */
  datatype CacheSlot = CacheSlot(schemas: seq<string>, expiresAt: int)

  /** A cache read at time `now`: a value that has not expired and is not empty. */
  function CachedSchemas(cache: Option<CacheSlot>, now: int): (hit: Option<seq<string>>)
    ensures hit.Some? ==> cache.Some? && hit.value == cache.value.schemas && now < cache.value.expiresAt && hit.value != []
    ensures cache.Some? && now < cache.value.expiresAt && cache.value.schemas != [] ==> hit == Some(cache.value.schemas)
  {
    if cache.Some? && now < cache.value.expiresAt && cache.value.schemas != [] then Some(cache.value.schemas) else None
  }

  /** The tenant list `get_schemas_list` returns, given the cache, the tenant
      table's schema names and the public schema name. */
  function SchemasList(cache: Option<CacheSlot>, tenants: seq<string>, publicSchema: string, now: int): (schemas: seq<string>)
    ensures schemas != []
    ensures CachedSchemas(cache, now).Some? ==> schemas == CachedSchemas(cache, now).value
    ensures CachedSchemas(cache, now).None? ==> schemas == tenants + [publicSchema] && schemas[|schemas| - 1] == publicSchema
  {
    match CachedSchemas(cache, now)
    case Some(cached) => cached
    case None => tenants + [publicSchema]
  }

  /** The cache after `get_schemas_list`: refilled for 60 seconds on a miss,
      so that it serves the list just returned. */
  function CacheAfter(cache: Option<CacheSlot>, tenants: seq<string>, publicSchema: string, now: int): (cache': Option<CacheSlot>)
    ensures CachedSchemas(cache', now) == Some(SchemasList(cache, tenants, publicSchema, now))
    ensures CachedSchemas(cache, now).Some? ==> cache' == cache
    ensures CachedSchemas(cache, now).None? ==> cache' == Some(CacheSlot(tenants + [publicSchema], now + SchemasCacheTtl))
  {
    if CachedSchemas(cache, now).Some? then cache else Some(CacheSlot(tenants + [publicSchema], now + SchemasCacheTtl))
  }

  /** A tenant added after the list was cached is not seen until the cached
      list expires, and is seen from then on. */
  lemma TenantListRefreshesAfterTtl(cache: Option<CacheSlot>, tenants: seq<string>, tenants': seq<string>, publicSchema: string, t0: int, t1: int)
    requires CachedSchemas(cache, t0).None?
    ensures var refilled := CacheAfter(cache, tenants, publicSchema, t0);
            SchemasList(refilled, tenants', publicSchema, t1)
              == if t1 < t0 + SchemasCacheTtl then tenants + [publicSchema] else tenants' + [publicSchema]
  {
  }

  // ----- Loading the schedule from every tenant -----

  /** One row of a tenant's enabled periodic tasks. `loadable` is false when
      building a schedule entry from it raises ValueError. */
  datatype Row = Row(name: string, lastRunAt: Option<int>, totalRunCount: int, loadable: bool)

  /** What an in-memory schedule entry holds. */
  datatype View = View(tenantSchemas: seq<string>, name: string, enabled: bool, lastRunAt: Option<int>, totalRunCount: int)

  /** The enabled rows a tenant's store returns (none for an unknown schema). */
  function RowsOf(store: map<string, seq<Row>>, schema: string): seq<Row>
  {
    if schema in store then store[schema] else []
  }

  /** The entry built from a row of `schema`: bound to that schema alone. */
  function RowView(schema: string, row: Row): View
  {
    View([schema], row.name, true, row.lastRunAt, row.totalRunCount)
  }

  /** Adds the entries of `rows[..]` of one tenant, in order; a row whose
      entry cannot be built is skipped. */
  function LoadTenant(acc: map<string, View>, schema: string, rows: seq<Row>): map<string, View>
    decreases |rows|
  {
    if rows == [] then acc
    else
      var before := LoadTenant(acc, schema, rows[..|rows| - 1]);
      var row := rows[|rows| - 1];
      if row.loadable then before[EntryKey(schema, row.name) := RowView(schema, row)] else before
  }

  /** The schedule `all_as_schedule` returns for the tenant list `schemas`. */
  function LoadAll(schemas: seq<string>, store: map<string, seq<Row>>): map<string, View>
    decreases |schemas|
  {
    if schemas == [] then map[]
    else
      var last := schemas[|schemas| - 1];
      LoadTenant(LoadAll(schemas[..|schemas| - 1], store), last, RowsOf(store, last))
  }

  /** Row `j` of tenant `schemas[i]` produces key `key` with entry `view`. */
  predicate Yields(schemas: seq<string>, store: map<string, seq<Row>>, i: int, j: int, key: string, view: View)
  {
    && 0 <= i < |schemas|
    && 0 <= j < |RowsOf(store, schemas[i])|
    && RowsOf(store, schemas[i])[j].loadable
    && key == EntryKey(schemas[i], RowsOf(store, schemas[i])[j].name)
    && view == RowView(schemas[i], RowsOf(store, schemas[i])[j])
  }

  lemma {:induction false} LoadTenantSound(acc: map<string, View>, schema: string, rows: seq<Row>, key: string)
    requires key in LoadTenant(acc, schema, rows)
    ensures (key in acc && LoadTenant(acc, schema, rows)[key] == acc[key]) ||
            exists j :: 0 <= j < |rows| && rows[j].loadable && key == EntryKey(schema, rows[j].name) &&
                        LoadTenant(acc, schema, rows)[key] == RowView(schema, rows[j])
    decreases |rows|
  {
    if rows != [] {
      var n := |rows| - 1;
      var row := rows[n];
      if !(row.loadable && key == EntryKey(schema, row.name)) {
        LoadTenantSound(acc, schema, rows[..n], key);
        if !(key in acc && LoadTenant(acc, schema, rows[..n])[key] == acc[key]) {
          var j :| 0 <= j < n && rows[..n][j].loadable && key == EntryKey(schema, rows[..n][j].name) &&
                   LoadTenant(acc, schema, rows[..n])[key] == RowView(schema, rows[..n][j]);
          assert rows[..n][j] == rows[j];
        }
      }
    }
  }

  lemma {:induction false} LoadTenantComplete(acc: map<string, View>, schema: string, rows: seq<Row>)
    ensures acc.Keys <= LoadTenant(acc, schema, rows).Keys
    ensures forall j :: 0 <= j < |rows| && rows[j].loadable ==> EntryKey(schema, rows[j].name) in LoadTenant(acc, schema, rows)
    decreases |rows|
  {
    if rows != [] {
      var n := |rows| - 1;
      LoadTenantComplete(acc, schema, rows[..n]);
      assert forall j :: 0 <= j < n ==> rows[..n][j] == rows[j];
    }
  }

  /** Every key of the loaded schedule is `schema:name` for a buildable enabled
      row of a listed tenant, and its entry is bound to that tenant alone. */
  lemma {:induction false} LoadAllSound(schemas: seq<string>, store: map<string, seq<Row>>, key: string)
    requires key in LoadAll(schemas, store)
    ensures exists i, j :: Yields(schemas, store, i, j, key, LoadAll(schemas, store)[key])
    decreases |schemas|
  {
    var n := |schemas| - 1;
    var last := schemas[n];
    var prefix := schemas[..n];
    var before := LoadAll(prefix, store);
    LoadTenantSound(before, last, RowsOf(store, last), key);
    if key in before && LoadAll(schemas, store)[key] == before[key] {
      LoadAllSound(prefix, store, key);
      var i, j :| Yields(prefix, store, i, j, key, before[key]);
      assert prefix[i] == schemas[i];
      assert Yields(schemas, store, i, j, key, LoadAll(schemas, store)[key]);
    } else {
      var j :| 0 <= j < |RowsOf(store, last)| && RowsOf(store, last)[j].loadable &&
               key == EntryKey(last, RowsOf(store, last)[j].name) &&
               LoadAll(schemas, store)[key] == RowView(last, RowsOf(store, last)[j]);
      assert Yields(schemas, store, n, j, key, LoadAll(schemas, store)[key]);
    }
  }

  /** Every buildable enabled row of every listed tenant has its key in the
      loaded schedule. */
  lemma {:induction false} LoadAllComplete(schemas: seq<string>, store: map<string, seq<Row>>, i: int, j: int)
    requires 0 <= i < |schemas| && 0 <= j < |RowsOf(store, schemas[i])|
    requires RowsOf(store, schemas[i])[j].loadable
    ensures EntryKey(schemas[i], RowsOf(store, schemas[i])[j].name) in LoadAll(schemas, store)
    decreases |schemas|
  {
    var n := |schemas| - 1;
    var last := schemas[n];
    var before := LoadAll(schemas[..n], store);
    LoadTenantComplete(before, last, RowsOf(store, last));
    if i < n {
      assert schemas[..n][i] == schemas[i];
      LoadAllComplete(schemas[..n], store, i, j);
    }
  }

  /** With colon-free schema names, the entry under `schema:name` is bound to
      `schema` and named `name`, and it is dispatched from `schema`. */
  lemma LoadAllKeyedByTenant(schemas: seq<string>, store: map<string, seq<Row>>, schema: string, name: string, publicSchema: string)
    requires forall i :: 0 <= i < |schemas| ==> ':' !in schemas[i]
    requires ':' !in schema
    requires EntryKey(schema, name) in LoadAll(schemas, store)
    ensures schema in schemas
    ensures LoadAll(schemas, store)[EntryKey(schema, name)].tenantSchemas == [schema]
    ensures LoadAll(schemas, store)[EntryKey(schema, name)].name == name
    ensures DispatchScope(LoadAll(schemas, store)[EntryKey(schema, name)].tenantSchemas, publicSchema) == schema
  {
    var key := EntryKey(schema, name);
    LoadAllSound(schemas, store, key);
    var i, j :| Yields(schemas, store, i, j, key, LoadAll(schemas, store)[key]);
    EntryKeyInjective(schema, name, schemas[i], RowsOf(store, schemas[i])[j].name);
  }

  /** The store in which building row `j` of `schema` raises ValueError. */
  function FailRow(store: map<string, seq<Row>>, schema: string, j: int): map<string, seq<Row>>
    requires schema in store && 0 <= j < |store[schema]|
  {
    store[schema := store[schema][j := store[schema][j].(loadable := false)]]
  }

  /** A ValueError on one row removes at most that row's key: every other key
      stays, of every tenant, and no key appears. */
  lemma OneFailureOmitsOnlyItsKey(schemas: seq<string>, store: map<string, seq<Row>>, schema: string, j: int)
    requires schema in store && 0 <= j < |store[schema]|
    ensures forall key :: key in LoadAll(schemas, store) && key != EntryKey(schema, store[schema][j].name) ==>
              key in LoadAll(schemas, FailRow(store, schema, j))
    ensures LoadAll(schemas, FailRow(store, schema, j)).Keys <= LoadAll(schemas, store).Keys
  {
    var failed := FailRow(store, schema, j);
    forall key | key in LoadAll(schemas, store) && key != EntryKey(schema, store[schema][j].name)
      ensures key in LoadAll(schemas, failed)
    {
      LoadAllSound(schemas, store, key);
      var i, k :| Yields(schemas, store, i, k, key, LoadAll(schemas, store)[key]);
      assert RowsOf(failed, schemas[i])[k] == RowsOf(store, schemas[i])[k];
      LoadAllComplete(schemas, failed, i, k);
    }
    forall key | key in LoadAll(schemas, failed)
      ensures key in LoadAll(schemas, store)
    {
      LoadAllSound(schemas, failed, key);
      var i, k :| Yields(schemas, failed, i, k, key, LoadAll(schemas, failed)[key]);
      assert RowsOf(failed, schemas[i])[k] == RowsOf(store, schemas[i])[k];
      LoadAllComplete(schemas, store, i, k);
    }
  }

  // ----- Merging entries built from a configuration mapping -----

  /** The outcome of building an entry from one configuration item in one
      tenant: the stored task's settings, or an exception. */
  datatype Upsert = Upserted(enabled: bool, lastRunAt: Option<int>, totalRunCount: int) | Raised

  /** An entry built by `from_entry`, which passes no tenant schemas. */
  function UpsertView(name: string, u: Upsert): View
    requires u.Upserted?
  {
    View(DefaultSchemas([]), name, u.enabled, u.lastRunAt, u.totalRunCount)
  }

  /** Tenant `schema` admits configuration item `name`. */
  predicate Admits(schema: string, names: seq<string>, build: (string, string) -> Upsert, name: string)
  {
    name in names && build(schema, name).Upserted? && build(schema, name).enabled
  }

  /** The per-tenant map `s` of `update_from_dict`, keyed by bare name. */
  function Batch(schema: string, names: seq<string>, build: (string, string) -> Upsert): map<string, View>
    decreases |names|
  {
    if names == [] then map[]
    else
      var before := Batch(schema, names[..|names| - 1], build);
      var name := names[|names| - 1];
      var u := build(schema, name);
      if u.Upserted? && u.enabled then before[name := UpsertView(name, u)] else before
  }

  /** Everything the calls `schedule.update(s)` write, tenant after tenant. */
  function Merged(schemas: seq<string>, names: seq<string>, build: (string, string) -> Upsert): map<string, View>
    decreases |schemas|
  {
    if schemas == [] then map[]
    else Merged(schemas[..|schemas| - 1], names, build) + Batch(schemas[|schemas| - 1], names, build)
  }

  /** Merging one more tenant adds its batch on top. */
  lemma MergedStep(schemas: seq<string>, i: nat, names: seq<string>, build: (string, string) -> Upsert)
    requires i < |schemas|
    ensures Merged(schemas[..i + 1], names, build) == Merged(schemas[..i], names, build) + Batch(schemas[i], names, build)
  {
    assert schemas[..i + 1][..i] == schemas[..i];
  }

  /** A tenant's batch holds exactly the enabled items it could build, each
      built in that tenant. */
  lemma {:induction false} BatchAdmits(schema: string, names: seq<string>, build: (string, string) -> Upsert, name: string)
    ensures name in Batch(schema, names, build) <==> Admits(schema, names, build, name)
    ensures name in Batch(schema, names, build) ==> Batch(schema, names, build)[name] == UpsertView(name, build(schema, name))
    decreases |names|
  {
    if names != [] {
      var n := |names| - 1;
      BatchAdmits(schema, names[..n], build, name);
      assert names == names[..n] + [names[n]];
    }
  }

  /** A key is merged exactly when some listed tenant admits it. */
  lemma {:induction false} MergedAdmits(schemas: seq<string>, names: seq<string>, build: (string, string) -> Upsert, name: string)
    ensures name in Merged(schemas, names, build) <==> exists i :: 0 <= i < |schemas| && Admits(schemas[i], names, build, name)
    decreases |schemas|
  {
    if schemas != [] {
      var n := |schemas| - 1;
      var prefix := schemas[..n];
      MergedAdmits(prefix, names, build, name);
      BatchAdmits(schemas[n], names, build, name);
      assert forall i :: 0 <= i < n ==> prefix[i] == schemas[i];
      if exists i :: 0 <= i < |schemas| && Admits(schemas[i], names, build, name) {
        var i :| 0 <= i < |schemas| && Admits(schemas[i], names, build, name);
        if i < n {
          assert Admits(prefix[i], names, build, name);
        }
      }
    }
  }

  /** The merged entry under a key is the one built by the last tenant, in
      list order, that admits it. */
  lemma {:induction false} MergedTakesLastAdmitting(schemas: seq<string>, names: seq<string>, build: (string, string) -> Upsert, name: string, i: int)
    requires 0 <= i < |schemas| && Admits(schemas[i], names, build, name)
    requires forall k :: i < k < |schemas| ==> !Admits(schemas[k], names, build, name)
    ensures name in Merged(schemas, names, build)
    ensures Merged(schemas, names, build)[name] == UpsertView(name, build(schemas[i], name))
    decreases |schemas|
  {
    var n := |schemas| - 1;
    var prefix := schemas[..n];
    BatchAdmits(schemas[n], names, build, name);
    if i < n {
      assert prefix[i] == schemas[i];
      assert forall k :: i < k < n ==> prefix[k] == schemas[k];
      MergedTakesLastAdmitting(prefix, names, build, name, i);
    }
  }

  /** Every merged entry is bound to the default schema, whichever tenant
      built it, and so is dispatched from there. */
  lemma MergedEntriesUseDefaultSchema(schemas: seq<string>, names: seq<string>, build: (string, string) -> Upsert, name: string, publicSchema: string)
    requires name in Merged(schemas, names, build)
    ensures Merged(schemas, names, build)[name].tenantSchemas == [DefaultSchema]
    ensures Merged(schemas, names, build)[name].enabled
    ensures DispatchScope(Merged(schemas, names, build)[name].tenantSchemas, publicSchema) == DefaultSchema
  {
    MergedAdmits(schemas, names, build, name);
    var i :| 0 <= i < |schemas| && Admits(schemas[i], names, build, name);
    var last := LastAdmitting(schemas, names, build, name, i);
    MergedTakesLastAdmitting(schemas, names, build, name, last);
  }

  /** The last listed tenant, at or after `i`, that admits `name`. */
  lemma {:induction false} LastAdmitting(schemas: seq<string>, names: seq<string>, build: (string, string) -> Upsert, name: string, i: int) returns (last: int)
    requires 0 <= i < |schemas| && Admits(schemas[i], names, build, name)
    ensures i <= last < |schemas| && Admits(schemas[last], names, build, name)
    ensures forall k :: last < k < |schemas| ==> !Admits(schemas[k], names, build, name)
    decreases |schemas| - i
  {
    if exists k :: i < k < |schemas| && Admits(schemas[k], names, build, name) {
      var k :| i < k < |schemas| && Admits(schemas[k], names, build, name);
      last := LastAdmitting(schemas, names, build, name, k);
    } else {
      last := i;
    }
  }

  /** `schedule.update` never removes a key: an entry no tenant admits (a
      disabled one included) stays as it was. */
  lemma UpdateKeepsUnadmitted(schedule: map<string, View>, schemas: seq<string>, names: seq<string>, build: (string, string) -> Upsert, name: string)
    requires name in schedule
    requires forall i :: 0 <= i < |schemas| ==> !Admits(schemas[i], names, build, name)
    ensures name in schedule + Merged(schemas, names, build)
    ensures (schedule + Merged(schemas, names, build))[name] == schedule[name]
  {
    MergedAdmits(schemas, names, build, name);
  }
}
