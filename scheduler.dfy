/**
  The tenant-aware database scheduler: the state it keeps and the operations
  that change it. The store, the tenant table, the cache clock and the task
  producer are parameters; each method is proved to produce what the
  corresponding function of `ChangeDetection` or `ScheduleSpec` describes.
*/
module Scheduler {
  import opened Wrappers
  import opened ChangeDetection
  import opened ScheduleSpec
  import opened Entries

  /** One call to the task producer: which entry, from which schema, and
      whether the producer was asked to advance it. */
  datatype Submission = Submission(entry: string, scope: string, advance: bool)

  /** What the producer answers: a result carrying a task id, a result with
      no id (such as None), or an exception. */
  datatype SubmitResult = Accepted(id: string) | Unidentified | Raised

  /** The entries of `entries` hold exactly the values of `spec`. */
  ghost predicate Realises(entries: map<string, TenantModelEntry>, spec: map<string, View>)
    reads set key | key in entries :: entries[key].model
  {
    entries.Keys == spec.Keys && forall key :: key in entries ==> entries[key].Snapshot() == spec[key]
  }

  lemma RealisesUnion(entries: map<string, TenantModelEntry>, batch: map<string, TenantModelEntry>,
                      spec: map<string, View>, built: map<string, View>)
    requires Realises(entries, spec) && Realises(batch, built)
    ensures Realises(entries + batch, spec + built)
  {
  }

  lemma UnionAssociates<K, V>(base: map<K, V>, added: map<K, V>, batch: map<K, V>)
    ensures base + added + batch == base + (added + batch)
  {
  }

  /** The per-tenant map of `update_from_dict`: every item of the mapping is
      built in `schema`; an item whose building raises is skipped, and only
      enabled entries are kept, keyed by bare name. */
  method BuildBatch(schema: string, names: seq<string>, build: (string, string) -> Upsert)
    returns (batch: map<string, TenantModelEntry>)
    ensures Realises(batch, Batch(schema, names, build))
    ensures forall key :: key in batch ==> fresh(batch[key]) && fresh(batch[key].model) && batch[key].tenantSchemas != []
  {
    batch := map[];
    ghost var built: map<string, View> := map[];
    var j := 0;
    while j < |names|
      invariant 0 <= j <= |names|
      invariant built == Batch(schema, names[..j], build)
      invariant Realises(batch, built)
      invariant forall key :: key in batch ==> fresh(batch[key]) && fresh(batch[key].model) && batch[key].tenantSchemas != []
    {
      var name := names[j];
      assert names[..j + 1][..j] == names[..j];
      match build(schema, name) {
        case Upserted(enabled, lastRunAt, totalRunCount) =>
          var model := new PeriodicTask(name, enabled, lastRunAt, totalRunCount);
          var entry := new TenantModelEntry(model, []);
          if entry.model.enabled {
            batch := batch[name := entry];
            built := built[name := UpsertView(name, build(schema, name))];
          }
        case Raised =>
          // Logged; this item is skipped and the rest of the batch goes on.
      }
      j := j + 1;
    }
    assert names[..j] == names;
  }

  /** One tenant's share of `all_as_schedule`: an entry per loadable row,
      keyed `"<schema>:<name>"`, added to `result`. */
  method LoadRows(schema: string, rows: seq<Row>, result: map<string, TenantModelEntry>, ghost loaded: map<string, View>)
    returns (extended: map<string, TenantModelEntry>)
    requires Realises(result, loaded) && Unshared(result)
    ensures Realises(extended, LoadTenant(loaded, schema, rows)) && Unshared(extended)
    ensures forall key :: key in extended ==>
              (key in result && extended[key] == result[key]) || (fresh(extended[key]) && fresh(extended[key].model))
  {
    extended := result;
    ghost var target := loaded;
    var j := 0;
    while j < |rows|
      invariant 0 <= j <= |rows|
      invariant target == LoadTenant(loaded, schema, rows[..j])
      invariant Realises(extended, target) && Unshared(extended)
      invariant forall key :: key in extended ==>
                  (key in result && extended[key] == result[key]) || (fresh(extended[key]) && fresh(extended[key].model))
    {
      var row := rows[j];
      assert rows[..j + 1][..j] == rows[..j];
      var model := new PeriodicTask(row.name, true, row.lastRunAt, row.totalRunCount);
      if row.loadable {
        var entry := new TenantModelEntry(model, [schema]);
        var key := EntryKey(schema, row.name);
        extended := extended[key := entry];
        target := target[key := RowView(schema, row)];
      }
      // A row that is not loadable raised ValueError: it is logged and skipped.
      j := j + 1;
    }
    assert rows[..j] == rows;
  }

  /** No two keys share a task, so advancing one entry leaves the others alone. */
  ghost predicate Unshared(entries: map<string, TenantModelEntry>)
  {
    forall key, key' :: key in entries && key' in entries && key != key' ==> entries[key].model != entries[key'].model
  }

  class TenantDatabaseScheduler {
    /** Last change marker seen per tenant schema. */
    var diffs: map<string, Marker>
    /** The in-memory schedule. */
    var schedule: map<string, TenantModelEntry>
    /** Keys of the entries whose state must be saved. */
    var dirty: set<string>
    /** The cached tenant list. */
    var schemasCache: Option<CacheSlot>
    /** Every call made to the task producer, in order. */
    var submissions: seq<Submission>

    /** Every entry in the schedule names at least one tenant schema. */
    ghost predicate Valid()
      reads this
    {
      forall key :: key in schedule ==> schedule[key].tenantSchemas != []
    }

    constructor ()
      ensures Valid()
      ensures diffs == map[] && schedule == map[] && dirty == {}
      ensures schemasCache == None && submissions == []
    {
      diffs := map[];
      schedule := map[];
      dirty := {};
      schemasCache := None;
      submissions := [];
    }

    /** The tenant schemas (`get_schemas_list`): the cached list while it is
        fresh and not empty, otherwise the tenant table's schemas followed by
        the public schema, cached for 60 seconds. */
    method GetSchemasList(tenants: seq<string>, publicSchema: string, now: int) returns (schemas: seq<string>)
      modifies this`schemasCache
      ensures schemas == SchemasList(old(schemasCache), tenants, publicSchema, now)
      ensures schemasCache == CacheAfter(old(schemasCache), tenants, publicSchema, now)
    {
      var cached := CachedSchemas(schemasCache, now);
      if cached.Some? {
        return cached.value;
      }
      schemas := tenants + [publicSchema];
      schemasCache := Some(CacheSlot(schemas, now + SchemasCacheTtl));
    }

    /** The schedule of every tenant (`all_as_schedule`), keyed
        `"<schema>:<name>"`; each entry wraps a task of its own. */
    method AllAsSchedule(tenants: seq<string>, publicSchema: string, now: int, store: map<string, seq<Row>>)
      returns (result: map<string, TenantModelEntry>)
      modifies this`schemasCache
      ensures schemasCache == CacheAfter(old(schemasCache), tenants, publicSchema, now)
      ensures Realises(result, LoadAll(SchemasList(old(schemasCache), tenants, publicSchema, now), store))
      ensures forall key :: key in result ==> fresh(result[key]) && fresh(result[key].model)
      ensures Unshared(result)
    {
      var schemas := GetSchemasList(tenants, publicSchema, now);
      ghost var cache := schemasCache;
      result := map[];
      ghost var loaded: map<string, View> := map[];
      var i := 0;
      while i < |schemas|
        invariant 0 <= i <= |schemas|
        invariant schemasCache == cache
        invariant loaded == LoadAll(schemas[..i], store)
        invariant Realises(result, loaded) && Unshared(result)
        invariant forall key :: key in result ==> fresh(result[key]) && fresh(result[key].model)
      {
        var schema := schemas[i];
        assert schemas[..i + 1][..i] == schemas[..i];
        result := LoadRows(schema, RowsOf(store, schema), result, loaded);
        loaded := LoadTenant(loaded, schema, RowsOf(store, schema));
        i := i + 1;
      }
      assert schemas[..i] == schemas;
    }

    /** Reserving an entry for dispatch (`reserve`): advances it and marks
        `"<first schema>:<name>"` dirty. */
    method Reserve(entry: TenantModelEntry, now: int) returns (next: TenantModelEntry)
      requires entry.tenantSchemas != []
      modifies this`dirty, entry.model
      ensures dirty == old(dirty) + {EntryKey(entry.tenantSchemas[0], entry.Name())}
      ensures entry.model.lastRunAt == Some(now)
      ensures entry.model.totalRunCount == old(entry.model.totalRunCount) + 1
      ensures entry.model.noChanges && entry.model.enabled == old(entry.model.enabled)
      ensures fresh(next) && next.model == entry.model
      ensures next.tenantSchemas == entry.tenantSchemas && next.Name() == entry.Name()
    {
      next := entry.Next(now);
      dirty := dirty + {EntryKey(next.tenantSchemas[0], next.Name())};
    }

    /** Sending a due entry (`apply_entry`): one call to the producer from the
        entry's first schema (the public schema when it has none), never asking
        it to advance the entry. An exception from the producer is logged and
        swallowed; reading the id of the answer happens outside that guard, so
        an answer with no id makes the call raise (`escaped`). The periodic
        sync the library may run inside the submission is not modelled. */
    method ApplyEntry(entry: TenantModelEntry, publicSchema: string, producer: Submission -> SubmitResult)
      returns (escaped: bool)
      modifies this`submissions
      ensures submissions == old(submissions) + [Submission(entry.Name(), DispatchScope(entry.tenantSchemas, publicSchema), false)]
      ensures escaped <==> producer(Submission(entry.Name(), DispatchScope(entry.tenantSchemas, publicSchema), false)).Unidentified?
    {
      var scope := DispatchScope(entry.tenantSchemas, publicSchema);
      var request := Submission(entry.Name(), scope, false);
      submissions := submissions + [request];
      var answer := producer(request);
      match answer {
        case Raised =>
          // Logged and swallowed.
          escaped := false;
        case Accepted(id) =>
          // The id is logged.
          escaped := false;
        case Unidentified =>
          // Reading `result.id` raises AttributeError out of the call.
          escaped := true;
      }
    }

    /** Whether any tenant's schedule changed (`schedule_changed`).
        `outcomes[i]` is what fetching the change marker yields on the visit
        of the i-th listed tenant. */
    method ScheduleChanged(tenants: seq<string>, publicSchema: string, now: int, outcomes: seq<FetchOutcome>)
      returns (changed: bool)
      requires |outcomes| == |SchemasList(schemasCache, tenants, publicSchema, now)|
      modifies this`schemasCache, this`diffs
      ensures schemasCache == CacheAfter(old(schemasCache), tenants, publicSchema, now)
      ensures var scan := Scan(old(diffs), SchemasList(old(schemasCache), tenants, publicSchema, now), outcomes);
              changed == scan.changed && diffs == scan.diffs
    {
      var schemas := GetSchemasList(tenants, publicSchema, now);
      ghost var cache := schemasCache;
      ghost var target := Scan(diffs, schemas, outcomes);
      assert schemas[0..] == schemas && outcomes[0..] == outcomes;
      var i := 0;
      while i < |schemas|
        invariant 0 <= i <= |schemas|
        invariant Scan(diffs, schemas[i..], outcomes[i..]) == target
        invariant schemasCache == cache
      {
        var schema := schemas[i];
        assert schemas[i..][1..] == schemas[i + 1..] && outcomes[i..][1..] == outcomes[i + 1..];
        match outcomes[i] {
          case Fetched(ts) =>
            var last := LastSeen(diffs, schema);
            var isNewer := Newer(ts, last);
            diffs := diffs[schema := ts];
            if isNewer {
              return true;
            }
          case InterfaceErr =>
            // Logged as a warning; the tenant is retried on the next call.
          case DatabaseErr =>
            // Logged; the tenant is skipped.
        }
        i := i + 1;
      }
      return false;
    }

    /** Merging entries built from a configuration mapping
        (`update_from_dict`): for each tenant, the enabled items it can build,
        keyed by bare name, overwrite the schedule's entries under that name;
        no key is ever removed. */
    method UpdateFromDict(tenants: seq<string>, publicSchema: string, now: int, names: seq<string>, build: (string, string) -> Upsert)
      returns (ghost added: map<string, TenantModelEntry>)
      requires Valid()
      modifies this`schemasCache, this`schedule
      ensures Valid()
      ensures schemasCache == CacheAfter(old(schemasCache), tenants, publicSchema, now)
      ensures schedule == old(schedule) + added
      ensures Realises(added, Merged(SchemasList(old(schemasCache), tenants, publicSchema, now), names, build))
      ensures forall key :: key in added ==> fresh(added[key]) && fresh(added[key].model)
    {
      var schemas := GetSchemasList(tenants, publicSchema, now);
      ghost var cache := schemasCache;
      ghost var base := schedule;
      ghost var merged: map<string, View> := map[];
      added := map[];
      var i := 0;
      while i < |schemas|
        invariant 0 <= i <= |schemas|
        invariant schemasCache == cache
        invariant merged == Merged(schemas[..i], names, build)
        invariant schedule == base + added
        invariant Realises(added, merged)
        invariant forall key :: key in added ==> fresh(added[key]) && fresh(added[key].model) && added[key].tenantSchemas != []
      {
        var schema := schemas[i];
        var batch := BuildBatch(schema, names, build);
        ghost var built := Batch(schema, names, build);
        MergedStep(schemas, i, names, build);
        RealisesUnion(added, batch, merged, built);
        UnionAssociates(base, added, batch);
        ghost var next := added + batch;
        forall key | key in next
          ensures fresh(next[key]) && fresh(next[key].model) && next[key].tenantSchemas != []
        {
          if key in batch {
            assert next[key] == batch[key];
          } else {
            assert next[key] == added[key];
          }
        }
        schedule := schedule + batch;
        added := next;
        merged := merged + built;
        i := i + 1;
      }
      assert schemas[..i] == schemas;
    }
  }
}
