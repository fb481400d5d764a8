# Tenant-aware database scheduler

This project models the scheduler in `scheduler.py`, a multi-tenant subclass of
django-celery-beat's `DatabaseScheduler`. Each tenant lives in its own database
schema. The scheduler:

- keeps the last change marker it saw for each tenant schema (`diffs`) and
  reports whether any tenant's periodic-task table changed since then
  (`schedule_changed`);
- loads the schedule of every tenant under keys `"<schema>:<name>"`
  (`all_as_schedule`), with the tenant list cached for 60 seconds
  (`get_schemas_list`);
- advances an entry and marks it dirty (`reserve`, `TenantModelEntry.__next__`);
- sends a due entry from its first tenant schema (`apply_entry`);
- merges entries built from a configuration mapping (`update_from_dict`).

The model has five modules:

- `Wrappers`: the `Option` type. A `None` change marker is Python's `None`.
- `ChangeDetection`: the change detector as functions over the marker map.
  `Scan` follows the loop of `schedule_changed`. `Replay`, `DiffsBefore` and
  `ReportsAt` read the same behaviour visit by visit. The lemmas prove the two
  readings agree and derive what callers rely on.
- `ScheduleSpec`: value-level definitions of what the scheduler builds. These
  are schedule keys, an entry's tenant schemas, the dispatch scope, the cached
  tenant list, the schedule loaded from every tenant (`LoadAll`) and the
  entries merged from a mapping (`Merged`). Lemmas state their properties.
- `Entries`: the `PeriodicTask` row as a heap object, and `TenantModelEntry`
  wrapping it. Advancing an entry changes the shared task in place, and the new
  entry wraps the same object.
- `Scheduler`: the `TenantDatabaseScheduler` class. Its fields are `diffs`,
  `schedule`, `dirty` (`_dirty`), the tenant-list cache and the log of producer
  calls. Each method is proved to produce the state that the `ChangeDetection`
  or `ScheduleSpec` functions describe.

The outside world enters as parameters:

- the tenant table's schema names;
- the public schema name;
- the clock (`now`, in seconds);
- for `schedule_changed`, one fetch outcome per visited tenant: a marker,
  an interface error or a database error;
- for `all_as_schedule`, a store mapping each schema to its enabled task rows.
  A row that is not `loadable` makes entry construction raise `ValueError`;
- for `update_from_dict`, a build function giving the outcome of `from_entry`
  for each (schema, item) pair;
- for `apply_entry`, a producer that answers with an id, answers without one, or raises.

## Model

| member | source | states |
|---|---|---|
| ChangeDetection.LastSeen | scheduler.py:130 | defines `diffs.get(schema)`: absent and None read alike |
| ChangeDetection.Record | scheduler.py:133-134 | defines the `finally` write of a fetched marker, None included; a failed fetch writes nothing |
| ChangeDetection.Scan | scheduler.py:110-135 | defines the loop's answer and its `diffs`; pinned down by `ScanStopsAtFirstReport` |
| ScheduleSpec.EntryKey | scheduler.py:70 | defines the key `"<schema>:<name>"`; `EntryKeyInjective` states when it is one-to-one |
| ScheduleSpec.LoadTenant | scheduler.py:68-72 | defines one tenant's share of the loaded schedule; pinned down by `LoadTenantSound` and `LoadTenantComplete` |
| ScheduleSpec.LoadAll | scheduler.py:62-73 | defines the loaded schedule; pinned down by `LoadAllSound` and `LoadAllComplete` |
| ScheduleSpec.Batch | scheduler.py:142-150 | defines one tenant's map `s`; pinned down by `BatchAdmits` |
| ScheduleSpec.Merged | scheduler.py:140-151 | defines everything the `schedule.update` calls write; pinned down by `MergedAdmits` and `MergedTakesLastAdmitting` |
| ChangeDetection.Newer | scheduler.py:130-131 | `ts and ts > (last if last else ts)` holds exactly when both markers are present and `ts` is strictly later; a tenant with nothing recorded compares `ts > ts` |
| ChangeDetection.ScanStopsAtFirstReport | scheduler.py:107-135 | the loop returns true iff some visit, given `diffs` as the earlier visits left it, fetches a newer marker; it stops at the first such visit with every visit up to and including it recorded, and otherwise it has recorded every visit |
| ChangeDetection.ScanRecordsStoppingTenant | scheduler.py:129-134 | the `finally` writes the fetched marker for the tenant at which the call returns true |
| ChangeDetection.ScanLeavesUnvisitedAlone | scheduler.py:110-135 | a tenant listed only after the reporting one keeps its `diffs` entry, or keeps having none |
| ChangeDetection.ScanVisitsPrefix | scheduler.py:110-135 | the resulting `diffs` is the effect of a prefix of the visits that covers every visit the loop reaches |
| ChangeDetection.FailedTenantKeepsMarker | scheduler.py:119-127 | a tenant whose fetches all raise `DatabaseError` or `InterfaceError` keeps its entry, and the loop goes on |
| ChangeDetection.FirstVisitNeverReports | scheduler.py:130-131 | the first visit of a tenant with no recorded marker (absent or None) never reports a change |
| ChangeDetection.FreshStartNeverReports | scheduler.py:129-134 | with `diffs` empty, a call returns false as long as a tenant listed more than once (the public schema appended after the tenant table's names usually is) yields the same marker on each visit |
| ChangeDetection.NoReReport | scheduler.py:129-134 | a second call with no store edit in between does not report at any tenant the first call reached, because every successful fetch was written back |
| ChangeDetection.QuietCallStaysQuiet | scheduler.py:129-135 | a call that returned false, repeated with no store edit in between, returns false |
| ScheduleSpec.EntryKeyInjective | scheduler.py:70 | with colon-free schema names, the key `"<schema>:<name>"` determines both the schema and the name |
| ScheduleSpec.DefaultSchemas | scheduler.py:22-24 | an entry built from code gets the schemas asked for, or `["public"]` when none are given; never an empty list |
| ScheduleSpec.DispatchScope | scheduler.py:92 | the dispatch schema is the entry's first tenant schema, or the public schema when it has none |
| ScheduleSpec.CachedSchemas | scheduler.py:53-55 | the cache hits exactly when it holds an unexpired, non-empty list, and then yields that list |
| ScheduleSpec.SchemasList | scheduler.py:52-60 | the list is never empty; on a hit it is the cached list, and on a miss it is the tenant table's schemas with the public schema appended last |
| ScheduleSpec.CacheAfter | scheduler.py:53-58 | afterwards the cache serves exactly the list just returned; a hit leaves the cache as it was, and a miss caches the new list for 60 seconds |
| ScheduleSpec.TenantListRefreshesAfterTtl | scheduler.py:52-60 | after a refill, later calls see the refilled list until 60 seconds have passed and see the current tenant table from then on |
| ScheduleSpec.LoadTenantSound | scheduler.py:68-72 | every key added for one tenant comes from a loadable row of that tenant |
| ScheduleSpec.LoadTenantComplete | scheduler.py:68-72 | loading a tenant keeps every earlier key and adds the key of every loadable row |
| ScheduleSpec.LoadAllSound | scheduler.py:62-73 | every key of the loaded schedule is `"<schema>:<name>"` for a loadable enabled row of a listed tenant, and its entry is that row bound to `[schema]` |
| ScheduleSpec.LoadAllComplete | scheduler.py:62-73 | every loadable enabled row of every listed tenant has its key in the loaded schedule |
| ScheduleSpec.LoadAllKeyedByTenant | scheduler.py:70 | with colon-free schema names, the entry under `"<schema>:<name>"` is named `name`, has tenant schemas `[schema]` and is dispatched from `schema` |
| ScheduleSpec.OneFailureOmitsOnlyItsKey | scheduler.py:69-72 | a `ValueError` on one row removes at most that row's key: every other key stays and no key appears |
| ScheduleSpec.BatchAdmits | scheduler.py:142-149 | a tenant's map holds an item exactly when its construction succeeds and its task is enabled, and the entry is the one built for that item |
| ScheduleSpec.MergedAdmits | scheduler.py:140-151 | a name is merged exactly when some listed tenant admits it |
| ScheduleSpec.MergedTakesLastAdmitting | scheduler.py:140-151 | under a name, the entry that ends up merged is the one built by the last tenant, in list order, that admits it |
| ScheduleSpec.MergedEntriesUseDefaultSchema | scheduler.py:145-147 | every merged entry is enabled and bound to `["public"]`, whichever tenant built it, so it is dispatched from `"public"` |
| ScheduleSpec.UpdateKeepsUnadmitted | scheduler.py:151 | `schedule.update` never removes a key: an entry that no tenant admits, a disabled one included, stays as it was |
| Entries.TenantModelEntry.constructor | scheduler.py:20-24 | a new entry wraps the given task with the requested tenant schemas, or with `["public"]` when none are requested |
| Entries.TenantModelEntry.Carrying | scheduler.py:32-33 | the advanced entry wraps the given task and takes over the given tenant schemas |
| Entries.TenantModelEntry.Next | scheduler.py:28-34 | the shared task records `last_run_at = now`, one more run and `no_changes`, and nothing else changes; the new entry wraps the same task with the same tenant schemas and name |
| Scheduler.LoadRows | scheduler.py:68-72 | one tenant's rows add exactly `LoadTenant`'s entries, each over a task object of its own |
| Scheduler.BuildBatch | scheduler.py:142-150 | one tenant's map `s` holds exactly `Batch`'s entries, each over a new task object |
| Scheduler.TenantDatabaseScheduler.constructor | scheduler.py:49 | `diffs` starts empty, as the class attribute does; the empty schedule, dirty set and cache are the model's starting state, since the base class's schedule setup is not modelled |
| Scheduler.TenantDatabaseScheduler.GetSchemasList | scheduler.py:52-60 | returns `SchemasList` and leaves the cache as `CacheAfter` says |
| Scheduler.TenantDatabaseScheduler.AllAsSchedule | scheduler.py:62-73 | returns entries whose values are exactly `LoadAll` over the tenant list, over new and pairwise distinct task objects; only the cache changes |
| Scheduler.TenantDatabaseScheduler.Reserve | scheduler.py:75-79 | advances the entry, returns the advanced one and adds exactly `"<first schema>:<name>"` to the dirty set, keeping its other members |
| Scheduler.TenantDatabaseScheduler.ApplyEntry | scheduler.py:85-105 | makes exactly one producer call, from `DispatchScope`, with `advance` false; an exception from the producer is swallowed, and the call raises exactly when the answer carries no id |
| Scheduler.TenantDatabaseScheduler.ScheduleChanged | scheduler.py:107-135 | the answer and the new `diffs` are those of `Scan` over the tenant list; the cache is updated as `CacheAfter` says |
| Scheduler.TenantDatabaseScheduler.UpdateFromDict | scheduler.py:137-151 | the new schedule is the old one overwritten by new entries whose values are exactly `Merged` over the tenant list; no key is removed and every entry keeps a non-empty schema list |

## Left out

- Django ORM queries, `close_old_connections` and `transaction.commit` (scheduler.py:113-117) are not modelled. In `schedule_changed`, their only observable effects are a marker or one of two error classes, and those are the fetch outcomes the model takes as input.
- Scheduler.TenantDatabaseScheduler.GetSchemasList: the tenant-table query (scheduler.py:56) is outside any `try`, so a database error there raises out of `get_schemas_list` and out of every operation that calls it. The tenant list is an input here and cannot fail.
- Scheduler.TenantDatabaseScheduler.AllAsSchedule: the query for a tenant's enabled tasks (scheduler.py:68) is outside the `try`, which catches only `ValueError`. A failing query, for example in a schema without the task table, raises out of the call and loses the entries of every tenant. The store is an input here and cannot fail, so the model does not represent this abort.
- `schema_context` is not modelled as state. Which schema an operation runs in shows up only as a parameter: the schema a row or fetch outcome belongs to, or the scope recorded in a producer call.
- Logging, `is_due` (scheduler.py:81-83), `save` and `_disable` (scheduler.py:36-44) are not modelled. `is_due` and `save` defer to library code that is not part of this model.
- The branch of `TenantModelEntry.__init__` for unpickled entries (scheduler.py:17-19) is not modelled. It depends on the pickle layout.
- `Entries.TenantModelEntry.Next`: builds the new entry with `Carrying` rather than the default constructor followed by an assignment. The end state is the same: the same task object and the same tenant schemas.
- `diffs` is a class attribute shared by every scheduler instance. Here it is a field of one scheduler, so sharing across instances or processes is not modelled.
- The Django cache backend is an optional cached list with an expiry time on the given clock. Eviction before expiry is not modelled.
- `from_entry` also upserts the task row in the store. The model takes only its outcome, through the build function; the store write itself is not modelled.
- `Scheduler.TenantDatabaseScheduler.ScheduleChanged`: requires one fetch outcome per listed tenant. This is a shape condition on the input; the source places no requirement on its caller.
- The `schedule` property of the base class, which reloads the schedule when `schedule_changed` returns true, is not part of this model.
- `update_from_dict` never removes a key: a disabled item is simply not merged (`UpdateKeepsUnadmitted`).
- Scheduler.TenantDatabaseScheduler.UpdateFromDict: treats `schedule` as a plain map. In the source, `self.schedule` is read once per tenant at scheduler.py:151, and the base class's property may then run `schedule_changed`, which writes `diffs`, and replace the schedule with `all_as_schedule()`. That would discard the entries merged for earlier tenants, so "no key is removed" and `schedule == old(schedule) + added` hold only when no such reload happens between tenants.
- Scheduler.TenantDatabaseScheduler.ApplyEntry: the library's `apply_async` (scheduler.py:101) may run its periodic sync, which saves and clears the dirty keys and may reload the schedule and write `diffs`. That sync is not modelled, so the frame (only the producer log changes) holds only for a call that does not sync.
- Timestamps are integers, so time zones and clock resolution are not modelled.
