/**
  Schedule entries. A `PeriodicTask` is the stored task row an entry wraps; it
  is an object because advancing an entry changes it in place and the advanced
  entry wraps the very same object.
*/
module Entries {
  import opened Wrappers
  import opened ScheduleSpec

  /** A periodic task as loaded from one tenant's store. */
  class PeriodicTask {
    const name: string
    var enabled: bool
    var lastRunAt: Option<int>
    var totalRunCount: int
    var noChanges: bool

    constructor (name: string, enabled: bool, lastRunAt: Option<int>, totalRunCount: int)
      ensures this.name == name && this.enabled == enabled
      ensures this.lastRunAt == lastRunAt && this.totalRunCount == totalRunCount
      ensures !noChanges
    {
      this.name := name;
      this.enabled := enabled;
      this.lastRunAt := lastRunAt;
      this.totalRunCount := totalRunCount;
      noChanges := false;
    }
  }

  /** An in-memory schedule entry bound to an ordered list of tenant schemas. */
  class TenantModelEntry {
    const model: PeriodicTask
    const tenantSchemas: seq<string>

    /** The entry's name is its task's name. */
    function Name(): string
    {
      model.name
    }

    /** An entry built from code: with no tenant schemas it is bound to the
        default schema. */
    constructor (model: PeriodicTask, requested: seq<string>)
      ensures this.model == model
      ensures tenantSchemas == DefaultSchemas(requested) && tenantSchemas != []
    {
      this.model := model;
      tenantSchemas := DefaultSchemas(requested);
    }

    /** An entry over `model` that takes over the tenant schemas of the entry
        it replaces, whatever they are. */
    constructor Carrying(model: PeriodicTask, tenantSchemas: seq<string>)
      ensures this.model == model && this.tenantSchemas == tenantSchemas
    {
      this.model := model;
      this.tenantSchemas := tenantSchemas;
    }

    /** What the entry holds, as a value. */
    ghost function Snapshot(): View
      reads model
    {
      View(tenantSchemas, model.name, model.enabled, model.lastRunAt, model.totalRunCount)
    }

    /** Advancing an entry (`__next__`): the shared task records one more run
        at `now`, and the new entry wraps that same task with the same tenant
        schemas, so the old entry sees the change too. */
    method Next(now: int) returns (next: TenantModelEntry)
      modifies model
      ensures model.lastRunAt == Some(now)
      ensures model.totalRunCount == old(model.totalRunCount) + 1
      ensures model.noChanges && model.enabled == old(model.enabled)
      ensures fresh(next) && next.model == model
      ensures next.tenantSchemas == tenantSchemas && next.Name() == Name()
    {
      model.lastRunAt := Some(now);
      model.totalRunCount := model.totalRunCount + 1;
      model.noChanges := true;
      next := new TenantModelEntry.Carrying(model, tenantSchemas);
    }
  }
}
