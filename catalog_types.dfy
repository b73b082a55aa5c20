/** The unified process catalog's records (src/demo/catalog/types.py). */
module CatalogTypes {
  import opened Wrappers
  import opened Dicts

  datatype HealthSpec = HealthSpec(atRiskAfterDays: int, overdueAfterDays: int)

  /** The thresholds a process gets when nothing else is said: at risk after 7 days, overdue after 14. */
  const DefaultHealth: HealthSpec := HealthSpec(7, 14)

  /** One catalog process. `stepAliases` maps a step id to its aliases in insertion order;
      `phases` and `stepToPhase` are absent for processes compiled from a flat spec. */
  datatype CatalogProcess = CatalogProcess(
    processId: string,
    displayName: string,
    owner: Option<string>,
    steps: seq<string>,
    processAliases: seq<string>,
    stepAliases: Dict<string, seq<string>>,
    health: HealthSpec,
    phases: Option<seq<string>>,
    stepToPhase: Option<map<string, string>>)

  /** Building a `CatalogProcess` from its four required fields fills in the dataclass defaults. */
  function NewCatalogProcess(processId: string, displayName: string, owner: Option<string>, steps: seq<string>): (p: CatalogProcess)
    ensures p.processId == processId && p.displayName == displayName && p.owner == owner && p.steps == steps
    ensures p.health == HealthSpec(7, 14)
    ensures p.processAliases == [] && p.stepAliases == []
    ensures p.phases.None? && p.stepToPhase.None?
  {
    CatalogProcess(processId, displayName, owner, steps, [], [], DefaultHealth, None, None)
  }

  /** The catalog: process id to process, in insertion order. */
  datatype ProcessCatalog = ProcessCatalog(processes: Dict<string, CatalogProcess>)

  /** `process_id in catalog.processes`. */
  predicate InCatalog(cat: ProcessCatalog, processId: string) {
    HasKey(cat.processes, processId)
  }
}
