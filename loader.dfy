/** The unified catalog loader (src/demo/catalog/loader.py): flat per-process specs compiled
    with validation, merged with the compiled recruiting process. The YAML files arrive already
    parsed; reading them is not part of this model. */
module Loader {
  import opened Wrappers
  import opened Seqs
  import opened Dicts
  import opened CatalogNormalize
  import opened CatalogTypes
  import opened Compiler

  /** A `health` block: each threshold key may be absent. */
  datatype HealthDoc = HealthDoc(atRisk: Slot<int>, overdue: Slot<int>)

  /** One entry of the flat process catalog; absent lists read as empty. */
  datatype FlatSpec = FlatSpec(
    steps: seq<string>,
    processAliases: seq<string>,
    stepAliases: Dict<string, seq<string>>,
    health: Option<HealthDoc>,
    displayName: Option<string>,
    owner: Option<string>)

  /** `spec or {}`: a null spec reads as the empty one. */
  const EmptySpec: FlatSpec := FlatSpec([], [], [], None, None, None)

  function SlotOr(s: Slot<int>, default: int): int {
    if s.Present? then s.value else default
  }

  /** `_coerce_health`: a missing block, and each missing key, defaults to 7 / 14 days. */
  function CoerceHealth(raw: Option<HealthDoc>): (h: HealthSpec)
    ensures raw.None? ==> h == DefaultHealth
    ensures raw.Some? ==> h == HealthSpec(SlotOr(raw.value.atRisk, 7), SlotOr(raw.value.overdue, 14))
  {
    if raw.None? || raw.value == HealthDoc(Missing, Missing) then DefaultHealth
    else HealthSpec(SlotOr(raw.value.atRisk, 7), SlotOr(raw.value.overdue, 14))
  }

  function EmptyStepsError(processId: string): string {
    "process '" + processId + "' must define non-empty steps"
  }

  function DuplicateStepsError(processId: string): string {
    "process '" + processId + "' steps must be unique after normalization"
  }

  function HealthError(processId: string): string {
    "process '" + processId + "' health thresholds invalid: overdue < at_risk"
  }

  /** `{k: dedupe_aliases(v or []) for k, v in step_aliases.items()}`. */
  function DedupeStepAliases(d: Dict<string, seq<string>>): (r: Dict<string, seq<string>>)
    ensures Keys(r) == Keys(d)
    ensures forall i :: 0 <= i < |d| ==> r[i] == (d[i].0, DedupeAliasesSpec(d[i].1))
    decreases |d|
  {
    if d == [] then [] else [(d[0].0, DedupeAliasesSpec(d[0].1))] + DedupeStepAliases(d[1..])
  }

  /** `[normalize_text(s) for s in steps]`. */
  function NormalizedSteps(steps: seq<string>): (r: seq<string>)
    ensures |r| == |steps| && forall i :: 0 <= i < |steps| ==> r[i] == Normalize(steps[i])
  {
    seq(|steps|, i requires 0 <= i < |steps| => Normalize(steps[i]))
  }

  /** `_compile_from_process_catalog`. */
  function CompileFromProcessCatalog(processId: string, spec: FlatSpec): Result<CatalogProcess, string> {
    var normed := NormalizedSteps(spec.steps);
    var health := CoerceHealth(spec.health);
    if spec.steps == [] then Err(EmptyStepsError(processId))
    else if |ToSet(normed)| != |normed| then Err(DuplicateStepsError(processId))
    else if health.overdueAfterDays < health.atRiskAfterDays then Err(HealthError(processId))
    else Ok(CatalogProcess(processId, OrDefault(spec.displayName, processId), spec.owner, spec.steps,
                           DedupeAliasesSpec(spec.processAliases), DedupeStepAliases(spec.stepAliases),
                           health, None, None))
  }

  /** A flat spec compiles exactly when its steps are non-empty, no two steps share a normal
      form and overdue is not before at-risk; each failure has its own message, checked in that
      order. */
  lemma CompileFromProcessCatalogErrors(processId: string, spec: FlatSpec)
    ensures var r := CompileFromProcessCatalog(processId, spec);
      var h := CoerceHealth(spec.health);
      var distinctSteps := Distinct(NormalizedSteps(spec.steps));
      && (r.Ok? <==> spec.steps != [] && distinctSteps && h.atRiskAfterDays <= h.overdueAfterDays)
      && (spec.steps == [] ==> r == Err(EmptyStepsError(processId)))
      && (spec.steps != [] && !distinctSteps ==> r == Err(DuplicateStepsError(processId)))
      && (spec.steps != [] && distinctSteps && h.overdueAfterDays < h.atRiskAfterDays ==> r == Err(HealthError(processId)))
  {
    SetSizeDistinct(NormalizedSteps(spec.steps));
  }

  /** A compiled flat process keeps the id, owner and steps, defaults its display name to the
      id, de-duplicates its process aliases and each step's aliases, and carries no phases. */
  lemma CompileFromProcessCatalogMeaning(processId: string, spec: FlatSpec)
    requires CompileFromProcessCatalog(processId, spec).Ok?
    ensures var p := CompileFromProcessCatalog(processId, spec).value;
      && p.processId == processId
      && p.steps == spec.steps && p.steps != []
      && p.displayName == OrDefault(spec.displayName, processId)
      && p.owner == spec.owner
      && p.health == CoerceHealth(spec.health)
      && p.health.atRiskAfterDays <= p.health.overdueAfterDays
      && p.processAliases == DedupeAliasesSpec(spec.processAliases)
      && Keys(p.stepAliases) == Keys(spec.stepAliases)
      && (forall k :: Get(spec.stepAliases, k).Some? ==> Get(p.stepAliases, k) == Some(DedupeAliasesSpec(Get(spec.stepAliases, k).value)))
      && p.phases.None? && p.stepToPhase.None?
  {
    DedupeStepAliasesGet(spec.stepAliases);
  }

  lemma {:induction false} DedupeStepAliasesGet(d: Dict<string, seq<string>>)
    ensures forall k :: Get(d, k).Some? ==> Get(DedupeStepAliases(d), k) == Some(DedupeAliasesSpec(Get(d, k).value))
    decreases |d|
  {
    if d != [] {
      DedupeStepAliasesGet(d[1..]);
    }
  }

  /** The two flat ids that never come from the flat catalog. */
  predicate Reserved(processId: string) {
    processId == "hiring" || processId == "recruiting"
  }

  /** How one flat entry is compiled; the merge facts hold for any such function. */
  type Compile = (string, FlatSpec) -> Result<CatalogProcess, string>

  /** The merge loop of `load_unified_catalog`: starting from the compiled recruiting process,
      every non-reserved flat entry is compiled in order and assigned; the first failure stops. */
  function MergeFlat(compiled: Dict<string, CatalogProcess>, flat: Dict<string, Option<FlatSpec>>, compile: Compile): Result<Dict<string, CatalogProcess>, string>
    decreases |flat|
  {
    if flat == [] then Ok(compiled)
    else
      match MergeFlat(compiled, flat[..|flat| - 1], compile)
      case Err(e) => Err(e)
      case Ok(d) =>
        var (processId, spec) := flat[|flat| - 1];
        if Reserved(processId) then Ok(d)
        else
          match compile(processId, OrSpec(spec))
          case Err(e) => Err(e)
          case Ok(p) => Ok(Put(d, processId, p))
  }

  function OrSpec(spec: Option<FlatSpec>): FlatSpec {
    if spec.Some? then spec.value else EmptySpec
  }

  /** `load_unified_catalog` on parsed documents. */
  function LoadUnifiedCatalogOf(doc: WorkflowDoc, ov: Option<RecruitingOverride>, flat: Dict<string, Option<FlatSpec>>): Result<ProcessCatalog, string> {
    match CompileRecruitingOf(doc, ov)
    case Err(e) => Err(e)
    case Ok(recruiting) =>
      match MergeFlat([("recruiting", recruiting)], flat, CompileFromProcessCatalog)
      case Err(e) => Err(e)
      case Ok(d) => Ok(ProcessCatalog(d))
  }

  /** Entry `i` of the flat catalog compiles. */
  predicate Compiles(flat: Dict<string, Option<FlatSpec>>, i: int, compile: Compile)
    requires 0 <= i < |flat|
  {
    compile(flat[i].0, OrSpec(flat[i].1)).Ok?
  }

  /** Every non-reserved entry before `n` compiles. */
  predicate AllCompile(flat: Dict<string, Option<FlatSpec>>, n: int, compile: Compile)
    requires 0 <= n <= |flat|
  {
    forall j :: 0 <= j < n && !Reserved(flat[j].0) ==> Compiles(flat, j, compile)
  }

  /** Entry `i` is the first non-reserved entry that does not compile. */
  predicate FirstFailure(flat: Dict<string, Option<FlatSpec>>, i: int, compile: Compile)
    requires 0 <= i < |flat|
  {
    !Reserved(flat[i].0) && !Compiles(flat, i, compile) && AllCompile(flat, i, compile)
  }

  /** The merge succeeds exactly when every non-reserved entry compiles; otherwise it reports
      the first failing entry's error. */
  lemma {:induction false} MergeFlatErrors(compiled: Dict<string, CatalogProcess>, flat: Dict<string, Option<FlatSpec>>, compile: Compile)
    ensures MergeFlat(compiled, flat, compile).Ok? <==> AllCompile(flat, |flat|, compile)
    ensures MergeFlat(compiled, flat, compile).Err? ==>
      exists i :: 0 <= i < |flat| && FirstFailure(flat, i, compile)
                  && MergeFlat(compiled, flat, compile).error == compile(flat[i].0, OrSpec(flat[i].1)).error
    decreases |flat|
  {
    if flat != [] {
      var n := |flat| - 1;
      var prefix := flat[..n];
      MergeFlatErrors(compiled, prefix, compile);
      assert forall j :: 0 <= j < n ==> prefix[j] == flat[j];
      assert forall j :: 0 <= j < n ==> (Compiles(prefix, j, compile) <==> Compiles(flat, j, compile));
      assert AllCompile(prefix, n, compile) <==> AllCompile(flat, n, compile);
      if MergeFlat(compiled, prefix, compile).Err? {
        var i :| 0 <= i < n && FirstFailure(prefix, i, compile)
          && MergeFlat(compiled, prefix, compile).error == compile(prefix[i].0, OrSpec(prefix[i].1)).error;
        assert FirstFailure(flat, i, compile);
      } else if MergeFlat(compiled, flat, compile).Err? {
        assert FirstFailure(flat, n, compile);
      }
    }
  }

  /** A successful merge has the starting keys followed by the non-reserved flat ids. */
  lemma {:induction false} MergeFlatKeys(compiled: Dict<string, CatalogProcess>, flat: Dict<string, Option<FlatSpec>>, compile: Compile)
    ensures MergeFlat(compiled, flat, compile).Ok? ==>
      forall k :: HasKey(MergeFlat(compiled, flat, compile).value, k) <==> HasKey(compiled, k) || (HasKey(flat, k) && !Reserved(k))
    decreases |flat|
  {
    if flat != [] {
      var n := |flat| - 1;
      MergeFlatKeys(compiled, flat[..n], compile);
      KeysDropLast(flat);
      var r := MergeFlat(compiled, flat[..n], compile);
      if r.Ok? && !Reserved(flat[n].0) && Compiles(flat, n, compile) {
        PutKeys(r.value, flat[n].0, compile(flat[n].0, OrSpec(flat[n].1)).value);
      }
    }
  }

  /** In a successful merge over distinct flat ids, each non-reserved flat id holds its compiled
      spec and every other id reads as in the starting dictionary. */
  lemma {:induction false} MergeFlatValues(compiled: Dict<string, CatalogProcess>, flat: Dict<string, Option<FlatSpec>>, compile: Compile)
    requires ValidDict(flat)
    ensures MergeFlat(compiled, flat, compile).Ok? ==> var d := MergeFlat(compiled, flat, compile).value;
      && (forall k :: !HasKey(flat, k) || Reserved(k) ==> Get(d, k) == Get(compiled, k))
      && (forall i :: 0 <= i < |flat| && !Reserved(flat[i].0) && Compiles(flat, i, compile) ==>
            Get(d, flat[i].0) == Some(compile(flat[i].0, OrSpec(flat[i].1)).value))
    decreases |flat|
  {
    if flat != [] {
      var n := |flat| - 1;
      var prefix := flat[..n];
      KeysFacts(flat);
      KeysFacts(prefix);
      assert forall i :: 0 <= i < n ==> prefix[i] == flat[i];
      assert ValidDict(prefix) by {
        forall i, j | 0 <= i < j < n ensures Keys(prefix)[i] != Keys(prefix)[j] {
          KeysAt(prefix, i);
          KeysAt(prefix, j);
          KeysAt(flat, i);
          KeysAt(flat, j);
        }
      }
      MergeFlatValues(compiled, prefix, compile);
      KeysDropLast(flat);
      var r := MergeFlat(compiled, prefix, compile);
      var pid := flat[n].0;
      if r.Ok? && !Reserved(pid) && Compiles(flat, n, compile) {
        var p := compile(pid, OrSpec(flat[n].1)).value;
        PutGetSame(r.value, pid, p);
        forall k | k != pid ensures Get(Put(r.value, pid, p), k) == Get(r.value, k) {
          PutGetOther(r.value, pid, p, k);
        }
      }
    }
  }

  /** The keys of a dictionary, read positionally. */
  lemma KeysFacts<K, V>(d: Dict<K, V>)
    ensures forall k :: HasKey(d, k) <==> exists i :: 0 <= i < |d| && d[i].0 == k
    ensures ValidDict(d) ==> forall i, j :: 0 <= i < j < |d| ==> d[i].0 != d[j].0
  {
    forall i | 0 <= i < |d| ensures Keys(d)[i] == d[i].0 { KeysAt(d, i); }
  }

  /** The merge never moves the first entry, and keeps it when no flat entry overwrites it. */
  lemma {:induction false} MergeFlatKeepsFirst(compiled: Dict<string, CatalogProcess>, flat: Dict<string, Option<FlatSpec>>, compile: Compile)
    requires compiled != [] && Reserved(compiled[0].0)
    ensures MergeFlat(compiled, flat, compile).Ok? ==> MergeFlat(compiled, flat, compile).value != [] && MergeFlat(compiled, flat, compile).value[0] == compiled[0]
    decreases |flat|
  {
    if flat != [] {
      MergeFlatKeepsFirst(compiled, flat[..|flat| - 1], compile);
    }
  }

  /** The unified catalog: it fails exactly when the recruiting compilation fails or some flat
      entry other than "hiring" and "recruiting" fails; otherwise "recruiting" is the first key
      and holds the compiled recruiting process, "hiring" is never a key, and every other flat
      id holds its compiled spec. */
  lemma LoadUnifiedCatalogMeaning(doc: WorkflowDoc, ov: Option<RecruitingOverride>, flat: Dict<string, Option<FlatSpec>>)
    requires ValidDict(flat)
    ensures var r := LoadUnifiedCatalogOf(doc, ov, flat);
      && (r.Err? <==> (CompileRecruitingOf(doc, ov).Err? || !AllCompile(flat, |flat|, CompileFromProcessCatalog)))
      && (r.Ok? ==>
            && r.value.processes != [] && r.value.processes[0] == ("recruiting", CompileRecruitingOf(doc, ov).value)
            && !HasKey(r.value.processes, "hiring")
            && (forall k :: HasKey(r.value.processes, k) <==> k == "recruiting" || (HasKey(flat, k) && !Reserved(k)))
            && (forall i :: 0 <= i < |flat| && !Reserved(flat[i].0) ==>
                  Get(r.value.processes, flat[i].0) == Some(CompileFromProcessCatalog(flat[i].0, OrSpec(flat[i].1)).value)))
  {
    var rc := CompileRecruitingOf(doc, ov);
    if rc.Ok? {
      var start := [("recruiting", rc.value)];
      MergeFlatErrors(start, flat, CompileFromProcessCatalog);
      MergeFlatKeys(start, flat, CompileFromProcessCatalog);
      MergeFlatValues(start, flat, CompileFromProcessCatalog);
      MergeFlatKeepsFirst(start, flat, CompileFromProcessCatalog);
      assert Keys(start) == ["recruiting"];
    }
  }

  // ---------------------------------------------------------------- the merge loop

  /** The merge loop of `load_unified_catalog`. */
  method MergeFlatLoop(recruiting: CatalogProcess, flat: Dict<string, Option<FlatSpec>>) returns (r: Result<Dict<string, CatalogProcess>, string>)
    ensures r == MergeFlat([("recruiting", recruiting)], flat, CompileFromProcessCatalog)
  {
    var compiled: Dict<string, CatalogProcess> := [("recruiting", recruiting)];
    var i := 0;
    while i < |flat|
      invariant 0 <= i <= |flat|
      invariant MergeFlat([("recruiting", recruiting)], flat[..i], CompileFromProcessCatalog) == Ok(compiled)
    {
      var (processId, spec) := flat[i];
      TakeSnoc(flat, i);
      if processId != "hiring" && processId != "recruiting" {
        var p := CompileFromProcessCatalog(processId, if spec.Some? then spec.value else EmptySpec);
        if p.Err? {
          MergeFlatErrSticks([("recruiting", recruiting)], flat, CompileFromProcessCatalog, i + 1);
          return Err(p.error);
        }
        compiled := Put(compiled, processId, p.value);
      }
      i := i + 1;
    }
    TakeAll(flat);
    return Ok(compiled);
  }

  /** Once the merge has failed, later entries cannot undo it. */
  lemma {:induction false} MergeFlatErrSticks(compiled: Dict<string, CatalogProcess>, flat: Dict<string, Option<FlatSpec>>, compile: Compile, i: nat)
    requires i <= |flat| && MergeFlat(compiled, flat[..i], compile).Err?
    ensures MergeFlat(compiled, flat, compile) == MergeFlat(compiled, flat[..i], compile)
    decreases |flat| - i
  {
    if i < |flat| {
      TakeSnoc(flat, i);
      MergeFlatErrSticks(compiled, flat, compile, i + 1);
    } else {
      assert flat[..i] == flat;
    }
  }

  /** `load_unified_catalog`. */
  method LoadUnifiedCatalog(doc: WorkflowDoc, ov: Option<RecruitingOverride>, flat: Dict<string, Option<FlatSpec>>) returns (r: Result<ProcessCatalog, string>)
    ensures r == LoadUnifiedCatalogOf(doc, ov, flat)
  {
    var recruiting := CompileRecruiting(doc, ov);
    if recruiting.Err? {
      return Err(recruiting.error);
    }
    var merged := MergeFlatLoop(recruiting.value, flat);
    if merged.Err? {
      return Err(merged.error);
    }
    return Ok(ProcessCatalog(merged.value));
  }
}
