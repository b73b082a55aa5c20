/** `reconcile_instances`: folding enriched instances into the persistent workflow list,
    with its coverage and drift counters (src/demo/pipeline/reconciliation.py, lines
    343-731). The caller's store records are modelled by value: the engine's updates are
    visible in the returned list. */
module Reconcile {
  import opened Wrappers
  import opened Text
  import opened Seqs
  import opened Dicts
  import opened ReconDefinition
  import opened ReconHelpers

  // ---------------------------------------------------------------- settings

  /** The instance fields an exact key may be built from. */
  datatype KeyField = ClientField | RoleField | ProcessField

  datatype Settings = Settings(
    hiringKeys: seq<string>,
    hiringOnly: bool,
    exactFields: seq<KeyField>,
    threshold: real,
    maxIds: int,
    fallbackMax: int,
    positional: bool,
    completedLabel: string)

  /** The settings as read from the configuration; an absent entry takes its default. */
  datatype Config = Config(
    hiringKeys: Option<seq<string>>,
    hiringOnly: Option<bool>,
    exactFields: Option<seq<KeyField>>,
    threshold: Option<real>,
    maxIds: Option<int>,
    fallbackMax: Option<int>,
    positional: Option<bool>,
    completedLabel: Option<string>)

  function Or<T>(o: Option<T>, default: T): T {
    if o.Some? then o.value else default
  }

  /** `_get_reconciliation_config` for the settings the engine reads. */
  function SettingsOf(c: Config): (s: Settings)
    ensures c.hiringOnly.None? ==> s.hiringOnly
    ensures c.hiringKeys.None? ==> s.hiringKeys == ["recruiting", "hiring"]
    ensures c.exactFields.None? ==> s.exactFields == [ClientField, RoleField, ProcessField]
    ensures c.threshold.None? ==> s.threshold == 0.88
    ensures c.maxIds.None? ==> s.maxIds == 200
    ensures c.fallbackMax.None? ==> s.fallbackMax == 30
    ensures c.positional.None? ==> s.positional
    ensures c.completedLabel.None? ==> s.completedLabel == "completed_inferred"
    ensures c.hiringOnly.Some? ==> s.hiringOnly == c.hiringOnly.value
    ensures c.hiringKeys.Some? ==> s.hiringKeys == c.hiringKeys.value
    ensures c.exactFields.Some? ==> s.exactFields == c.exactFields.value
    ensures c.threshold.Some? ==> s.threshold == c.threshold.value
    ensures c.maxIds.Some? ==> s.maxIds == c.maxIds.value
    ensures c.fallbackMax.Some? ==> s.fallbackMax == c.fallbackMax.value
    ensures c.positional.Some? ==> s.positional == c.positional.value
    ensures c.completedLabel.Some? ==> s.completedLabel == c.completedLabel.value
  {
    Settings(Or(c.hiringKeys, ["recruiting", "hiring"]), Or(c.hiringOnly, true),
             Or(c.exactFields, [ClientField, RoleField, ProcessField]), Or(c.threshold, 0.88),
             Or(c.maxIds, 200), Or(c.fallbackMax, 30), Or(c.positional, true),
             Or(c.completedLabel, "completed_inferred"))
  }

  /** Everything the engine consults besides the instances and the store: the evidence
      timeline, the workflow definition, the settings, and the similarity ratio, SHA-1 digest
      and ISO reader as parameters. */
  datatype Env = Env(
    timeline: Option<map<string, seq<Option<string>>>>,
    def: Definition,
    settings: Settings,
    ratio: (string, string) -> real,
    sha1: string -> string,
    fromIso: string -> Option<int>)

  // ---------------------------------------------------------------- records

  /** What the engine reads from an enriched instance. The instance key is the evidence view's. */
  datatype Instance = Instance(
    canonicalProcess: Option<string>,
    canonicalClient: Option<string>,
    canonicalRole: Option<string>,
    candidateProcessRaw: Option<string>,
    candidateClientRaw: Option<string>,
    candidateRoleRaw: Option<string>,
    candidateClient: Option<string>,
    candidateRole: Option<string>,
    health: Option<string>,
    canonicalStepId: Option<string>,
    stepMatchType: Option<string>,
    stateStatus: Option<string>,
    stateLastUpdatedAt: Option<string>,
    stateConfidence: Option<real>,
    stepView: StepView,
    evidence: EvidenceView)

  /** The `reconciliation` entry of a workflow's observability record. */
  datatype ReconInfo = ReconInfo(matchType: string, score: real, matchedWorkflowId: Option<string>)

  /** A workflow's `observability` record; a missing record reads as the empty one. */
  datatype Obs = Obs(
    sourceInstanceKey: Option<string>,
    lastUpdatedAt: Option<string>,
    confidence: Option<real>,
    health: Option<string>,
    evidenceIds: seq<string>,
    canonicalProcess: Option<string>,
    canonicalClient: Option<string>,
    canonicalRole: Option<string>,
    reconciliation: Option<ReconInfo>)

  const EmptyObs := Obs(None, None, None, None, [], None, None, None, None)

  /** A stored workflow. `otherKeys` names the keys the engine neither reads nor writes,
      which it carries along unchanged. */
  datatype Workflow = Workflow(
    workflowId: Option<string>,
    processId: Option<string>,
    phaseId: Option<string>,
    client: Option<string>,
    role: Option<string>,
    displayName: Option<string>,
    steps: Option<seq<StepOut>>,
    phases: Option<seq<PhaseOut>>,
    obs: Obs,
    otherKeys: set<string>)

  const Blank := Workflow(None, None, None, None, None, None, None, None, EmptyObs, {})

  /** Python truthiness of a workflow record: it is not the empty dictionary. */
  predicate WorkflowTruthy(w: Workflow) {
    w != Blank
  }

  // ---------------------------------------------------------------- counters

  datatype Coverage = Coverage(
    process: nat, client: nat, step: nat, health: nat, evidence: nat,
    roleDetected: nat, roleStrict: nat, roleOther: nat, roleMissing: nat,
    canonicalStep: nat, hiring: nat, missingProcess: nat, notHiring: nat)

  const NoCoverage := Coverage(0, 0, 0, 0, 0, 0, 0, 0, 0, 0, 0, 0, 0)

  /** The counters over written workflows; `exact`, `fuzzy` and `created` are `match_counts`. */
  datatype Writes = Writes(exact: nat, fuzzy: nat, created: nat, written: nat,
                           stepsPopulated: nat, phaseKnown: nat, evidence: nat)

  const NoWrites := Writes(0, 0, 0, 0, 0, 0, 0)

  /** The drift `Counter`s, in first-seen key order. */
  datatype Drift = Drift(client: Dict<string, nat>, role: Dict<string, nat>, process: Dict<string, nat>,
                         step: Dict<string, nat>, stepFailures: Dict<string, nat>)

  const NoDrift := Drift([], [], [], [], [])

  function B(c: bool): nat {
    if c then 1 else 0
  }

  // ---------------------------------------------------------------- per instance

  /** The values computed for every instance before the scope check. */
  datatype Derived = Derived(evidenceIds: seq<string>, definitionPid: Option<string>, currentStep: Option<string>)

  function DerivedOf(inst: Instance, env: Env): Derived {
    var pid := ResolveProcessOf(inst.canonicalProcess, env.def, env.settings.hiringKeys);
    Derived(EvidenceIdsOf(inst.evidence, env.timeline, env.settings.maxIds, env.settings.fallbackMax),
            pid, DeriveCurrentStepOf(inst.stepView, pid, env.def))
  }

  /** `canon_process in hiring_keys`: a null process is in no list. */
  predicate InHiring(process: Option<string>, hiring: seq<string>) {
    process.Some? && process.value in hiring
  }

  /** The role as counted: stripped, with "Unknown" and blank counted as missing. */
  function RoleNorm(role: Option<string>): string {
    Strip(OrDefault(role, ""))
  }

  /** A role counts as detected unless it is blank or "Unknown" once stripped. */
  predicate RoleDetected(role: Option<string>) {
    var rn := RoleNorm(role);
    rn != "" && rn != "Unknown"
  }

  predicate RoleIsOther(role: Option<string>) {
    RoleNorm(role) == "Other"
  }

  predicate HealthKnown(health: Option<string>) {
    health.Some? && health.value in {"on_track", "at_risk", "overdue"}
  }

  /** The presence counters after one instance. */
  function FieldCounts(c: Coverage, inst: Instance, dv: Derived): Coverage {
    c.(process := c.process + B(Truthy(inst.canonicalProcess)),
       client := c.client + B(Truthy(inst.canonicalClient)),
       step := c.step + B(Truthy(dv.currentStep)),
       health := c.health + B(HealthKnown(inst.health)),
       evidence := c.evidence + B(dv.evidenceIds != []),
       canonicalStep := c.canonicalStep + B(inst.canonicalStepId.Some?))
  }

  /** The role counters after one instance. */
  function RoleCounts(c: Coverage, role: Option<string>): Coverage {
    var detected := RoleDetected(role);
    var other := RoleIsOther(role);
    c.(roleDetected := c.roleDetected + B(detected),
       roleStrict := c.roleStrict + B(detected && !other),
       roleOther := c.roleOther + B(detected && other),
       roleMissing := c.roleMissing + B(!detected))
  }

  /** The hiring-funnel counters after one instance. */
  function HiringCounts(c: Coverage, process: Option<string>, hiring: seq<string>): Coverage {
    c.(hiring := c.hiring + B(InHiring(process, hiring)),
       missingProcess := c.missingProcess + B(!InHiring(process, hiring) && !Truthy(process)),
       notHiring := c.notHiring + B(!InHiring(process, hiring) && Truthy(process)))
  }

  /** The coverage counters after one instance. */
  function CoverageStep(c: Coverage, inst: Instance, dv: Derived, hiring: seq<string>): Coverage {
    HiringCounts(RoleCounts(FieldCounts(c, inst, dv), inst.canonicalRole), inst.canonicalProcess, hiring)
  }

  /** The drift counters after one instance: raw texts left without a canonical value, and
      raw step texts that matched no step. The canonical-step failures count every instance
      whose recorded step match type is "none". */
  function DriftStep(d: Drift, inst: Instance, dv: Derived): Drift {
    var raw := inst.stepView.stateStep;
    Drift(
      if !Truthy(inst.canonicalClient) && Truthy(inst.candidateClientRaw) then CounterAdd(d.client, inst.candidateClientRaw.value) else d.client,
      if !IsKnownRole(inst.canonicalRole) && Truthy(inst.candidateRoleRaw) then CounterAdd(d.role, inst.candidateRoleRaw.value) else d.role,
      if !Truthy(inst.canonicalProcess) && Truthy(inst.candidateProcessRaw) then CounterAdd(d.process, inst.candidateProcessRaw.value) else d.process,
      if Truthy(raw) && !Truthy(dv.currentStep) then CounterAdd(d.step, raw.value) else d.step,
      if inst.stepMatchType == Some("none") && Truthy(raw) then CounterAdd(d.stepFailures, raw.value) else d.stepFailures)
  }

  /** Per instance: the role counters split the instances into detected and missing, and the
      detected ones into strict and other; the hiring counters split them into hiring, missing
      process and other process. */
  lemma CoverageStepSplits(c: Coverage, inst: Instance, dv: Derived, hiring: seq<string>)
    ensures var c' := CoverageStep(c, inst, dv, hiring);
      && c'.roleDetected - c.roleDetected == (c'.roleStrict - c.roleStrict) + (c'.roleOther - c.roleOther)
      && (c'.roleDetected - c.roleDetected) + (c'.roleMissing - c.roleMissing) == 1
      && (c'.hiring - c.hiring) + (c'.missingProcess - c.missingProcess) + (c'.notHiring - c.notHiring) == 1
  {
  }

  // ---------------------------------------------------------------- the index

  /** The value of one key field on an instance. */
  function InstanceField(inst: Instance, f: KeyField): Option<string> {
    match f
    case ClientField => inst.canonicalClient
    case RoleField => inst.canonicalRole
    case ProcessField => inst.canonicalProcess
  }

  /** The value of one key field on a stored workflow: its observability record first, then
      its own field. */
  function WorkflowField(w: Workflow, f: KeyField): Option<string> {
    match f
    case ClientField => OrElse(w.obs.canonicalClient, w.client)
    case RoleField => OrElse(w.obs.canonicalRole, w.role)
    case ProcessField => OrElse(w.obs.canonicalProcess, w.processId)
  }

  /** A key from values: nothing when there are none (the empty tuple is falsy) or one of
      them is falsy. */
  function KeyOf(vals: seq<Option<string>>): (r: Option<seq<string>>)
    ensures r.Some? <==> vals != [] && forall i :: 0 <= i < |vals| ==> Truthy(vals[i])
    ensures r.Some? ==> |r.value| == |vals| && forall i :: 0 <= i < |vals| ==> vals[i] == Some(r.value[i])
  {
    if vals != [] && forall i :: 0 <= i < |vals| ==> Truthy(vals[i]) then
      Some(seq(|vals|, i requires 0 <= i < |vals| => vals[i].value))
    else None
  }

  function InstanceKeyVals(inst: Instance, fields: seq<KeyField>): (r: seq<Option<string>>)
    ensures |r| == |fields| && forall i :: 0 <= i < |fields| ==> r[i] == InstanceField(inst, fields[i])
  {
    seq(|fields|, i requires 0 <= i < |fields| => InstanceField(inst, fields[i]))
  }

  function WorkflowKeyVals(w: Workflow, fields: seq<KeyField>): (r: seq<Option<string>>)
    ensures |r| == |fields| && forall i :: 0 <= i < |fields| ==> r[i] == WorkflowField(w, fields[i])
  {
    seq(|fields|, i requires 0 <= i < |fields| => WorkflowField(w, fields[i]))
  }

  /** The fuzzy display key of an instance. */
  function InstanceDisplay(inst: Instance): string {
    DisplayKey(OrElse(inst.canonicalRole, inst.candidateRoleRaw), OrElse(inst.canonicalClient, inst.candidateClientRaw),
               Some(OrDefault(inst.canonicalProcess, "unknown")))
  }

  /** The whole state of a run. The exact index and the fuzzy list refer to workflows by
      position in `workflows`. */
  datatype RunState = RunState(
    workflows: seq<Workflow>,
    exact: map<seq<string>, nat>,
    fuzzy: seq<(nat, string)>,
    cov: Coverage,
    writes: Writes,
    drift: Drift)

  /** Every reference of the index and the fuzzy list names a workflow of the list. */
  predicate IndexOk(st: RunState) {
    && (forall k :: k in st.exact ==> st.exact[k] < |st.workflows|)
    && (forall i :: 0 <= i < |st.fuzzy| ==> st.fuzzy[i].0 < |st.workflows|)
  }

  /** The store entries in scope: with `hiring_only`, those whose process id is a hiring key. */
  function InScope(store: seq<Workflow>, s: Settings): (r: seq<Workflow>)
    ensures s.hiringOnly ==> forall w :: w in r ==> InHiring(w.processId, s.hiringKeys)
    ensures !s.hiringOnly ==> r == store
  {
    if s.hiringOnly then Filter(store, (w: Workflow) => InHiring(w.processId, s.hiringKeys)) else store
  }

  /** The exact index over the first `n` workflows: a later workflow with the same key wins. */
  function ExactIndex(ws: seq<Workflow>, fields: seq<KeyField>): (m: map<seq<string>, nat>)
    ensures forall k :: k in m ==> m[k] < |ws|
    decreases |ws|
  {
    if ws == [] then map[]
    else
      var n := |ws| - 1;
      var m := ExactIndex(ws[..n], fields);
      match KeyOf(WorkflowKeyVals(ws[n], fields))
      case Some(k) => m[k := n]
      case None => m
  }

  /** The fuzzy list over the workflows: each with its display key. */
  function FuzzyList(ws: seq<Workflow>): (r: seq<(nat, string)>)
    ensures |r| == |ws|
    ensures forall i :: 0 <= i < |ws| ==> r[i] == (i, DisplayKey(ws[i].role, ws[i].client, ws[i].processId))
  {
    seq(|ws|, i requires 0 <= i < |ws| => (i, DisplayKey(ws[i].role, ws[i].client, ws[i].processId)))
  }

  /** An indexed workflow carries its key, and no later workflow carries the same key. */
  lemma {:induction false} ExactIndexLastWins(ws: seq<Workflow>, fields: seq<KeyField>, k: seq<string>)
    requires k in ExactIndex(ws, fields)
    ensures var i := ExactIndex(ws, fields)[k];
      && KeyOf(WorkflowKeyVals(ws[i], fields)) == Some(k)
      && forall j :: i < j < |ws| ==> KeyOf(WorkflowKeyVals(ws[j], fields)) != Some(k)
    decreases |ws|
  {
    var n := |ws| - 1;
    var m := ExactIndex(ws[..n], fields);
    if KeyOf(WorkflowKeyVals(ws[n], fields)) != Some(k) {
      ExactIndexLastWins(ws[..n], fields, k);
      assert forall j :: 0 <= j < n ==> ws[..n][j] == ws[j];
    }
  }

  /** The state a run starts from. */
  function Initial(store: seq<Workflow>, s: Settings): (st: RunState)
    ensures IndexOk(st)
  {
    var ws := InScope(store, s);
    RunState(ws, ExactIndex(ws, s.exactFields), FuzzyList(ws), NoCoverage, NoWrites, NoDrift)
  }

  // ---------------------------------------------------------------- matching

  /** The similarity of an instance's display key to a fuzzy-list entry. */
  function EntryScore(display: string, e: (nat, string), ratio: (string, string) -> real): real {
    Similarity(display, e.1, ratio)
  }

  /** The fuzzy scan: the position in the list of the first entry with the strictly best
      score above 0.0, with that score (0.0 and no position when no score is positive). */
  function BestOf(f: seq<(nat, string)>, display: string, ratio: (string, string) -> real): (r: (Option<nat>, real))
    ensures r.0.Some? ==> r.0.value < |f|
    decreases |f|
  {
    if f == [] then (None, 0.0)
    else
      var n := |f| - 1;
      var acc := BestOf(f[..n], display, ratio);
      var score := EntryScore(display, f[n], ratio);
      if score > acc.1 then (Some(n), score) else acc
  }

  /** The scan keeps a maximal score, and the first entry reaching it; without a position no
      entry scored above 0.0. */
  lemma {:induction false} BestOfMeaning(f: seq<(nat, string)>, display: string, ratio: (string, string) -> real)
    ensures var r := BestOf(f, display, ratio);
      && (forall j :: 0 <= j < |f| ==> EntryScore(display, f[j], ratio) <= r.1)
      && (r.0.None? ==> r.1 == 0.0)
      && (r.0.Some? ==> r.1 > 0.0 && EntryScore(display, f[r.0.value], ratio) == r.1
                        && forall j :: 0 <= j < r.0.value ==> EntryScore(display, f[j], ratio) < r.1)
    decreases |f|
  {
    if f != [] {
      var n := |f| - 1;
      BestOfMeaning(f[..n], display, ratio);
      assert forall j :: 0 <= j < n ==> f[..n][j] == f[j];
    }
  }

  /** Where an instance goes. */
  datatype Match = MatchedExact(index: nat) | MatchedFuzzy(index: nat, score: real) | Unmatched

  function ExactKeyOf(inst: Instance, fields: seq<KeyField>): Option<seq<string>> {
    KeyOf(InstanceKeyVals(inst, fields))
  }

  /** The matching ladder: the exact index first, then the best fuzzy entry when its workflow
      is not an empty record and its score reaches the threshold. */
  function MatchOf(st: RunState, inst: Instance, s: Settings, ratio: (string, string) -> real): (m: Match)
    requires IndexOk(st)
    ensures !m.Unmatched? ==> m.index < |st.workflows|
  {
    var key := ExactKeyOf(inst, s.exactFields);
    if key.Some? && key.value in st.exact then MatchedExact(st.exact[key.value])
    else
      var best := BestOf(st.fuzzy, InstanceDisplay(inst), ratio);
      if best.0.Some? && WorkflowTruthy(st.workflows[st.fuzzy[best.0.value].0]) && best.1 >= s.threshold then
        MatchedFuzzy(st.fuzzy[best.0.value].0, best.1)
      else Unmatched
  }

  /** The ladder's three outcomes. An indexed exact key always wins. A fuzzy match is the
      first entry of maximal score, that score reaches the threshold and no entry beats it.
      A created workflow means: no indexed key, and either no score is positive, or none
      reaches the threshold, or the first entry of maximal score is an empty record. */
  lemma MatchOfMeaning(st: RunState, inst: Instance, s: Settings, ratio: (string, string) -> real)
    requires IndexOk(st)
    ensures var key := ExactKeyOf(inst, s.exactFields);
      var m := MatchOf(st, inst, s, ratio);
      var d := InstanceDisplay(inst);
      && (key.Some? && key.value in st.exact <==> m.MatchedExact?)
      && (m.MatchedExact? ==> m.index == st.exact[key.value])
      && (m.MatchedFuzzy? ==>
            && m.score >= s.threshold && m.score > 0.0
            && WorkflowTruthy(st.workflows[m.index])
            && (forall j :: 0 <= j < |st.fuzzy| ==> EntryScore(d, st.fuzzy[j], ratio) <= m.score)
            && exists p :: 0 <= p < |st.fuzzy| && st.fuzzy[p].0 == m.index && EntryScore(d, st.fuzzy[p], ratio) == m.score
                             && forall j :: 0 <= j < p ==> EntryScore(d, st.fuzzy[j], ratio) < m.score)
      && (m.Unmatched? ==>
            && !(key.Some? && key.value in st.exact)
            && ((forall j :: 0 <= j < |st.fuzzy| ==> EntryScore(d, st.fuzzy[j], ratio) <= 0.0)
                || (forall j :: 0 <= j < |st.fuzzy| ==> EntryScore(d, st.fuzzy[j], ratio) < s.threshold)
                || exists p :: 0 <= p < |st.fuzzy| && !WorkflowTruthy(st.workflows[st.fuzzy[p].0])
                                 && (forall j :: 0 <= j < |st.fuzzy| ==> EntryScore(d, st.fuzzy[j], ratio) <= EntryScore(d, st.fuzzy[p], ratio))
                                 && forall j :: 0 <= j < p ==> EntryScore(d, st.fuzzy[j], ratio) < EntryScore(d, st.fuzzy[p], ratio)))
  {
    var d := InstanceDisplay(inst);
    BestOfMeaning(st.fuzzy, d, ratio);
    var best := BestOf(st.fuzzy, d, ratio);
    if best.0.Some? {
      var p := best.0.value;
      assert 0 <= p < |st.fuzzy| && EntryScore(d, st.fuzzy[p], ratio) == best.1;
    }
  }

  // ---------------------------------------------------------------- writing

  /** A created workflow: a record holding only its generated id, appended to the list and to
      the fuzzy list, and indexed under the instance's exact key when it has one. */
  function Create(st: RunState, inst: Instance, env: Env): (r: RunState)
    requires IndexOk(st)
    ensures IndexOk(r)
  {
    var id := GenerateWorkflowIdOf(inst.canonicalProcess, inst.canonicalClient, inst.canonicalRole,
                                   inst.evidence.instanceKey, inst.candidateClientRaw, inst.candidateRoleRaw, env.sha1);
    var n := |st.workflows|;
    var key := ExactKeyOf(inst, env.settings.exactFields);
    st.(workflows := st.workflows + [Blank.(workflowId := Some(id))],
        fuzzy := st.fuzzy + [(n, InstanceDisplay(inst))],
        exact := if key.Some? then st.exact[key.value := n] else st.exact)
  }

  /** `a or b or c`. */
  function FirstTruthy(a: Option<string>, b: Option<string>, c: Option<string>): Option<string> {
    OrElse(OrElse(a, b), c)
  }

  /** The fields written into the matched workflow. The workflow's id and the keys the engine
      does not know are kept. */
  function UpdateWorkflow(w: Workflow, inst: Instance, dv: Derived, steps: Option<seq<StepOut>>, phaseId: string,
                          phases: Option<seq<PhaseOut>>, matchType: string, score: real, env: Env): (r: Workflow)
    ensures r.workflowId == w.workflowId && r.otherKeys == w.otherKeys
  {
    var client := FirstTruthy(inst.canonicalClient, inst.candidateClientRaw, inst.candidateClient);
    var role := FirstTruthy(inst.canonicalRole, inst.candidateRoleRaw, inst.candidateRole);
    var o := w.obs;
    var obs := o.(sourceInstanceKey := inst.evidence.instanceKey,
                  lastUpdatedAt := ChooseLatestOf(o.lastUpdatedAt, inst.stateLastUpdatedAt, env.fromIso),
                  confidence := inst.stateConfidence,
                  health := Some(OrDefault(inst.health, "unknown")),
                  evidenceIds := MergeIdsOf(o.evidenceIds, dv.evidenceIds, env.settings.maxIds),
                  canonicalProcess := inst.canonicalProcess,
                  canonicalClient := inst.canonicalClient,
                  canonicalRole := inst.canonicalRole,
                  reconciliation := Some(ReconInfo(matchType, score, w.workflowId)));
    w.(processId := Some(OrDefault(inst.canonicalProcess, "unknown")), phaseId := Some(phaseId),
       client := client, role := role, displayName := Some(DisplayName(role, client)),
       steps := steps, phases := phases, obs := obs)
  }

  function MatchTypeOf(m: Match): string {
    match m
    case MatchedExact(_) => "exact"
    case MatchedFuzzy(_, _) => "fuzzy"
    case Unmatched => "created"
  }

  function MatchScoreOf(m: Match): real {
    match m
    case MatchedFuzzy(_, score) => score
    case _ => 1.0
  }

  /** The positional step list, when positional inference is on. */
  function StepsFor(inst: Instance, dv: Derived, env: Env): Option<seq<StepOut>> {
    if env.settings.positional then
      InferStepsOf(dv.definitionPid, env.def, dv.currentStep, inst.stateStatus, env.settings.completedLabel)
    else None
  }

  function PhasesFor(steps: Option<seq<StepOut>>, dv: Derived, env: Env): Option<seq<PhaseOut>> {
    if env.settings.positional then InferPhasesOf(dv.definitionPid, env.def, steps, env.settings.completedLabel) else None
  }

  /** The write counters after one written workflow. */
  function CountWrite(w: Writes, m: Match, steps: Option<seq<StepOut>>, phaseId: string, dv: Derived): Writes {
    Writes(w.exact + B(m.MatchedExact?), w.fuzzy + B(m.MatchedFuzzy?), w.created + B(m.Unmatched?), w.written + 1,
           w.stepsPopulated + B(steps.Some? && steps.value != []), w.phaseKnown + B(phaseId != "unknown"),
           w.evidence + B(dv.evidenceIds != []))
  }

  /** An in-scope instance: matched or created, then written into its workflow. */
  function Write(st: RunState, inst: Instance, dv: Derived, env: Env): (r: RunState)
    requires IndexOk(st)
    ensures IndexOk(r)
  {
    var m := MatchOf(st, inst, env.settings, env.ratio);
    var st1 := if m.Unmatched? then Create(st, inst, env) else st;
    var idx := if m.Unmatched? then |st.workflows| else m.index;
    var steps := StepsFor(inst, dv, env);
    var phaseId := InferPhaseIdOf(dv.definitionPid, dv.currentStep, env.def);
    var phases := PhasesFor(steps, dv, env);
    st1.(workflows := st1.workflows[idx := UpdateWorkflow(st1.workflows[idx], inst, dv, steps, phaseId, phases,
                                                          MatchTypeOf(m), MatchScoreOf(m), env)],
         writes := CountWrite(st1.writes, m, steps, phaseId, dv))
  }

  /** Whether an instance is skipped for writing: out of the hiring scope under `hiring_only`. */
  predicate Skipped(inst: Instance, s: Settings) {
    s.hiringOnly && !InHiring(inst.canonicalProcess, s.hiringKeys)
  }

  /** One iteration of the loop over instances. */
  function Step(st: RunState, inst: Instance, env: Env): (r: RunState)
    requires IndexOk(st)
    ensures IndexOk(r)
  {
    var dv := DerivedOf(inst, env);
    var st1 := st.(cov := CoverageStep(st.cov, inst, dv, env.settings.hiringKeys), drift := DriftStep(st.drift, inst, dv));
    if Skipped(inst, env.settings) then st1 else Write(st1, inst, dv, env)
  }

  function Fold(st: RunState, insts: seq<Instance>, env: Env): (r: RunState)
    requires IndexOk(st)
    ensures IndexOk(r)
    decreases |insts|
  {
    if insts == [] then st else Step(Fold(st, insts[..|insts| - 1], env), insts[|insts| - 1], env)
  }

  /** The run: the in-scope store, then every instance in order. */
  function ReconcileOf(instances: seq<Instance>, store: seq<Workflow>, env: Env): RunState {
    Fold(Initial(store, env.settings), instances, env)
  }

  // ---------------------------------------------------------------- properties of a run

  /** What a write does to the list as a whole: it appends one workflow exactly when it
      creates, keeps every earlier workflow's id, gives a created workflow a generated id, and
      counts the write. */
  lemma WriteBasics(st: RunState, inst: Instance, dv: Derived, env: Env)
    requires IndexOk(st)
    ensures var r := Write(st, inst, dv, env);
      var m := MatchOf(st, inst, env.settings, env.ratio);
      && |r.workflows| == |st.workflows| + B(m.Unmatched?)
      && (forall i :: 0 <= i < |st.workflows| ==> r.workflows[i].workflowId == st.workflows[i].workflowId)
      && (m.Unmatched? ==> GeneratedId(r.workflows[|st.workflows|].workflowId))
      && r.cov == st.cov && r.drift == st.drift
      && r.writes == CountWrite(st.writes, m, StepsFor(inst, dv, env), InferPhaseIdOf(dv.definitionPid, dv.currentStep, env.def), dv)
  {
  }

  /** A write touches one workflow, the matched or the created one, and sets its process id;
      every other workflow is left as it was. */
  lemma WriteTouchesOne(st: RunState, inst: Instance, dv: Derived, env: Env)
    requires IndexOk(st)
    ensures var r := Write(st, inst, dv, env);
      var m := MatchOf(st, inst, env.settings, env.ratio);
      var idx := if m.Unmatched? then |st.workflows| else m.index;
      && idx < |r.workflows|
      && r.workflows[idx].processId == Some(OrDefault(inst.canonicalProcess, "unknown"))
      && forall i :: 0 <= i < |r.workflows| && i != idx ==> r.workflows[i] == st.workflows[i]
  {
  }

  /** The counters of a state after `n` instances, over a store of `base` in-scope workflows. */
  predicate Tallied(st: RunState, n: nat, base: nat, s: Settings) {
    var c := st.cov;
    var w := st.writes;
    && c.roleDetected == c.roleStrict + c.roleOther
    && c.roleDetected + c.roleMissing == n
    && c.hiring + c.missingProcess + c.notHiring == n
    && c.process <= n && c.client <= n && c.step <= n && c.health <= n && c.evidence <= n && c.canonicalStep <= n
    && w.exact + w.fuzzy + w.created == w.written
    && w.stepsPopulated <= w.written && w.phaseKnown <= w.written && w.evidence <= w.written
    && (s.hiringOnly ==> w.written == c.hiring)
    && (!s.hiringOnly ==> w.written == n)
    && |st.workflows| == base + w.created
  }

  lemma StepTallied(st: RunState, inst: Instance, env: Env, n: nat, base: nat)
    requires IndexOk(st) && Tallied(st, n, base, env.settings)
    ensures Tallied(Step(st, inst, env), n + 1, base, env.settings)
  {
    var s := env.settings;
    var dv := DerivedOf(inst, env);
    CoverageStepSplits(st.cov, inst, dv, s.hiringKeys);
    if !Skipped(inst, s) {
      var st1 := st.(cov := CoverageStep(st.cov, inst, dv, s.hiringKeys), drift := DriftStep(st.drift, inst, dv));
      WriteBasics(st1, inst, dv, env);
    }
  }

  lemma {:induction false} FoldTallied(st: RunState, insts: seq<Instance>, env: Env, n: nat, base: nat)
    requires IndexOk(st) && Tallied(st, n, base, env.settings)
    ensures Tallied(Fold(st, insts, env), n + |insts|, base, env.settings)
    decreases |insts|
  {
    if insts != [] {
      var k := |insts| - 1;
      var prev := Fold(st, insts[..k], env);
      FoldTallied(st, insts[..k], env, n, base);
      StepTallied(prev, insts[k], env, n + k, base);
      assert Fold(st, insts, env) == Step(prev, insts[k], env);
    }
  }

  /** The run's counters partition the instances: roles into detected and missing (detected
      into strict and other), processes into hiring, missing and not hiring; the match counts
      sum to the workflows written, which under `hiring_only` are exactly the hiring instances
      and otherwise all of them; and the list grows by the created workflows only. */
  lemma ReconcileTallies(instances: seq<Instance>, store: seq<Workflow>, env: Env)
    ensures Tallied(ReconcileOf(instances, store, env), |instances|, |InScope(store, env.settings)|, env.settings)
  {
    FoldTallied(Initial(store, env.settings), instances, env, 0, |InScope(store, env.settings)|);
  }

  /** Under `hiring_only`, every workflow of the state has a hiring process id. */
  predicate ScopeOk(st: RunState, s: Settings) {
    s.hiringOnly ==> forall i :: 0 <= i < |st.workflows| ==> InHiring(st.workflows[i].processId, s.hiringKeys)
  }

  lemma StepScopeOk(st: RunState, inst: Instance, env: Env)
    requires IndexOk(st) && ScopeOk(st, env.settings) && "" !in env.settings.hiringKeys
    ensures ScopeOk(Step(st, inst, env), env.settings)
  {
    var s := env.settings;
    if s.hiringOnly && !Skipped(inst, s) {
      var dv := DerivedOf(inst, env);
      var st1 := st.(cov := CoverageStep(st.cov, inst, dv, s.hiringKeys), drift := DriftStep(st.drift, inst, dv));
      WriteTouchesOne(st1, inst, dv, env);
      assert Truthy(inst.canonicalProcess);
    }
  }

  lemma {:induction false} FoldScopeOk(st: RunState, insts: seq<Instance>, env: Env)
    requires IndexOk(st) && ScopeOk(st, env.settings) && "" !in env.settings.hiringKeys
    ensures ScopeOk(Fold(st, insts, env), env.settings)
    decreases |insts|
  {
    if insts != [] {
      var k := |insts| - 1;
      FoldScopeOk(st, insts[..k], env);
      StepScopeOk(Fold(st, insts[..k], env), insts[k], env);
    }
  }

  /** Under `hiring_only`, every returned workflow has a hiring process id (when the empty
      text is not a hiring key: an instance whose process is "" is written as "unknown"). */
  lemma ReconcileInScope(instances: seq<Instance>, store: seq<Workflow>, env: Env)
    requires "" !in env.settings.hiringKeys
    ensures ScopeOk(ReconcileOf(instances, store, env), env.settings)
  {
    var init := Initial(store, env.settings);
    if env.settings.hiringOnly {
      assert forall i :: 0 <= i < |init.workflows| ==> init.workflows[i] in init.workflows;
    }
    FoldScopeOk(init, instances, env);
  }

  /** A generated workflow id. */
  predicate GeneratedId(id: Option<string>) {
    id.Some? && 3 <= |id.value| <= 15 && id.value[..3] == "wf_"
  }

  /** The workflows of the store keep their place and their ids; every later one has a
      generated id. */
  predicate IdsKept(st: RunState, base: seq<Workflow>) {
    && |base| <= |st.workflows|
    && (forall i :: 0 <= i < |base| ==> st.workflows[i].workflowId == base[i].workflowId)
    && (forall i :: |base| <= i < |st.workflows| ==> GeneratedId(st.workflows[i].workflowId))
  }

  lemma StepIdsKept(st: RunState, inst: Instance, env: Env, base: seq<Workflow>)
    requires IndexOk(st) && IdsKept(st, base)
    ensures IdsKept(Step(st, inst, env), base)
  {
    var s := env.settings;
    if !Skipped(inst, s) {
      var dv := DerivedOf(inst, env);
      var st1 := st.(cov := CoverageStep(st.cov, inst, dv, s.hiringKeys), drift := DriftStep(st.drift, inst, dv));
      WriteBasics(st1, inst, dv, env);
    }
  }

  lemma {:induction false} FoldIdsKept(st: RunState, insts: seq<Instance>, env: Env, base: seq<Workflow>)
    requires IndexOk(st) && IdsKept(st, base)
    ensures IdsKept(Fold(st, insts, env), base)
    decreases |insts|
  {
    if insts != [] {
      var k := |insts| - 1;
      FoldIdsKept(st, insts[..k], env, base);
      StepIdsKept(Fold(st, insts[..k], env), insts[k], env, base);
    }
  }

  /** The in-scope store workflows come first, in order, with their ids; the workflows after
      them are the created ones, each with a generated id. */
  lemma ReconcileKeepsIds(instances: seq<Instance>, store: seq<Workflow>, env: Env)
    ensures IdsKept(ReconcileOf(instances, store, env), InScope(store, env.settings))
  {
    FoldIdsKept(Initial(store, env.settings), instances, env, InScope(store, env.settings));
  }

  /** A created workflow is appended and indexed, so that a later instance with the same exact
      key matches it exactly; it records itself as the match. */
  lemma CreatedIsIndexed(st: RunState, inst: Instance, later: Instance, env: Env)
    requires IndexOk(st) && !Skipped(inst, env.settings)
    requires MatchOf(st, inst, env.settings, env.ratio).Unmatched?
    ensures var r := Write(st, inst, DerivedOf(inst, env), env);
      var n := |st.workflows|;
      var key := ExactKeyOf(inst, env.settings.exactFields);
      && |r.workflows| == n + 1
      && GeneratedId(r.workflows[n].workflowId)
      && r.workflows[n].obs.reconciliation == Some(ReconInfo("created", 1.0, r.workflows[n].workflowId))
      && r.fuzzy == st.fuzzy + [(n, InstanceDisplay(inst))]
      && (key.Some? && ExactKeyOf(later, env.settings.exactFields) == key ==>
            MatchOf(r, later, env.settings, env.ratio) == MatchedExact(n))
  {
  }

  /** A matched workflow is updated where it stands: the list keeps its length and every
      other workflow is unchanged. */
  lemma MatchedUpdatesInPlace(st: RunState, inst: Instance, env: Env)
    requires IndexOk(st) && !MatchOf(st, inst, env.settings, env.ratio).Unmatched?
    ensures var r := Write(st, inst, DerivedOf(inst, env), env);
      var m := MatchOf(st, inst, env.settings, env.ratio);
      && |r.workflows| == |st.workflows|
      && (forall i :: 0 <= i < |st.workflows| && i != m.index ==> r.workflows[i] == st.workflows[i])
      && r.workflows[m.index].workflowId == st.workflows[m.index].workflowId
      && r.exact == st.exact && r.fuzzy == st.fuzzy
  {
  }

  /** What a write records in the workflow's observability: the evidence ids merged (no
      empty or repeated id, existing ones first, at most the cap), and a last-updated time that
      does not move backwards when both times parse. */
  lemma WriteObservability(w: Workflow, inst: Instance, dv: Derived, steps: Option<seq<StepOut>>, phaseId: string,
                           phases: Option<seq<PhaseOut>>, matchType: string, score: real, env: Env)
    ensures var r := UpdateWorkflow(w, inst, dv, steps, phaseId, phases, matchType, score, env);
      var u := Unique(NonEmpty(w.obs.evidenceIds + dv.evidenceIds));
      && Distinct(r.obs.evidenceIds) && "" !in r.obs.evidenceIds
      && |r.obs.evidenceIds| <= Cap(env.settings.maxIds)
      && |r.obs.evidenceIds| <= |u| && r.obs.evidenceIds == u[..|r.obs.evidenceIds|]
      && (ParseIso(w.obs.lastUpdatedAt, env.fromIso).Some? && ParseIso(inst.stateLastUpdatedAt, env.fromIso).Some? ==>
            ParseIso(r.obs.lastUpdatedAt, env.fromIso).Some?
            && ParseIso(r.obs.lastUpdatedAt, env.fromIso).value >= ParseIso(w.obs.lastUpdatedAt, env.fromIso).value)
      && r.processId == Some(if Truthy(inst.canonicalProcess) then inst.canonicalProcess.value else "unknown")
  {
    MergeIdsMeaning(w.obs.evidenceIds, dv.evidenceIds, env.settings.maxIds);
    ChooseLatestMeaning(w.obs.lastUpdatedAt, inst.stateLastUpdatedAt, env.fromIso);
  }

  // ---------------------------------------------------------------- report

  /** `_coverage_pct` before rounding: a share of the total, 0.0 for no total. */
  function CoveragePct(n: nat, total: nat): (r: real)
    ensures total == 0 ==> r == 0.0
    ensures n <= total ==> 0.0 <= r <= 1.0
    ensures total != 0 ==> r * total as real == n as real
  {
    if total == 0 then 0.0 else n as real / total as real
  }

  // ---------------------------------------------------------------- the engine

  /** `workflow_exact_key`: the key fields of a stored workflow, or nothing as soon as one is
      falsy (and nothing for no fields, since the empty tuple is falsy). */
  method WorkflowExactKey(w: Workflow, fields: seq<KeyField>) returns (key: Option<seq<string>>)
    ensures key == KeyOf(WorkflowKeyVals(w, fields))
  {
    var vals: seq<string> := [];
    var i := 0;
    while i < |fields|
      invariant 0 <= i <= |fields|
      invariant |vals| == i
      invariant forall j :: 0 <= j < i ==> WorkflowField(w, fields[j]) == Some(vals[j]) && vals[j] != ""
    {
      var val := WorkflowField(w, fields[i]);
      if !Truthy(val) {
        assert !Truthy(WorkflowKeyVals(w, fields)[i]);
        assert KeyOf(WorkflowKeyVals(w, fields)) == None;
        return None;
      }
      vals := vals + [val.value];
      i := i + 1;
    }
    var kv := WorkflowKeyVals(w, fields);
    if vals == [] {
      assert kv == [];
      assert KeyOf(kv) == None;
      return None;
    }
    assert forall j :: 0 <= j < |kv| ==> Truthy(kv[j]);
    key := Some(vals);
    var k := KeyOf(kv);
    assert k.Some? && |k.value| == |vals|;
    assert forall j :: 0 <= j < |vals| ==> k.value[j] == vals[j];
    assert k.value == vals;
  }

  /** The exact index over the in-scope store, later entries overwriting earlier ones. */
  method IndexStore(ws: seq<Workflow>, fields: seq<KeyField>) returns (exact: map<seq<string>, nat>)
    ensures exact == ExactIndex(ws, fields)
  {
    exact := map[];
    var i := 0;
    while i < |ws|
      invariant 0 <= i <= |ws|
      invariant exact == ExactIndex(ws[..i], fields)
    {
      TakeSnoc(ws, i);
      var key := WorkflowExactKey(ws[i], fields);
      if key.Some? {
        exact := exact[key.value := i];
      }
      i := i + 1;
    }
    assert ws[..i] == ws;
  }

  /** The fuzzy scan loop. */
  method ScanFuzzy(f: seq<(nat, string)>, display: string, ratio: (string, string) -> real)
    returns (best: Option<nat>, bestScore: real)
    ensures (best, bestScore) == BestOf(f, display, ratio)
  {
    best, bestScore := None, 0.0;
    var i := 0;
    while i < |f|
      invariant 0 <= i <= |f|
      invariant (best, bestScore) == BestOf(f[..i], display, ratio)
    {
      TakeSnoc(f, i);
      var score := Similarity(display, f[i].1, ratio);
      if score > bestScore {
        best, bestScore := Some(i), score;
      }
      i := i + 1;
    }
    assert f[..i] == f;
  }

  /** The coverage counting of one instance. */
  method CountCoverage(c: Coverage, inst: Instance, dv: Derived, hiring: seq<string>) returns (r: Coverage)
    ensures r == CoverageStep(c, inst, dv, hiring)
  {
    r := CountFields(c, inst, dv);
    r := CountRole(r, inst.canonicalRole);
    r := CountHiring(r, inst.canonicalProcess, hiring);
  }

  method CountFields(c: Coverage, inst: Instance, dv: Derived) returns (r: Coverage)
    ensures r == FieldCounts(c, inst, dv)
  {
    r := c;
    if Truthy(inst.canonicalProcess) {
      r := r.(process := r.process + 1);
    }
    if Truthy(inst.canonicalClient) {
      r := r.(client := r.client + 1);
    }
    if dv.evidenceIds != [] {
      r := r.(evidence := r.evidence + 1);
    }
    if HealthKnown(inst.health) {
      r := r.(health := r.health + 1);
    }
    if Truthy(dv.currentStep) {
      r := r.(step := r.step + 1);
    }
    if inst.canonicalStepId.Some? {
      r := r.(canonicalStep := r.canonicalStep + 1);
    }
  }

  method CountRole(c: Coverage, role: Option<string>) returns (r: Coverage)
    ensures r == RoleCounts(c, role)
  {
    r := c;
    if RoleDetected(role) {
      r := r.(roleDetected := r.roleDetected + 1);
      if RoleIsOther(role) {
        r := r.(roleOther := r.roleOther + 1);
      } else {
        r := r.(roleStrict := r.roleStrict + 1);
      }
    } else {
      r := r.(roleMissing := r.roleMissing + 1);
    }
  }

  method CountHiring(c: Coverage, process: Option<string>, hiring: seq<string>) returns (r: Coverage)
    ensures r == HiringCounts(c, process, hiring)
  {
    r := c;
    if InHiring(process, hiring) {
      r := r.(hiring := r.hiring + 1);
    } else if !Truthy(process) {
      r := r.(missingProcess := r.missingProcess + 1);
    } else {
      r := r.(notHiring := r.notHiring + 1);
    }
  }

  /** The drift counting of one instance. */
  method CountDrift(d: Drift, inst: Instance, dv: Derived) returns (r: Drift)
    ensures r == DriftStep(d, inst, dv)
  {
    r := d;
    var raw := inst.stepView.stateStep;
    if inst.stepMatchType == Some("none") && Truthy(raw) {
      r := r.(stepFailures := CounterAdd(r.stepFailures, raw.value));
    }
    if !Truthy(inst.canonicalClient) && Truthy(inst.candidateClientRaw) {
      r := r.(client := CounterAdd(r.client, inst.candidateClientRaw.value));
    }
    if !IsKnownRole(inst.canonicalRole) && Truthy(inst.candidateRoleRaw) {
      r := r.(role := CounterAdd(r.role, inst.candidateRoleRaw.value));
    }
    if !Truthy(inst.canonicalProcess) && Truthy(inst.candidateProcessRaw) {
      r := r.(process := CounterAdd(r.process, inst.candidateProcessRaw.value));
    }
    if Truthy(raw) && !Truthy(dv.currentStep) {
      r := r.(step := CounterAdd(r.step, raw.value));
    }
  }

  /** The matching ladder as the engine runs it. */
  method FindMatch(st: RunState, inst: Instance, s: Settings, ratio: (string, string) -> real) returns (m: Match)
    requires IndexOk(st)
    ensures m == MatchOf(st, inst, s, ratio)
  {
    var key := ExactKeyOf(inst, s.exactFields);
    if key.Some? && key.value in st.exact {
      return MatchedExact(st.exact[key.value]);
    }
    var best, bestScore := ScanFuzzy(st.fuzzy, InstanceDisplay(inst), ratio);
    if best.Some? && WorkflowTruthy(st.workflows[st.fuzzy[best.value].0]) && bestScore >= s.threshold {
      m := MatchedFuzzy(st.fuzzy[best.value].0, bestScore);
    } else {
      m := Unmatched;
    }
  }

  /** One iteration of the engine's loop over instances. */
  method ReconcileOne(st: RunState, inst: Instance, env: Env) returns (r: RunState)
    requires IndexOk(st)
    ensures r == Step(st, inst, env)
  {
    var s := env.settings;
    var evidenceIds := ExtractEvidenceIds(inst.evidence, env.timeline, s.maxIds, s.fallbackMax);
    var pid := ResolveDefinitionProcessId(inst.canonicalProcess, env.def, s.hiringKeys);
    var cur := DeriveCurrentStepId(inst.stepView, pid, env.def);
    var dv := Derived(evidenceIds, pid, cur);
    var cov := CountCoverage(st.cov, inst, dv, s.hiringKeys);
    var drift := CountDrift(st.drift, inst, dv);
    var st1 := st.(cov := cov, drift := drift);
    if Skipped(inst, s) {
      return st1;
    }
    r := WriteInstance(st1, inst, dv, env);
  }

  /** The write of an in-scope instance: match or create, infer, update. */
  method WriteInstance(st1: RunState, inst: Instance, dv: Derived, env: Env) returns (r: RunState)
    requires IndexOk(st1)
    ensures r == Write(st1, inst, dv, env)
  {
    var s := env.settings;
    var pid, cur := dv.definitionPid, dv.currentStep;
    var m := FindMatch(st1, inst, s, env.ratio);
    var ws, fuzzy, exact := st1.workflows, st1.fuzzy, st1.exact;
    var idx: nat;
    if m.Unmatched? {
      var id := GenerateWorkflowIdOf(inst.canonicalProcess, inst.canonicalClient, inst.canonicalRole,
                                     inst.evidence.instanceKey, inst.candidateClientRaw, inst.candidateRoleRaw, env.sha1);
      idx := |ws|;
      ws := ws + [Blank.(workflowId := Some(id))];
      fuzzy := fuzzy + [(idx, InstanceDisplay(inst))];
      var key := ExactKeyOf(inst, s.exactFields);
      if key.Some? {
        exact := exact[key.value := idx];
      }
    } else {
      idx := m.index;
    }
    var steps: Option<seq<StepOut>> := None;
    if s.positional {
      steps := InferStepsFromPosition(pid, env.def, cur, inst.stateStatus, s.completedLabel);
    }
    var phaseId := InferPhaseIdOf(pid, cur, env.def);
    var phases: Option<seq<PhaseOut>> := None;
    if s.positional {
      phases := InferPhasesFromSteps(pid, env.def, steps, s.completedLabel);
    }
    var writes := CountWrite(st1.writes, m, steps, phaseId, dv);
    ws := ws[idx := UpdateWorkflow(ws[idx], inst, dv, steps, phaseId, phases, MatchTypeOf(m), MatchScoreOf(m), env)];
    r := RunState(ws, exact, fuzzy, st1.cov, writes, st1.drift);
  }

  /** `reconcile_instances`: the workflows after the run, with the coverage, write and drift
      counters of the reports. */
  method ReconcileInstances(instances: seq<Instance>, store: seq<Workflow>, env: Env)
    returns (workflows: seq<Workflow>, cov: Coverage, writes: Writes, drift: Drift)
    ensures var r := ReconcileOf(instances, store, env);
      workflows == r.workflows && cov == r.cov && writes == r.writes && drift == r.drift
  {
    var ws := InScope(store, env.settings);
    var exact := IndexStore(ws, env.settings.exactFields);
    var st := RunState(ws, exact, FuzzyList(ws), NoCoverage, NoWrites, NoDrift);
    ghost var init := Initial(store, env.settings);
    assert st == init;
    var i := 0;
    while i < |instances|
      invariant 0 <= i <= |instances|
      invariant IndexOk(init) && IndexOk(st)
      invariant st == Fold(init, instances[..i], env)
    {
      TakeSnoc(instances, i);
      st := ReconcileOne(st, instances[i], env);
      i := i + 1;
    }
    assert instances[..i] == instances;
    workflows, cov, writes, drift := st.workflows, st.cov, st.writes, st.drift;
  }
}
