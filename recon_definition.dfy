/** The workflow definition tables of the reconciliation engine and the step and phase
    inference built on them (src/demo/pipeline/reconciliation.py, lines 42-266). */
module ReconDefinition {
  import opened Wrappers
  import opened Text
  import opened Seqs
  import opened Dicts
  import opened Compiler

  /** The engine's own `_norm_text`: hyphens and underscores become spaces, whitespace runs
      collapse to one space with none at either end, letters are lower-cased. Other
      punctuation is kept. */
  function NormText(value: Option<string>): (r: string)
    ensures !Truthy(value) ==> r == ""
  {
    if !Truthy(value) then "" else Lower(Collapse(Replace(Replace(value.value, '-', ' '), '_', ' ')))
  }

  /** The normal form is collapsed, has no upper-case letter, no hyphen and no underscore. */
  lemma NormTextShape(value: Option<string>)
    ensures var r := NormText(value);
      Collapsed(r) && NoUpper(r) && '-' !in r && '_' !in r
  {
    if Truthy(value) {
      var t := Replace(Replace(value.value, '-', ' '), '_', ' ');
      CollapseShape(t);
      LowerKeepsCollapsed(Collapse(t));
      var r := NormText(value);
      forall i | 0 <= i < |r| ensures r[i] != '-' && r[i] != '_' {
        var c := Collapse(t)[i];
        assert c == ' ' || c in t;
        assert r[i] == LowerChar(c);
      }
    }
  }

  // ---------------------------------------------------------------- the tables

  /** `WorkflowDefinition`. `processes` keeps the definition's process order; the tables keyed
      by a (process id, phase or step id) pair are only ever looked up, so they are maps.
      `phase_info` and `step_info` are reduced to the names they carry. */
  datatype Definition = Definition(
    processes: Dict<string, ProcessDoc>,
    stepsInOrder: map<string, seq<string>>,
    stepToPhase: map<(string, string), string>,
    phaseToSteps: map<(string, string), seq<string>>,
    phasesInOrder: map<string, seq<string>>,
    phaseNames: map<(string, string), Option<string>>,
    stepNames: map<(string, string), Option<string>>)

  const EmptyDefinition: Definition := Definition([], map[], map[], map[], map[], map[], map[])

  /** The loop state of `build_workflow_definition` inside one process: the tables, the
      process's `steps_flat` and the current phase's `phase_steps`. */
  datatype Acc = Acc(def: Definition, flat: seq<string>, phaseSteps: seq<string>)

  /** The innermost iteration: a step without an id is skipped; otherwise it is recorded
      under the phase and appended to both step lists. */
  function AddDefStep(a: Acc, pid: string, phid: string, step: StepDoc): Acc {
    if !Truthy(step.id) then a
    else
      var sid := step.id.value;
      var d := a.def;
      Acc(d.(stepNames := d.stepNames[(pid, sid) := step.name], stepToPhase := d.stepToPhase[(pid, sid) := phid]),
          a.flat + [sid], a.phaseSteps + [sid])
  }

  function AddDefSteps(a: Acc, pid: string, phid: string, steps: seq<StepDoc>): Acc
    decreases |steps|
  {
    if steps == [] then a
    else AddDefStep(AddDefSteps(a, pid, phid, steps[..|steps| - 1]), pid, phid, steps[|steps| - 1])
  }

  function MapGet<K, V>(m: map<K, seq<V>>, k: K): seq<V> {
    if k in m then m[k] else []
  }

  /** One phase: a phase without an id is skipped; otherwise it is appended to the process's
      phase list, its name recorded, its steps added, and its own step list stored. */
  function AddDefPhase(a: Acc, pid: string, phase: PhaseDoc): Acc {
    if !Truthy(phase.id) then a
    else
      var phid := phase.id.value;
      var d := a.def;
      var d1 := d.(phasesInOrder := d.phasesInOrder[pid := MapGet(d.phasesInOrder, pid) + [phid]],
                   phaseNames := d.phaseNames[(pid, phid) := phase.name]);
      var a2 := AddDefSteps(Acc(d1, a.flat, []), pid, phid, phase.steps);
      Acc(a2.def.(phaseToSteps := a2.def.phaseToSteps[(pid, phid) := a2.phaseSteps]), a2.flat, [])
  }

  function AddDefPhases(a: Acc, pid: string, phases: seq<PhaseDoc>): Acc
    decreases |phases|
  {
    if phases == [] then a
    else AddDefPhase(AddDefPhases(a, pid, phases[..|phases| - 1]), pid, phases[|phases| - 1])
  }

  /** One process: a process without an id is skipped; otherwise it is (re)registered, its
      phase list restarts empty, its phases are added and its flat step list stored. */
  function AddDefProcess(d: Definition, p: ProcessDoc): Definition {
    if !Truthy(p.id) then d
    else
      var pid := p.id.value;
      var d1 := d.(processes := Put(d.processes, pid, p), phasesInOrder := d.phasesInOrder[pid := []]);
      var a := AddDefPhases(Acc(d1, [], []), pid, p.phases);
      a.def.(stepsInOrder := a.def.stepsInOrder[pid := a.flat])
  }

  /** `build_workflow_definition`. */
  function BuildDefinition(processes: seq<ProcessDoc>): Definition
    decreases |processes|
  {
    if processes == [] then EmptyDefinition
    else AddDefProcess(BuildDefinition(processes[..|processes| - 1]), processes[|processes| - 1])
  }

  /** The step ids of the phases that have an id, in document order. */
  function ListedSteps(phases: seq<PhaseDoc>): seq<string>
    decreases |phases|
  {
    if phases == [] then []
    else
      var last := phases[|phases| - 1];
      ListedSteps(phases[..|phases| - 1]) + (if Truthy(last.id) then StepIdsIn(last.steps) else [])
  }

  /** Phase `j` has an id and lists step `s`. */
  predicate Encloses(phases: seq<PhaseDoc>, j: int, s: string) {
    0 <= j < |phases| && Truthy(phases[j].id) && s in StepIdsIn(phases[j].steps)
  }

  // ---------------------------------------------------------------- facts about the fold

  /** The inner loop appends the step ids to both lists, maps each to the phase, and
      touches no other table. */
  lemma {:induction false} AddDefStepsFacts(a: Acc, pid: string, phid: string, steps: seq<StepDoc>)
    ensures var r := AddDefSteps(a, pid, phid, steps);
      && r.flat == a.flat + StepIdsIn(steps)
      && r.phaseSteps == a.phaseSteps + StepIdsIn(steps)
      && r.def.processes == a.def.processes && r.def.stepsInOrder == a.def.stepsInOrder
      && r.def.phaseToSteps == a.def.phaseToSteps && r.def.phasesInOrder == a.def.phasesInOrder
      && (forall k :: k in r.def.stepToPhase <==> k in a.def.stepToPhase || (k.0 == pid && k.1 in StepIdsIn(steps)))
      && (forall k :: k in r.def.stepToPhase ==>
            r.def.stepToPhase[k] == if k.0 == pid && k.1 in StepIdsIn(steps) then phid else a.def.stepToPhase[k])
    decreases |steps|
  {
    if steps != [] {
      AddDefStepsFacts(a, pid, phid, steps[..|steps| - 1]);
    }
  }

  /** One phase with an id appends its id to the phase list and its step ids to the flat
      list, maps each of its steps to it, stores its step list under its id, and touches no
      entry of another process. */
  lemma AddDefPhaseFacts(a: Acc, pid: string, phase: PhaseDoc)
    requires Truthy(phase.id)
    ensures var r, phid := AddDefPhase(a, pid, phase), phase.id.value;
      && r.flat == a.flat + StepIdsIn(phase.steps)
      && r.def.processes == a.def.processes && r.def.stepsInOrder == a.def.stepsInOrder
      && r.def.phasesInOrder == a.def.phasesInOrder[pid := MapGet(a.def.phasesInOrder, pid) + [phid]]
      && (forall k: (string, string) :: k in r.def.stepToPhase <==> k in a.def.stepToPhase || (k.0 == pid && k.1 in StepIdsIn(phase.steps)))
      && (forall k: (string, string) :: k in r.def.stepToPhase ==>
            r.def.stepToPhase[k] == if k.0 == pid && k.1 in StepIdsIn(phase.steps) then phid else a.def.stepToPhase[k])
      && r.def.phaseToSteps == a.def.phaseToSteps[(pid, phid) := StepIdsIn(phase.steps)]
  {
    var phid := phase.id.value;
    var d := a.def;
    var d1 := d.(phasesInOrder := d.phasesInOrder[pid := MapGet(d.phasesInOrder, pid) + [phid]],
                 phaseNames := d.phaseNames[(pid, phid) := phase.name]);
    AddDefStepsFacts(Acc(d1, a.flat, []), pid, phid, phase.steps);
    assert [] + StepIdsIn(phase.steps) == StepIdsIn(phase.steps);
  }

  /** The list part of `AddDefPhaseFacts`, on its own. */
  lemma AddDefPhaseLists(a: Acc, pid: string, phase: PhaseDoc)
    requires Truthy(phase.id)
    ensures var r := AddDefPhase(a, pid, phase);
      && r.flat == a.flat + StepIdsIn(phase.steps)
      && r.def.processes == a.def.processes && r.def.stepsInOrder == a.def.stepsInOrder
      && r.def.phasesInOrder == a.def.phasesInOrder[pid := MapGet(a.def.phasesInOrder, pid) + [phase.id.value]]
  {
    AddDefPhaseFacts(a, pid, phase);
  }

  /** Over the phases of one process, the flat list grows by the listed steps and the phase
      list by the phase ids; the process registry and the flat lists of processes are untouched. */
  lemma {:induction false} AddDefPhasesLists(a: Acc, pid: string, phases: seq<PhaseDoc>)
    requires pid in a.def.phasesInOrder
    ensures var r := AddDefPhases(a, pid, phases);
      && r.flat == a.flat + ListedSteps(phases)
      && r.def.processes == a.def.processes && r.def.stepsInOrder == a.def.stepsInOrder
      && r.def.phasesInOrder == a.def.phasesInOrder[pid := a.def.phasesInOrder[pid] + PhaseIds(phases)]
    decreases |phases|
  {
    if phases == [] {
      assert a.def.phasesInOrder[pid] + [] == a.def.phasesInOrder[pid];
    } else {
      var n := |phases| - 1;
      var prefix, last := phases[..n], phases[n];
      AddDefPhasesLists(a, pid, prefix);
      var base := a.def.phasesInOrder[pid];
      if Truthy(last.id) {
        AddDefPhaseLists(AddDefPhases(a, pid, prefix), pid, last);
        assert PhaseIds(phases) == PhaseIds(prefix) + [last.id.value];
        assert ListedSteps(phases) == ListedSteps(prefix) + StepIdsIn(last.steps);
        AppendSnocAssoc(base, PhaseIds(prefix), last.id.value);
      } else {
        assert PhaseIds(phases) == PhaseIds(prefix) + [];
        assert ListedSteps(phases) == ListedSteps(prefix) + [];
        AppendNil(PhaseIds(prefix));
        AppendNil(ListedSteps(prefix));
      }
    }
  }

  /** Every listed step maps to a phase that encloses it; entries of other processes are untouched. */
  lemma {:induction false} AddDefPhasesStepMap(a: Acc, pid: string, phases: seq<PhaseDoc>)
    ensures var r := AddDefPhases(a, pid, phases);
      && (forall s :: s in ListedSteps(phases) ==>
            (pid, s) in r.def.stepToPhase && exists j :: Encloses(phases, j, s) && phases[j].id.value == r.def.stepToPhase[(pid, s)])
      && (forall k: (string, string) :: k.0 != pid ==> (k in r.def.stepToPhase <==> k in a.def.stepToPhase))
      && (forall k: (string, string) :: k.0 != pid && k in r.def.stepToPhase ==> r.def.stepToPhase[k] == a.def.stepToPhase[k])
    decreases |phases|
  {
    if phases != [] {
      var n := |phases| - 1;
      var prefix, last := phases[..n], phases[n];
      AddDefPhasesStepMap(a, pid, prefix);
      var b := AddDefPhases(a, pid, prefix);
      var r := AddDefPhases(a, pid, phases);
      if Truthy(last.id) {
        AddDefPhaseFacts(b, pid, last);
        forall s | s in ListedSteps(phases)
          ensures (pid, s) in r.def.stepToPhase
          ensures exists j :: Encloses(phases, j, s) && phases[j].id.value == r.def.stepToPhase[(pid, s)]
        {
          if s in StepIdsIn(last.steps) {
            assert Encloses(phases, n, s);
          } else {
            var j :| Encloses(prefix, j, s) && prefix[j].id.value == b.def.stepToPhase[(pid, s)];
            assert Encloses(phases, j, s);
          }
        }
      } else {
        forall s | s in ListedSteps(phases)
          ensures exists j :: Encloses(phases, j, s) && phases[j].id.value == r.def.stepToPhase[(pid, s)]
        {
          var j :| Encloses(prefix, j, s) && prefix[j].id.value == b.def.stepToPhase[(pid, s)];
          assert Encloses(phases, j, s);
        }
      }
    }
  }

  /** `steps` is the step list of some phase with id `q`. */
  predicate StepsOfPhase(phases: seq<PhaseDoc>, q: string, steps: seq<string>) {
    exists j :: 0 <= j < |phases| && phases[j].id == Some(q) && steps == StepIdsIn(phases[j].steps)
  }

  lemma StepsOfPhaseSnoc(phases: seq<PhaseDoc>, q: string, steps: seq<string>)
    requires phases != [] && StepsOfPhase(phases[..|phases| - 1], q, steps)
    ensures StepsOfPhase(phases, q, steps)
  {
    var j :| 0 <= j < |phases| - 1 && phases[..|phases| - 1][j].id == Some(q) && steps == StepIdsIn(phases[..|phases| - 1][j].steps);
    assert phases[j] == phases[..|phases| - 1][j];
  }

  /** The phase-map part of `AddDefPhaseFacts`, on its own: a phase without an id changes
      nothing. */
  lemma AddDefPhasePhaseMap(a: Acc, pid: string, phase: PhaseDoc)
    ensures Truthy(phase.id) ==>
      AddDefPhase(a, pid, phase).def.phaseToSteps == a.def.phaseToSteps[(pid, phase.id.value) := StepIdsIn(phase.steps)]
    ensures !Truthy(phase.id) ==> AddDefPhase(a, pid, phase) == a
  {
    if Truthy(phase.id) {
      AddDefPhaseFacts(a, pid, phase);
    }
  }

  /** Every phase id maps to the step list of a phase with that id; entries of other processes
      are untouched. */
  lemma {:induction false} AddDefPhasesPhaseMap(a: Acc, pid: string, phases: seq<PhaseDoc>)
    ensures var r := AddDefPhases(a, pid, phases);
      && (forall q :: q in PhaseIds(phases) ==> (pid, q) in r.def.phaseToSteps && StepsOfPhase(phases, q, r.def.phaseToSteps[(pid, q)]))
      && (forall k: (string, string) :: k.0 != pid ==> (k in r.def.phaseToSteps <==> k in a.def.phaseToSteps))
      && (forall k: (string, string) :: k.0 != pid && k in r.def.phaseToSteps ==> r.def.phaseToSteps[k] == a.def.phaseToSteps[k])
    decreases |phases|
  {
    if phases != [] {
      var n := |phases| - 1;
      var prefix, last := phases[..n], phases[n];
      AddDefPhasesPhaseMap(a, pid, prefix);
      var b := AddDefPhases(a, pid, prefix);
      var r := AddDefPhases(a, pid, phases);
      assert r == AddDefPhase(b, pid, last);
      AddDefPhasePhaseMap(b, pid, last);
      if Truthy(last.id) {
        assert PhaseIds(phases) == PhaseIds(prefix) + [last.id.value];
        forall q | q in PhaseIds(phases)
          ensures (pid, q) in r.def.phaseToSteps && StepsOfPhase(phases, q, r.def.phaseToSteps[(pid, q)])
        {
          if q == last.id.value {
            assert phases[n].id == Some(q);
          } else {
            StepsOfPhaseSnoc(phases, q, b.def.phaseToSteps[(pid, q)]);
          }
        }
      } else {
        assert PhaseIds(phases) == PhaseIds(prefix) + [];
        forall q | q in PhaseIds(phases)
          ensures StepsOfPhase(phases, q, r.def.phaseToSteps[(pid, q)])
        {
          StepsOfPhaseSnoc(phases, q, b.def.phaseToSteps[(pid, q)]);
        }
      }
    }
  }

  /** What the tables say about process `pid` when `p` is its definition: `p` is registered
      under it, its flat step list is the listed steps of `p`, its phase list the phase ids of
      `p`, every listed step maps to a phase of `p` enclosing it, and every phase id to the
      step list of a phase of `p` with that id. */
  ghost predicate EntryOf(d: Definition, pid: string, p: ProcessDoc) {
    && Get(d.processes, pid) == Some(p)
    && pid in d.stepsInOrder && d.stepsInOrder[pid] == ListedSteps(p.phases)
    && pid in d.phasesInOrder && d.phasesInOrder[pid] == PhaseIds(p.phases)
    && (forall s :: s in ListedSteps(p.phases) ==>
          (pid, s) in d.stepToPhase && exists j :: Encloses(p.phases, j, s) && p.phases[j].id.value == d.stepToPhase[(pid, s)])
    && (forall q :: q in PhaseIds(p.phases) ==> (pid, q) in d.phaseToSteps && StepsOfPhase(p.phases, q, d.phaseToSteps[(pid, q)]))
  }

  /** A process with an id gets its entry. */
  lemma AddDefProcessEntry(d: Definition, p: ProcessDoc)
    requires Truthy(p.id)
    ensures EntryOf(AddDefProcess(d, p), p.id.value, p)
  {
    var pid := p.id.value;
    var d1 := d.(processes := Put(d.processes, pid, p), phasesInOrder := d.phasesInOrder[pid := []]);
    AddDefPhasesLists(Acc(d1, [], []), pid, p.phases);
    AddDefPhasesStepMap(Acc(d1, [], []), pid, p.phases);
    AddDefPhasesPhaseMap(Acc(d1, [], []), pid, p.phases);
    PutGetSame(d.processes, pid, p);
    assert [] + PhaseIds(p.phases) == PhaseIds(p.phases);
    assert [] + ListedSteps(p.phases) == ListedSteps(p.phases);
  }

  /** Adding a process leaves the entry of every other process as it was. */
  lemma AddDefProcessKeeps(d: Definition, p: ProcessDoc, pid: string, q: ProcessDoc)
    requires EntryOf(d, pid, q) && p.id != Some(pid)
    ensures EntryOf(AddDefProcess(d, p), pid, q)
  {
    if Truthy(p.id) {
      var pid' := p.id.value;
      var d1 := d.(processes := Put(d.processes, pid', p), phasesInOrder := d.phasesInOrder[pid' := []]);
      AddDefPhasesLists(Acc(d1, [], []), pid', p.phases);
      AddDefPhasesStepMap(Acc(d1, [], []), pid', p.phases);
      AddDefPhasesPhaseMap(Acc(d1, [], []), pid', p.phases);
      PutGetOther(d.processes, pid', p, pid);
    }
  }

  /** A process is last with id `pid` when no later process has that id. */
  predicate LastWithId(processes: seq<ProcessDoc>, i: int, pid: string) {
    0 <= i < |processes| && processes[i].id == Some(pid)
    && forall j :: i < j < |processes| ==> processes[j].id != Some(pid)
  }

  /** Each id is defined by the last process carrying it: a later duplicate replaces an
      earlier one in every table. */
  lemma {:induction false} BuildDefinitionEntry(processes: seq<ProcessDoc>, i: int, pid: string)
    requires LastWithId(processes, i, pid) && pid != ""
    ensures EntryOf(BuildDefinition(processes), pid, processes[i])
    decreases |processes|
  {
    var n := |processes| - 1;
    var prefix := processes[..n];
    if i == n {
      AddDefProcessEntry(BuildDefinition(prefix), processes[n]);
    } else {
      assert LastWithId(prefix, i, pid);
      BuildDefinitionEntry(prefix, i, pid);
      AddDefProcessKeeps(BuildDefinition(prefix), processes[n], pid, processes[i]);
    }
  }

  /** Some process of the document carries the non-empty id `pid`. */
  ghost predicate HasId(processes: seq<ProcessDoc>, pid: string) {
    exists i :: 0 <= i < |processes| && processes[i].id == Some(pid) && pid != ""
  }

  lemma HasIdSnoc(processes: seq<ProcessDoc>, pid: string)
    requires processes != []
    ensures var n := |processes| - 1;
      HasId(processes, pid) <==> HasId(processes[..n], pid) || (processes[n].id == Some(pid) && pid != "")
  {
    var n := |processes| - 1;
    if HasId(processes, pid) && processes[n].id != Some(pid) {
      var i :| 0 <= i < |processes| && processes[i].id == Some(pid) && pid != "";
      assert processes[..n][i].id == Some(pid);
    }
    if HasId(processes[..n], pid) {
      var i :| 0 <= i < n && processes[..n][i].id == Some(pid) && pid != "";
      assert processes[i].id == Some(pid);
    }
  }

  /** Adding a process registers its id, if non-empty, in the three tables keyed by process. */
  lemma AddDefProcessKeys(d: Definition, p: ProcessDoc, pid: string)
    ensures var r, added := AddDefProcess(d, p), p.id == Some(pid) && pid != "";
      && (HasKey(r.processes, pid) <==> HasKey(d.processes, pid) || added)
      && (pid in r.stepsInOrder <==> pid in d.stepsInOrder || added)
      && (pid in r.phasesInOrder <==> pid in d.phasesInOrder || added)
  {
    if Truthy(p.id) {
      var pid' := p.id.value;
      var d1 := d.(processes := Put(d.processes, pid', p), phasesInOrder := d.phasesInOrder[pid' := []]);
      AddDefPhasesLists(Acc(d1, [], []), pid', p.phases);
      PutKeys(d.processes, pid', p);
    }
  }

  /** The registered processes, the flat step lists and the phase lists all have exactly the
      non-empty process ids of the document as keys. */
  lemma {:induction false} BuildDefinitionKeys(processes: seq<ProcessDoc>, pid: string)
    ensures var d := BuildDefinition(processes);
      && (HasKey(d.processes, pid) <==> HasId(processes, pid))
      && (pid in d.stepsInOrder <==> HasKey(d.processes, pid))
      && (pid in d.phasesInOrder <==> HasKey(d.processes, pid))
    decreases |processes|
  {
    if processes != [] {
      var n := |processes| - 1;
      BuildDefinitionKeys(processes[..n], pid);
      AddDefProcessKeys(BuildDefinition(processes[..n]), processes[n], pid);
      HasIdSnoc(processes, pid);
    }
  }

  /** `build_workflow_definition`, with its three nested loops. */
  method BuildWorkflowDefinition(processes: seq<ProcessDoc>) returns (d: Definition)
    ensures d == BuildDefinition(processes)
  {
    d := EmptyDefinition;
    var i := 0;
    while i < |processes|
      invariant 0 <= i <= |processes|
      invariant d == BuildDefinition(processes[..i])
    {
      var proc := processes[i];
      TakeSnoc(processes, i);
      if Truthy(proc.id) {
        var pid := proc.id.value;
        d := d.(processes := Put(d.processes, pid, proc), phasesInOrder := d.phasesInOrder[pid := []]);
        ghost var d0 := d;
        var flat: seq<string> := [];
        var j := 0;
        while j < |proc.phases|
          invariant 0 <= j <= |proc.phases|
          invariant Acc(d, flat, []) == AddDefPhases(Acc(d0, [], []), pid, proc.phases[..j])
        {
          var phase := proc.phases[j];
          assert proc.phases[..j + 1][..j] == proc.phases[..j];
          if Truthy(phase.id) {
            var phid := phase.id.value;
            d := d.(phasesInOrder := d.phasesInOrder[pid := MapGet(d.phasesInOrder, pid) + [phid]],
                    phaseNames := d.phaseNames[(pid, phid) := phase.name]);
            var phaseSteps: seq<string> := [];
            ghost var start := Acc(d, flat, []);
            var k := 0;
            while k < |phase.steps|
              invariant 0 <= k <= |phase.steps|
              invariant Acc(d, flat, phaseSteps) == AddDefSteps(start, pid, phid, phase.steps[..k])
            {
              var step := phase.steps[k];
              assert phase.steps[..k + 1][..k] == phase.steps[..k];
              if Truthy(step.id) {
                var sid := step.id.value;
                d := d.(stepNames := d.stepNames[(pid, sid) := step.name], stepToPhase := d.stepToPhase[(pid, sid) := phid]);
                phaseSteps := phaseSteps + [sid];
                flat := flat + [sid];
              }
              k := k + 1;
            }
            assert phase.steps[..k] == phase.steps;
            d := d.(phaseToSteps := d.phaseToSteps[(pid, phid) := phaseSteps]);
          }
          j := j + 1;
        }
        assert proc.phases[..j] == proc.phases;
        d := d.(stepsInOrder := d.stepsInOrder[pid := flat]);
      }
      i := i + 1;
    }
    assert processes[..i] == processes;
  }

  // ---------------------------------------------------------------- resolving the process

  /** A definition process answers to the normal form of the canonical process by its id or
      its name. */
  predicate NamesProcess(e: (string, ProcessDoc), n: string) {
    NormText(Some(e.0)) == n || NormText(e.1.name) == n
  }

  /** `resolve_definition_process_id`: a falsy process resolves to nothing; a process id of the
      definition resolves to itself; otherwise the first definition process whose id or name
      has the same normal form; otherwise the first definition process that is a hiring key. */
  function ResolveProcessOf(canon: Option<string>, d: Definition, hiring: seq<string>): Option<string> {
    if !Truthy(canon) then None
    else if HasKey(d.processes, canon.value) then canon
    else ResolveByName(d, NormText(canon), hiring)
  }

  /** The two fall-back loops of the resolution, given the normal form `n` of the process. */
  /** The test of the first fall-back loop. */
  function NamedBy(n: string): ((string, ProcessDoc)) -> bool {
    (e: (string, ProcessDoc)) => NamesProcess(e, n)
  }

  /** The test of the second fall-back loop. */
  function InHiring(hiring: seq<string>): string -> bool {
    (k: string) => k in hiring
  }

  function ResolveByName(d: Definition, n: string, hiring: seq<string>): Option<string> {
    match FirstWhere(d.processes, NamedBy(n))
    case Some(i) => Some(d.processes[i].0)
    case None =>
      match FirstWhere(Keys(d.processes), InHiring(hiring))
      case Some(i) => Some(Keys(d.processes)[i])
      case None => None
  }

  /** The resolved process is always a process of the definition, reached by one of the three
      routes in order: the id itself, the first id or name with the same normal form, or the
      first hiring key; and nothing is resolved only when all three routes fail. */
  lemma ResolveMeaning(canon: Option<string>, d: Definition, hiring: seq<string>)
    ensures var r := ResolveProcessOf(canon, d, hiring);
      && (r.Some? ==> Truthy(canon) && HasKey(d.processes, r.value))
      && (Truthy(canon) && HasKey(d.processes, canon.value) ==> r == canon)
      && (Truthy(canon) && !HasKey(d.processes, canon.value) && r.Some? ==>
            (exists i :: 0 <= i < |d.processes| && d.processes[i].0 == r.value && NamesProcess(d.processes[i], NormText(canon))
               && forall j :: 0 <= j < i ==> !NamesProcess(d.processes[j], NormText(canon)))
            || ((forall i :: 0 <= i < |d.processes| ==> !NamesProcess(d.processes[i], NormText(canon))) && r.value in hiring))
      && (Truthy(canon) && r.None? <==>
            Truthy(canon) && !HasKey(d.processes, canon.value)
            && (forall i :: 0 <= i < |d.processes| ==> !NamesProcess(d.processes[i], NormText(canon)))
            && (forall k :: HasKey(d.processes, k) ==> k !in hiring))
  {
    if Truthy(canon) && !HasKey(d.processes, canon.value) {
      ResolveByNameMeaning(d, NormText(canon), hiring);
    }
  }

  /** The fall-back routes: the first process named by `n`, else the first hiring key. */
  lemma ResolveByNameMeaning(d: Definition, n: string, hiring: seq<string>)
    ensures var r := ResolveByName(d, n, hiring);
      && (r.Some? ==> HasKey(d.processes, r.value))
      && (r.Some? ==>
            (exists i :: 0 <= i < |d.processes| && d.processes[i].0 == r.value && NamesProcess(d.processes[i], n)
               && forall j :: 0 <= j < i ==> !NamesProcess(d.processes[j], n))
            || ((forall i :: 0 <= i < |d.processes| ==> !NamesProcess(d.processes[i], n)) && r.value in hiring))
      && (r.None? <==>
            (forall i :: 0 <= i < |d.processes| ==> !NamesProcess(d.processes[i], n))
            && (forall k :: HasKey(d.processes, k) ==> k !in hiring))
  {
    match FirstWhere(d.processes, NamedBy(n))
    case Some(i) =>
      KeysAt(d.processes, i);
    case None =>
      var ks := Keys(d.processes);
      match FirstWhere(ks, InHiring(hiring))
      case Some(i) =>
      case None =>
        forall k | HasKey(d.processes, k) ensures k !in hiring {
          var i :| 0 <= i < |ks| && ks[i] == k;
        }
  }

  /** `resolve_definition_process_id` with its two loops. */
  method ResolveDefinitionProcessId(canon: Option<string>, d: Definition, hiring: seq<string>) returns (r: Option<string>)
    ensures r == ResolveProcessOf(canon, d, hiring)
  {
    if !Truthy(canon) {
      return None;
    }
    if HasKey(d.processes, canon.value) {
      return canon;
    }
    var n := NormText(canon);
    r := ResolveNamed(d, n, hiring);
  }

  /** The two fall-back loops. */
  method ResolveNamed(d: Definition, n: string, hiring: seq<string>) returns (r: Option<string>)
    ensures r == ResolveByName(d, n, hiring)
  {
    var hit := FindFirst(d.processes, NamedBy(n));
    if hit.Some? {
      return Some(d.processes[hit.value].0);
    }
    var ks := Keys(d.processes);
    hit := FindFirst(ks, InHiring(hiring));
    if hit.Some? {
      return Some(ks[hit.value]);
    }
    return None;
  }

  // ---------------------------------------------------------------- matching a raw step

  /** `step_info[(process, step)]["name"]`, nothing when either is missing. */
  function StepNameOf(d: Definition, pid: string, sid: string): Option<string> {
    if (pid, sid) in d.stepNames then d.stepNames[(pid, sid)] else None
  }

  /** The step's id or name has the normal form `rn`. */
  predicate ExactStepHit(d: Definition, pid: string, rn: string, sid: string) {
    NormText(Some(sid)) == rn || NormText(StepNameOf(d, pid, sid)) == rn
  }

  /** The step's id or name has a non-empty normal form lying inside `rn` or containing it. */
  predicate LooseStepHit(d: Definition, pid: string, rn: string, sid: string) {
    var sn, nn := NormText(Some(sid)), NormText(StepNameOf(d, pid, sid));
    (sn != "" && (Contains(rn, sn) || Contains(sn, rn))) || (nn != "" && (Contains(rn, nn) || Contains(nn, rn)))
  }

  /** The tests of the matching loop, and the identity it collects hits with. */
  function ExactTest(d: Definition, pid: string, rn: string): string -> bool {
    (s: string) => ExactStepHit(d, pid, rn, s)
  }

  function LooseTest(d: Definition, pid: string, rn: string): string -> bool {
    (s: string) => LooseStepHit(d, pid, rn, s)
  }

  function AsIs(): string -> string {
    (s: string) => s
  }

  /** `match_step_in_definition`: the first step of the process whose id or name has the
      normal form of the raw text; failing that, the step every loose hit agrees on; nothing
      for a falsy text or process, a process without steps, or a text with an empty normal form. */
  function MatchInDefinitionOf(raw: Option<string>, pid: Option<string>, d: Definition): Option<string> {
    if !Truthy(raw) || !Truthy(pid) then None
    else
      var steps := MapGet(d.stepsInOrder, pid.value);
      var rn := NormText(raw);
      if steps == [] || rn == "" then None
      else MatchAmong(d, pid.value, steps, rn)
  }

  /** The loop of the matching over `steps`, given the normal form `rn` of the raw text. */
  function MatchAmong(d: Definition, pid: string, steps: seq<string>, rn: string): Option<string> {
    FirstOrSole(steps, ExactTest(d, pid, rn), LooseTest(d, pid, rn))
  }

  /** The first step passing `exact`, else the sole distinct step passing `loose`. */
  function FirstOrSole(steps: seq<string>, exact: string -> bool, loose: string -> bool): Option<string> {
    match FirstWhere(steps, exact)
    case Some(i) => Some(steps[i])
    case None => SoleHit(steps, AsIs(), loose)
  }

  /** A match is a step of the process. */
  lemma MatchInDefinitionInSteps(raw: Option<string>, pid: Option<string>, d: Definition)
    ensures var r := MatchInDefinitionOf(raw, pid, d);
      r.Some? ==> Truthy(raw) && Truthy(pid) && pid.value in d.stepsInOrder && r.value in d.stepsInOrder[pid.value]
  {
    if Truthy(raw) && Truthy(pid) {
      MatchAmongInSteps(d, pid.value, MapGet(d.stepsInOrder, pid.value), NormText(raw));
    }
  }

  lemma MatchAmongInSteps(d: Definition, pid: string, steps: seq<string>, rn: string)
    ensures var r := MatchAmong(d, pid, steps, rn);
      r.Some? ==> r.value in steps
  {
    var r := MatchAmong(d, pid, steps, rn);
    if r.Some? && FirstWhere(steps, ExactTest(d, pid, rn)).None? {
      SoleHitSpec(steps, AsIs(), LooseTest(d, pid, rn), r.value);
    }
  }

  /** An exact hit wins, and the first one in step order. */
  lemma MatchAmongExact(d: Definition, pid: string, steps: seq<string>, rn: string, i: nat)
    requires i < |steps| && ExactStepHit(d, pid, rn, steps[i])
    ensures exists j :: 0 <= j <= i && MatchAmong(d, pid, steps, rn) == Some(steps[j]) && ExactStepHit(d, pid, rn, steps[j])
                        && forall k :: 0 <= k < j ==> !ExactStepHit(d, pid, rn, steps[k])
  {
    var f := FirstWhere(steps, ExactTest(d, pid, rn));
    assert f.Some?;
    assert f.value <= i;
  }

  /** Without an exact hit, a step is the match exactly when some step hits loosely and every
      loose hit is that step: two different loose hits give no match. */
  lemma MatchAmongLoose(d: Definition, pid: string, steps: seq<string>, rn: string, k: string)
    requires forall i :: 0 <= i < |steps| ==> !ExactStepHit(d, pid, rn, steps[i])
    ensures MatchAmong(d, pid, steps, rn) == Some(k) <==>
      (exists i :: 0 <= i < |steps| && LooseStepHit(d, pid, rn, steps[i]) && steps[i] == k)
      && (forall i :: 0 <= i < |steps| && LooseStepHit(d, pid, rn, steps[i]) ==> steps[i] == k)
  {
    SoleHitSpec(steps, AsIs(), LooseTest(d, pid, rn), k);
  }

  /** `match_step_in_definition` as a loop with an early return and a candidate list. */
  method MatchStepInDefinition(raw: Option<string>, pid: Option<string>, d: Definition) returns (r: Option<string>)
    ensures r == MatchInDefinitionOf(raw, pid, d)
  {
    if !Truthy(raw) || !Truthy(pid) {
      return None;
    }
    var p := pid.value;
    var steps := if p in d.stepsInOrder then d.stepsInOrder[p] else [];
    if steps == [] {
      return None;
    }
    var rn := NormText(raw);
    if rn == "" {
      return None;
    }
    r := MatchStepAmong(d, p, steps, rn);
  }

  /** The loop of `match_step_in_definition`. */
  method MatchStepAmong(d: Definition, p: string, steps: seq<string>, rn: string) returns (r: Option<string>)
    ensures r == MatchAmong(d, p, steps, rn)
  {
    r := FirstOrSoleLoop(steps, ExactTest(d, p, rn), LooseTest(d, p, rn));
  }

  /** The loop itself: return on the first exact hit, else collect the loose hits and keep
      one when they are all the same step. */
  method FirstOrSoleLoop(steps: seq<string>, exact: string -> bool, loose: string -> bool) returns (r: Option<string>)
    ensures r == FirstOrSole(steps, exact, loose)
  {
    var candidates: seq<string> := [];
    var i := 0;
    while i < |steps|
      invariant 0 <= i <= |steps|
      invariant forall j :: 0 <= j < i ==> !exact(steps[j])
      invariant candidates == Hits(steps[..i], AsIs(), loose)
    {
      var sid := steps[i];
      if exact(sid) {
        FirstWhereSome(steps, exact, i);
        return Some(sid);
      }
      TakeSnoc(steps, i);
      HitsSnoc(steps[..i], sid, AsIs(), loose);
      if loose(sid) {
        candidates := candidates + [sid];
      }
      i := i + 1;
    }
    FirstWhereNone(steps, exact);
    TakeAll(steps);
    SoleBySet(candidates);
    if |ToSet(candidates)| == 1 {
      return Some(candidates[0]);
    }
    return None;
  }

  /** The sole distinct hit, read off the set of hits as the loop does. */
  lemma SoleBySet(c: seq<string>)
    ensures var u := Unique(c);
      (|ToSet(c)| == 1) == (|u| == 1) && (|u| == 1 ==> c != [] && u[0] == c[0])
  {
    UniqueSetSize(c);
    if |Unique(c)| == 1 {
      UniqueSingleton(c);
    }
  }

  /** `len(set(s))` is the length of the order-preserving de-duplication of `s`. */
  lemma UniqueSetSize(s: seq<string>)
    ensures |ToSet(s)| == |Unique(s)|
  {
    assert ToSet(s) == ToSet(Unique(s));
    SetSizeDistinct(Unique(s));
  }

  // ---------------------------------------------------------------- the current step

  /** The three step-id fields read from an instance or its state, in the order tried:
      `current_step_id`, `step_id`, `canonical_step_id`. */
  datatype StepIds = StepIds(currentStepId: Option<string>, stepId: Option<string>, canonicalStepId: Option<string>)

  /** What `derive_current_step_id` reads from an instance: the step ids of its state (all
      absent when the state is), the raw step text of its state, its top-level step ids, and
      its `steps_state` when that is a dictionary. Entries of `steps_state` whose value is not
      a string are left out: they never equal a status. */
  datatype StepView = StepView(state: StepIds, stateStep: Option<string>, top: StepIds, stepsState: Option<map<string, string>>)

  /** `state.get(key) or instance.get(key)` for the three keys in order. */
  function Candidates(v: StepView): (r: seq<Option<string>>)
    ensures |r| == 3
  {
    [OrElse(v.state.currentStepId, v.top.currentStepId),
     OrElse(v.state.stepId, v.top.stepId),
     OrElse(v.state.canonicalStepId, v.top.canonicalStepId)]
  }

  predicate Active(ss: map<string, string>, s: string) {
    s in ss && ss[s] in {"in_progress", "blocked"}
  }

  predicate Finished(ss: map<string, string>, s: string) {
    s in ss && ss[s] in {"completed", "completed_inferred"}
  }

  /** The tests of the three searches, as functions. */
  function NamesStep(steps: seq<string>): Option<string> -> bool {
    (c: Option<string>) => c.Some? && c.value in steps
  }

  function ActiveIn(ss: map<string, string>): string -> bool {
    (s: string) => Active(ss, s)
  }

  function FinishedIn(ss: map<string, string>): string -> bool {
    (s: string) => Finished(ss, s)
  }

  /** `derive_current_step_id`: nothing without a process that has steps; else the first
      step-id field naming a step; else, from `steps_state`, the first step in progress or
      blocked, or failing that the last completed one; else the match of the state's raw step
      text. */
  function DeriveCurrentStepOf(v: StepView, pid: Option<string>, d: Definition): Option<string> {
    if !Truthy(pid) || MapGet(d.stepsInOrder, pid.value) == [] then None
    else DeriveAmong(v, pid.value, MapGet(d.stepsInOrder, pid.value), d)
  }

  function DeriveAmong(v: StepView, pid: string, steps: seq<string>, d: Definition): Option<string> {
    var cands := Candidates(v);
    match FirstWhere(cands, NamesStep(steps))
    case Some(i) => cands[i]
    case None =>
      var fallback := MatchInDefinitionOf(v.stateStep, Some(pid), d);
      match v.stepsState
      case None => fallback
      case Some(ss) =>
        match FirstWhere(steps, ActiveIn(ss))
        case Some(i) => Some(steps[i])
        case None =>
          var done := Filter(steps, FinishedIn(ss));
          if done != [] then Some(done[|done| - 1]) else fallback
  }

  /** The derived step is always a step of the process. */
  lemma DeriveInSteps(v: StepView, pid: Option<string>, d: Definition)
    ensures var r := DeriveCurrentStepOf(v, pid, d);
      r.Some? ==> Truthy(pid) && pid.value in d.stepsInOrder && r.value in d.stepsInOrder[pid.value]
  {
    if Truthy(pid) && MapGet(d.stepsInOrder, pid.value) != [] {
      MatchInDefinitionInSteps(v.stateStep, pid, d);
      var steps := MapGet(d.stepsInOrder, pid.value);
      var cands := Candidates(v);
      match FirstWhere(cands, NamesStep(steps))
      case Some(i) =>
      case None =>
        match v.stepsState
        case None =>
        case Some(ss) =>
          var done := Filter(steps, FinishedIn(ss));
          if done != [] {
            assert done[|done| - 1] in done;
          }
    }
  }

  /** The step-id fields take precedence: when one of them names a step, the first such is
      the answer. */
  lemma DeriveFieldsFirst(v: StepView, pid: string, d: Definition, k: nat)
    requires pid != ""
    requires var steps := MapGet(d.stepsInOrder, pid);
      k < 3 && Candidates(v)[k].Some? && Candidates(v)[k].value in steps
    ensures exists i :: 0 <= i <= k && DeriveCurrentStepOf(v, Some(pid), d) == Candidates(v)[i]
                        && Candidates(v)[i].Some? && Candidates(v)[i].value in MapGet(d.stepsInOrder, pid)
                        && forall j :: 0 <= j < i ==> !(Candidates(v)[j].Some? && Candidates(v)[j].value in MapGet(d.stepsInOrder, pid))
  {
    var steps := MapGet(d.stepsInOrder, pid);
    assert steps != [];
    var f := FirstWhere(Candidates(v), NamesStep(steps));
    assert f.Some? && f.value <= k;
  }

  /** When no field names a step and `steps_state` marks a step in progress or blocked, the
      first such step is the answer; when it marks none but marks some completed, the last
      completed step is. */
  lemma DeriveFromStepsState(v: StepView, pid: string, d: Definition, ss: map<string, string>)
    requires pid != ""
    requires var steps := MapGet(d.stepsInOrder, pid);
      && v.stepsState == Some(ss)
      && forall k :: 0 <= k < 3 ==> !(Candidates(v)[k].Some? && Candidates(v)[k].value in steps)
    ensures var steps, r := MapGet(d.stepsInOrder, pid), DeriveCurrentStepOf(v, Some(pid), d);
      && ((exists i :: 0 <= i < |steps| && Active(ss, steps[i])) ==>
            exists i :: 0 <= i < |steps| && r == Some(steps[i]) && Active(ss, steps[i])
                        && forall j :: 0 <= j < i ==> !Active(ss, steps[j]))
      && ((forall i :: 0 <= i < |steps| ==> !Active(ss, steps[i])) && (exists i :: 0 <= i < |steps| && Finished(ss, steps[i])) ==>
            exists i :: 0 <= i < |steps| && r == Some(steps[i]) && Finished(ss, steps[i])
                        && forall j :: i < j < |steps| ==> !Finished(ss, steps[j]))
  {
    var steps := MapGet(d.stepsInOrder, pid);
    FirstWhereNone(Candidates(v), NamesStep(steps));
    var r := DeriveCurrentStepOf(v, Some(pid), d);
    if exists i :: 0 <= i < |steps| && Active(ss, steps[i]) {
      var f := FirstWhere(steps, ActiveIn(ss));
      assert r == Some(steps[f.value]);
    }
    if (forall i :: 0 <= i < |steps| ==> !Active(ss, steps[i])) && (exists i :: 0 <= i < |steps| && Finished(ss, steps[i])) {
      FirstWhereNone(steps, ActiveIn(ss));
      DeriveLastFinished(steps, ss);
    }
  }

  /** Some step is finished: the last finished step closes the completed list. */
  lemma DeriveLastFinished(steps: seq<string>, ss: map<string, string>)
    requires exists i :: 0 <= i < |steps| && Finished(ss, steps[i])
    ensures var done := Filter(steps, FinishedIn(ss));
      done != [] && exists i :: 0 <= i < |steps| && done[|done| - 1] == steps[i] && Finished(ss, steps[i])
                                && forall j :: i < j < |steps| ==> !Finished(ss, steps[j])
  {
    var i :| 0 <= i < |steps| && Finished(ss, steps[i]);
    assert steps[i] in Filter(steps, FinishedIn(ss));
    FilterLast(steps, FinishedIn(ss));
  }

  /** `derive_current_step_id` with its loops. */
  method DeriveCurrentStepId(v: StepView, pid: Option<string>, d: Definition) returns (r: Option<string>)
    ensures r == DeriveCurrentStepOf(v, pid, d)
  {
    if !Truthy(pid) {
      return None;
    }
    var p := pid.value;
    var steps := if p in d.stepsInOrder then d.stepsInOrder[p] else [];
    if steps == [] {
      return None;
    }
    var cands := Candidates(v);
    var named := FindFirst(cands, NamesStep(steps));
    if named.Some? {
      return cands[named.value];
    }
    if v.stepsState.Some? {
      var ss := v.stepsState.value;
      var active := FindFirst(steps, ActiveIn(ss));
      if active.Some? {
        return Some(steps[active.value]);
      }
      var completed := Filter(steps, FinishedIn(ss));
      if completed != [] {
        return Some(completed[|completed| - 1]);
      }
    }
    r := MatchStepInDefinition(v.stateStep, pid, d);
  }

  // ---------------------------------------------------------------- positional inference

  /** One entry of the inferred step list. */
  datatype StepOut = StepOut(id: string, name: Option<string>, status: string)

  /** The status of the current step, from the lower-cased state status. */
  function CurrentStatus(statusNorm: string): string {
    if statusNorm == "blocked" then "blocked"
    else if statusNorm in {"done", "completed"} then "completed"
    else "in_progress"
  }

  /** The status of the step at `idx` when the current step is at `index`. */
  function PositionStatus(idx: int, index: int, statusNorm: string, completedLabel: string): string {
    if idx < index then completedLabel
    else if idx == index then CurrentStatus(statusNorm)
    else "not_started"
  }

  /** The first position of `x` in `steps`: Python's `steps.index(x)`. */
  function IndexOf(steps: seq<string>, x: string): (i: nat)
    requires x in steps
    ensures i < |steps| && steps[i] == x && forall j :: 0 <= j < i ==> steps[j] != x
  {
    var f := FirstWhere(steps, (s: string) => s == x);
    assert f.Some? by {
      var k :| 0 <= k < |steps| && steps[k] == x;
    }
    f.value
  }

  /** The step list built by the loop over `steps`. */
  function StepsOut(d: Definition, pid: string, steps: seq<string>, index: int, statusNorm: string, completedLabel: string): (r: seq<StepOut>)
    ensures |r| == |steps|
    decreases |steps|
  {
    if steps == [] then []
    else
      var n := |steps| - 1;
      StepsOut(d, pid, steps[..n], index, statusNorm, completedLabel)
        + [StepOut(steps[n], StepNameOf(d, pid, steps[n]), PositionStatus(n, index, statusNorm, completedLabel))]
  }

  /** `infer_steps_from_position`: nothing unless the process has steps and the current step
      is one of them; otherwise every step of the process, in order, with its name and a status
      from its position relative to the first occurrence of the current step. */
  function InferStepsOf(pid: Option<string>, d: Definition, cur: Option<string>, status: Option<string>, completedLabel: string): Option<seq<StepOut>> {
    if !Truthy(pid) || !Truthy(cur) then None
    else
      var steps := MapGet(d.stepsInOrder, pid.value);
      if steps == [] || cur.value !in steps then None
      else Some(StepsOut(d, pid.value, steps, IndexOf(steps, cur.value), Lower(OrDefault(status, "")), completedLabel))
  }

  /** Entry `k` of the step list is step `k` of the process with its name, and its status
      depends only on `k` against the index. */
  lemma {:induction false} StepsOutAt(d: Definition, pid: string, steps: seq<string>, index: int, statusNorm: string, completedLabel: string, k: int)
    requires 0 <= k < |steps|
    ensures StepsOut(d, pid, steps, index, statusNorm, completedLabel)[k]
              == StepOut(steps[k], StepNameOf(d, pid, steps[k]), PositionStatus(k, index, statusNorm, completedLabel))
    decreases |steps|
  {
    var n := |steps| - 1;
    if k < n {
      StepsOutAt(d, pid, steps[..n], index, statusNorm, completedLabel, k);
    }
  }

  /** There is a step list exactly when the current step is a step of the process. It lists
      the process's steps in order with their names; steps before the current step carry the
      completed label, the current step is blocked, completed (for a state status of done or
      completed, in any case) or in progress, and later steps are not started. */
  lemma InferStepsMeaning(pid: Option<string>, d: Definition, cur: Option<string>, status: Option<string>, completedLabel: string)
    ensures var r := InferStepsOf(pid, d, cur, status, completedLabel);
      && (r.Some? <==> Truthy(pid) && Truthy(cur) && pid.value in d.stepsInOrder && cur.value in d.stepsInOrder[pid.value])
      && (r.Some? ==>
            var steps := d.stepsInOrder[pid.value];
            var index := IndexOf(steps, cur.value);
            var sn := Lower(OrDefault(status, ""));
            && |r.value| == |steps|
            && steps[index] == cur.value && (forall j :: 0 <= j < index ==> steps[j] != cur.value)
            && forall k :: 0 <= k < |steps| ==>
                 && r.value[k].id == steps[k]
                 && r.value[k].name == StepNameOf(d, pid.value, steps[k])
                 && (k < index ==> r.value[k].status == completedLabel)
                 && (k > index ==> r.value[k].status == "not_started")
                 && (k == index ==>
                       r.value[k].status == (if sn == "blocked" then "blocked"
                                             else if sn == "done" || sn == "completed" then "completed"
                                             else "in_progress")))
  {
    var r := InferStepsOf(pid, d, cur, status, completedLabel);
    if r.Some? {
      var steps := d.stepsInOrder[pid.value];
      var index := IndexOf(steps, cur.value);
      var sn := Lower(OrDefault(status, ""));
      forall k | 0 <= k < |steps| {
        StepsOutAt(d, pid.value, steps, index, sn, completedLabel, k);
      }
    }
  }

  /** One more step extends the step list by that step's entry. */
  lemma StepsOutSnoc(d: Definition, pid: string, steps: seq<string>, idx: nat, index: int, statusNorm: string, completedLabel: string)
    requires idx < |steps|
    ensures StepsOut(d, pid, steps[..idx + 1], index, statusNorm, completedLabel)
              == StepsOut(d, pid, steps[..idx], index, statusNorm, completedLabel)
                 + [StepOut(steps[idx], StepNameOf(d, pid, steps[idx]), PositionStatus(idx, index, statusNorm, completedLabel))]
  {
    TakeSnoc(steps, idx);
  }

  /** The loop of `infer_steps_from_position`: one entry per step, its status from its
      position. */
  method StepsOutLoop(d: Definition, pid: string, steps: seq<string>, index: int, statusNorm: string, completedLabel: string)
    returns (out: seq<StepOut>)
    ensures out == StepsOut(d, pid, steps, index, statusNorm, completedLabel)
  {
    out := [];
    var idx := 0;
    while idx < |steps|
      invariant 0 <= idx <= |steps|
      invariant out == StepsOut(d, pid, steps[..idx], index, statusNorm, completedLabel)
    {
      var stepStatus;
      if idx < index {
        stepStatus := completedLabel;
      } else if idx == index {
        if statusNorm == "blocked" {
          stepStatus := "blocked";
        } else if statusNorm in {"done", "completed"} {
          stepStatus := "completed";
        } else {
          stepStatus := "in_progress";
        }
      } else {
        stepStatus := "not_started";
      }
      assert stepStatus == PositionStatus(idx, index, statusNorm, completedLabel);
      StepsOutSnoc(d, pid, steps, idx, index, statusNorm, completedLabel);
      out := out + [StepOut(steps[idx], StepNameOf(d, pid, steps[idx]), stepStatus)];
      idx := idx + 1;
    }
    TakeAll(steps);
  }

  /** `infer_steps_from_position`. */
  method InferStepsFromPosition(pid: Option<string>, d: Definition, cur: Option<string>, status: Option<string>, completedLabel: string)
    returns (r: Option<seq<StepOut>>)
    ensures r == InferStepsOf(pid, d, cur, status, completedLabel)
  {
    if !Truthy(pid) || !Truthy(cur) {
      return None;
    }
    var p, c := pid.value, cur.value;
    var steps := if p in d.stepsInOrder then d.stepsInOrder[p] else [];
    if steps == [] || c !in steps {
      return None;
    }
    var statusNorm := Lower(OrDefault(status, ""));
    var index := IndexOf(steps, c);
    var out := StepsOutLoop(d, p, steps, index, statusNorm, completedLabel);
    return Some(out);
  }

  // ---------------------------------------------------------------- phases

  /** `infer_phase_id`: the phase the definition maps the current step to, or "unknown". */
  function InferPhaseIdOf(pid: Option<string>, cur: Option<string>, d: Definition): string {
    if !Truthy(pid) || !Truthy(cur) then "unknown"
    else if (pid.value, cur.value) in d.stepToPhase then d.stepToPhase[(pid.value, cur.value)]
    else "unknown"
  }

  /** Some process carries an id exactly when one is the last to carry it. */
  lemma {:induction false} LastWithIdExists(processes: seq<ProcessDoc>, pid: string, i: int)
    requires 0 <= i < |processes| && processes[i].id == Some(pid)
    ensures exists k :: LastWithId(processes, k, pid)
    decreases |processes| - i
  {
    if !LastWithId(processes, i, pid) {
      var j :| i < j < |processes| && processes[j].id == Some(pid);
      LastWithIdExists(processes, pid, j);
    }
  }

  /** In a definition built from a document, every step derived for a process lies in a phase
      of the process's (last) definition, and the inferred phase id is that phase's id. */
  lemma DerivedStepHasPhase(processes: seq<ProcessDoc>, v: StepView, pid: string)
    requires pid != ""
    requires DeriveCurrentStepOf(v, Some(pid), BuildDefinition(processes)).Some?
    ensures var d := BuildDefinition(processes);
      var cur := DeriveCurrentStepOf(v, Some(pid), d);
      exists i, j :: LastWithId(processes, i, pid) && Encloses(processes[i].phases, j, cur.value)
                     && InferPhaseIdOf(Some(pid), cur, d) == processes[i].phases[j].id.value
  {
    var d := BuildDefinition(processes);
    var cur := DeriveCurrentStepOf(v, Some(pid), d);
    DeriveInSteps(v, Some(pid), d);
    BuildDefinitionKeys(processes, pid);
    var i0 :| 0 <= i0 < |processes| && processes[i0].id == Some(pid) && pid != "";
    LastWithIdExists(processes, pid, i0);
    var i :| LastWithId(processes, i, pid);
    BuildDefinitionEntry(processes, i, pid);
  }

  /** One entry of the inferred phase list. */
  datatype PhaseOut = PhaseOut(id: string, name: Option<string>, status: string)

  /** `{s["id"]: s.get("status") for s in steps}`: a later entry for the same id wins. */
  function StatusByStep(steps: seq<StepOut>): map<string, string>
    decreases |steps|
  {
    if steps == [] then map[]
    else
      var last := steps[|steps| - 1];
      StatusByStep(steps[..|steps| - 1])[last.id := last.status]
  }

  /** Every listed id has an entry, which is the status of the last step with that id. */
  lemma {:induction false} StatusByStepLastWins(steps: seq<StepOut>, k: int)
    requires 0 <= k < |steps| && forall j :: k < j < |steps| ==> steps[j].id != steps[k].id
    ensures steps[k].id in StatusByStep(steps) && StatusByStep(steps)[steps[k].id] == steps[k].status
    decreases |steps|
  {
    var n := |steps| - 1;
    if k < n {
      StatusByStepLastWins(steps[..n], k);
    }
  }

  /** The map's keys are the listed ids. */
  lemma {:induction false} StatusByStepKeys(steps: seq<StepOut>)
    ensures forall x :: x in StatusByStep(steps) <==> exists k :: 0 <= k < |steps| && steps[k].id == x
    decreases |steps|
  {
    if steps != [] {
      var n := |steps| - 1;
      StatusByStepKeys(steps[..n]);
      assert StatusByStep(steps) == StatusByStep(steps[..n])[steps[n].id := steps[n].status];
      forall x | x in StatusByStep(steps) && x != steps[n].id
        ensures exists k :: 0 <= k < |steps| && steps[k].id == x
      {
        var k :| 0 <= k < n && steps[..n][k].id == x;
        assert steps[k].id == x;
      }
      forall x | (exists k :: 0 <= k < |steps| && steps[k].id == x) && x != steps[n].id
        ensures x in StatusByStep(steps[..n])
      {
        var k :| 0 <= k < |steps| && steps[k].id == x;
        assert steps[..n][k].id == x;
      }
    }
  }

  /** `[status_by_step.get(step_id) for step_id in phase_steps]`. */
  function StatusesOf(m: map<string, string>, ids: seq<string>): (r: seq<Option<string>>)
    ensures |r| == |ids|
    ensures forall i :: 0 <= i < |ids| ==> r[i] == if ids[i] in m then Some(m[ids[i]]) else None
    decreases |ids|
  {
    if ids == [] then []
    else
      var n := |ids| - 1;
      StatusesOf(m, ids[..n]) + [if ids[n] in m then Some(m[ids[n]]) else None]
  }

  predicate CompletedLike(s: Option<string>, completedLabel: string) {
    s == Some("completed") || s == Some(completedLabel)
  }

  predicate ActiveLike(s: Option<string>) {
    s == Some("in_progress") || s == Some("blocked")
  }

  /** A phase's status from its steps' statuses: "unknown" without steps, the completed label
      when every step is completed, "in_progress" when some step is in progress or blocked,
      "not_started" otherwise. */
  function PhaseStatus(statuses: seq<Option<string>>, completedLabel: string): string {
    if statuses == [] then "unknown"
    else if forall i :: 0 <= i < |statuses| ==> CompletedLike(statuses[i], completedLabel) then completedLabel
    else if exists i :: 0 <= i < |statuses| && ActiveLike(statuses[i]) then "in_progress"
    else "not_started"
  }

  function PhaseNameOf(d: Definition, pid: string, phid: string): Option<string> {
    if (pid, phid) in d.phaseNames then d.phaseNames[(pid, phid)] else None
  }

  /** The phase list built by the loop over the process's phases. */
  function PhasesOut(d: Definition, pid: string, phases: seq<string>, m: map<string, string>, completedLabel: string): (r: seq<PhaseOut>)
    ensures |r| == |phases|
    decreases |phases|
  {
    if phases == [] then []
    else
      var n := |phases| - 1;
      var phid := phases[n];
      PhasesOut(d, pid, phases[..n], m, completedLabel)
        + [PhaseOut(phid, PhaseNameOf(d, pid, phid), PhaseStatus(StatusesOf(m, MapGet(d.phaseToSteps, (pid, phid))), completedLabel))]
  }

  /** `infer_phases_from_steps`: nothing without a process, a non-empty step list and a
      non-empty phase list; otherwise every phase of the process with a status from the
      statuses of its own steps. */
  function InferPhasesOf(pid: Option<string>, d: Definition, steps: Option<seq<StepOut>>, completedLabel: string): Option<seq<PhaseOut>> {
    if !Truthy(pid) || steps.None? || steps.value == [] then None
    else
      var phases := MapGet(d.phasesInOrder, pid.value);
      if phases == [] then None
      else Some(PhasesOut(d, pid.value, phases, StatusByStep(steps.value), completedLabel))
  }

  lemma {:induction false} PhasesOutAt(d: Definition, pid: string, phases: seq<string>, m: map<string, string>, completedLabel: string, k: int)
    requires 0 <= k < |phases|
    ensures PhasesOut(d, pid, phases, m, completedLabel)[k]
              == PhaseOut(phases[k], PhaseNameOf(d, pid, phases[k]), PhaseStatus(StatusesOf(m, MapGet(d.phaseToSteps, (pid, phases[k]))), completedLabel))
    decreases |phases|
  {
    var n := |phases| - 1;
    if k < n {
      PhasesOutAt(d, pid, phases[..n], m, completedLabel, k);
    }
  }

  /** Every step of the process reads back its positional status from the map. */
  ghost predicate Positional(m: map<string, string>, steps: seq<string>, index: int, statusNorm: string, completedLabel: string) {
    forall i :: 0 <= i < |steps| ==> steps[i] in m && m[steps[i]] == PositionStatus(i, index, statusNorm, completedLabel)
  }

  /** With distinct steps, the status map of the positional list is positional. */
  lemma StatusByStepPositional(d: Definition, pid: string, steps: seq<string>, index: int, statusNorm: string, completedLabel: string)
    requires Distinct(steps)
    ensures Positional(StatusByStep(StepsOut(d, pid, steps, index, statusNorm, completedLabel)), steps, index, statusNorm, completedLabel)
  {
    var out := StepsOut(d, pid, steps, index, statusNorm, completedLabel);
    forall i | 0 <= i < |steps|
      ensures steps[i] in StatusByStep(out) && StatusByStep(out)[steps[i]] == PositionStatus(i, index, statusNorm, completedLabel)
    {
      StepsOutAt(d, pid, steps, index, statusNorm, completedLabel, i);
      forall j | i < j < |out| ensures out[j].id != out[i].id {
        StepsOutAt(d, pid, steps, index, statusNorm, completedLabel, j);
      }
      StatusByStepLastWins(out, i);
    }
  }

  /** A phase's status under a positional map: a phase whose steps all come before the current
      step is completed, one whose steps all come after it is not started, and one holding the
      current step while that step is in progress or blocked is in progress. */
  lemma PhaseStatusPositional(m: map<string, string>, steps: seq<string>, index: int, statusNorm: string, completedLabel: string, ps: seq<string>)
    requires Positional(m, steps, index, statusNorm, completedLabel)
    requires 0 <= index < |steps|
    requires completedLabel !in {"in_progress", "blocked", "not_started", "completed"}
    requires ps != [] && forall s :: s in ps ==> s in steps
    ensures var ph := PhaseStatus(StatusesOf(m, ps), completedLabel);
      && ((forall i :: 0 <= i < |steps| && steps[i] in ps ==> i < index) ==> ph == completedLabel)
      && ((forall i :: 0 <= i < |steps| && steps[i] in ps ==> i > index) ==> ph == "not_started")
      && (steps[index] in ps && statusNorm !in {"done", "completed"} ==> ph == "in_progress")
  {
    if forall i :: 0 <= i < |steps| && steps[i] in ps ==> i < index {
      PhaseAllBefore(m, steps, index, statusNorm, completedLabel, ps);
    }
    if forall i :: 0 <= i < |steps| && steps[i] in ps ==> i > index {
      PhaseAllAfter(m, steps, index, statusNorm, completedLabel, ps);
    }
    if steps[index] in ps && statusNorm !in {"done", "completed"} {
      PhaseHoldsCurrent(m, steps, index, statusNorm, completedLabel, ps);
    }
  }

  /** Steps all before the current one: every status is the completed label. */
  lemma PhaseAllBefore(m: map<string, string>, steps: seq<string>, index: int, statusNorm: string, completedLabel: string, ps: seq<string>)
    requires Positional(m, steps, index, statusNorm, completedLabel)
    requires ps != [] && forall s :: s in ps ==> s in steps
    requires forall i :: 0 <= i < |steps| && steps[i] in ps ==> i < index
    ensures PhaseStatus(StatusesOf(m, ps), completedLabel) == completedLabel
  {
    var sts := StatusesOf(m, ps);
    forall t | 0 <= t < |sts| ensures CompletedLike(sts[t], completedLabel) {
      assert ps[t] in ps;
      var i :| 0 <= i < |steps| && steps[i] == ps[t];
    }
  }

  /** Steps all after the current one: every status is "not_started". */
  lemma PhaseAllAfter(m: map<string, string>, steps: seq<string>, index: int, statusNorm: string, completedLabel: string, ps: seq<string>)
    requires Positional(m, steps, index, statusNorm, completedLabel)
    requires completedLabel != "not_started"
    requires ps != [] && forall s :: s in ps ==> s in steps
    requires forall i :: 0 <= i < |steps| && steps[i] in ps ==> i > index
    ensures PhaseStatus(StatusesOf(m, ps), completedLabel) == "not_started"
  {
    var sts := StatusesOf(m, ps);
    forall t | 0 <= t < |sts| ensures sts[t] == Some("not_started") {
      assert ps[t] in ps;
      var i :| 0 <= i < |steps| && steps[i] == ps[t];
    }
    assert !CompletedLike(sts[0], completedLabel);
  }

  /** The current step, in progress or blocked, makes its phase in progress. */
  lemma PhaseHoldsCurrent(m: map<string, string>, steps: seq<string>, index: int, statusNorm: string, completedLabel: string, ps: seq<string>)
    requires Positional(m, steps, index, statusNorm, completedLabel)
    requires 0 <= index < |steps|
    requires completedLabel !in {"in_progress", "blocked"}
    requires steps[index] in ps && statusNorm !in {"done", "completed"}
    ensures PhaseStatus(StatusesOf(m, ps), completedLabel) == "in_progress"
  {
    var sts := StatusesOf(m, ps);
    var t :| 0 <= t < |ps| && ps[t] == steps[index];
    assert ActiveLike(sts[t]) && !CompletedLike(sts[t], completedLabel);
  }

  /** How the status of one phase follows the positional step list, for a process whose steps
      are distinct and a completed label that is none of the other statuses: a phase whose
      steps all come before the current step is completed, one whose steps all come after it
      is not started, and one holding the current step while that step is in progress or
      blocked is in progress. */
  lemma PhaseFollowsPosition(pid: string, d: Definition, cur: string, status: Option<string>, completedLabel: string, phid: string)
    requires pid != "" && cur != ""
    requires pid in d.stepsInOrder && cur in d.stepsInOrder[pid] && Distinct(d.stepsInOrder[pid])
    requires completedLabel !in {"in_progress", "blocked", "not_started", "completed"}
    requires var ps := MapGet(d.phaseToSteps, (pid, phid)); ps != [] && forall s :: s in ps ==> s in d.stepsInOrder[pid]
    ensures var steps := d.stepsInOrder[pid];
      var index := IndexOf(steps, cur);
      var ps := MapGet(d.phaseToSteps, (pid, phid));
      var m := StatusByStep(InferStepsOf(Some(pid), d, Some(cur), status, completedLabel).value);
      var ph := PhaseStatus(StatusesOf(m, ps), completedLabel);
      && ((forall i :: 0 <= i < |steps| && steps[i] in ps ==> i < index) ==> ph == completedLabel)
      && ((forall i :: 0 <= i < |steps| && steps[i] in ps ==> i > index) ==> ph == "not_started")
      && (cur in ps && Lower(OrDefault(status, "")) !in {"done", "completed"} ==> ph == "in_progress")
  {
    var steps := d.stepsInOrder[pid];
    var index := IndexOf(steps, cur);
    var sn := Lower(OrDefault(status, ""));
    StatusByStepPositional(d, pid, steps, index, sn, completedLabel);
    PhaseStatusPositional(StatusByStep(StepsOut(d, pid, steps, index, sn, completedLabel)), steps, index, sn, completedLabel,
                          MapGet(d.phaseToSteps, (pid, phid)));
  }

  /** `infer_phases_from_steps` with its loop over the phases. */
  method InferPhasesFromSteps(pid: Option<string>, d: Definition, steps: Option<seq<StepOut>>, completedLabel: string)
    returns (r: Option<seq<PhaseOut>>)
    ensures r == InferPhasesOf(pid, d, steps, completedLabel)
  {
    if !Truthy(pid) || steps.None? || steps.value == [] {
      return None;
    }
    var p := pid.value;
    var phases := if p in d.phasesInOrder then d.phasesInOrder[p] else [];
    if phases == [] {
      return None;
    }
    var out := PhasesLoop(d, p, phases, StatusByStep(steps.value), completedLabel);
    return Some(out);
  }

  /** The loop over the phases: one entry per phase, in order. */
  method PhasesLoop(d: Definition, p: string, phases: seq<string>, statusByStep: map<string, string>, completedLabel: string)
    returns (out: seq<PhaseOut>)
    ensures out == PhasesOut(d, p, phases, statusByStep, completedLabel)
  {
    out := [];
    var k := 0;
    while k < |phases|
      invariant 0 <= k <= |phases|
      invariant out == PhasesOut(d, p, phases[..k], statusByStep, completedLabel)
    {
      var phid := phases[k];
      var phaseSteps := if (p, phid) in d.phaseToSteps then d.phaseToSteps[(p, phid)] else [];
      var statuses := StatusesOf(statusByStep, phaseSteps);
      var phaseStatus := PhaseStatus(statuses, completedLabel);
      TakeSnoc(phases, k);
      out := out + [PhaseOut(phid, PhaseNameOf(d, p, phid), phaseStatus)];
      k := k + 1;
    }
    TakeAll(phases);
  }
}
