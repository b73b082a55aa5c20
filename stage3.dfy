/** Phase B post-processing of reconciled instances (src/demo/pipeline/stage3_postprocess.py).
    Each instance is copied; the copy keeps its raw candidate fields, gets a canonical
    process, client, role and owner, a per-step state laid out around the current step,
    and a health class from the age of its last update. Run statistics count the results. */
module Stage3 {
  import opened Wrappers
  import opened Text
  import opened Seqs
  import opened Dicts
  import opened CatalogTypes
  import opened Canonicalize

  /** An instance's `state` object; an absent or empty one reads every field as null. */
  datatype StateDoc = StateDoc(step: Option<string>, status: Option<string>, lastUpdatedAt: Option<string>)

  /** The fields of an instance this stage reads. The three `*_raw` entries may be absent. */
  datatype InstanceDoc = InstanceDoc(
    candidateProcess: Option<string>,
    candidateClient: Option<string>,
    candidateRole: Option<string>,
    processRaw: Slot<Option<string>>,
    clientRaw: Slot<Option<string>>,
    roleRaw: Slot<Option<string>>,
    state: Option<StateDoc>)

  /** The process, clients and roles catalogs; each may be unavailable. */
  datatype Catalogs = Catalogs(process: Option<ProcessCatalog>, clients: Option<ClientsCatalog>, roles: Option<RolesCatalog>)

  /** `canonical_process`, `canonical_client`, `canonical_role` and `owner`. */
  datatype Canon = Canon(process: Option<string>, client: Option<string>, role: Option<string>, owner: Option<string>)

  /** The values of `steps_state`: "completed", "in_progress", "blocked", "not_started", "unknown". */
  datatype StepState = Completed | InProgress | Blocked | NotStarted | UnknownStep

  /** `steps_total`, `steps_done`, `steps_state` and the four `canonical_current_step_*` fields. */
  datatype Steps = Steps(total: Option<nat>, done: Option<nat>, states: Option<Dict<string, StepState>>, current: StepMatch)

  /** The values of `health`: "on_track", "at_risk", "overdue", "unknown". */
  datatype Health = OnTrack | AtRisk | Overdue | UnknownHealth

  /** One enriched instance. */
  datatype Enriched = Enriched(doc: InstanceDoc, canon: Canon, steps: Steps, health: Health)

  function StepOf(state: Option<StateDoc>): Option<string> {
    if state.Some? then state.value.step else None
  }

  function StatusOf(state: Option<StateDoc>): Option<string> {
    if state.Some? then state.value.status else None
  }

  function LastUpdatedOf(state: Option<StateDoc>): Option<string> {
    if state.Some? then state.value.lastUpdatedAt else None
  }

  // ---------------------------------------------------------------- raw fields

  function KeepRaw(slot: Slot<Option<string>>, candidate: Option<string>): Slot<Option<string>> {
    if slot.Missing? then Present(candidate) else slot
  }

  /** `_attach_raw_fields`: an absent `*_raw` entry is filled from its candidate field; a present
      one, even a null one, is never overwritten, so attaching twice is attaching once. */
  function AttachRaw(doc: InstanceDoc): (r: InstanceDoc)
    ensures r.processRaw.Present? && r.clientRaw.Present? && r.roleRaw.Present?
    ensures doc.processRaw.Present? ==> r.processRaw == doc.processRaw
    ensures doc.clientRaw.Present? ==> r.clientRaw == doc.clientRaw
    ensures doc.roleRaw.Present? ==> r.roleRaw == doc.roleRaw
    ensures doc.processRaw.Missing? ==> SlotGet(r.processRaw) == doc.candidateProcess
    ensures doc.clientRaw.Missing? ==> SlotGet(r.clientRaw) == doc.candidateClient
    ensures doc.roleRaw.Missing? ==> SlotGet(r.roleRaw) == doc.candidateRole
    ensures r.candidateProcess == doc.candidateProcess && r.candidateClient == doc.candidateClient
    ensures r.candidateRole == doc.candidateRole && r.state == doc.state
  {
    doc.(processRaw := KeepRaw(doc.processRaw, doc.candidateProcess),
         clientRaw := KeepRaw(doc.clientRaw, doc.candidateClient),
         roleRaw := KeepRaw(doc.roleRaw, doc.candidateRole))
  }

  lemma AttachRawIdempotent(doc: InstanceDoc)
    ensures AttachRaw(AttachRaw(doc)) == AttachRaw(doc)
  {
  }

  // ---------------------------------------------------------------- canonical fields

  /** `canon and catalog and canon in catalog.processes`, then the catalog entry. */
  function Lookup(process: Option<string>, cat: Option<ProcessCatalog>): (r: Option<CatalogProcess>)
    ensures r.Some? ==> cat.Some?
  {
    if Truthy(process) && cat.Some? then Get(cat.value.processes, process.value) else None
  }

  /** `canonical_process`: canonicalised when the process catalog is available. */
  function ProcessOf(doc: InstanceDoc, cats: Catalogs): Option<string> {
    if cats.process.Some? then CanonicalProcessOf(SlotGet(doc.processRaw), cats.process.value) else None
  }

  /** `owner`: the owner of the canonical process's catalog entry. */
  function OwnerOf(process: Option<string>, cat: Option<ProcessCatalog>): Option<string> {
    var found := Lookup(process, cat);
    if found.Some? then found.value.owner else None
  }

  /** `_canonicalize_fields`: each field is canonicalised against its catalog when that catalog
      is available and is null otherwise; the owner comes from the canonical process's entry. */
  function CanonOf(doc: InstanceDoc, cats: Catalogs): Canon {
    var process := ProcessOf(doc, cats);
    Canon(
      process,
      if cats.clients.Some? then CanonicalClientOf(SlotGet(doc.clientRaw), cats.clients.value) else None,
      if cats.roles.Some? then Some(CanonicalRoleOf(SlotGet(doc.roleRaw), cats.roles.value)) else None,
      OwnerOf(process, cats.process))
  }

  /** The canonical process is null without a catalog, and otherwise null or a process of the
      catalog; the owner is that process's owner, and null when the process is null or the
      empty id (which is falsy). */
  lemma CanonProcessMeaning(doc: InstanceDoc, cats: Catalogs)
    ensures var c := CanonOf(doc, cats);
      && (cats.process.None? ==> c.process.None? && c.owner.None?)
      && (c.process.Some? ==>
            && cats.process.Some?
            && InCatalog(cats.process.value, c.process.value)
            && (c.process.value != "" ==>
                  Get(cats.process.value.processes, c.process.value).Some?
                  && c.owner == Get(cats.process.value.processes, c.process.value).value.owner))
      && (!Truthy(c.process) ==> c.owner.None?)
  {
    var process := ProcessOf(doc, cats);
    if cats.process.Some? {
      CanonicalProcessIsKey(SlotGet(doc.processRaw), cats.process.value);
      if process.Some? {
        GetFacts(cats.process.value.processes, process.value);
      }
    }
  }

  /** A client is present exactly when the clients catalog and a raw client are. */
  lemma CanonClientMeaning(doc: InstanceDoc, cats: Catalogs)
    ensures CanonOf(doc, cats).client.Some? <==> cats.clients.Some? && SlotGet(doc.clientRaw).Some?
  {
    if cats.clients.Some? {
      CanonicalClientShape(SlotGet(doc.clientRaw), cats.clients.value);
    }
  }

  /** A role is present exactly when the roles catalog is, and it is a canonical role, an alias
      key, "Unknown" or "Other". */
  lemma CanonRoleMeaning(doc: InstanceDoc, cats: Catalogs)
    ensures var c := CanonOf(doc, cats);
      && (c.role.Some? <==> cats.roles.Some?)
      && (c.role.Some? ==>
            var r := c.role.value;
            r in cats.roles.value.canonical || HasKey(cats.roles.value.aliases, r) || r == "Unknown" || r == "Other")
  {
    if cats.roles.Some? {
      CanonicalRoleRange(SlotGet(doc.roleRaw), cats.roles.value);
    }
  }

  // ---------------------------------------------------------------- steps

  const NoSteps: Steps := Steps(None, None, None, NoStep)

  /** The state of the matched step: "blocked" and "done" are taken literally, anything else
      means the step is under way. */
  function MatchedState(status: string): StepState {
    if status == "blocked" then Blocked else if status == "done" then Completed else InProgress
  }

  /** The state a step gets in the positional fill; `seen` says whether the matched step came
      earlier in the list. */
  function StateAt(s: string, matched: string, status: string, seen: bool): StepState {
    if s == matched then MatchedState(status) else if !seen then Completed else NotStarted
  }

  datatype Fill = Fill(states: Dict<string, StepState>, done: nat)

  /** The positional fill: steps before the first occurrence of the matched step are completed,
      the matched step takes `MatchedState`, later steps are not started. */
  function FillStates(steps: seq<string>, matched: string, status: string): Fill
    decreases |steps|
  {
    if steps == [] then Fill([], 0)
    else
      var prefix, s := steps[..|steps| - 1], steps[|steps| - 1];
      var f := FillStates(prefix, matched, status);
      var v := StateAt(s, matched, status, matched in prefix);
      Fill(Put(f.states, s, v), if v == Completed then f.done + 1 else f.done)
  }

  /** `{s: "unknown" for s in steps}`. */
  function AllUnknown(steps: seq<string>): Dict<string, StepState>
    decreases |steps|
  {
    if steps == [] then [] else Put(AllUnknown(steps[..|steps| - 1]), steps[|steps| - 1], UnknownStep)
  }

  /** `_compute_steps`. */
  function StepsOf(canon: Option<string>, state: Option<StateDoc>, cat: Option<ProcessCatalog>): Steps {
    match Lookup(canon, cat)
    case None => NoSteps
    case Some(spec) =>
      var m := MatchStepOf(StepOf(state), canon, cat.value);
      var total := |spec.steps|;
      if m.stepId.None? || m.stepId.value !in spec.steps then
        Steps(Some(total), Some(0), Some(AllUnknown(spec.steps)), m)
      else
        var f := FillStates(spec.steps, m.stepId.value, OrDefault(StatusOf(state), "unknown"));
        Steps(Some(total), Some(f.done), Some(f.states), m)
  }

  /** Every step gets a state, and only steps do; the count of completed steps is at most the
      number of steps. */
  lemma {:induction false} FillStatesKeys(steps: seq<string>, matched: string, status: string)
    ensures var f := FillStates(steps, matched, status);
      && (forall s :: HasKey(f.states, s) <==> s in steps)
      && f.done <= |steps|
    decreases |steps|
  {
    if steps != [] {
      var prefix, s := steps[..|steps| - 1], steps[|steps| - 1];
      FillStatesKeys(prefix, matched, status);
      var f := FillStates(prefix, matched, status);
      var v := StateAt(s, matched, status, matched in prefix);
      assert FillStates(steps, matched, status).states == Put(f.states, s, v);
      SnocLast(steps);
      forall k ensures HasKey(Put(f.states, s, v), k) <==> k in steps {
        PutHasKey(f.states, s, v, k);
      }
    }
  }

  /** Every step reads "unknown", and only steps are keys. */
  lemma {:induction false} AllUnknownFacts(steps: seq<string>)
    ensures forall s :: HasKey(AllUnknown(steps), s) <==> s in steps
    ensures forall s :: s in steps ==> Get(AllUnknown(steps), s) == Some(UnknownStep)
    decreases |steps|
  {
    if steps != [] {
      var prefix, x := steps[..|steps| - 1], steps[|steps| - 1];
      AllUnknownFacts(prefix);
      PutKeys(AllUnknown(prefix), x, UnknownStep);
      PutGetSame(AllUnknown(prefix), x, UnknownStep);
      forall s | s in steps && s != x
        ensures Get(AllUnknown(steps), s) == Some(UnknownStep)
      {
        PutGetOther(AllUnknown(prefix), x, UnknownStep, s);
        assert s in prefix by { assert steps == prefix + [x]; }
      }
      assert steps == prefix + [x];
    }
  }

  /** The state a step at index `i` gets when the matched step sits at index `k`. */
  function Expected(i: nat, k: nat, status: string): StepState {
    if i < k then Completed else if i == k then MatchedState(status) else NotStarted
  }

  /** The key part of `FillStatesByPosition`. */
  lemma {:induction false} FillKeysByPosition(steps: seq<string>, matched: string, status: string, k: nat, n: nat)
    requires Distinct(steps) && k < |steps| && steps[k] == matched && n <= |steps|
    ensures Keys(FillStates(steps[..n], matched, status).states) == steps[..n]
    decreases n
  {
    if n > 0 {
      FillKeysByPosition(steps, matched, status, k, n - 1);
      FillStatesSnocAt(steps, matched, status, k, n);
      var prefix, s := steps[..n - 1], steps[n - 1];
      TakeSnoc(steps, n - 1);
      var f := FillStates(prefix, matched, status);
      var v := Expected(n - 1, k, status);
      assert !HasKey(f.states, s) by {
        assert forall j :: 0 <= j < n - 1 ==> prefix[j] != s;
      }
      PutKeys(f.states, s, v);
      var g := FillStates(steps[..n], matched, status);
      assert g.states == Put(f.states, s, v);
      assert Keys(g.states) == prefix + [s];
    }
  }

  /** The count part of `FillStatesByPosition`. */
  lemma {:induction false} FillDoneByPosition(steps: seq<string>, matched: string, status: string, k: nat, n: nat)
    requires Distinct(steps) && k < |steps| && steps[k] == matched && n <= |steps|
    ensures FillStates(steps[..n], matched, status).done == (if n <= k then n else k + (if status == "done" then 1 else 0))
    decreases n
  {
    if n > 0 {
      FillDoneByPosition(steps, matched, status, k, n - 1);
      FillStatesSnocAt(steps, matched, status, k, n);
    }
  }

  /** With distinct step ids and the matched step at index `k`, the fill of the first `n` steps
      lists them in order, each with the state its position relative to `k` calls for, and
      counts the completed ones. */
  lemma {:induction false} FillStatesByPosition(steps: seq<string>, matched: string, status: string, k: nat, n: nat)
    requires Distinct(steps) && k < |steps| && steps[k] == matched && n <= |steps|
    ensures var f := FillStates(steps[..n], matched, status);
      && Keys(f.states) == steps[..n]
      && (forall i :: 0 <= i < n ==> Get(f.states, steps[i]) == Some(Expected(i, k, status)))
      && f.done == (if n <= k then n else k + (if status == "done" then 1 else 0))
    decreases n
  {
    FillKeysByPosition(steps, matched, status, k, n);
    FillDoneByPosition(steps, matched, status, k, n);
    if n > 0 {
      FillStatesByPosition(steps, matched, status, k, n - 1);
      FillStatesSnocAt(steps, matched, status, k, n);
      var s := steps[n - 1];
      var f := FillStates(steps[..n - 1], matched, status);
      var v := Expected(n - 1, k, status);
      PutGetSame(f.states, s, v);
      forall i | 0 <= i < n - 1
        ensures Get(Put(f.states, s, v), steps[i]) == Some(Expected(i, k, status))
      {
        PutGetOther(f.states, s, v, steps[i]);
      }
    }
  }

  /** The matched step lies in the first `m` steps exactly when its index is below `m`. */
  lemma MatchedInPrefix(steps: seq<string>, matched: string, k: nat, m: nat)
    requires Distinct(steps) && k < |steps| && steps[k] == matched && m <= |steps|
    ensures matched in steps[..m] <==> k < m
  {
    if matched in steps[..m] {
      var j :| 0 <= j < m && steps[..m][j] == matched;
      assert steps[j] == steps[k];
    }
    if k < m {
      assert steps[..m][k] == matched;
    }
  }

  /** One more step: the step at index `n - 1` gets the state its position calls for. */
  lemma FillStatesSnocAt(steps: seq<string>, matched: string, status: string, k: nat, n: nat)
    requires Distinct(steps) && k < |steps| && steps[k] == matched && 0 < n <= |steps|
    ensures var f := FillStates(steps[..n - 1], matched, status);
      var v := Expected(n - 1, k, status);
      FillStates(steps[..n], matched, status)
        == Fill(Put(f.states, steps[n - 1], v), if v == Completed then f.done + 1 else f.done)
  {
    TakeSnoc(steps, n - 1);
    MatchedInPrefix(steps, matched, k, n - 1);
    assert steps[n - 1] == matched <==> n - 1 == k;
  }

  /** What `_compute_steps` records. Outside the catalog everything is null and the match is the
      null match. Inside, the total is the number of steps, every step and only steps get a state,
      and the match is `match_step`'s. Without a matched step, or with one that is an alias-only
      id outside the step list, every step is "unknown" and none is done. */
  lemma StepsMeaning(canon: Option<string>, state: Option<StateDoc>, cat: Option<ProcessCatalog>)
    ensures var r := StepsOf(canon, state, cat);
      && (Lookup(canon, cat).None? <==> r.states.None?)
      && (Lookup(canon, cat).None? ==> r == NoSteps)
      && (Lookup(canon, cat).Some? ==>
            var steps := Lookup(canon, cat).value.steps;
            && r.current == MatchStepOf(StepOf(state), canon, cat.value)
            && r.total == Some(|steps|)
            && r.done.Some? && r.done.value <= |steps|
            && r.states.Some?
            && (forall s :: HasKey(r.states.value, s) <==> s in steps)
            && (r.current.stepId.None? || r.current.stepId.value !in steps ==>
                  r.done == Some(0) && forall s :: s in steps ==> Get(r.states.value, s) == Some(UnknownStep)))
  {
    var found := Lookup(canon, cat);
    if found.Some? {
      var steps := found.value.steps;
      var m := MatchStepOf(StepOf(state), canon, cat.value);
      AllUnknownFacts(steps);
      if m.stepId.Some? && m.stepId.value in steps {
        FillStatesKeys(steps, m.stepId.value, OrDefault(StatusOf(state), "unknown"));
      }
    }
  }

  /** With distinct step ids and the current step at index `k`: the steps before it are
      "completed", it is "blocked", "completed" or "in_progress" as its status says, the steps
      after it are "not_started", and `steps_done` is `k`, plus one when the status is "done". */
  lemma StepsByPosition(canon: Option<string>, state: Option<StateDoc>, cat: Option<ProcessCatalog>, k: nat)
    requires Lookup(canon, cat).Some?
    requires var steps := Lookup(canon, cat).value.steps;
      Distinct(steps) && k < |steps| && StepsOf(canon, state, cat).current.stepId == Some(steps[k])
    ensures var r, steps := StepsOf(canon, state, cat), Lookup(canon, cat).value.steps;
      var status := OrDefault(StatusOf(state), "unknown");
      && r.states.Some? && Keys(r.states.value) == steps
      && (forall i :: 0 <= i < |steps| ==> Get(r.states.value, steps[i]) == Some(Expected(i, k, status)))
      && r.done == Some(k + (if status == "done" then 1 else 0))
  {
    var steps := Lookup(canon, cat).value.steps;
    var status := OrDefault(StatusOf(state), "unknown");
    StepsOfFilled(canon, state, cat);
    FillStatesByPosition(steps, steps[k], status, k, |steps|);
    TakeAll(steps);
  }

  /** Inside the catalog and with a matched step in the step list, the states are the fill. */
  lemma StepsOfFilled(canon: Option<string>, state: Option<StateDoc>, cat: Option<ProcessCatalog>)
    requires Lookup(canon, cat).Some?
    requires var r := StepsOf(canon, state, cat);
      r.current.stepId.Some? && r.current.stepId.value in Lookup(canon, cat).value.steps
    ensures var r, steps := StepsOf(canon, state, cat), Lookup(canon, cat).value.steps;
      var f := FillStates(steps, r.current.stepId.value, OrDefault(StatusOf(state), "unknown"));
      r.states == Some(f.states) && r.done == Some(f.done)
  {
  }

  // ---------------------------------------------------------------- health

  /** Python's `s.replace("Z", "+00:00")`. */
  function ReplaceZ(s: string): (r: string)
    ensures 'Z' !in r
    ensures 'Z' !in s ==> r == s
    decreases |s|
  {
    if s == [] then []
    else ReplaceZ(s[..|s| - 1]) + (if s[|s| - 1] == 'Z' then "+00:00" else [s[|s| - 1]])
  }

  /** `_safe_parse_iso`, as seconds since the epoch. `fromIso` stands for
      `datetime.fromisoformat` followed by the UTC default for naive times: null on failure. */
  function SafeParse(ts: Option<string>, fromIso: string -> Option<int>): (r: Option<int>)
    ensures !Truthy(ts) ==> r.None?
    ensures Truthy(ts) && 'Z' !in ts.value ==> r == fromIso(ts.value)
  {
    if !Truthy(ts) then None
    else if ts.value[|ts.value| - 1] == 'Z' then fromIso(ReplaceZ(ts.value))
    else fromIso(ts.value)
  }

  const SecondsPerDay: int := 86400

  /** `_compute_health`. The age in days is compared with the thresholds in seconds, which is
      the same comparison. */
  function HealthOf(canon: Option<string>, state: Option<StateDoc>, cat: Option<ProcessCatalog>,
                    now: int, fromIso: string -> Option<int>): Health
  {
    match SafeParse(LastUpdatedOf(state), fromIso)
    case None => UnknownHealth
    case Some(t) =>
      var age := now - t;
      var found := Lookup(canon, cat);
      var status := Lower(OrDefault(StatusOf(state), ""));
      if found.Some? && age >= found.value.health.overdueAfterDays * SecondsPerDay then Overdue
      else if status == "blocked" then AtRisk
      else if found.Some? && age >= found.value.health.atRiskAfterDays * SecondsPerDay then AtRisk
      else OnTrack
  }

  /** The health classes, each characterised. Unknown exactly when the last update does not
      parse. Overdue exactly when the process is in the catalog and the age reaches its overdue
      threshold. At risk exactly when not overdue and the status is "blocked" in any letter case
      or the age reaches the at-risk threshold. A process outside the catalog is never overdue. */
  lemma HealthMeaning(canon: Option<string>, state: Option<StateDoc>, cat: Option<ProcessCatalog>,
                      now: int, fromIso: string -> Option<int>)
    ensures var r, t := HealthOf(canon, state, cat, now, fromIso), SafeParse(LastUpdatedOf(state), fromIso);
      var found := Lookup(canon, cat);
      var blocked := Lower(OrDefault(StatusOf(state), "")) == "blocked";
      && (r == UnknownHealth <==> t.None?)
      && (r == Overdue <==>
            t.Some? && found.Some? && now - t.value >= found.value.health.overdueAfterDays * SecondsPerDay)
      && (r == AtRisk <==>
            && t.Some?
            && !(found.Some? && now - t.value >= found.value.health.overdueAfterDays * SecondsPerDay)
            && (blocked || (found.Some? && now - t.value >= found.value.health.atRiskAfterDays * SecondsPerDay)))
      && (found.None? ==> r != Overdue)
      && (t.Some? && blocked ==> r == AtRisk || r == Overdue)
  {
  }

  function Rank(h: Health): nat {
    match h
    case UnknownHealth => 0
    case OnTrack => 0
    case AtRisk => 1
    case Overdue => 2
  }

  /** Health never improves as time passes: a later `now` gives the same or a worse class,
      and "unknown" does not depend on `now` at all. */
  lemma HealthWorsensOverTime(canon: Option<string>, state: Option<StateDoc>, cat: Option<ProcessCatalog>,
                              now1: int, now2: int, fromIso: string -> Option<int>)
    requires now1 <= now2
    ensures var h1, h2 := HealthOf(canon, state, cat, now1, fromIso), HealthOf(canon, state, cat, now2, fromIso);
      (h1 == UnknownHealth <==> h2 == UnknownHealth) && Rank(h1) <= Rank(h2)
  {
  }

  // ---------------------------------------------------------------- one instance

  /** The whole treatment of one instance. */
  function EnrichOf(inst: InstanceDoc, cats: Catalogs, now: int, fromIso: string -> Option<int>): Enriched {
    var doc := AttachRaw(inst);
    var canon := CanonOf(doc, cats);
    Enriched(doc, canon, StepsOf(canon.process, doc.state, cats.process),
             HealthOf(canon.process, doc.state, cats.process, now, fromIso))
  }

  /** A step table is only ever present together with a canonical process. */
  predicate Coherent(e: Enriched) {
    e.steps.states.Some? ==> e.canon.process.Some?
  }

  lemma EnrichCoherent(inst: InstanceDoc, cats: Catalogs, now: int, fromIso: string -> Option<int>)
    ensures Coherent(EnrichOf(inst, cats, now, fromIso))
  {
    var e := EnrichOf(inst, cats, now, fromIso);
    StepsMeaning(e.canon.process, e.doc.state, cats.process);
  }

  /** The state loop of `_compute_steps`: before the matched step everything is completed,
      the matched step takes the instance status, after it nothing has started. */
  method FillLoop(ids: seq<string>, matched: string, status: string) returns (states: Dict<string, StepState>, done: nat)
    ensures Fill(states, done) == FillStates(ids, matched, status)
  {
    states := [];
    var seen := false;
    done := 0;
    var i := 0;
    while i < |ids|
      invariant i <= |ids|
      invariant seen == (matched in ids[..i])
      invariant Fill(states, done) == FillStates(ids[..i], matched, status)
    {
      var s := ids[i];
      TakeSnoc(ids, i);
      ghost var v := StateAt(s, matched, status, seen);
      assert FillStates(ids[..i + 1], matched, status) == Fill(Put(states, s, v), if v == Completed then done + 1 else done);
      if s == matched {
        if status == "blocked" {
          states := Put(states, s, Blocked);
        } else if status == "done" {
          states := Put(states, s, Completed);
          done := done + 1;
        } else {
          states := Put(states, s, InProgress);
        }
        seen := true;
      } else if !seen {
        states := Put(states, s, Completed);
        done := done + 1;
      } else {
        states := Put(states, s, NotStarted);
      }
      i := i + 1;
    }
    TakeAll(ids);
  }

  /** The working copy of one instance that the helpers update in place. */
  class Instance {
    var doc: InstanceDoc
    var canon: Canon
    var steps: Steps
    var health: Health

    /** `dict(inst)`: the derived fields are not yet set. */
    constructor (inst: InstanceDoc)
      ensures doc == inst && canon == Canon(None, None, None, None) && steps == NoSteps && health == UnknownHealth
    {
      doc := inst;
      canon := Canon(None, None, None, None);
      steps := NoSteps;
      health := UnknownHealth;
    }

    function Snapshot(): (e: Enriched)
      reads this
      ensures e.doc == doc && e.canon == canon && e.steps == steps && e.health == health
    {
      Enriched(doc, canon, steps, health)
    }

    /** `_attach_raw_fields`. */
    method AttachRawFields()
      modifies this
      ensures doc == AttachRaw(old(doc))
      ensures canon == old(canon) && steps == old(steps) && health == old(health)
    {
      if doc.processRaw.Missing? {
        doc := doc.(processRaw := Present(doc.candidateProcess));
      }
      if doc.clientRaw.Missing? {
        doc := doc.(clientRaw := Present(doc.candidateClient));
      }
      if doc.roleRaw.Missing? {
        doc := doc.(roleRaw := Present(doc.candidateRole));
      }
    }

    /** `_canonicalize_fields`. */
    method CanonicalizeFields(cats: Catalogs)
      modifies this
      ensures canon == CanonOf(doc, cats)
      ensures doc == old(doc) && steps == old(steps) && health == old(health)
    {
      var process: Option<string> := None;
      var client: Option<string> := None;
      var role: Option<string> := None;
      if cats.process.Some? {
        process := CanonicalizeProcess(SlotGet(doc.processRaw), cats.process.value);
      }
      if cats.clients.Some? {
        client := CanonicalizeClient(SlotGet(doc.clientRaw), cats.clients.value);
      }
      if cats.roles.Some? {
        var r := CanonicalizeRole(SlotGet(doc.roleRaw), cats.roles.value);
        role := Some(r);
      }
      var owner: Option<string> := None;
      var found := Lookup(process, cats.process);
      if found.Some? {
        owner := found.value.owner;
      }
      canon := Canon(process, client, role, owner);
    }

    /** `_compute_steps`, with its loops. */
    method ComputeSteps(cat: Option<ProcessCatalog>)
      modifies this
      ensures steps == StepsOf(canon.process, doc.state, cat)
      ensures doc == old(doc) && canon == old(canon) && health == old(health)
    {
      var found := Lookup(canon.process, cat);
      if found.None? {
        steps := NoSteps;
        return;
      }
      var spec := found.value;
      var m := MatchStep(StepOf(doc.state), canon.process, cat.value);
      if m.stepId.None? {
        var unknown := UnknownStates(spec.steps);
        steps := Steps(Some(|spec.steps|), Some(0), Some(unknown), m);
        return;
      }
      var matched := m.stepId.value;
      var status := OrDefault(StatusOf(doc.state), "unknown");
      var states, done := FillLoop(spec.steps, matched, status);
      if matched !in spec.steps {
        states := UnknownStates(spec.steps);
        done := 0;
      }
      steps := Steps(Some(|spec.steps|), Some(done), Some(states), m);
    }

    /** `_compute_health`. */
    method ComputeHealth(cat: Option<ProcessCatalog>, now: int, fromIso: string -> Option<int>)
      modifies this
      ensures health == HealthOf(canon.process, doc.state, cat, now, fromIso)
      ensures doc == old(doc) && canon == old(canon) && steps == old(steps)
    {
      var last := SafeParse(LastUpdatedOf(doc.state), fromIso);
      if last.None? {
        health := UnknownHealth;
        return;
      }
      var age := now - last.value;
      var atRisk: Option<int> := None;
      var overdue: Option<int> := None;
      var found := Lookup(canon.process, cat);
      if found.Some? {
        atRisk := Some(found.value.health.atRiskAfterDays);
        overdue := Some(found.value.health.overdueAfterDays);
      }
      var status := Lower(OrDefault(StatusOf(doc.state), ""));
      if overdue.Some? && age >= overdue.value * SecondsPerDay {
        health := Overdue;
      } else if status == "blocked" {
        health := AtRisk;
      } else if atRisk.Some? && age >= atRisk.value * SecondsPerDay {
        health := AtRisk;
      } else {
        health := OnTrack;
      }
    }
  }

  /** `{s: "unknown" for s in steps}`, as a loop. */
  method UnknownStates(steps: seq<string>) returns (r: Dict<string, StepState>)
    ensures r == AllUnknown(steps)
  {
    r := [];
    var i := 0;
    while i < |steps|
      invariant i <= |steps|
      invariant r == AllUnknown(steps[..i])
    {
      TakeSnoc(steps, i);
      r := Put(r, steps[i], UnknownStep);
      i := i + 1;
    }
    assert steps[..i] == steps;
  }

  // ---------------------------------------------------------------- the batch

  /** Counts by health class, in the order "on_track", "at_risk", "overdue", "unknown". */
  datatype HealthCounts = HealthCounts(onTrack: nat, atRisk: nat, overdue: nat, unknown: nat)

  /** The coverage counters and the health counts. */
  datatype Tally = Tally(process: nat, steps: nat, health: nat, byHealth: HealthCounts)

  function Bump(c: HealthCounts, h: Health): HealthCounts {
    match h
    case OnTrack => c.(onTrack := c.onTrack + 1)
    case AtRisk => c.(atRisk := c.atRisk + 1)
    case Overdue => c.(overdue := c.overdue + 1)
    case UnknownHealth => c.(unknown := c.unknown + 1)
  }

  /** The coverage accounting of one enriched instance. */
  function Count(t: Tally, e: Enriched): Tally {
    Tally(
      if e.canon.process.Some? then t.process + 1 else t.process,
      if e.steps.states.Some? then t.steps + 1 else t.steps,
      if e.health != UnknownHealth then t.health + 1 else t.health,
      Bump(t.byHealth, e.health))
  }

  function TallyOf(es: seq<Enriched>): Tally
    decreases |es|
  {
    if es == [] then Tally(0, 0, 0, HealthCounts(0, 0, 0, 0))
    else Count(TallyOf(es[..|es| - 1]), es[|es| - 1])
  }

  function CountsSum(c: HealthCounts): nat {
    c.onTrack + c.atRisk + c.overdue + c.unknown
  }

  /** Every instance lands in exactly one health class. */
  lemma {:induction false} TallyHealthSum(es: seq<Enriched>)
    ensures CountsSum(TallyOf(es).byHealth) == |es|
    decreases |es|
  {
    if es != [] {
      TallyHealthSum(es[..|es| - 1]);
      CountOne(TallyOf(es[..|es| - 1]), es[|es| - 1]);
    }
  }

  /** The health coverage is every instance whose health is not "unknown". */
  lemma {:induction false} TallyHealthCoverage(es: seq<Enriched>)
    ensures TallyOf(es).health + TallyOf(es).byHealth.unknown == |es|
    decreases |es|
  {
    if es != [] {
      TallyHealthCoverage(es[..|es| - 1]);
      CountOne(TallyOf(es[..|es| - 1]), es[|es| - 1]);
    }
  }

  /** No coverage exceeds the number of instances. */
  lemma {:induction false} TallyBounds(es: seq<Enriched>)
    ensures TallyOf(es).process <= |es| && TallyOf(es).steps <= |es|
    decreases |es|
  {
    if es != [] {
      TallyBounds(es[..|es| - 1]);
      CountOne(TallyOf(es[..|es| - 1]), es[|es| - 1]);
    }
  }

  /** Counting one instance adds one to exactly one health class and at most one to each coverage. */
  lemma CountOne(t: Tally, e: Enriched)
    ensures var t' := Count(t, e);
      && CountsSum(t'.byHealth) == CountsSum(t.byHealth) + 1
      && t'.health + t'.byHealth.unknown == t.health + t.byHealth.unknown + 1
      && t'.process <= t.process + 1 && t'.steps <= t.steps + 1
  {
  }

  /** When every instance is coherent, step coverage never exceeds process coverage. */
  lemma {:induction false} TallyCoherent(es: seq<Enriched>)
    requires forall i :: 0 <= i < |es| ==> Coherent(es[i])
    ensures TallyOf(es).steps <= TallyOf(es).process
    decreases |es|
  {
    if es != [] {
      var prefix := es[..|es| - 1];
      assert forall i :: 0 <= i < |prefix| ==> prefix[i] == es[i];
      TallyCoherent(prefix);
      assert Coherent(es[|es| - 1]);
    }
  }

  /** `pct`: a share of the instances, zero when there are none. Rounding to four places is
      not modelled. */
  function Pct(n: nat, total: nat): (r: real)
    ensures 0.0 <= r
    ensures n <= total ==> r <= 1.0
    ensures total > 0 && n == total ==> r == 1.0
  {
    if total == 0 then 0.0 else n as real / total as real
  }

  /** The phase B statistics: coverage shares and health counts. */
  datatype PhaseB = PhaseB(processPct: real, stepsPct: real, healthPct: real, byHealth: HealthCounts)

  function PhaseBOf(total: nat, t: Tally): PhaseB {
    PhaseB(Pct(t.process, total), Pct(t.steps, total), Pct(t.health, total), t.byHealth)
  }

  /** The body of `enrich_instances`' loop: one instance, enriched on its own working copy. */
  method EnrichOne(inst: InstanceDoc, cats: Catalogs, now: int, fromIso: string -> Option<int>) returns (e: Enriched)
    ensures e == EnrichOf(inst, cats, now, fromIso)
  {
    var obj := new Instance(inst);
    obj.AttachRawFields();
    obj.CanonicalizeFields(cats);
    obj.ComputeSteps(cats.process);
    obj.ComputeHealth(cats.process, now, fromIso);
    e := obj.Snapshot();
  }

  /** Enrichment as a function of the instance alone. */
  function Enricher(cats: Catalogs, now: int, fromIso: string -> Option<int>): InstanceDoc -> Enriched {
    (inst: InstanceDoc) => EnrichOf(inst, cats, now, fromIso)
  }

  lemma TallySnoc(es: seq<Enriched>, e: Enriched)
    ensures TallyOf(es + [e]) == Count(TallyOf(es), e)
  {
    TakeAppend(es, [e]);
  }

  /** `enrich_instances`: every instance is enriched on its own copy, in order, and the
      statistics count the enriched copies. */
  method EnrichInstances(instances: seq<InstanceDoc>, cats: Catalogs, now: int, fromIso: string -> Option<int>)
    returns (enriched: seq<Enriched>, stats: PhaseB)
    ensures |enriched| == |instances|
    ensures forall i :: 0 <= i < |instances| ==> enriched[i] == EnrichOf(instances[i], cats, now, fromIso)
    ensures stats == PhaseBOf(|instances|, TallyOf(enriched))
  {
    var t := Tally(0, 0, 0, HealthCounts(0, 0, 0, 0));
    enriched := [];
    var i := 0;
    while i < |instances|
      invariant i == |enriched|
      invariant MapsPrefix(instances, enriched, Enricher(cats, now, fromIso))
      invariant t == TallyOf(enriched)
    {
      var e := EnrichOne(instances[i], cats, now, fromIso);
      t := Count(t, e);
      MapsPrefixStep(instances, enriched, e, Enricher(cats, now, fromIso));
      TallySnoc(enriched, e);
      enriched := enriched + [e];
      i := i + 1;
    }
    stats := PhaseBOf(|instances|, t);
  }

  /** In an enriched batch, step coverage never exceeds process coverage. */
  lemma EnrichCoverage(instances: seq<InstanceDoc>, cats: Catalogs, now: int, fromIso: string -> Option<int>,
                       enriched: seq<Enriched>)
    requires |enriched| == |instances|
    requires forall i :: 0 <= i < |instances| ==> enriched[i] == EnrichOf(instances[i], cats, now, fromIso)
    ensures TallyOf(enriched).steps <= TallyOf(enriched).process
  {
    forall i | 0 <= i < |enriched| ensures Coherent(enriched[i]) {
      EnrichCoherent(instances[i], cats, now, fromIso);
    }
    TallyCoherent(enriched);
  }
}
