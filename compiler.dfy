/** The recruiting process compiler (src/demo/catalog/compiler.py): turns the phases → steps
    workflow document into the catalog entry for "recruiting", seeding step and process aliases
    and merging an optional override document. Documents arrive already parsed; a missing
    list reads as empty and a missing string as null. */
module Compiler {
  import opened Wrappers
  import opened Text
  import opened Seqs
  import opened Dicts
  import opened CatalogNormalize
  import opened CatalogTypes

  datatype StepDoc = StepDoc(id: Option<string>, name: Option<string>, shortName: Option<string>)
  datatype PhaseDoc = PhaseDoc(id: Option<string>, name: Option<string>, steps: seq<StepDoc>)
  datatype ProcessDoc = ProcessDoc(id: Option<string>, name: Option<string>, owner: Option<string>,
                                   ownerRole: Option<string>, phases: seq<PhaseDoc>)
  datatype WorkflowDoc = WorkflowDoc(processes: seq<ProcessDoc>)

  /** The override document's `processes.recruiting` block. */
  datatype RecruitingOverride = RecruitingOverride(processAliases: seq<Option<string>>,
                                                   stepAliases: Dict<string, seq<Option<string>>>)

  const MissingRecruiting: string := "workflow_definition is missing process id \"recruiting\""

  /** The process aliases every compiled recruiting process starts from. */
  const SeedProcessAliases: seq<string> := ["recruiting", "recruitment", "hiring", "recruiting pipeline"]

  predicate NonEmptyKeys(pairs: seq<(string, string)>) {
    forall i :: 0 <= i < |pairs| ==> pairs[i].1 != ""
  }

  /** Whether `_add_alias` keeps an alias: it must be truthy and have a non-empty key. */
  predicate Keepable(alias: Option<string>) {
    Truthy(alias) && Normalize(alias.value) != ""
  }

  /** `_add_alias`: append `(alias, normalize_text(alias))` unless the alias is falsy or its key
      is empty. */
  function AddAlias(pairs: seq<(string, string)>, alias: Option<string>): (r: seq<(string, string)>)
    ensures pairs <= r && |r| <= |pairs| + 1
  {
    if !Truthy(alias) then pairs
    else
      var key := Normalize(alias.value);
      if key == "" then pairs else pairs + [(alias.value, key)]
  }

  /** An alias is appended, keyed by its normal form, exactly when it is keepable, so the list
      stays well keyed with non-empty keys and its key set grows by that key alone. */
  lemma AddAliasMeaning(pairs: seq<(string, string)>, alias: Option<string>)
    ensures Keepable(alias) ==> AddAlias(pairs, alias) == pairs + [(alias.value, Normalize(alias.value))]
    ensures !Keepable(alias) ==> AddAlias(pairs, alias) == pairs
    ensures KeySet(AddAlias(pairs, alias)) == KeySet(pairs) + (if Keepable(alias) then {Normalize(alias.value)} else {})
    ensures WellKeyed(pairs) && NonEmptyKeys(pairs) ==> WellKeyed(AddAlias(pairs, alias)) && NonEmptyKeys(AddAlias(pairs, alias))
    ensures forall x :: x in AddAlias(pairs, alias) ==> x in pairs || Some(x.0) == alias
  {
    if Keepable(alias) {
      KeySetSnoc(pairs, (alias.value, Normalize(alias.value)));
    }
  }

  /** `_add_alias` over a list, in order. */
  function AddAll(pairs: seq<(string, string)>, aliases: seq<Option<string>>): (r: seq<(string, string)>)
    ensures pairs <= r && |r| <= |pairs| + |aliases|
    decreases |aliases|
  {
    if aliases == [] then pairs
    else AddAlias(AddAll(pairs, aliases[..|aliases| - 1]), aliases[|aliases| - 1])
  }

  lemma AddAllSnoc(pairs: seq<(string, string)>, aliases: seq<Option<string>>, a: Option<string>)
    ensures AddAll(pairs, aliases + [a]) == AddAlias(AddAll(pairs, aliases), a)
  {
    assert (aliases + [a])[..|aliases|] == aliases;
  }

  /** Adding a list keeps a well-keyed list with non-empty keys so, and everything it adds is
      one of the given aliases. */
  lemma {:induction false} AddAllFacts(pairs: seq<(string, string)>, aliases: seq<Option<string>>)
    ensures WellKeyed(pairs) && NonEmptyKeys(pairs) ==> WellKeyed(AddAll(pairs, aliases)) && NonEmptyKeys(AddAll(pairs, aliases))
    ensures forall x :: x in AddAll(pairs, aliases) ==> x in pairs || Some(x.0) in aliases
    decreases |aliases|
  {
    if aliases != [] {
      var prefix := aliases[..|aliases| - 1];
      AddAllFacts(pairs, prefix);
      AddAliasMeaning(AddAll(pairs, prefix), aliases[|aliases| - 1]);
      assert forall a :: a in prefix ==> a in aliases;
    }
  }

  /** Every string is non-empty and its own normal form. */
  predicate SelfKeyed(lits: seq<string>) {
    forall i :: 0 <= i < |lits| ==> lits[i] != "" && Normalize(lits[i]) == lits[i]
  }

  lemma AddAliasNormal(pairs: seq<(string, string)>, a: string)
    requires a != "" && Normalize(a) == a
    ensures AddAlias(pairs, Some(a)) == pairs + [(a, a)]
  {
  }

  lemma SomesLast(lits: seq<string>)
    requires lits != []
    ensures Somes(lits)[..|lits| - 1] == Somes(lits[..|lits| - 1])
  {
  }

  /** Present aliases that are their own non-empty normal form are all kept, each as `(a, a)`. */
  lemma {:induction false} AddAllNormal(pairs: seq<(string, string)>, lits: seq<string>)
    requires SelfKeyed(lits)
    ensures AddAll(pairs, Somes(lits)) == pairs + SelfPairs(lits)
    decreases |lits|
  {
    if lits == [] {
      AppendNil(pairs);
    } else {
      var n := |lits| - 1;
      var prefix := AddAll(pairs, Somes(lits[..n]));
      assert SelfKeyed(lits[..n]);
      AddAllNormal(pairs, lits[..n]);
      SomesLast(lits);
      assert AddAll(pairs, Somes(lits)) == AddAlias(prefix, Some(lits[n]));
      AddAliasNormal(prefix, lits[n]);
      AppendSnocAssoc(pairs, SelfPairs(lits[..n]), (lits[n], lits[n]));
    }
  }

  /** Each string paired with itself. */
  function SelfPairs(s: seq<string>): (r: seq<(string, string)>)
    ensures |r| == |s| && forall i :: 0 <= i < |s| ==> r[i] == (s[i], s[i])
    decreases |s|
  {
    if s == [] then [] else SelfPairs(s[..|s| - 1]) + [(s[|s| - 1], s[|s| - 1])]
  }

  function Somes(s: seq<string>): (r: seq<Option<string>>)
    ensures |r| == |s| && forall i :: 0 <= i < |s| ==> r[i] == Some(s[i])
  {
    seq(|s|, i requires 0 <= i < |s| => Some(s[i]))
  }

  // ---------------------------------------------------------------- step aliases

  /** The name, short name and id candidates, in that order. */
  function CorePairs(step: StepDoc): seq<(string, string)> {
    AddAlias(AddAlias(AddAlias([], step.name), step.shortName), step.id)
  }

  /** The two separator variants of a present id. */
  function AddIdVariants(pairs: seq<(string, string)>, id: Option<string>): seq<(string, string)> {
    if Truthy(id) then AddAlias(AddAlias(pairs, Some(Replace(id.value, '-', ' '))), Some(Replace(id.value, '_', ' ')))
    else pairs
  }

  /** The lower-cased variant of a present name. */
  function AddLowered(pairs: seq<(string, string)>, name: Option<string>): seq<(string, string)> {
    if Truthy(name) then AddAlias(pairs, Some(Lower(name.value))) else pairs
  }

  /** All seven candidates `_seed_step_aliases` offers: name, short name, id, the id with
      `-` and with `_` turned into spaces, the lower-cased name and short name. */
  function SeedPairs(step: StepDoc): seq<(string, string)> {
    AddLowered(AddLowered(AddIdVariants(CorePairs(step), step.id), step.name), step.shortName)
  }

  /** `_seed_step_aliases`. */
  function SeedStepAliases(step: StepDoc): seq<string> {
    DedupeWithKeys(SeedPairs(step))
  }

  /** The core candidates are well keyed with non-empty keys and come from the name, short
      name and id. */
  lemma CorePairsShape(step: StepDoc)
    ensures var core := CorePairs(step);
      && WellKeyed(core) && NonEmptyKeys(core)
      && (forall x :: x in core ==> Some(x.0) == step.name || Some(x.0) == step.shortName || Some(x.0) == step.id)
  {
    var p1 := AddAlias([], step.name);
    AddAliasMeaning([], step.name);
    assert forall x :: x in p1 ==> Some(x.0) == step.name;
    var p2 := AddAlias(p1, step.shortName);
    AddAliasMeaning(p1, step.shortName);
    assert forall x :: x in p2 ==> Some(x.0) == step.name || Some(x.0) == step.shortName;
    AddAliasMeaning(p2, step.id);
  }

  /** The core candidates cover the key of each keepable one of the three. */
  lemma CorePairsCover(step: StepDoc)
    ensures var core := CorePairs(step);
      && (Keepable(step.name) ==> Normalize(step.name.value) in KeySet(core))
      && (Keepable(step.shortName) ==> Normalize(step.shortName.value) in KeySet(core))
      && (Keepable(step.id) ==> Normalize(step.id.value) in KeySet(core))
  {
    var p1 := AddAlias([], step.name);
    var p2 := AddAlias(p1, step.shortName);
    AddAliasMeaning([], step.name);
    AddAliasMeaning(p1, step.shortName);
    AddAliasMeaning(p2, step.id);
  }

  /** Candidates whose key is empty or already among the core keys change nothing. */
  lemma AbsorbOne(p: seq<(string, string)>, core: seq<(string, string)>, alias: Option<string>)
    requires FirstPerKey(p) == FirstPerKey(core) && KeySet(core) <= KeySet(p)
    requires Keepable(alias) ==> Normalize(alias.value) in KeySet(core)
    ensures FirstPerKey(AddAlias(p, alias)) == FirstPerKey(core) && KeySet(core) <= KeySet(AddAlias(p, alias))
  {
    AddAliasMeaning(p, alias);
    if Keepable(alias) {
      FirstPerKeySnoc(p, (alias.value, Normalize(alias.value)));
    }
  }

  lemma AbsorbIdVariants(p: seq<(string, string)>, core: seq<(string, string)>, id: Option<string>)
    requires FirstPerKey(p) == FirstPerKey(core) && KeySet(core) <= KeySet(p)
    requires Keepable(id) ==> Normalize(id.value) in KeySet(core)
    ensures FirstPerKey(AddIdVariants(p, id)) == FirstPerKey(core) && KeySet(core) <= KeySet(AddIdVariants(p, id))
  {
    if Truthy(id) {
      NormalizeVariants(id.value);
      var a1 := Some(Replace(id.value, '-', ' '));
      AbsorbOne(p, core, a1);
      AbsorbOne(AddAlias(p, a1), core, Some(Replace(id.value, '_', ' ')));
    }
  }

  lemma AbsorbLowered(p: seq<(string, string)>, core: seq<(string, string)>, name: Option<string>)
    requires FirstPerKey(p) == FirstPerKey(core) && KeySet(core) <= KeySet(p)
    requires Keepable(name) ==> Normalize(name.value) in KeySet(core)
    ensures FirstPerKey(AddLowered(p, name)) == FirstPerKey(core) && KeySet(core) <= KeySet(AddLowered(p, name))
  {
    if Truthy(name) {
      NormalizeVariants(name.value);
      AbsorbOne(p, core, Some(Lower(name.value)));
    }
  }

  /** The separator and lower-case variants always share a key with the name or id that came
      before them, so the seeded list is what the name, short name and id alone give. */
  lemma SeedVariantsAbsorbed(step: StepDoc)
    ensures SeedStepAliases(step) == DedupeWithKeys(CorePairs(step))
  {
    var core := CorePairs(step);
    CorePairsCover(step);
    AbsorbIdVariants(core, core, step.id);
    var p1 := AddIdVariants(core, step.id);
    AbsorbLowered(p1, core, step.name);
    AbsorbLowered(AddLowered(p1, step.name), core, step.shortName);
  }

  /** Every seeded alias is the step's name, short name or id. */
  lemma SeedMembers(step: StepDoc)
    ensures forall a :: a in SeedStepAliases(step) ==> Some(a) == step.name || Some(a) == step.shortName || Some(a) == step.id
  {
    var core := CorePairs(step);
    SeedVariantsAbsorbed(step);
    CorePairsShape(step);
    DedupeKeeps(core, a => Some(a) == step.name || Some(a) == step.shortName || Some(a) == step.id);
  }

  /** The seeded aliases have non-empty, pairwise different keys, and those keys are exactly
      the keys of the keepable name, short name and id. */
  lemma SeedKeys(step: StepDoc)
    ensures var r := SeedStepAliases(step);
      && KeysDistinctNonEmpty(KeyPairs(r))
      && (forall x :: x in [step.name, step.shortName, step.id] && Keepable(x) ==> Normalize(x.value) in KeySet(KeyPairs(r)))
  {
    var core := CorePairs(step);
    var r := SeedStepAliases(step);
    assert KeyPairs(r) == FirstPerKey(core) by {
      SeedVariantsAbsorbed(step);
      CorePairsShape(step);
      KeyPairsOfKept(core);
    }
    FirstPerKeyKeys(core);
    CorePairsCover(step);
  }

  /** A keepable name is the first seeded alias. */
  lemma SeedNameFirst(step: StepDoc)
    requires Keepable(step.name)
    ensures SeedStepAliases(step) != [] && SeedStepAliases(step)[0] == step.name.value
  {
    var core := CorePairs(step);
    SeedVariantsAbsorbed(step);
    assert core[0] == (step.name.value, Normalize(step.name.value));
    var first := core[0];
    assert core == [first] + core[1..];
    FirstPerKeyPrefix([first], core[1..]);
    FirstPerKeySnoc([], first);
    assert [] + [first] == [first];
  }

  /** What a step is seeded with: only its name, short name or id; keys non-empty and pairwise
      different; every keepable one of the three represented by its key; a keepable name first. */
  lemma SeedStepAliasesMeaning(step: StepDoc)
    ensures var r := SeedStepAliases(step);
      && (forall a :: a in r ==> Some(a) == step.name || Some(a) == step.shortName || Some(a) == step.id)
      && KeysDistinctNonEmpty(KeyPairs(r))
      && (forall x :: x in [step.name, step.shortName, step.id] && Keepable(x) ==> Normalize(x.value) in KeySet(KeyPairs(r)))
      && (Keepable(step.name) ==> r != [] && r[0] == step.name.value)
  {
    SeedMembers(step);
    SeedKeys(step);
    if Keepable(step.name) {
      SeedNameFirst(step);
    }
  }

  // ---------------------------------------------------------------- phases and steps

  /** The three tables the phase loop fills. */
  datatype Build = Build(steps: seq<string>, stepToPhase: map<string, string>, stepAliases: Dict<string, seq<string>>)

  const EmptyBuild: Build := Build([], map[], [])

  /** One iteration of the inner loop: a step without an id is skipped; otherwise its id is
      appended, mapped to the phase when the phase has an id, and given its seeded aliases. */
  function AddStep(b: Build, phaseId: Option<string>, step: StepDoc): Build {
    if !Truthy(step.id) then b
    else
      var id := step.id.value;
      Build(b.steps + [id],
            if Truthy(phaseId) then b.stepToPhase[id := phaseId.value] else b.stepToPhase,
            Put(b.stepAliases, id, SeedStepAliases(step)))
  }

  function AddSteps(b: Build, phaseId: Option<string>, steps: seq<StepDoc>): Build
    decreases |steps|
  {
    if steps == [] then b
    else AddStep(AddSteps(b, phaseId, steps[..|steps| - 1]), phaseId, steps[|steps| - 1])
  }

  /** The phase loop over a whole document. */
  function BuildPhases(phases: seq<PhaseDoc>): Build
    decreases |phases|
  {
    if phases == [] then EmptyBuild
    else
      var last := phases[|phases| - 1];
      AddSteps(BuildPhases(phases[..|phases| - 1]), last.id, last.steps)
  }

  /** The ids of the steps that have one, in order. */
  function StepIdsIn(steps: seq<StepDoc>): (r: seq<string>)
    ensures forall s :: s in r ==> s != ""
    decreases |steps|
  {
    if steps == [] then []
    else
      var last := steps[|steps| - 1];
      StepIdsIn(steps[..|steps| - 1]) + (if Truthy(last.id) then [last.id.value] else [])
  }

  /** Every phase's step ids, concatenated in document order. */
  function StepIdsOf(phases: seq<PhaseDoc>): seq<string>
    decreases |phases|
  {
    if phases == [] then [] else StepIdsOf(phases[..|phases| - 1]) + StepIdsIn(phases[|phases| - 1].steps)
  }

  /** `phase_ids`: the ids of the phases that have one. */
  function PhaseIds(phases: seq<PhaseDoc>): (r: seq<string>)
    ensures forall p :: p in r ==> p != ""
    decreases |phases|
  {
    if phases == [] then []
    else
      var last := phases[|phases| - 1];
      PhaseIds(phases[..|phases| - 1]) + (if Truthy(last.id) then [last.id.value] else [])
  }

  /** Every value of a step-alias table has non-empty, pairwise different keys. */
  predicate CleanTable(d: Dict<string, seq<string>>) {
    forall i :: 0 <= i < |d| ==> KeysDistinctNonEmpty(KeyPairs(d[i].1))
  }

  lemma {:induction false} PutClean(d: Dict<string, seq<string>>, k: string, v: seq<string>)
    requires CleanTable(d) && KeysDistinctNonEmpty(KeyPairs(v))
    ensures CleanTable(Put(d, k, v))
    decreases |d|
  {
    if d != [] && d[0].0 != k {
      assert CleanTable(d[1..]) by {
        forall i | 0 <= i < |d[1..]| ensures KeysDistinctNonEmpty(KeyPairs(d[1..][i].1)) {
          assert d[1..][i] == d[i + 1];
        }
      }
      PutClean(d[1..], k, v);
      var r := Put(d, k, v);
      forall i | 0 <= i < |r| ensures KeysDistinctNonEmpty(KeyPairs(r[i].1)) {
        if i > 0 {
          assert r[i] == Put(d[1..], k, v)[i - 1];
        }
      }
    }
  }

  /** A clean table reads clean alias lists. */
  lemma CleanGet(d: Dict<string, seq<string>>, k: string)
    requires CleanTable(d) && Get(d, k).Some?
    ensures KeysDistinctNonEmpty(KeyPairs(Get(d, k).value))
  {
    GetFacts(d, k);
    var i :| 0 <= i < |d| && d[i] == (k, Get(d, k).value);
  }

  /** The invariant of the three tables: every listed step has an alias entry and nothing
      else does, and every alias list is clean. */
  ghost predicate BuildInvariant(b: Build) {
    && (forall k :: HasKey(b.stepAliases, k) <==> k in b.steps)
    && CleanTable(b.stepAliases)
  }

  lemma AddStepInvariant(b: Build, phaseId: Option<string>, step: StepDoc)
    requires BuildInvariant(b)
    ensures BuildInvariant(AddStep(b, phaseId, step))
  {
    if Truthy(step.id) {
      var id := step.id.value;
      PutKeys(b.stepAliases, id, SeedStepAliases(step));
      SeedKeys(step);
      PutClean(b.stepAliases, id, SeedStepAliases(step));
    }
  }

  lemma {:induction false} AddStepsInvariant(b: Build, phaseId: Option<string>, steps: seq<StepDoc>)
    requires BuildInvariant(b)
    ensures BuildInvariant(AddSteps(b, phaseId, steps))
    ensures AddSteps(b, phaseId, steps).steps == b.steps + StepIdsIn(steps)
    decreases |steps|
  {
    if steps == [] {
      assert b.steps + [] == b.steps;
    } else {
      var prefix := steps[..|steps| - 1];
      AddStepsInvariant(b, phaseId, prefix);
      AddStepInvariant(AddSteps(b, phaseId, prefix), phaseId, steps[|steps| - 1]);
    }
  }

  /** The inner loop maps each of its step ids to the phase when the phase has an id, and
      leaves every other entry alone. */
  lemma {:induction false} AddStepsMap(b: Build, phaseId: Option<string>, steps: seq<StepDoc>)
    ensures var m := AddSteps(b, phaseId, steps).stepToPhase;
      && (!Truthy(phaseId) ==> m == b.stepToPhase)
      && (Truthy(phaseId) ==> m.Keys == b.stepToPhase.Keys + (set s | s in StepIdsIn(steps)))
      && (Truthy(phaseId) ==> forall s :: s in StepIdsIn(steps) ==> s in m && m[s] == phaseId.value)
      && (forall s :: s in b.stepToPhase && s !in StepIdsIn(steps) ==> s in m && m[s] == b.stepToPhase[s])
    decreases |steps|
  {
    if steps != [] {
      AddStepsMap(b, phaseId, steps[..|steps| - 1]);
    }
  }

  /** The steps are every phase's step ids in document order, and the tables keep their invariant. */
  lemma {:induction false} BuildPhasesSteps(phases: seq<PhaseDoc>)
    ensures BuildPhases(phases).steps == StepIdsOf(phases) && BuildInvariant(BuildPhases(phases))
    decreases |phases|
  {
    if phases == [] {
      assert BuildInvariant(EmptyBuild);
    } else {
      var n := |phases| - 1;
      BuildPhasesSteps(phases[..n]);
      AddStepsInvariant(BuildPhases(phases[..n]), phases[n].id, phases[n].steps);
    }
  }

  /** A step is in phase `i` when phase `i` has an id and lists it. */
  ghost predicate ListedIn(phases: seq<PhaseDoc>, i: int, s: string)
    requires 0 <= i < |phases|
  {
    Truthy(phases[i].id) && s in StepIdsIn(phases[i].steps)
  }

  /** `step_to_phase` holds exactly the steps listed in a phase with an id, and maps each to
      the last such phase: a later phase overrides an earlier one. */
  lemma BuildPhasesMap(phases: seq<PhaseDoc>)
    ensures var m := BuildPhases(phases).stepToPhase;
      && (forall s :: s in m <==> exists i :: 0 <= i < |phases| && ListedIn(phases, i, s))
      && (forall s, i :: LastListing(phases, i, s) ==> s in m && m[s] == phases[i].id.value)
  {
    BuildMapDomain(phases);
    BuildMapLastWins(phases);
  }

  lemma {:induction false} BuildMapDomain(phases: seq<PhaseDoc>)
    ensures forall s :: s in BuildPhases(phases).stepToPhase <==> exists i :: 0 <= i < |phases| && ListedIn(phases, i, s)
    decreases |phases|
  {
    if phases != [] {
      var n := |phases| - 1;
      var prefix := phases[..n];
      BuildMapDomain(prefix);
      AddStepsMap(BuildPhases(prefix), phases[n].id, phases[n].steps);
      var m := BuildPhases(phases).stepToPhase;
      forall s ensures s in m <==> exists i :: 0 <= i < |phases| && ListedIn(phases, i, s) {
        if s in m && !ListedIn(phases, n, s) {
          var i :| 0 <= i < n && ListedIn(prefix, i, s);
          assert ListedIn(phases, i, s);
        }
        if exists i :: 0 <= i < |phases| && ListedIn(phases, i, s) {
          var i :| 0 <= i < |phases| && ListedIn(phases, i, s);
          if i < n {
            assert ListedIn(prefix, i, s);
          }
        }
      }
    }
  }

  /** Phase `i` is the last phase with an id that lists step `s`. */
  ghost predicate LastListing(phases: seq<PhaseDoc>, i: int, s: string) {
    0 <= i < |phases| && ListedIn(phases, i, s) && forall j :: i < j < |phases| ==> !ListedIn(phases, j, s)
  }

  lemma LastListingPrefix(phases: seq<PhaseDoc>, i: int, s: string)
    requires phases != [] && i < |phases| - 1 && LastListing(phases, i, s)
    ensures LastListing(phases[..|phases| - 1], i, s) && !ListedIn(phases, |phases| - 1, s)
  {
    var prefix := phases[..|phases| - 1];
    forall j | i < j < |prefix| ensures !ListedIn(prefix, j, s) {
      assert prefix[j] == phases[j];
      assert !ListedIn(phases, j, s);
    }
    assert prefix[i] == phases[i];
  }

  lemma {:induction false} BuildMapLastWins(phases: seq<PhaseDoc>)
    ensures forall s, i :: LastListing(phases, i, s) ==>
              s in BuildPhases(phases).stepToPhase && BuildPhases(phases).stepToPhase[s] == phases[i].id.value
    decreases |phases|
  {
    if phases != [] {
      var n := |phases| - 1;
      var prefix := phases[..n];
      BuildMapLastWins(prefix);
      AddStepsMap(BuildPhases(prefix), phases[n].id, phases[n].steps);
      forall s, i | LastListing(phases, i, s)
        ensures s in BuildPhases(phases).stepToPhase && BuildPhases(phases).stepToPhase[s] == phases[i].id.value
      {
        if i < n {
          LastListingPrefix(phases, i, s);
        }
      }
    }
  }

  // ---------------------------------------------------------------- overrides

  /** The existing aliases, re-keyed, followed by the override aliases through `_add_alias`,
      de-duplicated again. */
  function MergeAliases(existing: seq<string>, aliases: seq<Option<string>>): seq<string> {
    DedupeWithKeys(AddAll(KeyPairs(existing), aliases))
  }

  /** Merging keeps a clean existing list, in order, as a prefix, and adds only override
      aliases; the result is clean. */
  lemma MergeAliasesMeaning(existing: seq<string>, aliases: seq<Option<string>>)
    requires KeysDistinctNonEmpty(KeyPairs(existing))
    ensures var r := MergeAliases(existing, aliases);
      && existing <= r
      && KeysDistinctNonEmpty(KeyPairs(r))
      && (forall a :: a in r ==> a in existing || Some(a) in aliases)
  {
    MergeKeepsExisting(existing, aliases);
    MergeMembers(existing, aliases);
  }

  lemma MergeKeepsExisting(existing: seq<string>, aliases: seq<Option<string>>)
    requires KeysDistinctNonEmpty(KeyPairs(existing))
    ensures existing <= MergeAliases(existing, aliases) && KeysDistinctNonEmpty(KeyPairs(MergeAliases(existing, aliases)))
  {
    var kp := KeyPairs(existing);
    var all := AddAll(kp, aliases);
    AddAllFacts(kp, aliases);
    KeyPairsOfKept(all);
    FirstPerKeyKeys(all);
    MergePrefix(existing, aliases);
  }

  /** The existing pairs stay first in the kept pairs. */
  lemma MergePrefix(existing: seq<string>, aliases: seq<Option<string>>)
    requires KeysDistinctNonEmpty(KeyPairs(existing))
    requires KeyPairs(MergeAliases(existing, aliases)) == FirstPerKey(AddAll(KeyPairs(existing), aliases))
    ensures existing <= MergeAliases(existing, aliases)
  {
    var kp := KeyPairs(existing);
    var all := AddAll(kp, aliases);
    PrefixRest(kp, all);
    FirstPerKeyPrefix(kp, all[|kp|..]);
    FirstPerKeyOfDistinct(kp);
    var r := MergeAliases(existing, aliases);
    var kr := KeyPairs(r);
    assert kp <= kr;
    forall i | 0 <= i < |kp| ensures r[i] == existing[i] {
      assert kr[i] == kp[i];
    }
  }

  lemma MergeMembers(existing: seq<string>, aliases: seq<Option<string>>)
    ensures forall a :: a in MergeAliases(existing, aliases) ==> a in existing || Some(a) in aliases
  {
    var kp := KeyPairs(existing);
    var all := AddAll(kp, aliases);
    AddAllFacts(kp, aliases);
    FirstPerKeySubseq(all);
    var kept := FirstPerKey(all);
    var r := MergeAliases(existing, aliases);
    forall a | a in r ensures a in existing || Some(a) in aliases {
      var i :| 0 <= i < |r| && r[i] == a;
      assert kept[i] in all;
    }
  }

  /** One override entry: a new step id gets an empty list first, then its list is merged. */
  function OverrideEntry(d: Dict<string, seq<string>>, k: string, aliases: seq<Option<string>>): Dict<string, seq<string>> {
    var existing := match Get(d, k) case Some(v) => v case None => [];
    Put(d, k, MergeAliases(existing, aliases))
  }

  function ApplyStepOverrides(d: Dict<string, seq<string>>, entries: Dict<string, seq<Option<string>>>): Dict<string, seq<string>>
    decreases |entries|
  {
    if entries == [] then d
    else
      var last := entries[|entries| - 1];
      OverrideEntry(ApplyStepOverrides(d, entries[..|entries| - 1]), last.0, last.1)
  }

  /** An override entry keeps the step's existing aliases, in order, as a prefix, and only
      adds override aliases; the step is present afterwards, the table stays clean, and every
      other step reads as before. */
  lemma OverrideEntryMeaning(d: Dict<string, seq<string>>, k: string, aliases: seq<Option<string>>)
    requires CleanTable(d)
    ensures var d', existing := OverrideEntry(d, k, aliases), match Get(d, k) case Some(v) => v case None => [];
      && Get(d', k).Some?
      && existing <= Get(d', k).value
      && (forall a :: a in Get(d', k).value ==> a in existing || Some(a) in aliases)
      && CleanTable(d')
      && (forall k' :: HasKey(d', k') <==> HasKey(d, k') || k' == k)
      && (forall k' :: k' != k ==> Get(d', k') == Get(d, k'))
  {
    var existing := match Get(d, k) case Some(v) => v case None => [];
    if Get(d, k).Some? {
      CleanGet(d, k);
    }
    var v := MergeAliases(existing, aliases);
    MergeAliasesMeaning(existing, aliases);
    PutGetSame(d, k, v);
    forall k' | k' != k ensures Get(Put(d, k, v), k') == Get(d, k') {
      PutGetOther(d, k, v, k');
    }
    PutKeys(d, k, v);
    PutClean(d, k, v);
  }

  /** After the override loop the table is still clean, and it has an entry for every step it
      had and for every overridden step, and for nothing else. */
  lemma ApplyStepOverridesMeaning(d: Dict<string, seq<string>>, entries: Dict<string, seq<Option<string>>>)
    requires CleanTable(d)
    ensures CleanTable(ApplyStepOverrides(d, entries))
    ensures forall k :: HasKey(ApplyStepOverrides(d, entries), k) <==> HasKey(d, k) || k in Keys(entries)
  {
    ApplyStepOverridesClean(d, entries);
    ApplyStepOverridesKeys(d, entries);
  }

  lemma {:induction false} ApplyStepOverridesClean(d: Dict<string, seq<string>>, entries: Dict<string, seq<Option<string>>>)
    requires CleanTable(d)
    ensures CleanTable(ApplyStepOverrides(d, entries))
    decreases |entries|
  {
    if entries != [] {
      var prefix, last := entries[..|entries| - 1], entries[|entries| - 1];
      ApplyStepOverridesClean(d, prefix);
      OverrideEntryMeaning(ApplyStepOverrides(d, prefix), last.0, last.1);
    }
  }

  lemma {:induction false} ApplyStepOverridesKeys(d: Dict<string, seq<string>>, entries: Dict<string, seq<Option<string>>>)
    ensures forall k :: HasKey(ApplyStepOverrides(d, entries), k) <==> HasKey(d, k) || k in Keys(entries)
    decreases |entries|
  {
    if entries != [] {
      var prefix, last := entries[..|entries| - 1], entries[|entries| - 1];
      ApplyStepOverridesKeys(d, prefix);
      var d1 := ApplyStepOverrides(d, prefix);
      var existing := match Get(d1, last.0) case Some(v) => v case None => [];
      assert ApplyStepOverrides(d, entries) == Put(d1, last.0, MergeAliases(existing, last.1));
      assert forall k :: HasKey(ApplyStepOverrides(d, entries), k) <==> HasKey(d1, k) || k == last.0 by {
        PutKeys(d1, last.0, MergeAliases(existing, last.1));
      }
      KeysDropLast(entries);
    }
  }

  /** A step that already had aliases keeps them, in order, as a prefix through every entry. */
  lemma {:induction false} OverridesKeepExisting(d: Dict<string, seq<string>>, entries: Dict<string, seq<Option<string>>>, k: string)
    requires CleanTable(d) && Get(d, k).Some?
    ensures Get(ApplyStepOverrides(d, entries), k).Some? && Get(d, k).value <= Get(ApplyStepOverrides(d, entries), k).value
    decreases |entries|
  {
    if entries != [] {
      var prefix, last := entries[..|entries| - 1], entries[|entries| - 1];
      OverridesKeepExisting(d, prefix, k);
      ApplyStepOverridesClean(d, prefix);
      OverrideEntryMeaning(ApplyStepOverrides(d, prefix), last.0, last.1);
    }
  }

  // ---------------------------------------------------------------- compile_recruiting

  predicate IsRecruiting(p: ProcessDoc) { p.id == Some("recruiting") }

  /** The process alias candidates: the fixed list, the process name, then the override's. */
  function ProcessAliasPairs(process: ProcessDoc, ov: Option<RecruitingOverride>): seq<(string, string)> {
    var seeded := AddAll([], Somes(SeedProcessAliases) + [process.name]);
    if ov.Some? then AddAll(seeded, ov.value.processAliases) else seeded
  }

  /** The catalog entry built from the recruiting process document. */
  function CompiledProcess(process: ProcessDoc, ov: Option<RecruitingOverride>): CatalogProcess {
    var b := BuildPhases(process.phases);
    var table := if ov.Some? then ApplyStepOverrides(b.stepAliases, ov.value.stepAliases) else b.stepAliases;
    CatalogProcess("recruiting", OrDefault(process.name, "Recruiting"), OrElse(process.owner, process.ownerRole),
                   b.steps, DedupeWithKeys(ProcessAliasPairs(process, ov)), table, DefaultHealth,
                   Some(PhaseIds(process.phases)), Some(b.stepToPhase))
  }

  /** `compile_recruiting`: the first process with id "recruiting", compiled, or an error. */
  function CompileRecruitingOf(doc: WorkflowDoc, ov: Option<RecruitingOverride>): Result<CatalogProcess, string> {
    match FirstWhere(doc.processes, IsRecruiting)
    case None => Err(MissingRecruiting)
    case Some(i) => Ok(CompiledProcess(doc.processes[i], ov))
  }

  lemma RecruitingKey() ensures Normalize("recruiting") == "recruiting" { NormalFormFixed("recruiting"); }
  lemma RecruitmentKey() ensures Normalize("recruitment") == "recruitment" { NormalFormFixed("recruitment"); }
  lemma HiringKey() ensures Normalize("hiring") == "hiring" { NormalFormFixed("hiring"); }
  lemma PipelineKey() ensures Normalize("recruiting pipeline") == "recruiting pipeline" { NormalFormFixed("recruiting pipeline"); }

  /** The fixed process aliases are non-empty and their own normal forms. */
  lemma SeedProcessAliasesNormal()
    ensures SelfKeyed(SeedProcessAliases)
  {
    RecruitingKey();
    RecruitmentKey();
    HiringKey();
    PipelineKey();
  }

  /** The fixed aliases, the name, then the override's, each through `_add_alias`. */
  lemma ProcessAliasPairsFacts(process: ProcessDoc, ov: Option<RecruitingOverride>)
    ensures var pairs := ProcessAliasPairs(process, ov);
      && SelfPairs(SeedProcessAliases) <= pairs
      && WellKeyed(pairs) && NonEmptyKeys(pairs)
      && forall x :: x in pairs ==> x.0 in SeedProcessAliases || Some(x.0) == process.name || (ov.Some? && Some(x.0) in ov.value.processAliases)
  {
    var seeded := AddAll([], Somes(SeedProcessAliases) + [process.name]);
    SeededProcessAliases(process);
    if ov.Some? {
      AddAllFacts(seeded, ov.value.processAliases);
    }
  }

  /** The fixed aliases come first, each its own key, followed at most by the name. */
  lemma SeededProcessAliases(process: ProcessDoc)
    ensures var seeded := AddAll([], Somes(SeedProcessAliases) + [process.name]);
      && SelfPairs(SeedProcessAliases) <= seeded
      && WellKeyed(seeded) && NonEmptyKeys(seeded)
      && forall x :: x in seeded ==> x.0 in SeedProcessAliases || Some(x.0) == process.name
  {
    var four := AddAll([], Somes(SeedProcessAliases));
    assert four == SelfPairs(SeedProcessAliases) by {
      SeedProcessAliasesNormal();
      AddAllNormal([], SeedProcessAliases);
      assert [] + SelfPairs(SeedProcessAliases) == SelfPairs(SeedProcessAliases);
    }
    assert WellKeyed(four) && NonEmptyKeys(four) by {
      AddAllFacts([], Somes(SeedProcessAliases));
    }
    assert forall x :: x in four ==> x.0 in SeedProcessAliases;
    AddAllSnoc([], Somes(SeedProcessAliases), process.name);
    AddAliasMeaning(four, process.name);
  }

  /** The compiled process aliases start with the four fixed ones, in order, and their keys are
      non-empty and pairwise different; everything else is the name or an override alias. */
  lemma ProcessAliasesMeaning(process: ProcessDoc, ov: Option<RecruitingOverride>)
    ensures var r := DedupeWithKeys(ProcessAliasPairs(process, ov));
      && SeedProcessAliases <= r
      && KeysDistinctNonEmpty(KeyPairs(r))
      && (forall a :: a in r ==> a in SeedProcessAliases || Some(a) == process.name || (ov.Some? && Some(a) in ov.value.processAliases))
  {
    var four := SelfPairs(SeedProcessAliases);
    var pairs := ProcessAliasPairs(process, ov);
    ProcessAliasPairsFacts(process, ov);
    ProcessAliasesPrefix(pairs, four);
    KeyPairsOfKept(pairs);
    DedupeKeeps(pairs, a => a in SeedProcessAliases || Some(a) == process.name || (ov.Some? && Some(a) in ov.value.processAliases));
  }

  lemma ProcessAliasesPrefix(pairs: seq<(string, string)>, four: seq<(string, string)>)
    requires four == SelfPairs(SeedProcessAliases) && four <= pairs
    ensures SeedProcessAliases <= DedupeWithKeys(pairs)
    ensures KeysDistinctNonEmpty(FirstPerKey(pairs))
  {
    assert KeysDistinctNonEmpty(four);
    assert pairs == four + pairs[4..];
    FirstPerKeyPrefix(four, pairs[4..]);
    FirstPerKeyOfDistinct(four);
    FirstPerKeyKeys(pairs);
  }

  /** The compiled entry: it fails exactly when no process has id "recruiting"; otherwise its
      id is "recruiting", its health is 7 / 14 days, its display name falls back to
      "Recruiting", its phases are the phase ids, its steps are every phase's step ids in order,
      every step and every overridden step has a clean alias list, and its process aliases
      start with the four fixed ones and have distinct keys. */
  lemma CompileRecruitingMeaning(doc: WorkflowDoc, ov: Option<RecruitingOverride>)
    ensures var r := CompileRecruitingOf(doc, ov);
      && (r.Err? <==> forall i :: 0 <= i < |doc.processes| ==> !IsRecruiting(doc.processes[i]))
      && (r.Err? ==> r.error == MissingRecruiting)
      && (r.Ok? ==>
            exists i :: 0 <= i < |doc.processes| && IsRecruiting(doc.processes[i])
              && var process := doc.processes[i];
              && r.value.processId == "recruiting"
              && r.value.health == HealthSpec(7, 14)
              && r.value.displayName == OrDefault(process.name, "Recruiting")
              && r.value.phases == Some(PhaseIds(process.phases))
              && r.value.steps == StepIdsOf(process.phases)
              && CleanTable(r.value.stepAliases)
              && (forall k :: k in r.value.steps ==> HasKey(r.value.stepAliases, k))
              && (ov.Some? ==> forall k :: k in Keys(ov.value.stepAliases) ==> HasKey(r.value.stepAliases, k))
              && SeedProcessAliases <= r.value.processAliases
              && KeysDistinctNonEmpty(KeyPairs(r.value.processAliases)))
  {
    var r := CompileRecruitingOf(doc, ov);
    if r.Ok? {
      var i := FirstWhere(doc.processes, IsRecruiting).value;
      var process := doc.processes[i];
      BuildPhasesSteps(process.phases);
      var b := BuildPhases(process.phases);
      if ov.Some? {
        ApplyStepOverridesMeaning(b.stepAliases, ov.value.stepAliases);
      }
      ProcessAliasesMeaning(process, ov);
    }
  }

  // ---------------------------------------------------------------- the loops

  /** The first process with id "recruiting". */
  method FindRecruiting(processes: seq<ProcessDoc>) returns (r: Option<nat>)
    ensures r == FirstWhere(processes, IsRecruiting)
  {
    var i := 0;
    while i < |processes|
      invariant 0 <= i <= |processes|
      invariant forall j :: 0 <= j < i ==> !IsRecruiting(processes[j])
    {
      if processes[i].id == Some("recruiting") {
        return Some(i);
      }
      i := i + 1;
    }
    return None;
  }

  /** The phase loop with its inner step loop, filling the three tables. */
  method BuildTables(phases: seq<PhaseDoc>) returns (steps: seq<string>, stepToPhase: map<string, string>, stepAliases: Dict<string, seq<string>>)
    ensures Build(steps, stepToPhase, stepAliases) == BuildPhases(phases)
  {
    steps, stepToPhase, stepAliases := [], map[], [];
    var i := 0;
    while i < |phases|
      invariant 0 <= i <= |phases|
      invariant Build(steps, stepToPhase, stepAliases) == BuildPhases(phases[..i])
    {
      steps, stepToPhase, stepAliases := AddStepsLoop(steps, stepToPhase, stepAliases, phases[i].id, phases[i].steps);
      TakeSnoc(phases, i);
      i := i + 1;
    }
    TakeAll(phases);
  }

  /** The inner loop of the table building, over the steps of one phase. */
  method AddStepsLoop(steps0: seq<string>, map0: map<string, string>, aliases0: Dict<string, seq<string>>,
                      phaseId: Option<string>, phaseSteps: seq<StepDoc>)
    returns (steps: seq<string>, stepToPhase: map<string, string>, stepAliases: Dict<string, seq<string>>)
    ensures Build(steps, stepToPhase, stepAliases) == AddSteps(Build(steps0, map0, aliases0), phaseId, phaseSteps)
  {
    steps, stepToPhase, stepAliases := steps0, map0, aliases0;
    var j := 0;
    while j < |phaseSteps|
      invariant 0 <= j <= |phaseSteps|
      invariant Build(steps, stepToPhase, stepAliases) == AddSteps(Build(steps0, map0, aliases0), phaseId, phaseSteps[..j])
    {
      AddStepsLast(Build(steps0, map0, aliases0), phaseId, phaseSteps[..j + 1]);
      TakeSnoc(phaseSteps, j);
      steps, stepToPhase, stepAliases := AddStepOnce(steps, stepToPhase, stepAliases, phaseId, phaseSteps[j]);
      j := j + 1;
    }
    TakeAll(phaseSteps);
  }

  /** One iteration of the inner loop. */
  method AddStepOnce(steps0: seq<string>, map0: map<string, string>, aliases0: Dict<string, seq<string>>,
                     phaseId: Option<string>, step: StepDoc)
    returns (steps: seq<string>, stepToPhase: map<string, string>, stepAliases: Dict<string, seq<string>>)
    ensures Build(steps, stepToPhase, stepAliases) == AddStep(Build(steps0, map0, aliases0), phaseId, step)
  {
    steps, stepToPhase, stepAliases := steps0, map0, aliases0;
    if Truthy(step.id) {
      var stepId := step.id.value;
      steps := steps + [stepId];
      if Truthy(phaseId) {
        stepToPhase := stepToPhase[stepId := phaseId.value];
      }
      var seeded := SeedAliasesLoop(step);
      stepAliases := Put(stepAliases, stepId, seeded);
    }
  }

  lemma AddStepsLast(b: Build, phaseId: Option<string>, ss: seq<StepDoc>)
    requires ss != []
    ensures AddSteps(b, phaseId, ss) == AddStep(AddSteps(b, phaseId, ss[..|ss| - 1]), phaseId, ss[|ss| - 1])
  {
  }

  /** `_seed_step_aliases` as written: the candidate appends, then the `seen`-set pass. */
  method SeedAliasesLoop(step: StepDoc) returns (r: seq<string>)
    ensures r == SeedStepAliases(step)
  {
    var pairs := AddAlias([], step.name);
    pairs := AddAlias(pairs, step.shortName);
    pairs := AddAlias(pairs, step.id);
    if Truthy(step.id) {
      pairs := AddAlias(pairs, Some(Replace(step.id.value, '-', ' ')));
      pairs := AddAlias(pairs, Some(Replace(step.id.value, '_', ' ')));
    }
    if Truthy(step.name) {
      pairs := AddAlias(pairs, Some(Lower(step.name.value)));
    }
    if Truthy(step.shortName) {
      pairs := AddAlias(pairs, Some(Lower(step.shortName.value)));
    }
    r := DedupeAliasesWithKeys(pairs);
  }

  /** `_add_alias` applied to each alias of a list in turn. */
  method AddAliases(pairs: seq<(string, string)>, aliases: seq<Option<string>>) returns (r: seq<(string, string)>)
    ensures r == AddAll(pairs, aliases)
  {
    r := pairs;
    var i := 0;
    while i < |aliases|
      invariant 0 <= i <= |aliases|
      invariant r == AddAll(pairs, aliases[..i])
    {
      AddAllSnoc(pairs, aliases[..i], aliases[i]);
      TakeSnoc(aliases, i);
      r := AddAlias(r, aliases[i]);
      i := i + 1;
    }
    TakeAll(aliases);
  }

  /** One iteration of the override loop. */
  method ApplyOverrideEntry(d: Dict<string, seq<string>>, stepId: string, aliases: seq<Option<string>>) returns (r: Dict<string, seq<string>>)
    ensures r == OverrideEntry(d, stepId, aliases)
  {
    r := d;
    if !HasKey(r, stepId) {
      GetFacts(r, stepId);
      PutTwice(r, stepId, [], MergeAliases([], aliases));
      r := Put(r, stepId, []);
      PutGetSame(d, stepId, []);
    }
    var existing := match Get(r, stepId) case Some(v) => v case None => [];
    var pairs := AddAliases(KeyPairs(existing), aliases);
    var merged := DedupeAliasesWithKeys(pairs);
    r := Put(r, stepId, merged);
  }

  /** The override loop over the step-alias entries. */
  method ApplyOverrides(d: Dict<string, seq<string>>, entries: Dict<string, seq<Option<string>>>) returns (r: Dict<string, seq<string>>)
    ensures r == ApplyStepOverrides(d, entries)
  {
    r := d;
    var i := 0;
    while i < |entries|
      invariant 0 <= i <= |entries|
      invariant r == ApplyStepOverrides(d, entries[..i])
    {
      TakeSnoc(entries, i);
      r := ApplyOverrideEntry(r, entries[i].0, entries[i].1);
      i := i + 1;
    }
    TakeAll(entries);
  }

  /** `compile_recruiting`. */
  method CompileRecruiting(doc: WorkflowDoc, ov: Option<RecruitingOverride>) returns (r: Result<CatalogProcess, string>)
    ensures r == CompileRecruitingOf(doc, ov)
  {
    var found := FindRecruiting(doc.processes);
    if found.None? {
      return Err(MissingRecruiting);
    }
    var process := doc.processes[found.value];
    var phases := process.phases;
    var phaseIds: seq<string> := [];
    var i := 0;
    while i < |phases|
      invariant 0 <= i <= |phases|
      invariant phaseIds == PhaseIds(phases[..i])
    {
      TakeSnoc(phases, i);
      if Truthy(phases[i].id) {
        phaseIds := phaseIds + [phases[i].id.value];
      }
      i := i + 1;
    }
    TakeAll(phases);
    var steps, stepToPhase, stepAliases := BuildTables(phases);
    var processAliases := AddAliases([], Somes(SeedProcessAliases) + [process.name]);
    if ov.Some? {
      processAliases := AddAliases(processAliases, ov.value.processAliases);
      stepAliases := ApplyOverrides(stepAliases, ov.value.stepAliases);
    }
    var dedupedAliases := DedupeAliasesWithKeys(processAliases);
    var displayName := if Truthy(process.name) then process.name.value else "Recruiting";
    var owner := if Truthy(process.owner) then process.owner else process.ownerRole;
    return Ok(CatalogProcess("recruiting", displayName, owner, steps, dedupedAliases, stepAliases,
                             HealthSpec(7, 14), Some(phaseIds), Some(stepToPhase)));
  }
}
