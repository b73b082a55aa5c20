# Process observability core, modelled in Dafny

This project models the deterministic core of a demo "process observability" pipeline. The
pipeline reads Gmail and Slack messages, extracts workflow events from them and reconciles them
into a store of hiring workflows. The model covers:

- **The process catalog** (`src/demo/catalog/`): the record types and their defaults;
  alias text normalisation and alias deduplication; compiling the recruiting workflow
  definition into step tables and alias tables; loading and merging the unified catalog.
- **The canonicalisers** (`src/demo/catalog/canonicalize.py`): the matching ladders that map
  free text to a canonical process, client, role or workflow step.
  - Process: key, then display name, then alias, then a unique substring candidate.
  - Client: name, then alias, then a unique containment candidate, then a unique
    token-containment candidate; otherwise the cleaned text, capitalised word by word.
  - Role: canonical name, then alias; otherwise "Other".
  - Step: step name, then alias, then a unique containment candidate with its score.
- **Stage-3 enrichment** (`src/demo/pipeline/stage3_postprocess.py`): raw fields are attached
  and canonicalised; step states are filled by position; a health class is derived from the age
  of the last update; coverage statistics are counted over a batch. An instance is a `class`
  whose methods update its fields in place.
- **Reconciliation** (`src/demo/pipeline/reconciliation.py`):
  - the workflow definition tables and current-step derivation;
  - positional inference of step and phase statuses;
  - workflow ids and evidence-id merging;
  - the `reconcile_instances` engine. Each instance is matched against the stored workflows by
    exact key, then by fuzzy display key, or a new workflow is created. The chosen workflow is
    then written, and the coverage, match and drift counters are updated.
- **Pass-2 helpers** (`src/demo/pipeline/pass2.py`): process-label canonicalisation, slugs,
  grouping events by thread, splitting a thread by process, instance keys and the
  most-frequent value.
- **Ingestion** (`src/demo/ingestion/`): the source validator, Slack thread ids, Gmail queries,
  the text-length and sender filters, and dedup-then-sort.
- **Dataset merge** (`scripts/merge_client_datasets.py`): client labels from file names,
  stable message keys, and the merge by key with provenance lists and client counts.
- **Message normalisation** (`src/demo/io/`): extracting the message list and normalising each
  message, with the empty-text count and the optional stable sort by timestamp.

**How loops are modelled.** Each loop of the source is a `method` with its invariants. Its
`ensures` ties the result to a specification function, and lemmas state what the source
promises about that function: permutations, orderings, partitions, first-wins and last-wins
rules, and round trips.

**Python specifics.**
- Python dictionaries whose order matters are association lists with dictionary-assignment
  semantics (module `Dicts`).
- Python truthiness is explicit: a null or empty string is falsy.
- Library calls the source makes become function-typed parameters: `SequenceMatcher.ratio`,
  SHA-1, SHA-256, `json.dumps`, ISO-8601 parsing and `str()` of non-string values.
- Python's stable `list.sort` is module `Sorting`: an insertion sort on string and string-pair
  keys, proved sorted, a permutation and stable.

## Model

| member | source | states |
|---|---|---|
| CatalogTypes.NewCatalogProcess | src/demo/catalog/types.py:13-23 | a process built from its four required fields gets the dataclass defaults: health thresholds 7 and 14 days, no process or step aliases, no phases and no step-to-phase map |
| CatalogNormalize.NormalizeTextShape | src/demo/catalog/normalize.py:11-18 | null normalises to the empty string; the result has no upper-case letter, no punctuation character, no whitespace at either end and single spaces between words |
| CatalogNormalize.NormalFormFixed | src/demo/catalog/normalize.py:14-18 | text that is already lower-case, punctuation-free and collapsed normalises to itself |
| CatalogNormalize.NormalizeIdempotent | src/demo/catalog/normalize.py:11-18 | normalising twice gives the same text as normalising once |
| CatalogNormalize.NormalizeTextIdempotent | src/demo/catalog/normalize.py:11-18 | `normalize_text` applied to its own output changes nothing, null included |
| CatalogNormalize.NormalizeVariants | src/demo/catalog/normalize.py:14-16 | case, hyphens and underscores do not change the normal form |
| CatalogNormalize.FirstPerKeyKeys | src/demo/catalog/normalize.py:37-44 | the pairs the `seen` loop keeps have non-empty, pairwise different keys, and together they cover every non-empty input key |
| CatalogNormalize.FirstPerKeyKeepsFirst | src/demo/catalog/normalize.py:37-44 | the first pair carrying each non-empty key is kept |
| CatalogNormalize.FirstPerKeySubseq | src/demo/catalog/normalize.py:37-44 | the kept pairs are a subsequence of the input, so input order is preserved |
| CatalogNormalize.DedupeWithKeysProperties | src/demo/catalog/normalize.py:33-44 | `dedupe_aliases_with_keys` returns a subsequence of the aliases with one entry per distinct non-empty key, containing the first alias given for each key |
| CatalogNormalize.DedupeWithKeysIdempotent | src/demo/catalog/normalize.py:33-44 | re-keying the output with `normalize_text` and de-duplicating again changes nothing, provided the input keys were its normal forms |
| CatalogNormalize.DedupeAliasesSubseq | src/demo/catalog/normalize.py:21-30 | `dedupe_aliases` keeps a subsequence of its input |
| CatalogNormalize.DedupeAliasesKeys | src/demo/catalog/normalize.py:21-30 | every kept alias has a non-empty normal form, and no two kept aliases share one |
| CatalogNormalize.DedupeAliasesKeepsFirst | src/demo/catalog/normalize.py:21-30 | an alias whose normal form is non-empty and was not produced by any earlier alias is kept |
| CatalogNormalize.DedupeAliasesIdempotent | src/demo/catalog/normalize.py:21-30 | de-duplicating an already de-duplicated list changes nothing |
| CatalogNormalize.DedupeAliases | src/demo/catalog/normalize.py:21-30 | the loop with its `seen` set returns exactly the first-per-normal-form list that the lemmas above describe |
| CatalogNormalize.DedupeAliasesWithKeys | src/demo/catalog/normalize.py:33-44 | the loop over precomputed `(alias, key)` pairs returns the first alias per non-empty key, in order |
| Canonicalize.NormStrShape | src/demo/catalog/canonicalize.py:16-20 | `norm_text` output is lower-case, with words separated by single spaces and nothing at either end |
| Canonicalize.TokenStrShape | src/demo/catalog/canonicalize.py:23-28 | `norm_tokenish` output is lower-case and collapsed, and contains none of the characters in its punctuation table |
| Seqs.Unique | src/demo/catalog/canonicalize.py:31-38 | `_unique` returns a list with no repeated value and the same set of values as its input |
| Seqs.UniqueSubseq | src/demo/catalog/canonicalize.py:31-38 | `_unique` keeps the order of first occurrences |
| Seqs.UniqueSingleton | src/demo/catalog/canonicalize.py:67-69 | the de-duplicated candidates number exactly one iff the candidate list is non-empty and all its entries are equal, and then that entry is the answer |
| Canonicalize.UniqueValues | src/demo/catalog/canonicalize.py:31-38 | the `seen`-set loop computes `_unique` |
| Canonicalize.SubstringCandidatesMembers | src/demo/catalog/canonicalize.py:60-66 | a process key is a substring candidate iff one of its aliases has a non-empty normal form that contains, or is contained in, the raw text |
| Canonicalize.SubstringStageUnique | src/demo/catalog/canonicalize.py:60-70 | stage 4 answers `k` iff some process keyed `k` has a related alias and every process with a related alias is keyed `k` |
| Canonicalize.ProcessLadderPriority | src/demo/catalog/canonicalize.py:47-70 | the stages run in order: the first key match wins; failing that, the first display-name match; then the first alias match; and only when none of these matches does the substring stage decide |
| Canonicalize.ProcessLadderIsKey | src/demo/catalog/canonicalize.py:47-70 | any answer is a key of the process catalog |
| Canonicalize.CanonicalProcessIsKey | src/demo/catalog/canonicalize.py:41-70 | a falsy raw value, or one that normalises to nothing, gives null; any other answer is a catalog key |
| Canonicalize.FindByKey | src/demo/catalog/canonicalize.py:48-50 | the loop returns the first key whose normal form equals the raw text |
| Canonicalize.FindByDisplay | src/demo/catalog/canonicalize.py:52-54 | the loop returns the first process whose display name normalises to the raw text |
| Canonicalize.FindByAlias | src/demo/catalog/canonicalize.py:56-59 | the nested loops return the first process that has an alias normalising to the raw text |
| Canonicalize.CollectSubstringCandidates | src/demo/catalog/canonicalize.py:61-66 | the nested loops build the candidate list, one entry per related alias, in catalog order |
| Canonicalize.CanonicalizeProcess | src/demo/catalog/canonicalize.py:41-70 | `canonicalize_process`, stage by stage, returns the ladder's answer |
| Canonicalize.TokenForms | src/demo/catalog/canonicalize.py:101-102 | the token list holds exactly the non-empty `norm_tokenish` forms of the client's name and aliases |
| Canonicalize.CanonicalClientShape | src/demo/catalog/canonicalize.py:73-111 | null raw input gives null and nothing else does; the answer is a catalog client's name or the capitalised fallback, which lower-cases to `norm_text` of the input |
| Canonicalize.ClientLadderShape | src/demo/catalog/canonicalize.py:78-111 | every stage answers with a client name from the catalog; only the fallback is not one |
| Canonicalize.ClientNameFirst | src/demo/catalog/canonicalize.py:79-81 | an exact name match wins, and it is the first such client |
| Canonicalize.ClientAliasSecond | src/demo/catalog/canonicalize.py:83-86 | without an exact name, an exact alias match wins, and it is the first such client |
| Canonicalize.ClientTextThird | src/demo/catalog/canonicalize.py:88-97 | without an exact name or alias, a containment hit decides when every client it hits has the same name |
| Canonicalize.CanonicalClientAmbiguous | src/demo/catalog/canonicalize.py:87-111 | two differently named clients hit in both containment stages leave the answer at the fallback |
| Canonicalize.AnyTextRelated | src/demo/catalog/canonicalize.py:90-94 | the inner loop with its `break` reports whether any of the client's texts contains, or is contained in, the raw text |
| Canonicalize.AnyTokenRelated | src/demo/catalog/canonicalize.py:103-106 | the inner loop over the token forms reports whether any of them contains, or is contained in, the raw token form |
| Canonicalize.CollectClientHits | src/demo/catalog/canonicalize.py:88-106 | each containment stage collects one name per hit client, in catalog order |
| Canonicalize.FindClientByName | src/demo/catalog/canonicalize.py:79-81 | the loop returns the first client whose name equals the raw text, ignoring spacing and case |
| Canonicalize.FindClientByAlias | src/demo/catalog/canonicalize.py:83-86 | the nested loops return the first client with such an alias |
| Canonicalize.CanonicalizeClient | src/demo/catalog/canonicalize.py:73-111 | `canonicalize_client`, stage by stage, returns the ladder's answer |
| Canonicalize.CanonicalRoleLadder | src/demo/catalog/canonicalize.py:118-128 | the first canonical name equal to the raw text (ignoring spacing and case) wins; failing that, the first alias-table entry with a matching alias; otherwise "Other" |
| Canonicalize.CanonicalRoleRange | src/demo/catalog/canonicalize.py:114-128 | the role is always a canonical name, an alias-table key, "Unknown" or "Other" |
| Canonicalize.CanonicalizeRole | src/demo/catalog/canonicalize.py:114-128 | `canonicalize_role` with its loops returns the ladder's answer, and "Unknown" for null or blank input |
| Canonicalize.RoleLadderLoops | src/demo/catalog/canonicalize.py:119-128 | the loops over the canonical names and the alias table return the ladder's answer |
| Canonicalize.Clamp | src/demo/catalog/canonicalize.py:196 | the score is clamped into [0.01, 1.0] and left alone when already inside |
| Canonicalize.RatioBounds | src/demo/catalog/canonicalize.py:180 | a hit no longer than the non-empty step text scores a ratio in [0, 1] |
| Canonicalize.RatioMonotone | src/demo/catalog/canonicalize.py:188-191 | a longer hit never scores lower, so the running `max` keeps the longest hit's ratio |
| Canonicalize.StepAliasStageSpec | src/demo/catalog/canonicalize.py:160-170 | stage 2 answers iff some alias-table entry has an alias normalising to the step text; it returns the first such entry's step together with the alias that matched |
| Canonicalize.MatchStepNoneCases | src/demo/catalog/canonicalize.py:144-154 | a falsy step or process, a process missing from the catalog, or a step text that normalises to nothing each give the null result |
| Canonicalize.MatchStepMeaning | src/demo/catalog/canonicalize.py:131-205 | the step id is null exactly for the null result; an exact answer is a listed step equal to the text and scored 1.0; an alias answer reports an alias normalising to the text, scored 1.0; a fuzzy answer is the step every hit votes for, scored by its best length ratio (at least 0.01), and reports a hit text that lies inside the step text |
| Canonicalize.StepLadderMeaning | src/demo/catalog/canonicalize.py:155-205 | the three stages of one process produce only answers of those three meanings |
| Canonicalize.FuzzyStageMeaning | src/demo/catalog/canonicalize.py:171-205 | stage 3 answers only with a fuzzy match of that meaning |
| Canonicalize.FuzzyVotes | src/demo/catalog/canonicalize.py:171-203 | when stage 3 answers `k`, every hit votes for `k`, no hit is longer than the step text, and the reported alias lies inside the step text |
| Canonicalize.FuzzyVoteKnown | src/demo/catalog/canonicalize.py:175-192 | every fuzzy hit names a step of the process or a key of its alias table |
| Canonicalize.MatchStepAmbiguous | src/demo/catalog/canonicalize.py:193-205 | two fuzzy hits for different steps give the null result |
| Canonicalize.FindExactStep | src/demo/catalog/canonicalize.py:156-159 | the loop returns the first step equal to the raw text, ignoring spacing and case |
| Canonicalize.FindStepAlias | src/demo/catalog/canonicalize.py:161-170 | the nested loops return stage 2's answer |
| Canonicalize.RecordHit | src/demo/catalog/canonicalize.py:179-192 | recording a hit keeps `candidates`, `candidate_scores` and `candidate_alias` in step with the hits seen so far: the ids, each step's best ratio and each step's last hit text |
| Canonicalize.CollectStepHits | src/demo/catalog/canonicalize.py:175-181 | the loop over step names records exactly the hits of names lying inside the step text |
| Canonicalize.CollectAliasHits | src/demo/catalog/canonicalize.py:183-192 | the loop over one step's aliases records exactly that step's alias hits |
| Canonicalize.CollectTableHits | src/demo/catalog/canonicalize.py:182-192 | the loop over the alias table records the hits of every entry, in order |
| Canonicalize.FuzzyStep | src/demo/catalog/canonicalize.py:171-205 | stage 3 as loops returns the fuzzy stage's answer |
| Canonicalize.MatchStep | src/demo/catalog/canonicalize.py:131-205 | `match_step`, stage by stage, returns the ladder's answer |
| Compiler.AddAliasMeaning | src/demo/catalog/compiler.py:9-15 | `_add_alias` appends `(alias, normalize_text(alias))` exactly when the alias is truthy and its key non-empty, and otherwise leaves the list alone; a well-keyed list with non-empty keys stays so |
| Compiler.AddAllFacts | src/demo/catalog/compiler.py:62-64 | `_add_alias` over a list keeps the pairs well keyed with non-empty keys, and adds only aliases from that list |
| Compiler.AddAliases | src/demo/catalog/compiler.py:63-64 | the loop applying `_add_alias` to each alias in turn gives the same pairs as the fold |
| Compiler.CorePairsShape | src/demo/catalog/compiler.py:24-26 | the name, short-name and id candidates are well keyed with non-empty keys, and each is one of those three fields |
| Compiler.SeedVariantsAbsorbed | src/demo/catalog/compiler.py:27-35 | the id variants with `-` and `_` replaced, and the lower-cased name and short name, always normalise to keys already seeded, so the result equals de-duplicating the three core candidates |
| Compiler.SeedStepAliasesMeaning | src/demo/catalog/compiler.py:18-35 | every seeded alias is the step's name, short name or id; their normal forms are non-empty and distinct; each keepable field's key is covered; and a keepable name comes first |
| Compiler.SeedAliasesLoop | src/demo/catalog/compiler.py:18-35 | the candidate appends followed by the de-duplication pass compute `_seed_step_aliases` |
| Compiler.StepIdsIn | src/demo/catalog/compiler.py:52-56 | the steps appended for one phase are those with an id, and none of them is empty |
| Compiler.PhaseIds | src/demo/catalog/compiler.py:45 | `phase_ids` holds only non-empty ids |
| Compiler.AddStepsMap | src/demo/catalog/compiler.py:52-59 | a phase with an id maps each of its listed steps to itself and leaves other entries alone; a phase without an id leaves `step_to_phase` unchanged |
| Compiler.BuildPhasesSteps | src/demo/catalog/compiler.py:50-59 | `steps` is every phase's step ids concatenated in document order, and every step id has a clean alias list |
| Compiler.BuildPhasesMap | src/demo/catalog/compiler.py:50-59 | a step is in `step_to_phase` iff some phase with an id lists it, and it maps to the last such phase |
| Compiler.BuildTables | src/demo/catalog/compiler.py:50-59 | the phase loop with its inner step loop fills the three tables exactly as the fold over phases does |
| Compiler.AddStepsLoop | src/demo/catalog/compiler.py:52-59 | the inner loop over one phase's steps fills the tables as the fold over those steps does |
| Compiler.AddStepOnce | src/demo/catalog/compiler.py:53-59 | one iteration skips a step without an id, and otherwise appends it, maps it to its phase when the phase has an id, and seeds its aliases |
| Compiler.MergeAliasesMeaning | src/demo/catalog/compiler.py:77-80 | merging keeps the existing aliases first and in order, adds only override aliases, and leaves non-empty, distinct normal forms |
| Compiler.OverrideEntryMeaning | src/demo/catalog/compiler.py:74-80 | after one override entry the step has an alias list that starts with its old one (empty for a new step) and adds only override aliases; the table stays clean and gains at most that key |
| Compiler.ApplyStepOverridesMeaning | src/demo/catalog/compiler.py:74-80 | after all entries every alias list is clean, and the table's keys are the old keys plus the overridden step ids |
| Compiler.OverridesKeepExisting | src/demo/catalog/compiler.py:74-80 | a step that already had aliases keeps them, in order, as a prefix of its list |
| Compiler.ApplyOverrideEntry | src/demo/catalog/compiler.py:75-80 | one iteration of the override loop computes the entry's update |
| Compiler.ApplyOverrides | src/demo/catalog/compiler.py:74-80 | the override loop computes the fold over the entries |
| Compiler.SeedProcessAliasesNormal | src/demo/catalog/compiler.py:63 | the four fixed process aliases are non-empty and are their own normal forms |
| Compiler.ProcessAliasesMeaning | src/demo/catalog/compiler.py:62-87 | the process aliases start with the four fixed ones, have non-empty distinct normal forms, and otherwise hold only the process name and override aliases |
| Compiler.CompileRecruitingMeaning | src/demo/catalog/compiler.py:38-92 | an error (the `ValueError`) occurs exactly when no process has id "recruiting". Otherwise the first such process is compiled with: id "recruiting"; health 7 / 14; display name defaulting to "Recruiting"; phases equal to the phase ids; steps equal to all phases' step ids in order; a clean alias list for every step and every overridden step; and process aliases that start with the fixed four and have distinct keys |
| Compiler.FindRecruiting | src/demo/catalog/compiler.py:40 | the search returns the first process whose id is "recruiting" |
| Compiler.CompileRecruiting | src/demo/catalog/compiler.py:38-92 | `compile_recruiting` with its loops returns the compiled entry or the error |
| Loader.CoerceHealth | src/demo/catalog/loader.py:25-31 | a missing health block gives 7 / 14 days, and each missing key falls back to its own default |
| Loader.DedupeStepAliasesGet | src/demo/catalog/loader.py:42 | every step key of the alias table reads the de-duplicated form of its list, and the table's keys are unchanged |
| Loader.CompileFromProcessCatalogErrors | src/demo/catalog/loader.py:34-45 | compiling fails exactly when the steps are empty, two steps share a normal form, or overdue < at-risk. The errors are reported in that order of priority |
| Loader.CompileFromProcessCatalogMeaning | src/demo/catalog/loader.py:34-54 | a compiled entry carries the given id and the steps unchanged and non-empty, with the display name defaulting to the id, the given owner, the coerced health with at-risk ≤ overdue, and de-duplicated process and step aliases |
| Loader.MergeFlatErrors | src/demo/catalog/loader.py:72-76 | the merge fails iff some flat entry that is neither `hiring` nor `recruiting` does not compile, and it then reports the first such entry's error |
| Loader.MergeFlatKeys | src/demo/catalog/loader.py:72-76 | a successful merge holds exactly the starting keys and the flat ids other than `hiring` and `recruiting` |
| Loader.MergeFlatValues | src/demo/catalog/loader.py:72-76 | keys not in the flat catalog, and the two reserved ids, keep their starting entry; every other flat id maps to its compiled entry |
| Loader.MergeFlatKeepsFirst | src/demo/catalog/loader.py:72-76 | the `recruiting` entry stays first and unchanged |
| Loader.MergeFlatErrSticks | src/demo/catalog/loader.py:73-76 | once an entry has failed, later entries do not change the outcome (the raise ends the loop) |
| Loader.LoadUnifiedCatalogMeaning | src/demo/catalog/loader.py:57-78 | loading fails iff compiling the recruiting definition fails or some non-reserved flat entry fails. On success, `recruiting` comes first as compiled from the definition, there is no `hiring` key, and the keys are `recruiting` plus the non-reserved flat ids |
| Loader.MergeFlatLoop | src/demo/catalog/loader.py:72-76 | the loop filling `compiled` computes the merge |
| Loader.LoadUnifiedCatalog | src/demo/catalog/loader.py:57-78 | `load_unified_catalog` on parsed documents returns the merged catalog or the first error |
| Stage3.AttachRaw | src/demo/pipeline/stage3_postprocess.py:33-40 | afterwards all three `candidate_*_raw` keys are present; a key already present keeps its value, and an absent one receives `candidate_*` (null when that is missing) |
| Stage3.AttachRawIdempotent | src/demo/pipeline/stage3_postprocess.py:33-40 | attaching raw fields twice is the same as once, so nothing is ever overwritten |
| Stage3.Instance.AttachRawFields | src/demo/pipeline/stage3_postprocess.py:33-40 | the in-place update leaves the record attached and every derived field unchanged |
| Stage3.CanonProcessMeaning | src/demo/pipeline/stage3_postprocess.py:52-70 | without a process catalog the canonical process and owner are null; a canonical process is a catalog key, and the owner is its catalog owner, or null when the process is falsy |
| Stage3.CanonClientMeaning | src/demo/pipeline/stage3_postprocess.py:57-58 | a canonical client is present exactly when the clients catalog and a raw client are |
| Stage3.CanonRoleMeaning | src/demo/pipeline/stage3_postprocess.py:59-60 | a canonical role is present exactly when the roles catalog is, and it is a canonical role, an alias key, "Unknown" or "Other" |
| Stage3.Instance.CanonicalizeFields | src/demo/pipeline/stage3_postprocess.py:43-70 | the in-place update sets exactly the canonical fields and the owner |
| Stage3.StepsMeaning | src/demo/pipeline/stage3_postprocess.py:73-134 | outside the catalog every step field is null and the match is the null match. Inside it, `steps_total` is the number of steps, exactly the steps get a state, `steps_done` is at most the total, and the match is `match_step`'s. Without a matched step, or with a match outside the step list, every step is "unknown" and none is done |
| Stage3.StepsByPosition | src/demo/pipeline/stage3_postprocess.py:108-134 | with distinct steps and the match at index k: earlier steps are "completed"; the matched step is "blocked", "completed" (status exactly "done") or "in_progress"; later steps are "not_started"; and `steps_done` is k plus one for "done" |
| Stage3.FillStatesByPosition | src/demo/pipeline/stage3_postprocess.py:110-127 | after the first n steps of the fill loop, the state keys are those steps in order, each has its positional state, and the done counter agrees |
| Stage3.FillLoop | src/demo/pipeline/stage3_postprocess.py:110-127 | the loop with `seen_matched` and `steps_done` computes the positional fill |
| Stage3.UnknownStates | src/demo/pipeline/stage3_postprocess.py:102-103 | the loop gives every step the state "unknown" |
| Stage3.AllUnknownFacts | src/demo/pipeline/stage3_postprocess.py:102-103 | exactly the steps are keys, and each reads "unknown" |
| Stage3.Instance.ComputeSteps | src/demo/pipeline/stage3_postprocess.py:73-134 | the in-place update sets exactly the step fields to what `_compute_steps` derives |
| Stage3.SafeParse | src/demo/pipeline/stage3_postprocess.py:17-30 | a falsy timestamp does not parse; a timestamp without "Z" is handed to the ISO parser unchanged |
| Stage3.ReplaceZ | src/demo/pipeline/stage3_postprocess.py:22 | no "Z" survives the replacement, and text without one is unchanged |
| Stage3.HealthMeaning | src/demo/pipeline/stage3_postprocess.py:137-162 | "unknown" exactly when the last update does not parse. "overdue" exactly when the process is in the catalog and the age reaches its overdue threshold. "at_risk" exactly when not overdue and either the lower-cased status is "blocked" or the at-risk threshold is reached. A process outside the catalog is never overdue |
| Stage3.HealthWorsensOverTime | src/demo/pipeline/stage3_postprocess.py:137-162 | a later `now` never gives a better health class, and "unknown" does not depend on `now` |
| Stage3.Instance.ComputeHealth | src/demo/pipeline/stage3_postprocess.py:137-162 | the in-place update sets exactly the health field |
| Stage3.EnrichCoherent | src/demo/pipeline/stage3_postprocess.py:183-189 | an enriched instance has a step table only when it has a canonical process |
| Stage3.EnrichOne | src/demo/pipeline/stage3_postprocess.py:184-189 | the working copy goes through the four steps in order and ends up as the enrichment of the instance |
| Stage3.TallyHealthSum | src/demo/pipeline/stage3_postprocess.py:195-197 | the `counts_by_health` entries sum to the number of instances |
| Stage3.TallyHealthCoverage | src/demo/pipeline/stage3_postprocess.py:195-199 | health coverage plus the "unknown" count is the number of instances |
| Stage3.TallyBounds | src/demo/pipeline/stage3_postprocess.py:191-194 | process and step coverage never exceed the number of instances |
| Stage3.CountOne | src/demo/pipeline/stage3_postprocess.py:190-199 | one instance adds one to exactly one health class, and at most one to each coverage count |
| Stage3.EnrichCoverage | src/demo/pipeline/stage3_postprocess.py:191-194 | in an enriched batch, step coverage never exceeds process coverage |
| Stage3.Pct | src/demo/pipeline/stage3_postprocess.py:202-203 | a share lies in [0, 1], is 1 when every instance counts, and is 0 for an empty batch |
| Stage3.EnrichInstances | src/demo/pipeline/stage3_postprocess.py:165-213 | one enriched copy per input, in order, each the enrichment of its instance; the statistics are the coverage shares and health counts of the batch |
| ReconHelpers.GenerateWorkflowIdOf | src/demo/pipeline/reconciliation.py:269-282 | a workflow id is "wf_" followed by at most 12 digest characters |
| ReconHelpers.WorkflowIdStable | src/demo/pipeline/reconciliation.py:277-278 | with a full canonical triple, the id depends on the triple alone, whatever the instance key and raw texts |
| ReconHelpers.WorkflowIdBaseKeyed | src/demo/pipeline/reconciliation.py:279-280 | without a full triple, different instance keys (free of the separator) give different base texts |
| ReconHelpers.WorkflowIdLength | src/demo/pipeline/reconciliation.py:281-282 | with a 40-character SHA-1 hex digest, every id has exactly 15 characters |
| ReconHelpers.DisplayKeyExtendsName | src/demo/pipeline/reconciliation.py:285-295 | the display key is the display name followed by " - " and the process id ("unknown" when falsy), and an empty part reads like a missing one |
| ReconHelpers.SimilarityIgnoresCase | src/demo/pipeline/reconciliation.py:298-299 | the similarity of two texts does not depend on their letter case |
| ReconHelpers.MergeFoldIsRef | src/demo/pipeline/reconciliation.py:305-314 | the loop with its `seen` set and its `break` computes the reference: the first occurrences of the non-empty ids, cut at the cap |
| ReconHelpers.MergeIdsMeaning | src/demo/pipeline/reconciliation.py:302-314 | merged ids are distinct, non-empty and taken from existing then incoming. They form a prefix of that list's first occurrences, in first-seen order. There are at most max(max_ids, 1) of them, and when fewer, every non-empty id is kept |
| ReconHelpers.MergeIdsIdempotent | src/demo/pipeline/reconciliation.py:302-314 | merging the same incoming ids into the merged list again changes nothing |
| ReconHelpers.MergeIdsOfClean | src/demo/pipeline/reconciliation.py:302-314 | a list that is already clean and below the cap merges into nothing unchanged |
| ReconHelpers.MergeFoldFullStays | src/demo/pipeline/reconciliation.py:312-313 | once the bound is reached, later ids change nothing, which is what makes the `break` sound |
| ReconHelpers.MergeEvidenceIds | src/demo/pipeline/reconciliation.py:302-314 | `_merge_evidence_ids` with its loop returns the merged ids |
| ReconHelpers.ChooseLatestMeaning | src/demo/pipeline/reconciliation.py:331-340 | a missing incoming keeps the existing value; a missing existing takes the incoming; an unparseable side takes the incoming. When both parse, the later wins (the incoming on a tie), so the result is never earlier than either. The result is truthy when either side is |
| ReconHelpers.ChooseLatestIdempotent | src/demo/pipeline/reconciliation.py:331-340 | offering the same incoming timestamp again changes nothing |
| ReconHelpers.SliceFromTail | src/demo/pipeline/reconciliation.py:404 | `timeline_ids[-n:]` keeps the last n ids for positive n and the whole list for 0 |
| ReconHelpers.EvidenceIdsMeaning | src/demo/pipeline/reconciliation.py:387-405 | extracted ids are distinct, non-empty and capped. They come from the first source that has any: the instance's own ids, then its evidence entries, then the last `fallback_max` timeline ids. Without any source the list is empty |
| ReconHelpers.ExtractEvidenceIds | src/demo/pipeline/reconciliation.py:387-405 | `_extract_evidence_ids` with its loop over the evidence entries returns the extracted ids |
| ReconDefinition.NormText | src/demo/pipeline/reconciliation.py:42-45 | a falsy value normalises to the empty string |
| ReconDefinition.NormTextShape | src/demo/pipeline/reconciliation.py:42-45 | the engine's normal form is collapsed, lower-case, and free of hyphens and underscores (other punctuation is kept) |
| ReconDefinition.AddDefStepsFacts | src/demo/pipeline/reconciliation.py:81-91 | the step loop of one phase appends the steps that have an id to both the flat list and the phase's list, and maps exactly those steps in `step_to_phase` |
| ReconDefinition.AddDefPhasesLists | src/demo/pipeline/reconciliation.py:71-93 | the phase loop extends the flat step list by every phase's step ids, and the phase list by the phase ids, in document order |
| ReconDefinition.AddDefPhasesStepMap | src/demo/pipeline/reconciliation.py:71-92 | every listed step maps to a phase that lists it, and entries of other processes are untouched |
| ReconDefinition.AddDefPhasePhaseMap | src/demo/pipeline/reconciliation.py:72-92 | a phase with an id records its step list; a phase without one changes nothing |
| ReconDefinition.AddDefPhasesPhaseMap | src/demo/pipeline/reconciliation.py:71-92 | every phase id maps to the step list of a phase with that id, and other processes' entries are untouched |
| ReconDefinition.AddDefProcessEntry | src/demo/pipeline/reconciliation.py:63-93 | a process with an id gets its entry: registered under its id, with its flat step list, its phase list, and the step-to-phase and phase-to-steps entries |
| ReconDefinition.AddDefProcessKeeps | src/demo/pipeline/reconciliation.py:63-93 | adding a process leaves every other process's entry as it was |
| ReconDefinition.BuildDefinitionEntry | src/demo/pipeline/reconciliation.py:63-93 | each id is defined by the last process carrying it; a later duplicate replaces an earlier one |
| ReconDefinition.BuildDefinitionKeys | src/demo/pipeline/reconciliation.py:63-93 | a process id is registered iff some process carries it as a non-empty id, and then it has a step list and a phase list |
| ReconDefinition.BuildWorkflowDefinition | src/demo/pipeline/reconciliation.py:53-103 | the three nested loops build exactly the definition tables |
| ReconDefinition.ResolveMeaning | src/demo/pipeline/reconciliation.py:110-127 | a falsy process gives nothing. A process that is a definition id resolves to itself. Otherwise the answer is the first process whose id or name has the same normal form, failing that the first hiring key in the definition, and nothing only when all three routes fail |
| ReconDefinition.ResolveByNameMeaning | src/demo/pipeline/reconciliation.py:119-127 | the fall-back routes return the first process named by the text, else a hiring key of the definition |
| ReconDefinition.ResolveDefinitionProcessId | src/demo/pipeline/reconciliation.py:110-127 | `resolve_definition_process_id` with its two loops returns the resolution above |
| ReconDefinition.ResolveNamed | src/demo/pipeline/reconciliation.py:119-127 | the two fall-back loops return the fall-back resolution |
| ReconDefinition.MatchInDefinitionInSteps | src/demo/pipeline/reconciliation.py:130-157 | a match needs a truthy step text and process and is always one of that process's steps |
| ReconDefinition.MatchAmongExact | src/demo/pipeline/reconciliation.py:144-148 | an exact id or name hit anywhere wins, and the first one in step order |
| ReconDefinition.MatchAmongLoose | src/demo/pipeline/reconciliation.py:149-157 | without an exact hit the answer is `k` iff some step containing, or contained in, the text is `k` and every such step is `k` |
| ReconDefinition.MatchStepInDefinition | src/demo/pipeline/reconciliation.py:130-157 | `match_step_in_definition` with its early return and candidate list returns the match above |
| ReconDefinition.FirstOrSoleLoop | src/demo/pipeline/reconciliation.py:143-157 | the candidate loop returns the first exact hit, else the single distinct loose hit read off `len(set(candidates))` |
| ReconDefinition.UniqueSetSize | src/demo/pipeline/reconciliation.py:155 | `len(set(candidates))` equals the length of the order-preserving de-duplication |
| ReconDefinition.DeriveInSteps | src/demo/pipeline/reconciliation.py:160-190 | a derived current step is always a step of the process |
| ReconDefinition.DeriveFieldsFirst | src/demo/pipeline/reconciliation.py:171-175 | the first of `current_step_id`, `step_id`, `canonical_step_id` (state before instance) that names a step wins |
| ReconDefinition.DeriveFromStepsState | src/demo/pipeline/reconciliation.py:177-188 | failing that, the first in-progress or blocked step wins; otherwise the last completed or inferred-complete step |
| ReconDefinition.DeriveLastFinished | src/demo/pipeline/reconciliation.py:182-188 | `completed[-1]` is the last step whose state is finished |
| ReconDefinition.DeriveCurrentStepId | src/demo/pipeline/reconciliation.py:160-190 | `derive_current_step_id` with its loops returns the derivation above |
| ReconDefinition.IndexOf | src/demo/pipeline/reconciliation.py:207 | `steps.index(x)` is the first position holding x |
| ReconDefinition.InferStepsMeaning | src/demo/pipeline/reconciliation.py:193-225 | there is a result iff the process and current step are truthy and the step is among the process's steps. The result has one entry per step, in order, with its id and name: earlier steps get the completed label, later ones "not_started", and the current step "blocked", "completed" (status done or completed in any case) or "in_progress" |
| ReconDefinition.StepsOutLoop | src/demo/pipeline/reconciliation.py:208-224 | the loop appends one entry per step with its positional status |
| ReconDefinition.InferStepsFromPosition | src/demo/pipeline/reconciliation.py:193-225 | `infer_steps_from_position` returns the positional list above |
| ReconDefinition.DerivedStepHasPhase | src/demo/pipeline/reconciliation.py:228-235 | in a definition built from a document, a derived step lies in a phase of its process's last definition, and `infer_phase_id` returns that phase's id |
| ReconDefinition.StatusByStepLastWins | src/demo/pipeline/reconciliation.py:249 | in `status_by_step`, each listed id reads the status of the last entry with that id |
| ReconDefinition.StatusByStepKeys | src/demo/pipeline/reconciliation.py:249 | the map's keys are exactly the listed ids |
| ReconDefinition.PhasesOutAt | src/demo/pipeline/reconciliation.py:251-265 | entry k of the phase list is phase k with its name and the status its steps' statuses give: "unknown" with no steps, the completed label when all are completed, "in_progress" when any is in progress or blocked, else "not_started" |
| ReconDefinition.PhaseFollowsPosition | src/demo/pipeline/reconciliation.py:238-266 | applied to the positional step list, a phase whose steps all lie before the current step is completed, one whose steps all lie after it is not started, and the phase holding a current step that is not done is in progress |
| ReconDefinition.InferPhasesFromSteps | src/demo/pipeline/reconciliation.py:238-266 | `infer_phases_from_steps` with its loop returns one entry per phase of the process, in order |
| ReconDefinition.PhasesLoop | src/demo/pipeline/reconciliation.py:251-265 | the phase loop appends one entry per phase with its derived status |
| Reconcile.SettingsOf | src/demo/pipeline/reconciliation.py:343-384 | every setting the engine reads is the configured value when present and otherwise its default: hiring only, keys "recruiting" and "hiring", client/role/process exact fields, threshold 0.88, 200 ids, 30 fallback ids, positional inference on, label "completed_inferred" |
| Reconcile.CoverageStepSplits | src/demo/pipeline/reconciliation.py:488-536 | one instance adds exactly one to detected-or-missing roles (a detected one to strict or other) and exactly one to hiring, missing process or not hiring |
| Reconcile.KeyOf | src/demo/pipeline/reconciliation.py:455-470 | a key exists exactly when every field value is truthy (and there is at least one field), and then it holds those values in field order |
| Reconcile.InstanceKeyVals | src/demo/pipeline/reconciliation.py:553-554 | the instance's key values are its exact fields, one per configured field, in order |
| Reconcile.WorkflowKeyVals | src/demo/pipeline/reconciliation.py:455-466 | a workflow's key values are read per configured field, one per field, in order |
| Reconcile.InScope | src/demo/pipeline/reconciliation.py:451-453 | with hiring only, every kept store workflow has a hiring process id; otherwise the store is kept whole |
| Reconcile.ExactIndex | src/demo/pipeline/reconciliation.py:472-476 | every index entry names a workflow of the list |
| Reconcile.FuzzyList | src/demo/pipeline/reconciliation.py:477-480 | one fuzzy entry per workflow, in order, carrying that workflow's display key |
| Reconcile.ExactIndexLastWins | src/demo/pipeline/reconciliation.py:472-476 | an indexed workflow carries its key, and no later workflow carries the same key (the last one wins) |
| Reconcile.Initial | src/demo/pipeline/reconciliation.py:450-486 | the starting state's index and fuzzy list refer only to workflows of the list |
| Reconcile.BestOf | src/demo/pipeline/reconciliation.py:568-574 | the best candidate, when there is one, is an entry of the fuzzy list |
| Reconcile.BestOfMeaning | src/demo/pipeline/reconciliation.py:568-574 | the best score is the maximum score (0.0 when none is positive), reached first at the chosen entry, with every earlier entry strictly lower |
| Reconcile.MatchOf | src/demo/pipeline/reconciliation.py:552-579 | a matched workflow is a workflow of the list |
| Reconcile.MatchOfMeaning | src/demo/pipeline/reconciliation.py:552-579 | an exact match happens exactly when the key is indexed; a fuzzy match is the first maximal score, positive and at least the threshold, on a non-empty record; otherwise a workflow is created |
| Reconcile.Create | src/demo/pipeline/reconciliation.py:580-604 | creating a workflow keeps the index and fuzzy list pointing into the list |
| Reconcile.UpdateWorkflow | src/demo/pipeline/reconciliation.py:636-667 | updating a workflow keeps its id and every field the engine does not write |
| Reconcile.Write | src/demo/pipeline/reconciliation.py:551-667 | a write keeps the index and fuzzy list pointing into the list |
| Reconcile.Step | src/demo/pipeline/reconciliation.py:488-678 | one instance keeps the index and fuzzy list pointing into the list |
| Reconcile.Fold | src/demo/pipeline/reconciliation.py:488-678 | the loop over instances keeps the index and fuzzy list pointing into the list |
| Reconcile.WriteBasics | src/demo/pipeline/reconciliation.py:580-606 | a write adds one workflow exactly when nothing matched, keeps every existing id, gives the new one a generated id and leaves the counters alone |
| Reconcile.WriteTouchesOne | src/demo/pipeline/reconciliation.py:636-667 | a write changes only the matched or created workflow, whose process id becomes the canonical process or "unknown" |
| Reconcile.StepTallied | src/demo/pipeline/reconciliation.py:488-606 | one instance keeps the counter partitions, with one more instance counted |
| Reconcile.FoldTallied | src/demo/pipeline/reconciliation.py:488-606 | the loop keeps the counter partitions over all instances seen |
| Reconcile.ReconcileTallies | src/demo/pipeline/reconciliation.py:434-606 | roles split into detected (strict plus other) and missing, processes into hiring, missing and not hiring; match counts sum to the workflows written, which are the hiring instances under hiring only and all instances otherwise; the list grows by the created workflows only |
| Reconcile.StepScopeOk | src/demo/pipeline/reconciliation.py:538-549 | one instance keeps every workflow in the hiring scope under hiring only |
| Reconcile.FoldScopeOk | src/demo/pipeline/reconciliation.py:538-549 | the loop keeps every workflow in the hiring scope under hiring only |
| Reconcile.ReconcileInScope | src/demo/pipeline/reconciliation.py:451-453 | under hiring only, every returned workflow has a hiring process id |
| Reconcile.StepIdsKept | src/demo/pipeline/reconciliation.py:580-590 | one instance keeps the ids and places of earlier workflows and gives new ones generated ids |
| Reconcile.FoldIdsKept | src/demo/pipeline/reconciliation.py:580-590 | the loop keeps the ids and places of earlier workflows and gives new ones generated ids |
| Reconcile.ReconcileKeepsIds | src/demo/pipeline/reconciliation.py:451-453 | the in-scope store workflows come first, in order, with their ids; every workflow after them has a generated id |
| Reconcile.CreatedIsIndexed | src/demo/pipeline/reconciliation.py:580-604 | a created workflow is appended with a generated id, added to the fuzzy list, records itself as a "created" match of score 1.0, and a later instance with the same key matches it exactly |
| Reconcile.MatchedUpdatesInPlace | src/demo/pipeline/reconciliation.py:636-667 | a matched workflow is updated in place: same list length, same id, every other workflow and the index unchanged |
| Reconcile.WriteObservability | src/demo/pipeline/reconciliation.py:647-667 | the written evidence ids are a distinct, non-empty, capped prefix of the old ids followed by the new; the timestamp never moves back when both parse; the process id is the canonical process or "unknown" |
| Reconcile.CoveragePct | src/demo/pipeline/reconciliation.py:408-409 | the share is 0.0 for no total, lies in [0, 1] when the count is at most the total, and times the total gives the count |
| Reconcile.WorkflowExactKey | src/demo/pipeline/reconciliation.py:455-470 | the loop over the fields returns the workflow's key |
| Reconcile.IndexStore | src/demo/pipeline/reconciliation.py:472-476 | the loop builds the exact index, later workflows overwriting earlier ones |
| Reconcile.ScanFuzzy | src/demo/pipeline/reconciliation.py:568-574 | the scan returns the best candidate and score |
| Reconcile.CountCoverage | src/demo/pipeline/reconciliation.py:489-536 | counting one instance gives the coverage counters of that instance |
| Reconcile.CountFields | src/demo/pipeline/reconciliation.py:492-523 | counting presence of process, client, evidence, health, step and canonical step |
| Reconcile.CountRole | src/demo/pipeline/reconciliation.py:496-504 | counting the role as detected (strict or other) or missing |
| Reconcile.CountHiring | src/demo/pipeline/reconciliation.py:530-536 | counting the instance as hiring, missing process or not hiring |
| Reconcile.CountDrift | src/demo/pipeline/reconciliation.py:524-548 | counting the unmatched raw client, role, process and step texts and the failed step matches |
| Reconcile.FindMatch | src/demo/pipeline/reconciliation.py:552-579 | the matching ladder returns the match of the specification |
| Reconcile.ReconcileOne | src/demo/pipeline/reconciliation.py:488-678 | one iteration gives the next state of the run |
| Reconcile.WriteInstance | src/demo/pipeline/reconciliation.py:551-667 | match or create, infer steps and phases, and update the workflow |
| Reconcile.ReconcileInstances | src/demo/pipeline/reconciliation.py:416-731 | the engine returns the workflows and counters of the run |
| Pass2.ProcessLabel | src/demo/pipeline/pass2.py:52-61 | the label of cleaned text is never empty |
| Pass2.CanonicalizeProcess | src/demo/pipeline/pass2.py:37-61 | a canonical process, when there is one, is never empty |
| Pass2.CleanedShape | src/demo/pipeline/pass2.py:48 | cleaned text has single inner spaces, no outer space and no upper-case letter |
| Pass2.StripOfCollapsed | src/demo/pipeline/pass2.py:48 | collapsed text has nothing to strip |
| Pass2.CleanedFixed | src/demo/pipeline/pass2.py:48 | collapsed lower-case text is its own cleaned form |
| Pass2.TitleOfCollapsed | src/demo/pipeline/pass2.py:61 | title case keeps collapsed lower-case text collapsed, and lower-casing undoes it |
| Pass2.CleanedOfTitle | src/demo/pipeline/pass2.py:48-61 | cleaning a title-cased label gives back the cleaned text |
| Pass2.ProcessLabelCases | src/demo/pipeline/pass2.py:52-61 | a label is "recruiting", "delivery" or "ops", or the cleaned text in title case |
| Pass2.FixedLabels | src/demo/pipeline/pass2.py:52-59 | the three synonym labels are collapsed lower-case text and map to themselves |
| Pass2.CanonicalizeProcessNull | src/demo/pipeline/pass2.py:46-50 | null, non-string, empty and all-whitespace input has no process |
| Pass2.CanonicalizeProcessShape | src/demo/pipeline/pass2.py:46-61 | a canonical process is collapsed and is either a synonym label or the input's cleaned text up to case |
| Pass2.CanonicalizeProcessIdempotent | src/demo/pipeline/pass2.py:37-61 | canonicalising a canonical label gives it back |
| Pass2.CanonicalizeProcessCleaned | src/demo/pipeline/pass2.py:46-61 | case and spacing do not matter: a label canonicalises as its cleaned text does |
| Pass2.StripCharSub | src/demo/pipeline/pass2.py:24 | stripping a character only removes characters |
| Pass2.SlugShape | src/demo/pipeline/pass2.py:23-24 | a slug holds only lower-case letters, digits and dashes, neither starts nor ends with a dash, and is its own slug |
| Pass2.DetInstanceKey | src/demo/pipeline/pass2.py:113-114 | with an empty suffix the key is the base; otherwise it is the base, a vertical bar and the suffix |
| Pass2.EventTimestamp | src/demo/pipeline/pass2.py:64-75 | the evidence timestamp when truthy, else the event's own timestamp |
| Pass2.GroupsMeaning | src/demo/pipeline/pass2.py:78-84 | the groups hold exactly the keys of the events, in first-seen order, each group the events of its key in input order |
| Pass2.GroupsPartition | src/demo/pipeline/pass2.py:78-84 | every event is in the group of its key and in no other group |
| Pass2.GroupByThread | src/demo/pipeline/pass2.py:78-84 | the loop builds the groups of the specification |
| Pass2.SplitPartition | src/demo/pipeline/pass2.py:87-110 | whatever the split, the clusters hold every event exactly as often as the input does |
| Pass2.SplitShape | src/demo/pipeline/pass2.py:95-110 | with fewer than two processes occurring twice the whole list is one unlabelled cluster; otherwise the result opens with one labelled, non-empty cluster per process (at least two) |
| Pass2.SplitClusters | src/demo/pipeline/pass2.py:99-107 | the split opens with one cluster per process, in first-seen order, labelled "proc:" and the process slug, holding that process's events in order, never empty |
| Pass2.ProcsHaveBlocks | src/demo/pipeline/pass2.py:100-103 | each process named by some event has events in its cluster |
| Pass2.BlocksPartition | src/demo/pipeline/pass2.py:100-107 | blocks over distinct keys covering every event's key partition the events |
| Pass2.CollectProcesses | src/demo/pipeline/pass2.py:90-94 | the loop collects the truthy canonical processes in event order |
| Pass2.BuildClusters | src/demo/pipeline/pass2.py:99-103 | the loop builds one cluster per process that has events |
| Pass2.MaybeSplitByProcess | src/demo/pipeline/pass2.py:87-110 | the method returns the split of the specification |
| Pass2.FirstMostMeaning | src/demo/pipeline/pass2.py:148 | the chosen value has the highest count and is the first in order with that count |
| Pass2.MostFrequentMeaning | src/demo/pipeline/pass2.py:144-148 | null exactly when no value is truthy; otherwise a truthy value of the input with maximal count, the first seen among equals |
| Pass2.TruthyIdsEmpty | src/demo/pipeline/pass2.py:145-147 | no truthy value is collected exactly when no value is truthy |
| Ingestion.ValidateSource | src/demo/ingestion/models.py:44-49 | a source is accepted exactly when it is "gmail" or "slack", and then kept as given; anything else is a validation error |
| Ingestion.BuildSlackThreadId | src/demo/ingestion/models.py:52-57 | the thread id is the channel id, a colon, then the thread timestamp when non-empty, else the message timestamp |
| Ingestion.GmailDate | src/demo/ingestion/models.py:65-67 | the date keeps its length and every other character, with no dash left |
| Ingestion.GmailQueryShape | src/demo/ingestion/models.py:60-70 | the query starts with the after/before window terms; the stripped extra term follows after a space only when given |
| Ingestion.WithVerdictFacts | src/demo/ingestion/normalize.py:132-141 | the messages of one verdict are an ordered subsequence of the input, holding exactly the input messages with that verdict |
| Ingestion.WithVerdictLast | src/demo/ingestion/normalize.py:132-141 | the verdict lists of a list extend those of its front by the last message, under its own verdict only |
| Ingestion.FiltersStep | src/demo/ingestion/normalize.py:132-141 | each iteration keeps the kept list and drop counts in step with the verdicts seen |
| Ingestion.KeptStep | src/demo/ingestion/normalize.py:141 | the kept messages are the input messages with a keep verdict, in order |
| Ingestion.DropCountStep | src/demo/ingestion/normalize.py:133-140 | each drop counter, absent until the first drop, counts the messages dropped for its reason |
| Ingestion.DropKeysStep | src/demo/ingestion/normalize.py:131-140 | only "short_text" and "sender_blocklist" are ever counted |
| Ingestion.FiltersMeaning | src/demo/ingestion/normalize.py:125-142 | kept messages and drop counts agree with the per-message verdicts: short stripped text first, then a Gmail sender holding a blocked token |
| Ingestion.VerdictTotalLast | src/demo/ingestion/normalize.py:132-141 | one more message adds one verdict |
| Ingestion.VerdictsPartition | src/demo/ingestion/normalize.py:132-141 | every message gets exactly one verdict |
| Ingestion.FiltersAccount | src/demo/ingestion/normalize.py:125-142 | kept plus both drop counts equals the input count, and the kept messages are an ordered subsequence of the input |
| Ingestion.ApplyFilters | src/demo/ingestion/normalize.py:125-142 | the loop returns the kept messages and drop counts of the specification |
| Ingestion.FirstById | src/demo/ingestion/normalize.py:146-152 | the first occurrences are messages of the input |
| Ingestion.FirstByIdMeaning | src/demo/ingestion/normalize.py:146-152 | the first occurrences have distinct ids, cover every input id, and each is the first message with its id |
| Ingestion.FirstByIdIds | src/demo/ingestion/normalize.py:146-152 | the kept ids are distinct and are exactly the input ids |
| Ingestion.FirstByIdFirst | src/demo/ingestion/normalize.py:149-152 | every kept message is the first of its id in the input |
| Ingestion.DedupAndSortMeaning | src/demo/ingestion/normalize.py:145-154 | the output ids are distinct and cover every input id, the output is sorted by timestamp then id, and it is a permutation of the first occurrences |
| Ingestion.SortIds | src/demo/ingestion/normalize.py:153 | sorting moves the ids with their messages |
| Ingestion.DistinctPerm | src/demo/ingestion/normalize.py:153 | a permutation of a duplicate-free list is duplicate-free |
| Ingestion.DedupAndSort | src/demo/ingestion/normalize.py:145-154 | the loop over a seen set, then the sort, returns the deduplicated sorted list |
| MergeDatasets.StrOr | scripts/merge_client_datasets.py:56-58 | a falsy value gives the default, a non-empty string gives itself |
| MergeDatasets.DropExtension | scripts/merge_client_datasets.py:30 | the base is the name up to its last dot, or the whole name when it has none |
| MergeDatasets.ClientStem | scripts/merge_client_datasets.py:28-32 | the raw-messages prefix is removed from the base exactly when the base starts with it |
| MergeDatasets.LowerOfTitle | scripts/merge_client_datasets.py:34 | title case changes only the case of letters |
| MergeDatasets.TitleAlpha | scripts/merge_client_datasets.py:34 | title case keeps letters letters and non-letters non-letters |
| MergeDatasets.SlugLabelShape | scripts/merge_client_datasets.py:33 | the slug is the stem lower-cased: same length, no capital, other characters kept |
| MergeDatasets.HumanLabelShape | scripts/merge_client_datasets.py:34 | the human label has no underscore, no outer space, and reads as the stripped stem with underscores as spaces up to case |
| MergeDatasets.TitleEnds | scripts/merge_client_datasets.py:34 | title case creates neither an underscore nor a space |
| MergeDatasets.StripSub | scripts/merge_client_datasets.py:34 | stripping only removes characters |
| MergeDatasets.StableKeyShape | scripts/merge_client_datasets.py:52-59 | a non-empty string id is the key; otherwise the key is source, timestamp and a digest of at most ten characters, colon-separated, with "unknown" and "unknown_ts" defaults |
| MergeDatasets.StableKeyContent | scripts/merge_client_datasets.py:52-59 | without an id, messages agreeing on source, timestamp and the first 200 text characters share a key |
| MergeDatasets.WithLists | scripts/merge_client_datasets.py:76-80 | the provenance lists are the ones given |
| MergeDatasets.ExtendMeaning | scripts/merge_client_datasets.py:84-89 | appending-if-absent keeps the list as a prefix, adds exactly the new values, and keeps a duplicate-free list duplicate-free |
| MergeDatasets.FileEntries | scripts/merge_client_datasets.py:67-71 | one entry per message of a file, in order, carrying the file name and its human label |
| MergeDatasets.NoEntriesNoKey | scripts/merge_client_datasets.py:72-73 | a key has entries exactly when some message has that key |
| MergeDatasets.ItemOfSnocOther | scripts/merge_client_datasets.py:71-89 | a message leaves the merged messages of other keys as they were |
| MergeDatasets.ItemOfSnocSame | scripts/merge_client_datasets.py:72-89 | a message is absorbed into its key's merged message, seeding it when the key is new |
| MergeDatasets.GainedSnoc | scripts/merge_client_datasets.py:84-86 | a key gains a client label exactly when it had it or the new message brings it to a copy that lacked it |
| MergeDatasets.HoldersSnoc | scripts/merge_client_datasets.py:84-86 | the holders of a label grow by one exactly when a copy gains that label |
| MergeDatasets.CountsStep | scripts/merge_client_datasets.py:84-86 | after each message, each client count equals the number of merged messages that gained that label |
| MergeDatasets.KeysStep | scripts/merge_client_datasets.py:72-81 | after each message, the map's keys are the distinct stable keys in first-seen order |
| MergeDatasets.ItemsStep | scripts/merge_client_datasets.py:72-89 | after each message, every key maps to its merged message |
| MergeDatasets.MergeStepOk | scripts/merge_client_datasets.py:71-89 | one message keeps the map and counter in step with the messages seen |
| MergeDatasets.MergeMeaning | scripts/merge_client_datasets.py:62-89 | the map holds the distinct keys in first-seen order, each with its merged message, and the counter counts per label the messages that gained it |
| MergeDatasets.ItemFacts | scripts/merge_client_datasets.py:73-89 | a merged message is its key's first copy with provenance only defaulted, never overwritten; its lists keep their entries, gain exactly the key's labels and files, and stay duplicate-free when they were |
| MergeDatasets.EntriesCount | scripts/merge_client_datasets.py:70 | the raw total is the sum of the files' message counts |
| MergeDatasets.MergeCounts | scripts/merge_client_datasets.py:100-110 | input files, raw total, unique count (distinct keys), duplicates removed as their difference, and client counts per label |
| MergeDatasets.MergeMessages | scripts/merge_client_datasets.py:92-98 | the output is a permutation of the merged messages of the distinct keys; it is sorted by timestamp then id when any message has a timestamp and every timestamp and id is a string or falsy (the `Sortable` test), and it is in first-seen order when none has a timestamp |
| MergeDatasets.MergeFile | scripts/merge_client_datasets.py:71-89 | the inner loop merges one file's messages in order |
| MergeDatasets.Merge | scripts/merge_client_datasets.py:62-115 | the loops over files and messages, then the sort, give the merge of the specification |
| IoNormalize.Field | src/demo/io/normalize.py:18-40 | an absent key reads as null; a present key reads as its stored value |
| IoNormalize.StrOf | src/demo/io/normalize.py:32 | a string converts to itself and null to "None" |
| IoNormalize.ExtractMessages | src/demo/io/load_raw.py:23-39 | the messages are an object's "messages" list or a top-level list itself; an object without such a list and any other value are distinct errors |
| IoNormalize.DeterministicId | src/demo/io/normalize.py:11-14 | a generated id is "auto_" followed by at most 16 digest characters |
| IoNormalize.NormalizeMessage | src/demo/io/normalize.py:17-43 | a message normalises exactly when its timestamp is truthy, otherwise fails naming a truthy id; the id is the truthy raw id or a generated "auto_" id; source defaults to "unknown", text to ""; the raw record is kept exactly when asked |
| IoNormalize.NormalizeEntry | src/demo/io/normalize.py:58-59 | an entry that is not an object fails; an object normalises as a message |
| IoNormalize.TraverseMeaning | src/demo/io/normalize.py:58-62 | the batch succeeds exactly when every entry does, then holds each entry's image in order; otherwise it fails with the first failure |
| IoNormalize.TraverseErrSticks | src/demo/io/normalize.py:58-59 | once a prefix has failed, the whole batch fails the same way |
| IoNormalize.TraverseStep | src/demo/io/normalize.py:58-62 | one more successful entry extends a successful prefix by its image |
| IoNormalize.EmptyTextsMeaning | src/demo/io/normalize.py:60-61 | the empty-text count is the number of messages whose text is empty |
| IoNormalize.NormalizeMessagesOf | src/demo/io/normalize.py:46-71 | a successful run returns one message per entry and an empty-text count at most the number of entries |
| IoNormalize.NormalizeMessagesMeaning | src/demo/io/normalize.py:46-71 | the run succeeds exactly when every entry normalises, else fails with the first failure; the output is a permutation of the normalised entries, in input order unless sorting is asked and possible, then sorted by timestamp and stable among equal timestamps; the count is the number of empty texts |
| IoNormalize.TraverseCount | src/demo/io/normalize.py:56-62 | the loop maps every element and counts the images satisfying the test, or stops with the first failure |
| IoNormalize.NormalizeMessages | src/demo/io/normalize.py:46-71 | the loop over entries, then the optional sort, gives the run of the specification |
| Sorting.SortBySorted | src/demo/ingestion/normalize.py:153 | the stable sort's result is ordered by key |
| Sorting.SortByPerm | src/demo/io/normalize.py:64-69 | the stable sort's result is a permutation of its input |
| Sorting.SortByStable | scripts/merge_client_datasets.py:94-98 | elements sharing a key keep their input order |
| Sorting.StableSort | src/demo/io/normalize.py:66 | the insertion loop returns the stable sort |
| Sorting.KeyLeTotal | src/demo/ingestion/normalize.py:153 | the order on (timestamp, id) pairs is total |
| Sorting.KeyLeTrans | src/demo/ingestion/normalize.py:153 | the order on (timestamp, id) pairs is transitive |
| Sorting.KeyLeAntisym | src/demo/ingestion/normalize.py:153 | the order on (timestamp, id) pairs is antisymmetric |

## Left out

- Network clients (Gmail, Slack, OpenAI), pass 1, `run_stage3` and its LLM calls, `_event_filter`, `_build_prompt_input`, YAML and JSON file reading and writing, `run_reconciliation`, the command-line entry points and the dashboard: these are I/O, concurrency or presentation and hold no logic the core depends on.
- The wall clock: `enrich_instances` and the health computation take `now` as integer seconds; report timestamps (`utc_now_iso`, `_iso_now`, `created_at`, `ingested_at`) are not modelled.
- `SequenceMatcher.ratio`, the SHA-1 and SHA-256 digests, `json.dumps` and ISO-8601 parsing are parameters of the model, so only properties that hold for every such function are stated.
- Floating point: scores and shares are Dafny reals; `round(..., 4)` of coverage shares and match scores is not modelled.
- Stage3.HealthOf: the age in days compared with a threshold in days is modelled as the age in integer seconds compared with the threshold times 86400, which is the same comparison for whole seconds.
- Text.Lower, Text.Title and Text.CapitalizeWords: case mapping is restricted to ASCII letters; Unicode case rules of Python's `str.lower`, `str.title` and `str.isalnum` are not modelled. Whitespace is Python's full `str.isspace` set.
- Integer coercion with `int()` and `float()` of configuration values (thresholds, maximum counts, health days) is not modelled: the configuration arrives already typed, and a value that would raise is outside the model.
- Reconcile.KeyOf: `exact_key_fields` is restricted to the three canonical fields (client, role, process); arbitrary field names read from the observability record are not modelled.
- Reconcile.WorkflowTruthy: a stored record is falsy exactly when every field the engine reads is null and it carries no other key; a record such as `{"client": null}` whose keys are present but null is therefore treated as falsy here, while Python's `if best` finds it truthy, because the model does not track which null keys are present.
- Reconcile.ReconcileInstances: the workflows are values in a list and the fuzzy list and exact index hold positions in it, standing for the aliasing of one workflow dictionary from both; the report dictionaries (percentages, the top-10 drift lists of `Counter.most_common`) are not built, only the counters they are computed from.
- Pass2.MaybeSplitByProcess: the `_canon_proc` field written into each event in place is modelled as a value computed per event, not as a mutation of the caller's events.
- Stage3.EnrichInstances: the per-instance copy `dict(inst)` is modelled by value, and the shares are exact ratios of counts.
- IoNormalize.NormalizeMessage: the pydantic `NormalizedMessage` record is a plain datatype; the field validation pydantic would add (types of `sender`, `recipients` and the like) is not modelled, and `str()` of a non-string text is a parameter.
- MergeDatasets.Merge: the `try`/`except` around the sort is modelled by the `Sortable` test, a cautious stand-in: when some timestamp or id is a truthy non-string the model keeps the first-seen order. Python still sorts some such lists (all timestamps numbers, or non-string ids that are never compared because the timestamps differ), and when its sort does raise, the list may be left partly reordered, which the model does not capture. `deepcopy` is modelled by value.
- MergeDatasets.MergeMessages: sortedness is promised only for lists that pass `Sortable`; the order Python produces for the other lists above is not stated.
- `recruiting_debug_summary` and `compiled_catalog_debug` format debug text only.
