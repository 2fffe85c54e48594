# judge-gym, modelled in Dafny

judge-gym measures how LLM "judges" grade evidence. An **evidence window**
(a query, a country, a time span) is filled with search results. Each
evidence row is then passed through up to three LLM processing levels:
`l1_cleaned`, `l2_neutralized` and `l3_abstracted`. An **experiment** starts
**runs**. Each run holds samples that move through four LLM stages:
`rubric_gen`, `rubric_critic`, `score_gen` and `score_critic`. The LLM calls
are queued as **requests** and sent either in provider **batches** or as
one-off **jobs**. A **scheduler** tick polls and submits them under per-run
policies. The answers are parsed (rubric blocks, QUALITY, VERDICT and
EXPERT_AGREEMENT lines) with anonymised and shuffled stage labels, and the
verdicts are aggregated as Dempster–Shafer mass functions, both in the
engine (`dst.ts`) and in the Python analysis (`dempster_shafer.py`,
`metrics.py` and the `pilot_v2.py` notebook).

This project models that core in Dafny and proves its properties. The model
takes the source's own form:

- Pure code is datatypes, functions and lemmas.
- Loops are methods with invariants, proved against specification functions.
- Code that updates tables in place becomes classes over `seq` tables. Their
  methods are proved to leave exactly the state a specification function
  describes. Lemmas about that function state what the source promises.

## Layout

| module | models |
|---|---|
| `DempsterShafer` | the analysis library: `combine`, `aggregate_samples`, belief, plausibility, uncertainty gap, cross-model conflict |
| `Tbm` | the notebook's conjunctive rule (unnormalised and Dempster-normalised) and the pignistic transform |
| `PilotEncoders`, `PilotCombination`, `PilotAggregation`, `PilotBootstrap` | `pilot_v2.py`: open- and closed-world encoders, per-rubric folds, conflict filter, weighted quantile, per-evidence aggregate, bootstrap stability |
| `DstTs` | `dst.ts`: `massFromVerdict`, `dempsterCombine` |
| `Metrics` | `metrics.py`: score histogram, entrenchment index, swap sensitivity |
| `RegexScan`, `ResponsePatterns` | the `regex.exec` loops and the individual patterns, as explicit scanners |
| `ScoringParsers`, `RubricParsers`, `LenientVerdicts`, `VerdictExamples` | the strict verdict/expert parsers, the rubric/QUALITY parsers (first-match and last-match), the lenient verdict parser, and the unit-test examples |
| `LabelRandomization`, `ScoringPrompts`, `RunPrompts`, `RunStrategies`, `EvidenceViews` | seeded label mappings, mulberry32 and the seeded shuffle, label inversion, prompt label selection, strategy resolution, evidence views |
| `Windows`, `WindowService`, `Documents`, `CustomKeys`, `LlmCalls`, `LlmRequests`, `LlmBatches`, `BatchQueue`, `Providers` | window orchestration, request keys and the target registry, routing, batch and job result handling, get-or-create of requests, batch polling and queue selection, provider tables |
| `Runs`, `RunService`, `RunState`, `RunEntrypoints`, `RunSummaries`, `RunPolicies`, `Scheduler` | run orchestration, stage-count refresh, run entry points, run read-outs, policy layering, scheduler ticks |
| `EvidenceCollect`, `CollectByExperiment`, `ExperimentData`, `LabViews` | URL normalisation, de-duplication and top-up of evidence, evidence queueing, and the status read-outs of experiments and the lab facade |
| `JsStrings`, `JsArrays`, `Wrappers` | helpers: JavaScript string and array operations (`trim`, `split`, stable `sort`, `filter`), `Option`/`Result` |

## Modelling notes

- **Tables.** Convex tables are `seq`s of records, and a row's id is its
  position. A key carries the id as decimal text and reads it back. A
  missing row is the `null` document.
- **Mutations.** A mutation that throws rolls back everything it wrote. The
  model returns the input tables with the error. The actions
  `applyBatchResults` and `runJobRequests` commit one mutation at a time,
  and their loops stop at the first throw.
- **Inputs standing in for code or I/O.** The following are parameters:
  - the clock (`Date.now()`);
  - `Math.random` and numpy's generator, as sequences of draws;
  - provider responses and rate-limiter verdicts;
  - the search call and the WHATWG URL parser;
  - the prompt builders of `evidence_prompts.ts`;
  - `ENGINE_SETTINGS`, `DEFAULT_RUN_POLICY` and the attempt/poll times
    (`settings.ts` and `utils/scheduling.ts` are not part of this model).
- **Sorting.** `Array.prototype.sort` is a stable insertion sort on the
  comparator's key. `dst.ts`'s plain `.sort()` compares the decimal strings,
  as JavaScript does. `localeCompare` (`packages/lab.ts:203`) is
  modelled as code-point order. This agrees with the locale's collation
  only for strings over `a-z`, `0-9` and `-`. Those are the strings
  `buildRandomTag` builds and `WINDOW_TAG_FORMAT` admits
  (`utils/tags.ts:13`, `:31-37`). For other tags, such as upper-case or
  accented letters, the model's order can differ from the source's.
- **Holes.** `run_prompts.ts` `invertLabelMapping` fills a holey
  `new Array(stageCount)`. `.map` skips the holes, so the letter fallback
  never fires. The model keeps the holes (`RunPrompts.InvertWithinSlots`).
- **Tests that disagree with the code.** Here the model follows the code:
  - `tests/utils_verdict_parser.test.ts` imports `utils/verdict_parser.ts`,
    but it expects throws and upper-casing that only the strict parsers of
    `run_parsers.ts` and `scoring_parsers.ts` have. The test's examples are
    proved on the strict `ScoringParsers`.
  - The lenient parser's departures from those examples are proved in
    `VerdictExamples.Lenient*`.
  - `tests/orchestrator_workflows.test.ts:719-775` expects a window to become
    `error` after its job requests fail terminally. The code never notifies
    the window (see "## Findings").

## Model

Two parser files repeat parts of `run_parsers.ts`, and their rows would
duplicate the rows below:

- `packages/engine/convex/stages/3_scoring/scoring_parsers.ts` is
  `run_parsers.ts:111-246` with a header comment added. It also tests the
  probability with `isNaN` where `run_parsers.ts` uses `Number.isNaN`, which
  gives the same answer on the number `parseFloat` returns. The
  `ScoringParsers` members model both files, line for line.
  Line n of `run_parsers.ts` is line n − 102 of `scoring_parsers.ts`, so
  `run_parsers.ts:136-165` is `scoring_parsers.ts:34-63`.
- `packages/engine/convex/domain/experiments/stages/rubric/parsers/rubric_parser.ts`
  is `run_parsers.ts:1-109` without the `stage_number` field. Its
  `parseRubricResponse` is `RubricParsers.RubricOf`, with the properties
  `RubricParsers.RubricOfSpec` and `RubricParsers.RubricOfStages`. Its
  quality parsers are `RubricParsers.QualityOf`,
  `RubricParsers.ReasoningBeforeQuality` and the members about them.

| member | source | states |
|---|---|---|
| BatchQueue.StageIndex | packages/engine/convex/domain/llm_calls/workflows/batch_queue_logic.ts:31-44 | A known stage's position in STAGE_ORDER, and MAX_SAFE_INTEGER (after every stage) for an unknown one. |
| BatchQueue.StageIndexUnique | packages/engine/convex/domain/llm_calls/workflows/batch_queue_logic.ts:31-44 | The stage names are distinct, so a listed stage's index is its only position. |
| BatchQueue.GovernorKept | packages/engine/convex/domain/llm_calls/workflows/batch_queue_logic.ts:80-85 | A later run of another experiment, or one not strictly newer, leaves the governor in place. |
| BatchQueue.GovernorReplaced | packages/engine/convex/domain/llm_calls/workflows/batch_queue_logic.ts:80-85 | A run strictly newer than every earlier run of its experiment becomes the governor. |
| BatchQueue.ActiveRunsDomain | packages/engine/convex/domain/llm_calls/workflows/batch_queue_logic.ts:78-86 | Exactly the experiments with a candidate run are keys of activeRuns. |
| BatchQueue.ActiveRunsGovern | packages/engine/convex/domain/llm_calls/workflows/batch_queue_logic.ts:78-86 | Each experiment maps to the first of its runs with the greatest updated_at, a missing one counting as 0. |
| BatchQueue.BuildActiveRuns | packages/engine/convex/domain/llm_calls/workflows/batch_queue_logic.ts:78-86 | The loop builds exactly the map of governing runs when some filtered request has an experiment, and the empty map otherwise. |
| BatchQueue.UngovernedRunnable | packages/engine/convex/domain/llm_calls/workflows/batch_queue_logic.ts:88-91 | A request without an experiment, or whose experiment has no candidate run, is never held back by a run. |
| BatchQueue.GovernedRunnable | packages/engine/convex/domain/llm_calls/workflows/batch_queue_logic.ts:88-104 | A governed request runs exactly when its run is running, allows its provider and model, is under its concurrent-batch limit and, with a stop stage, the request's stage is not after it. |
| BatchQueue.FindGroup | packages/engine/convex/domain/llm_calls/workflows/batch_queue_logic.ts:118 | -1 exactly when no group has the key; otherwise a position holding the key. |
| BatchQueue.AddToGroupShape | packages/engine/convex/domain/llm_calls/workflows/batch_queue_logic.ts:115-125 | One step extends the group with the request's key, or appends a new group for it, keeping keys distinct. |
| BatchQueue.GroupedDistinct | packages/engine/convex/domain/llm_calls/workflows/batch_queue_logic.ts:106-125 | The groups' keys are distinct. |
| BatchQueue.GroupedCovers | packages/engine/convex/domain/llm_calls/workflows/batch_queue_logic.ts:115-125 | Every request lands in a group. |
| BatchQueue.GroupedItems | packages/engine/convex/domain/llm_calls/workflows/batch_queue_logic.ts:115-125 | Each group holds exactly the runnable requests with its key, in queue order. |
| BatchQueue.GroupPolicyFromRuns | packages/engine/convex/domain/llm_calls/workflows/batch_queue_logic.ts:116-122 | A group's policy, when it has one, is that of a governing run. |
| BatchQueue.GroupRequests | packages/engine/convex/domain/llm_calls/workflows/batch_queue_logic.ts:106-125 | The loop returns exactly Grouped(runnable requests). |
| BatchQueue.LargestGroup | packages/engine/convex/domain/llm_calls/workflows/batch_queue_logic.ts:127-129 | The stable descending sort's head: a group of maximal size, the first such in insertion order. |
| BatchQueue.SelectBatchCandidates | packages/engine/convex/domain/llm_calls/workflows/batch_queue_logic.ts:56-143 | The result is exactly Select(queued, runs, provider, model, max_items, now). |
| BatchQueue.SelectPicksFirstLargest | packages/engine/convex/domain/llm_calls/workflows/batch_queue_logic.ts:127-130 | The group selected is the first of the largest groups. |
| BatchQueue.SelectedAreRunnable | packages/engine/convex/domain/llm_calls/workflows/batch_queue_logic.ts:70-104 | Every selected request matches the provider and model, has a user prompt, is due, and its governing run admits it. |
| BatchQueue.SelectedLargestGroup | packages/engine/convex/domain/llm_calls/workflows/batch_queue_logic.ts:127-142 | The items come from one group, the first of the largest; they are a prefix, in queue order, of that group's runnable requests, and the run id and policy are the group's. |
| BatchQueue.SelectedWithinCap | packages/engine/convex/domain/llm_calls/workflows/batch_queue_logic.ts:132-136 | With a non-negative max_items the batch holds at most max_items and at most the policy's max_batch_size requests. |
| BatchQueue.NothingRunnable | packages/engine/convex/domain/llm_calls/workflows/batch_queue_logic.ts:127-130 | With nothing runnable the result is empty and names no run. |
| BatchQueue.LargestNonEmpty | packages/engine/convex/domain/llm_calls/workflows/batch_queue_logic.ts:127-129 | A non-empty list of runnable requests forms a non-empty largest group. |
| BatchQueue.GroupPolicyPositive | packages/engine/convex/domain/llm_calls/workflows/batch_queue_logic.ts:132-134 | A group's policy has a positive batch size whenever every candidate run's does. |
| BatchQueue.SomethingSelected | packages/engine/convex/domain/llm_calls/workflows/batch_queue_logic.ts:127-136 | With something runnable, a positive max_items and positive batch sizes, at least one request is selected. |
| BatchQueue.Truthy | packages/engine/convex/domain/llm_calls/workflows/batch_queue_logic.ts:74-75 | Definition: a string the interpreter treats as true: present and non-empty. |
| BatchQueue.Ready | packages/engine/convex/domain/llm_calls/workflows/batch_queue_logic.ts:70-76 | Definition: same provider and model, a non-empty prompt, and no retry time still in the future (0 counts as none). |
| BatchQueue.ReadyFor | packages/engine/convex/domain/llm_calls/workflows/batch_queue_logic.ts:70-76 | Definition: the queued requests the first filter keeps, in queue order. |
| BatchQueue.UpdatedAt | packages/engine/convex/domain/llm_calls/workflows/batch_queue_logic.ts:82 | Definition: `run.updated_at ?? 0`. |
| BatchQueue.Govern | packages/engine/convex/domain/llm_calls/workflows/batch_queue_logic.ts:81-84 | Definition: one step of the `activeRuns` loop: a run replaces the current one only when strictly more recent. |
| BatchQueue.ActiveRuns | packages/engine/convex/domain/llm_calls/workflows/batch_queue_logic.ts:78-86 | Definition: the `activeRuns` map after the loop over `runs`. |
| BatchQueue.IsGovernor | packages/engine/convex/domain/llm_calls/workflows/batch_queue_logic.ts:80-85 | Definition: the run at position i governs experiment e: the first of e's runs with the greatest `updated_at`. |
| BatchQueue.ActiveRunsFor | packages/engine/convex/domain/llm_calls/workflows/batch_queue_logic.ts:79-86 | Definition: the map is only built when some ready request names an experiment. |
| BatchQueue.RunOf | packages/engine/convex/domain/llm_calls/workflows/batch_queue_logic.ts:116 | Definition: the run governing a request, when it names an experiment that has one. |
| BatchQueue.RunAdmits | packages/engine/convex/domain/llm_calls/workflows/batch_queue_logic.ts:92-103 | Definition: the run lets a request through: running, allowing the model, under its batch limit and not past its stop stage. |
| BatchQueue.Runnable | packages/engine/convex/domain/llm_calls/workflows/batch_queue_logic.ts:88-104 | Definition: the second filter: a request without an experiment, or without a governing run, passes; otherwise its run must admit it. |
| BatchQueue.RunnableUnder | packages/engine/convex/domain/llm_calls/workflows/batch_queue_logic.ts:88-104 | Definition: the requests the second filter keeps, in order. |
| BatchQueue.KeyOf | packages/engine/convex/domain/llm_calls/workflows/batch_queue_logic.ts:116-117 | Definition: the group a request joins: its run's id, or `"none"`. |
| BatchQueue.AddToGroup | packages/engine/convex/domain/llm_calls/workflows/batch_queue_logic.ts:118-124 | Definition: one step of the grouping loop: push onto the group with this key, or open a new one at the end. |
| BatchQueue.Grouped | packages/engine/convex/domain/llm_calls/workflows/batch_queue_logic.ts:115-125 | Definition: the groups, in insertion order, after the loop over `reqs`. |
| BatchQueue.GroupRank | packages/engine/convex/domain/llm_calls/workflows/batch_queue_logic.ts:127-129 | Definition: groups are ranked by size, larger first: `sort((a, b) => b.items.length - a.items.length)`. |
| BatchQueue.Cap | packages/engine/convex/domain/llm_calls/workflows/batch_queue_logic.ts:132-135 | Definition: `min(max_items, policy max_batch_size)`, the policy being the group's or the engine's. |
| BatchQueue.Select | packages/engine/convex/domain/llm_calls/workflows/batch_queue_logic.ts:56-143 | Definition: the whole of `selectBatchCandidates`, as a function of its inputs and the default run policy. |
| CollectByExperiment.ViewNeeds | packages/engine/convex/domain/evidence/workflows/collect.ts:131-134 | Clean is needed exactly for a view other than raw, neutralize exactly for neutralized and abstracted, abstract exactly for abstracted. |
| CollectByExperiment.ViewsNest | packages/engine/convex/domain/evidence/workflows/collect.ts:131-134 | For a valid view, abstract implies neutralize and neutralize implies clean; only the abstracted view asks for all three stages and only raw for none. |
| CollectByExperiment.NothingWanted | packages/engine/convex/domain/evidence/workflows/collect.ts:140-205 | With no stage wanted the loop issues no request and all three counters stay 0. |
| CollectByExperiment.QueueEvidenceProcessing | packages/engine/convex/domain/evidence/workflows/collect.ts:114-214 | An invalid view fails with the argument error and changes nothing; otherwise the request table becomes GetOrCreateAllRows of the view's calls with the fixed evidence model, failing exactly when a call fails, and the counters are Tally. |
| CollectByExperiment.CollectEvidence | packages/engine/convex/domain/evidence/workflows/collect.ts:22-112 | "Experiment not found" and "Window not found" change nothing; otherwise the top-up rows are appended, total counts the window's rows and the queue runs with the experiment's view; no batch or item is written. |
| CustomKeys.Part | packages/engine/convex/domain/window/window_orchestrator.ts:137 | Part k of the split is colon-free. |
| CustomKeys.ParseKey | packages/engine/convex/domain/window/window_orchestrator.ts:136-140 | Succeeds exactly when the first part of the split is the expected kind; fails with the message followed by the key. |
| CustomKeys.ParseMakeKey | packages/engine/convex/domain/window/window_orchestrator.ts:133-140 | A key made from colon-free parts parses back to those parts. |
| CustomKeys.MakeKeyInjective | packages/engine/convex/domain/window/window_orchestrator.ts:133-135 | Keys made from colon-free parts are equal only when their parts are. |
| CustomKeys.MakeKeyKinds | packages/engine/convex/domain/window/window_orchestrator.ts:133-144 | Keys of different kinds never coincide. |
| CustomKeys.TargetType | packages/engine/convex/domain/orchestrator/target_registry.ts:17-19 | The target type is the colon-free first part of the key. |
| CustomKeys.RequeueHandlerIffEvidenceKey | packages/engine/convex/domain/orchestrator/target_registry.ts:53-60 | A key has a retry handler exactly when its evidence-key parse succeeds. |
| CustomKeys.RequeueHandlerOfMadeKey | packages/engine/convex/domain/orchestrator/target_registry.ts:53-60 | An evidence key has a handler, a sample key has none. |
| CustomKeys.MakeKey | packages/engine/convex/domain/window/window_orchestrator.ts:133-135 | Definition: `` `${kind}:${id}:${stage}` ``. |
| CustomKeys.ResolveRequeueHandler | packages/engine/convex/domain/orchestrator/target_registry.ts:53-60 | Definition: `resolveRequeueHandler`: only evidence keys have a retry handler. |
| DempsterShafer.Find | packages/analysis/src/judge_gym/dempster_shafer.py:35 | The index of the key's item, no earlier item having that key, or the dict's size when it is absent. |
| DempsterShafer.SumWhereDisjoint | packages/analysis/src/judge_gym/dempster_shafer.py:61-63 | Two predicates that no key satisfies together share out at most the total. |
| DempsterShafer.SumWhereMonotone | packages/analysis/src/judge_gym/dempster_shafer.py:61-63 | Sums are monotone in the predicate. |
| DempsterShafer.SumWhereComplement | packages/analysis/src/judge_gym/dempster_shafer.py:66-71 | Two predicates that split every key between them split the total. |
| DempsterShafer.GetAdd | packages/analysis/src/judge_gym/dempster_shafer.py:35 | Accumulating into a dict adds `v` at key `a` and nowhere else. |
| DempsterShafer.GetAtIndex | packages/analysis/src/judge_gym/dempster_shafer.py:35 | In a dict with distinct keys, the item at index `i` is `Get` at its key. |
| DempsterShafer.AddNonNegative | packages/analysis/src/judge_gym/dempster_shafer.py:35 | Accumulating a non-negative weight into a non-negative dict keeps it non-negative. |
| DempsterShafer.MassFromVerdict | packages/analysis/src/judge_gym/dempster_shafer.py:15-20 | The set of decoded scores carries the whole unit of mass. |
| DempsterShafer.MassFromVerdictSetOnly | packages/analysis/src/judge_gym/dempster_shafer.py:15-20 | Order and repetitions among the scores do not matter. |
| DempsterShafer.Combine | packages/analysis/src/judge_gym/dempster_shafer.py:23-39 | The nested loops return exactly the specified combination: every pair of focal sets puts its product on their intersection or, when disjoint, into k; the buckets are then divided by 1 - k, and total conflict gives ({}, 1.0). |
| DempsterShafer.StepConflict | packages/analysis/src/judge_gym/dempster_shafer.py:31-33 | A disjoint pair adds its product to the conflict. |
| DempsterShafer.StepAdds | packages/analysis/src/judge_gym/dempster_shafer.py:34-35 | An intersecting pair adds its product to the bucket of the intersection. |
| DempsterShafer.StepConserves | packages/analysis/src/judge_gym/dempster_shafer.py:29-35 | Each pair adds its product either to k or to a bucket. |
| DempsterShafer.ConjunctiveConserves | packages/analysis/src/judge_gym/dempster_shafer.py:27-35 | Mass conservation: k plus the pre-normalised buckets is Σm1 · Σm2. |
| DempsterShafer.CombineNormalised | packages/analysis/src/judge_gym/dempster_shafer.py:23-39 | The combined mass never has the empty set as a key and has distinct keys; when 1 − k ≠ 0 and both inputs sum to 1, it sums to 1. |
| DempsterShafer.StepNonNegative | packages/analysis/src/judge_gym/dempster_shafer.py:29-35 | Non-negative inputs give non-negative buckets and conflict. |
| DempsterShafer.CombineProper | packages/analysis/src/judge_gym/dempster_shafer.py:23-39 | Dempster's rule maps two non-negative masses that sum to 1 to a non-negative mass that sums to 1, or to the empty dict under total conflict. |
| DempsterShafer.ConjunctiveBounds | packages/analysis/src/judge_gym/dempster_shafer.py:27-36 | For proper inputs, k and the unnormalised buckets are non-negative and share out 1. |
| DempsterShafer.CombineTotalConflict | packages/analysis/src/judge_gym/dempster_shafer.py:36-38 | Total conflict returns ({}, 1.0). |
| DempsterShafer.CombineSymmetric | packages/analysis/src/judge_gym/dempster_shafer.py:23-39 | The conflict, and the mass at every key, do not depend on the order. |
| DempsterShafer.UnscaledSymmetric | packages/analysis/src/judge_gym/dempster_shafer.py:27-35 | Before normalising, every key holds the same mass in both orders. |
| DempsterShafer.CrossModelConflictSymmetric | packages/analysis/src/judge_gym/dempster_shafer.py:82-88 | The conflict between two models' aggregated masses does not depend on which model comes first. |
| DempsterShafer.SampleMasses | packages/analysis/src/judge_gym/dempster_shafer.py:46-50 | The masses of the samples that neither abstained nor have empty scores. |
| DempsterShafer.StepConflicts | packages/analysis/src/judge_gym/dempster_shafer.py:53-57 | The conflicts of the successive combination steps. |
| DempsterShafer.CollectMasses | packages/analysis/src/judge_gym/dempster_shafer.py:46-50 | The first loop of `aggregate_samples`: one mass per sample that gave scores. |
| DempsterShafer.AggregateSamples | packages/analysis/src/judge_gym/dempster_shafer.py:42-58 | The loops return the specified aggregate: the masses of the samples that neither abstained nor are empty, the first as the start, combined in order with Dempster's rule, and total_k the largest step conflict; an empty mass and 0 for no usable sample, the sample's own mass and 0 for one. |
| DempsterShafer.FoldMaxIsMax | packages/analysis/src/judge_gym/dempster_shafer.py:53-58 | The reported conflict is the largest step conflict (or 0), not a sum. |
| DempsterShafer.AggregateFew | packages/analysis/src/judge_gym/dempster_shafer.py:51-52 | Fewer than two usable samples: the single mass (or {}) and conflict 0. |
| DempsterShafer.SampleMassesDrop | packages/analysis/src/judge_gym/dempster_shafer.py:46-50 | Abstained samples and samples without scores are dropped, and only those. |
| DempsterShafer.BeliefMonotone | packages/analysis/src/judge_gym/dempster_shafer.py:61-63 | Belief is monotone in the hypothesis. |
| DempsterShafer.BeliefBelowPlausibility | packages/analysis/src/judge_gym/dempster_shafer.py:61-71 | For a normalised mass with no empty key, Bel(H) ≤ Pl(H). |
| DempsterShafer.UncertaintyGapNonNegative | packages/analysis/src/judge_gym/dempster_shafer.py:74-79 | For a proper mass without an empty key, plausibility minus belief of a stage is never negative. |
| DempsterShafer.EmptyKeyAbsent | packages/analysis/src/judge_gym/dempster_shafer.py:31-35 | The pre-normalised buckets never hold mass at the empty set: an empty intersection goes to the conflict. |
| DempsterShafer.SumWhere | packages/analysis/src/judge_gym/dempster_shafer.py:63 | Definition: sum of the weights whose focal set satisfies `p`. |
| DempsterShafer.Get | packages/analysis/src/judge_gym/dempster_shafer.py:35 | Definition: `m.get(a, 0)` for a dict with distinct keys. |
| DempsterShafer.Add | packages/analysis/src/judge_gym/dempster_shafer.py:35 | Definition: `d[a] = d.get(a, 0) + v`: update in place, or append a new key. |
| DempsterShafer.Step | packages/analysis/src/judge_gym/dempster_shafer.py:31-35 | Definition: one inner-loop step for the pair (a, b). |
| DempsterShafer.Row | packages/analysis/src/judge_gym/dempster_shafer.py:30-35 | Definition: the inner loop over the items of m2, after the outer item a. |
| DempsterShafer.Pairs | packages/analysis/src/judge_gym/dempster_shafer.py:29-35 | Definition: both loops, over every pair of items of m1 and m2. |
| DempsterShafer.Conjunctive | packages/analysis/src/judge_gym/dempster_shafer.py:27-35 | Definition: the unnormalised buckets and the conflict of combining m1 with m2. |
| DempsterShafer.Scale | packages/analysis/src/judge_gym/dempster_shafer.py:39 | Every weight divided by `norm`. |
| DempsterShafer.CombineSpec | packages/analysis/src/judge_gym/dempster_shafer.py:23-39 | Definition: the result of `combine(m1, m2)`: total conflict gives ({}, 1.0). |
| DempsterShafer.CrossModelConflict | packages/analysis/src/judge_gym/dempster_shafer.py:82-88 | Definition: `cross_model_conflict`: the conflict k of combining the two masses. |
| DempsterShafer.FoldMax | packages/analysis/src/judge_gym/dempster_shafer.py:53-58 | Definition: the running (result, total_k) after folding `ms` into `start`. |
| DempsterShafer.AggregateSpec | packages/analysis/src/judge_gym/dempster_shafer.py:42-58 | Definition: `aggregate_samples`: fewer than two usable masses give the one (or the empty dict) with conflict 0; otherwise the fold of the rest into the first, with the largest conflict seen. |
| DempsterShafer.UnusableIndices | packages/analysis/src/judge_gym/dempster_shafer.py:46-50 | Definition: positions of the samples aggregate_samples ignores. |
| DempsterShafer.Belief | packages/analysis/src/judge_gym/dempster_shafer.py:61-63 | Definition: bel(H) = Σ m(A) over A ⊆ H. |
| DempsterShafer.Plausibility | packages/analysis/src/judge_gym/dempster_shafer.py:66-71 | Definition: pl(H) = 1 − Bel(Θ − H). |
| DempsterShafer.UncertaintyGap | packages/analysis/src/judge_gym/dempster_shafer.py:74-79 | Definition: pl({s}) − Bel({s}). |
| Documents.IdRoundTrip | packages/engine/convex/domain/window/window_orchestrator.ts:133-140 | Reading an id's text gives the id back. |
| Documents.IdTextNoColon | packages/engine/convex/domain/window/window_orchestrator.ts:133-140 | An id's text never holds the separator of a custom key. |
| Documents.IdTextInjective | packages/engine/convex/domain/window/window_orchestrator.ts:133-135 | Two ids with the same text are the same id. |
| Documents.IdText | packages/engine/convex/domain/window/window_orchestrator.ts:133-140 | The text of an id inside a custom key. |
| DstTs.Get | packages/engine/convex/utils/dst.ts:31 | A read of a non-negative mass is never negative; a missing key reads 0. |
| DstTs.PutKeys | packages/engine/convex/utils/dst.ts:31 | The keys after `set` are the old keys plus the new one; a known key keeps the size. |
| DstTs.PutTotal | packages/engine/convex/utils/dst.ts:31 | Adding x to the mass at a key adds x to the total. |
| DstTs.StringsNoCommas | packages/engine/convex/utils/dst.ts:10 | Printed numbers hold no comma. |
| DstTs.DedupeMembers | packages/engine/convex/utils/dst.ts:23-24 | The Set holds exactly the listed numbers, each once. |
| DstTs.MeetMembers | packages/engine/convex/utils/dst.ts:25 | The filter keeps exactly the numbers both sets hold. |
| DstTs.MassFromVerdict | packages/engine/convex/utils/dst.ts:7-12 | One entry, keyed by the verdict's scores, with mass 1, so the mass sums to 1. |
| DstTs.Normalise | packages/engine/convex/utils/dst.ts:36-40 | One normalised entry per combined entry, in order. |
| DstTs.DempsterCombine | packages/engine/convex/utils/dst.ts:14-43 | The two loops and the normalising loop return exactly the specified combination: every pair of entries puts its product on the meeting key or into the conflict k, and the entries are then divided by 1 - k (sums to one: PairsSumToOne). |
| DstTs.CombinePair | packages/engine/convex/utils/dst.ts:27-32 | One pass of the inner loop: the product goes to k, or is added at the meeting key. |
| DstTs.CombineRow | packages/engine/convex/utils/dst.ts:22-33 | The inner loop for one entry a of m1 adds, for each entry of m2 in order, their product to the meeting key or to the conflict. |
| DstTs.Normalised | packages/engine/convex/utils/dst.ts:36-40 | The normalising loop divides every accumulated entry by 1 - k, keeping the entries' order. |
| DstTs.PairsConserve | packages/engine/convex/utils/dst.ts:18-34 | Conservation: whatever the keys, the combined mass and the conflict share out the product of the two totals. |
| DstTs.PairsOk | packages/engine/convex/utils/dst.ts:18-34 | The combined Map has one entry per key, non-negative masses and a non-negative conflict. |
| DstTs.PairsSumToOne | packages/engine/convex/utils/dst.ts:14-43 | Two masses that each sum to 1 and conflict by less than 1 combine into a mass that sums to 1, with a non-negative entry per key. |
| DstTs.MassFromVerdictOrderFree | packages/engine/convex/utils/dst.ts:10 | The key of a verdict does not depend on the order of its scores. |
| DstTs.NumbersOfPrinted | packages/engine/convex/utils/dst.ts:10-24 | A sorted permutation of printed numbers parses back to the same numbers. |
| DstTs.SplitKey | packages/engine/convex/utils/dst.ts:10-23 | A key splits into the sorted printed numbers it was joined from. |
| DstTs.TokensOfKey | packages/engine/convex/utils/dst.ts:10-24 | Reading a key back gives exactly the numbers it was made of. |
| DstTs.MassFromVerdictTokens | packages/engine/convex/utils/dst.ts:7-24 | The key of a verdict stands for its set of scores. |
| DstTs.MeetKeyIntersects | packages/engine/convex/utils/dst.ts:23-30 | Two keys meet in None exactly when their focal sets are disjoint; otherwise in the key of their intersection. |
| DstTs.MassFromVerdictExample | packages/engine/convex/utils/dst.ts:10-11 | [2, 1] is keyed "1,2". |
| DstTs.IdenticalSingletonsExample | packages/engine/convex/utils/dst.ts:14-43 | Identical singleton verdicts merge with no conflict ([1] with [1]). |
| DstTs.DisjointSingletonsExample | packages/engine/convex/utils/dst.ts:14-43 | Disjoint singleton verdicts conflict fully and leave nothing ([1] with [2]). |
| DstTs.ChainMeets | packages/engine/convex/utils/dst.ts:23-30 | {i, j} and {j, l} meet in {j}. |
| DstTs.OverlappingVerdicts | packages/engine/convex/utils/dst.ts:14-43 | Overlapping verdicts keep their intersection: {i, j} with {j, l} gives {j}. |
| DstTs.OverlappingVerdictsExample | packages/engine/convex/utils/dst.ts:14-43 | The engine's example: [1, 2] with [2, 3] keeps "2" without conflict. |
| DstTs.RepeatedScoreKeys | packages/engine/convex/utils/dst.ts:10-11 | A verdict that repeats a score keeps the repeat in its key: [i, i] is keyed "i,i" while [i] is keyed "i", and combining the mass of [i, i] with itself moves all of it to the key "i", with no conflict. |
| DstTs.RepeatedScoreMeetsSingle | packages/engine/convex/utils/dst.ts:14-43 | Combining the mass of [i, i] with the mass of [i] gives the single key "i" with all the mass and conflict 0: `dempsterCombine` rebuilds the sets, so the repeated key does not cause conflict. |
| DstTs.MassFromScoreSet | packages/engine/convex/utils/dst.ts:7-12 | The mass of a verdict keyed by its set of scores, each score once. |
| DstTs.CanonicalKey | packages/engine/convex/utils/dst.ts:23-30 | The key of a duplicate-free list meets itself in itself. |
| DstTs.MassFromScoreSetDeterminedBySet | packages/engine/convex/utils/dst.ts:7-12 | Keyed by the set, the key does not depend on order or on repeats. |
| DstTs.MassFromScoreSetIdempotent | packages/engine/convex/utils/dst.ts:14-43 | Combining the mass of a verdict with itself leaves it as it was. |
| DstTs.SelfMeetOne | packages/engine/convex/utils/dst.ts:14-43 | A one-key mass whose key meets itself pairs with itself into itself, with no conflict. |
| DstTs.MassFromScoreSetAgrees | packages/engine/convex/utils/dst.ts:7-12 | Without repeated scores the two keyings agree. |
| DstTs.Put | packages/engine/convex/utils/dst.ts:31 | Definition: `m.set(key, v)`: an existing key keeps its place, a new key goes last. |
| DstTs.Strings | packages/engine/convex/utils/dst.ts:10 | `xs.map(String)`. |
| DstTs.Numbers | packages/engine/convex/utils/dst.ts:23-24 | `ss.map(Number)`. |
| DstTs.Dedupe | packages/engine/convex/utils/dst.ts:23-24 | Definition: `[...new Set(xs)]`: first occurrences, in order. |
| DstTs.Tokens | packages/engine/convex/utils/dst.ts:23-24 | Definition: `new Set(key.split(",").map(Number))`, in insertion order. |
| DstTs.Meet | packages/engine/convex/utils/dst.ts:25 | Definition: `[...setA].filter((x) => setB.has(x))`. |
| DstTs.KeyOf | packages/engine/convex/utils/dst.ts:10 | Definition: `xs.sort().join(",")`: the default sort compares the printed numbers. |
| DstTs.MeetKey | packages/engine/convex/utils/dst.ts:23-30 | Definition: the key of the intersection of two focal sets, or None when they are disjoint. |
| DstTs.Deposit | packages/engine/convex/utils/dst.ts:27-32 | Definition: where the product of a pair goes: to the conflict, or added at the key. |
| DstTs.Step | packages/engine/convex/utils/dst.ts:23-32 | Definition: one (a, b) pair of the nested loop. |
| DstTs.Row | packages/engine/convex/utils/dst.ts:22-33 | Definition: the inner loop over m2 for one entry a of m1. |
| DstTs.Pairs | packages/engine/convex/utils/dst.ts:21-34 | Definition: both loops: the unnormalised combination and the conflict k. |
| DstTs.Combination | packages/engine/convex/utils/dst.ts:14-43 | Definition: the result of `dempsterCombine`. |
| EvidenceCollect.NormalizeParsedIdempotent | packages/engine/convex/domain/evidence/workflows/evidence_collect.ts:268-288 | Normalising an already normalised parsed URL gives it back: the hash stays empty, the host stays lower case and no tracking key reappears. |
| EvidenceCollect.NormalizedParams | packages/engine/convex/domain/evidence/workflows/evidence_collect.ts:273-286 | The normalised query is a subsequence of the original holding no `utm_` or listed tracking key and every other pair, in order. |
| EvidenceCollect.TrackingIgnored | packages/engine/convex/domain/evidence/workflows/evidence_collect.ts:273-286 | Inserting tracking pairs anywhere in the query, and setting any fragment, does not change the normalised URL. |
| EvidenceCollect.SameKey | packages/engine/convex/domain/evidence/workflows/evidence_collect.ts:268-288 | Two URLs with the same scheme, the same host up to ASCII case, the same rest and the same non-tracking pairs get the same key. |
| EvidenceCollect.NormalizeUrlIdempotent | packages/engine/convex/domain/evidence/workflows/evidence_collect.ts:268-291 | normalizeUrl(normalizeUrl(u)) == normalizeUrl(u), in the parsed case when the parser reads the key back, and in the unparsable case when the trimmed lower-cased text is still unparsable. |
| EvidenceCollect.StripSlashBack | packages/engine/convex/domain/evidence/workflows/evidence_collect.ts:288 | Dropping one trailing "/" is undone by appending it; a string without one is kept. |
| EvidenceCollect.FreshIndices | packages/engine/convex/domain/evidence/workflows/evidence_collect.ts:69-74 | The positions the filter keeps: exactly the fresh ones (key neither seen before nor held by an earlier hit), increasing. |
| EvidenceCollect.Pick | packages/engine/convex/domain/evidence/workflows/evidence_collect.ts:69-74 | The hits at the given positions, in order, and nothing else. |
| EvidenceCollect.FilterStep | packages/engine/convex/domain/evidence/workflows/evidence_collect.ts:69-74 | One callback call: a hit is kept exactly when its key is not yet in the set, and its key joins the set. |
| EvidenceCollect.PickStep | packages/engine/convex/domain/evidence/workflows/evidence_collect.ts:69-74 | The fresh positions below n+1 extend those below n by n exactly when hit n is fresh. |
| EvidenceCollect.FilterNew | packages/engine/convex/domain/evidence/workflows/evidence_collect.ts:53-74 | The filter loop returns exactly Dedupe(existing keys, results): the first hit of each unseen key, in search order. |
| EvidenceCollect.DedupeDistinct | packages/engine/convex/domain/evidence/workflows/evidence_collect.ts:69-74 | The kept hits have keys not in the existing set, pairwise different. |
| EvidenceCollect.DedupeKeepsFirst | packages/engine/convex/domain/evidence/workflows/evidence_collect.ts:69-74 | Every key of the search that was not already present is kept, by the first hit carrying it. |
| EvidenceCollect.WindowIds | packages/engine/convex/domain/evidence/workflows/evidence_collect.ts:49-55 | The window's rows in table order: exactly the ids below n whose window is w, increasing. |
| EvidenceCollect.TopUpFacts | packages/engine/convex/domain/evidence/workflows/evidence_collect.ts:40-87 | The search runs exactly when the window has fewer rows than the limit, for the missing count; inserted keys are new and distinct; nothing is inserted when the window is full. |
| EvidenceCollect.NewRows | packages/engine/convex/domain/evidence/workflows/evidence_collect.ts:76-83 | One new evidence row per kept hit with its title, URL and raw text, the window id and no processed content. |
| EvidenceCollect.SelectedEarliest | packages/engine/convex/domain/evidence/workflows/evidence_collect.ts:89-100 | The selection holds min(limit, rows) of the window's rows for a non-negative limit, all of them the window's, and no row left out was created before a selected one. |
| EvidenceCollect.ItemsFor | packages/engine/convex/domain/evidence/workflows/evidence_collect.ts:147-155 | One item per id, in order, at positions 1, 2, ..., all in the given batch. |
| EvidenceCollect.QueueStep | packages/engine/convex/domain/evidence/workflows/evidence_collect.ts:192-258 | One more row appends its calls and adds its three bits to the counters. |
| EvidenceCollect.TallyCountsCalls | packages/engine/convex/domain/evidence/workflows/evidence_collect.ts:188-257 | The three counters sum to the number of getOrCreateLlmRequest calls. |
| EvidenceCollect.QueueCallsMeaning | packages/engine/convex/domain/evidence/workflows/evidence_collect.ts:192-257 | A row of the window gets a clean, neutralize or abstract call exactly when that stage is wanted and its content is missing or empty (JS falsiness). |
| EvidenceCollect.RowCallsOwn | packages/engine/convex/domain/evidence/workflows/evidence_collect.ts:192-257 | A row's own calls: one per wanted stage whose content is falsy, in clean, neutralize, abstract order. |
| EvidenceCollect.RowCallsCarryId | packages/engine/convex/domain/evidence/workflows/evidence_collect.ts:205-250 | Every call for a row carries that row's evidence id. |
| EvidenceCollect.QueueCallsOnlyFor | packages/engine/convex/domain/evidence/workflows/evidence_collect.ts:192-257 | Every call of the queue carries the id of one of the window's rows. |
| EvidenceCollect.QueuedOnce | packages/engine/convex/domain/evidence/workflows/evidence_collect.ts:192-257 | After the queue runs on a request table with unique identities, each stage a row lacked has exactly one request row with that call's identity. |
| EvidenceCollect.QueueRow | packages/engine/convex/domain/evidence/workflows/evidence_collect.ts:192-257 | The loop body returns the row's calls and bumps exactly the counters of the stages it queued. |
| EvidenceCollect.QueueLoop | packages/engine/convex/domain/evidence/workflows/evidence_collect.ts:188-257 | The loop returns the calls of QueueCalls and the counters of Tally over the window's rows. |
| EvidenceCollect.EvidenceStore.InsertRows | packages/engine/convex/domain/evidence/workflows/evidence_collect.ts:76-83 | Appends NewRows for the kept hits and changes no other table. |
| EvidenceCollect.EvidenceStore.InsertTopUp | packages/engine/convex/domain/evidence/workflows/evidence_collect.ts:40-87 | Appends exactly NewRows(TopUp(...)) to the evidence table and returns the inserted count; windows, batches and items unchanged. |
| EvidenceCollect.EvidenceStore.CreateEvidenceBatch | packages/engine/convex/domain/evidence/workflows/evidence_collect.ts:128-162 | Fails with the argument error for a limit below 1 or no ids; otherwise appends one batch row (limit, count = number of ids, creation time) and ItemsFor its ids, returning the batch id and count. |
| EvidenceCollect.EvidenceStore.QueueRows | packages/engine/convex/domain/evidence/workflows/evidence_collect.ts:192-257 | The request table becomes GetOrCreateAllRows of the loop's calls; it fails exactly when one of those calls fails, and otherwise returns Tally. |
| EvidenceCollect.EvidenceStore.QueueEvidenceProcessing | packages/engine/convex/domain/evidence/workflows/evidence_collect.ts:164-266 | "Window not found" for a missing window with no change; otherwise QueueRows with all three stages, the window's model and its provider. |
| EvidenceCollect.EvidenceStore.CollectEvidence | packages/engine/convex/domain/evidence/workflows/evidence_collect.ts:20-126 | Each failure case ("Window not found", "No evidence found for window", batch arguments, a queue failure) with the state it leaves; on success the top-up rows, the batch of the earliest rows up to the limit, and the queued requests and counters. |
| EvidenceCollect.Tracking | packages/engine/convex/domain/evidence/workflows/evidence_collect.ts:274-285 | Definition: a tracking parameter: one of the dropped keys, or a key starting with `utm_`. |
| EvidenceCollect.Kept | packages/engine/convex/domain/evidence/workflows/evidence_collect.ts:282-285 | Definition: the query pairs that survive normalisation: those whose key is not a tracking key, in order. |
| EvidenceCollect.Search | packages/engine/convex/domain/evidence/workflows/evidence_collect.ts:286 | Definition: `parsed.search`: `?` and the serialised pairs, or empty when no pair is left. |
| EvidenceCollect.Href | packages/engine/convex/domain/evidence/workflows/evidence_collect.ts:287 | Definition: `parsed.toString()`. |
| EvidenceCollect.NormalizeParsed | packages/engine/convex/domain/evidence/workflows/evidence_collect.ts:270-286 | Definition: the edits to the parsed URL: no fragment, a lower-case host, no tracking parameters. |
| EvidenceCollect.StripSlash | packages/engine/convex/domain/evidence/workflows/evidence_collect.ts:288 | Definition: drop one trailing `/`. |
| EvidenceCollect.NormalizeUrl | packages/engine/convex/domain/evidence/workflows/evidence_collect.ts:268-292 | Definition: `normalizeUrl`: the edited URL without one trailing slash; a URL that does not parse is trimmed and lower-cased instead. |
| EvidenceCollect.KeyOf | packages/engine/convex/domain/evidence/workflows/evidence_collect.ts:54 | Definition: the dedupe key of a URL. |
| EvidenceCollect.Fresh | packages/engine/convex/domain/evidence/workflows/evidence_collect.ts:69-74 | Definition: result i is the first hit with its key, and the key was not seen before the search. |
| EvidenceCollect.Dedupe | packages/engine/convex/domain/evidence/workflows/evidence_collect.ts:69-74 | Definition: the hits the filter keeps: the fresh ones, in search order. |
| EvidenceCollect.SeenAfter | packages/engine/convex/domain/evidence/workflows/evidence_collect.ts:53-74 | Definition: the seen set after i hits: the existing keys and the keys of those hits. |
| EvidenceCollect.ExistingKeys | packages/engine/convex/domain/evidence/workflows/evidence_collect.ts:53-55 | Definition: the key set built from the window's existing rows. |
| EvidenceCollect.Limit | packages/engine/convex/domain/evidence/workflows/evidence_collect.ts:40 | Definition: `limit ?? DEFAULT_LIMIT`. |
| EvidenceCollect.PreviewLength | packages/engine/convex/domain/evidence/workflows/evidence_collect.ts:41-44 | Definition: the length of the preview query: `limit ? take(limit) : collect()` (a negative count is read as the whole list; the comparison that follows fails for it either way). |
| EvidenceCollect.TopUp | packages/engine/convex/domain/evidence/workflows/evidence_collect.ts:40-87 | Definition: the hits the action inserts: none when the preview already reaches the limit or nothing remains; otherwise the unseen hits of a search for the remaining count. |
| EvidenceCollect.NewRow | packages/engine/convex/domain/evidence/workflows/evidence_collect.ts:77-82 | Definition: the row `createEvidence` inserts for a hit. |
| EvidenceCollect.Created | packages/engine/convex/domain/evidence/workflows/evidence_collect.ts:94-96 | Definition: the sort key `a._creationTime - b._creationTime` on row ids. |
| EvidenceCollect.Selected | packages/engine/convex/domain/evidence/workflows/evidence_collect.ts:94-97 | Definition: `ordered.slice(0, lim)`: the ids by creation time, cut at the limit. |
| EvidenceCollect.NeedsClean | packages/engine/convex/domain/evidence/workflows/evidence_collect.ts:193 | Definition: the clean call is due when the row has no cleaned text (an empty one counts as missing). |
| EvidenceCollect.NeedsNeutralize | packages/engine/convex/domain/evidence/workflows/evidence_collect.ts:214 | Definition: the neutralize call is due when the row has no neutralized text (an empty one counts as missing). |
| EvidenceCollect.NeedsAbstract | packages/engine/convex/domain/evidence/workflows/evidence_collect.ts:236 | Definition: the abstract call is due when the row has no abstracted text (an empty one counts as missing). |
| EvidenceCollect.NeutralizeSource | packages/engine/convex/domain/evidence/workflows/evidence_collect.ts:215 | Definition: the neutralize input: `cleaned_content ?? raw_content` (an empty cleaned text is kept). |
| EvidenceCollect.AbstractSource | packages/engine/convex/domain/evidence/workflows/evidence_collect.ts:237-238 | Definition: the abstract input: `neutralized_content ?? cleaned_content ?? raw_content`. |
| EvidenceCollect.EvidenceArgs | packages/engine/convex/domain/evidence/workflows/evidence_collect.ts:194-256 | Definition: temperature 0.2, the token cap, request version 1, only the evidence id set. |
| EvidenceCollect.CleanArgs | packages/engine/convex/domain/evidence/workflows/evidence_collect.ts:194-210 | Definition: the clean call: stage evidence_clean, the cleaning instructions and the clean prompt of the raw text, 1200 tokens. |
| EvidenceCollect.NeutralizeArgs | packages/engine/convex/domain/evidence/workflows/evidence_collect.ts:216-232 | Definition: the neutralize call: stage evidence_neutralize, the neutralize instructions and prompt of its source, 1000 tokens. |
| EvidenceCollect.AbstractArgs | packages/engine/convex/domain/evidence/workflows/evidence_collect.ts:239-255 | Definition: the abstract call: stage evidence_abstract, the abstraction instructions and prompt of its source, 1200 tokens. |
| EvidenceCollect.CleanCall | packages/engine/convex/domain/evidence/workflows/evidence_collect.ts:193-212 | Definition: one clean call when the row needs cleaning, none otherwise. |
| EvidenceCollect.NeutralizeCall | packages/engine/convex/domain/evidence/workflows/evidence_collect.ts:214-234 | Definition: one neutralize call when the row needs neutralizing, none otherwise. |
| EvidenceCollect.AbstractCall | packages/engine/convex/domain/evidence/workflows/evidence_collect.ts:236-257 | Definition: one abstract call when the row needs abstracting, none otherwise. |
| EvidenceCollect.RowCalls | packages/engine/convex/domain/evidence/workflows/evidence_collect.ts:192-258 | Definition: the calls for one row, clean before neutralize before abstract. |
| EvidenceCollect.QueueCalls | packages/engine/convex/domain/evidence/workflows/evidence_collect.ts:192-258 | Definition: all calls of the loop over the window's rows, in row order. |
| EvidenceCollect.Bump | packages/engine/convex/domain/evidence/workflows/evidence_collect.ts:211-256 | Definition: the counters after one more row. |
| EvidenceCollect.Tally | packages/engine/convex/domain/evidence/workflows/evidence_collect.ts:188-258 | Definition: the three counters over the window's rows: how many clean, neutralize and abstract calls the loop queues. |
| EvidenceViews.NormalizeEvidenceView | packages/engine/convex/models/core.ts:52-67 | Every accepted input normalises to one of the four canonical views, and anything that is not an alias comes back unchanged. |
| EvidenceViews.AliasesNormalize | packages/engine/convex/models/core.ts:55-63 | Each alias names the view at its own level. |
| EvidenceViews.CanonicalUnchanged | packages/engine/convex/models/core.ts:34-67 | No alias is a canonical name, so canonical values always pass through unchanged. |
| EvidenceViews.NormalizeIdempotent | packages/engine/convex/models/core.ts:52-67 | Normalising twice is normalising once: a normalised view is never an alias. |
| EvidenceViews.Level | packages/engine/convex/models/core.ts:34-47 | The level of a view or alias: its position in `Views` or `Aliases`. |
| EvidenceViews.NormalizeSameView | packages/engine/convex/models/core.ts:52-67 | Two inputs normalise to the same view exactly when they name the same level. |
| ExperimentData.DeriveExperimentStatus | packages/engine/convex/domain/experiments/experiments_data.ts:64-74 | The status of an experiment from the statuses of its runs, in the order the checks are made: no runs, some running, some paused, all complete, some canceled. |
| ExperimentData.StatusBySet | packages/engine/convex/domain/experiments/experiments_data.ts:64-74 | The status depends only on which statuses occur, not on their order or how often. |
| ExperimentData.ActivityMonotone | packages/engine/convex/domain/experiments/experiments_data.ts:69-70 | Adding runs never lowers the activity the status reports: a running run keeps the experiment running, a paused one keeps it at least paused. |
| ExperimentData.IncompleteRunBlocksComplete | packages/engine/convex/domain/experiments/experiments_data.ts:71 | A run that is not complete keeps the experiment from being complete, wherever it is. |
| ExperimentData.CountsSnoc | packages/engine/convex/domain/experiments/experiments_data.ts:84-104 | One more row changes only its own window's counters, by `Bump`. |
| ExperimentData.LevelCount | packages/engine/convex/domain/experiments/experiments_data.ts:93-102 | A level's counter never exceeds the window's total, and reaches it exactly when every row of the window has that level's content. |
| ExperimentData.HasEntry | packages/engine/convex/domain/experiments/experiments_data.ts:84-104 | A window has a counters entry exactly when it has evidence. |
| ExperimentData.TallyEvidence | packages/engine/convex/domain/experiments/experiments_data.ts:84-104 | The counters map has an entry exactly for the windows that have evidence, each holding that window's total and its three trimmed non-blank level counts; a window without an entry would count nothing. |
| ExperimentData.WindowStatusMeaning | packages/engine/convex/domain/experiments/experiments_data.ts:105-124 | The reported status of a window, read against the rows: scraping when it has none, otherwise the first level that some row of it lacks, and ready when none is lacking. |
| ExperimentData.ListEvidenceWindows | packages/engine/convex/domain/experiments/experiments_data.ts:76-127 | One row per window, in table order, with the number of its evidence rows and the status evidenceStatusFor gives its counters; a window without evidence is scraping. |
| ExperimentData.AllAre | packages/engine/convex/domain/experiments/experiments_data.ts:71 | Definition: `statuses.every((status) => status === x)`. |
| ExperimentData.Activity | packages/engine/convex/domain/experiments/experiments_data.ts:69-70 | Definition: how strongly an active run marks the experiment: running over paused over the rest. |
| ExperimentData.HasText | packages/engine/convex/domain/experiments/experiments_data.ts:94-101 | Definition: `(content ?? "").trim().length > 0`. |
| ExperimentData.HasLevel | packages/engine/convex/domain/experiments/experiments_data.ts:94-101 | Definition: a row has content at a level: the content is set and not blank once trimmed. |
| ExperimentData.CountsFor | packages/engine/convex/domain/experiments/experiments_data.ts:84-104 | Definition: what the pass should leave in a window's entry: the window's rows, and those of them with each level's content. |
| ExperimentData.Bump | packages/engine/convex/domain/experiments/experiments_data.ts:86-103 | Definition: the update the loop body makes to the entry of the row's window. |
| ExperimentData.EvidenceStatusFor | packages/engine/convex/domain/experiments/experiments_data.ts:105-113 | Definition: `evidenceStatusFor(entry)`: the first level some row of the window still lacks. |
| ExperimentData.AllHave | packages/engine/convex/domain/experiments/experiments_data.ts:108-112 | Definition: every row of window w has content at level l. |
| ExperimentData.Entry | packages/engine/convex/domain/experiments/experiments_data.ts:123-124 | Definition: `counts.get(String(window._id))`. |
| LabViews.DeriveEvidenceStatus | packages/engine/convex/packages/lab.ts:310-322 | `deriveEvidenceStatus`: scraping without evidence, else the first level that some row still has null, else ready. |
| LabViews.DeriveByLevels | packages/engine/convex/packages/lab.ts:310-322 | The status is scraping without rows, otherwise the first level (cleaned, neutralized, abstracted) that not every row has, and ready when every row has all three. |
| LabViews.LevelAgrees | packages/engine/convex/packages/lab.ts:310-322 | Without blank content, a level is present for every row in the counters' sense exactly when no row has it null. |
| LabViews.AgreesWithCounters | packages/engine/convex/packages/lab.ts:310-322 | While no set content is blank, this null test and the trimmed counters of `domain/experiments/experiments_data.ts` report the same status for a window. |
| LabViews.BlankContentDisagrees | packages/engine/convex/packages/lab.ts:318 | A row whose cleaned text is blank counts as cleaned here but not in the trimmed counters, so the two window lists can disagree. |
| LabViews.FirstMatch | packages/engine/convex/packages/lab.ts:34-45 | The index returned matches the input on country, dates, concept and model and no earlier window does; none is returned exactly when no window matches. |
| LabViews.InitFacts | packages/engine/convex/packages/lab.ts:24-70 | A bad argument fails; otherwise the id names a matching window, reused exactly when one already existed, in which case the table is unchanged; otherwise the table gains exactly the new window at the end. |
| LabViews.InitTwiceReuses | packages/engine/convex/packages/lab.ts:24-70 | Initialising the same window twice: the second call reuses what the first returned and changes nothing, whatever tag it would have drawn. |
| LabViews.WindowTable.InitEvidenceWindow | packages/engine/convex/packages/lab.ts:24-70 | The result and the new table are those of the specification of the mutation (reuse the first match, else append a fresh window at start with the given tag). |
| LabViews.WindowTable.ListEvidenceWindows | packages/engine/convex/packages/lab.ts:149-206 | The rows pushed in table order, one per window with its evidence count and derived status, then sorted by tag: the result is sorted by tag and a permutation of the pushed rows. |
| LabViews.SortByTag | packages/engine/convex/packages/lab.ts:203 | The stable sort by `localeCompare` on the tag, modelled as code-point order; its result is a permutation of its input. |
| LabViews.SortByTagFacts | packages/engine/convex/packages/lab.ts:203 | The stable tag sort returns the pushed rows, each once, in tag order. |
| LabViews.EvidenceByWindowFacts | packages/engine/convex/packages/lab.ts:208-234 | The list has one row per evidence of the window, ordered by creation time, and is the projection of a permutation of exactly those rows. |
| LabViews.ValidInput | packages/engine/convex/packages/lab.ts:25-27 | Definition: the argument check: the four text fields have at least one character. |
| LabViews.Matches | packages/engine/convex/packages/lab.ts:34-45 | Definition: the filter of the lookup: country, dates, query (the concept) and model all equal. |
| LabViews.NewWindow | packages/engine/convex/packages/lab.ts:54-63 | Definition: `createWindow`: a fresh window at start, at the raw level, with the given tag. |
| LabViews.InitSpec | packages/engine/convex/packages/lab.ts:24-70 | Definition: the whole mutation: a bad argument fails before anything; a matching window is reused; otherwise a new one is appended. |
| LabViews.OfWindow | packages/engine/convex/packages/lab.ts:185-188 | Definition: the `by_window_id` index. |
| LabViews.ListRows | packages/engine/convex/packages/lab.ts:183-201 | The rows the loop pushes, in table order; a window's id is its position. |
| LabViews.InsertByTag | packages/engine/convex/packages/lab.ts:203 | Insert before the first row whose tag is not smaller, after any with an equal tag. |
| LabViews.Created | packages/engine/convex/packages/lab.ts:226 | Definition: `a._creationTime`, the key of the sort. |
| LabViews.ListRow | packages/engine/convex/packages/lab.ts:227-232 | Definition: the row the query returns for one evidence: its id, title, url and creation time. |
| LabViews.ListEvidenceByWindow | packages/engine/convex/packages/lab.ts:208-234 | Definition: `listEvidenceByWindow`: the window's rows sorted by creation time, oldest first. |
| LabelRandomization.Letter | packages/engine/convex/utils/randomize.ts:10-12 | A one-character label whose code is 65 + i. |
| LabelRandomization.Letters | packages/engine/convex/utils/randomize.ts:10-12 | n letters, the i-th being the letter of code 65 + i. |
| LabelRandomization.Numbers | packages/engine/convex/utils/randomize.ts:13 | The n numbers 1..n, in order. |
| LabelRandomization.LettersDistinct | packages/engine/convex/utils/randomize.ts:10-12 | The letters of a scale are pairwise different. |
| LabelRandomization.Swapped | packages/engine/convex/utils/randomize.ts:22 | Positions i and j exchange their elements and every other position keeps its own. |
| LabelRandomization.SwapIn | packages/engine/convex/utils/randomize.ts:22 | The array afterwards is the old one with i and j exchanged. |
| LabelRandomization.FisherYatesStep | packages/engine/convex/utils/randomize.ts:17-23 | One iteration of the loop: swapping at `top` leaves the rest of the pass to do. |
| LabelRandomization.FisherYatesPermutes | packages/engine/convex/utils/randomize.ts:16-23 | The pass only swaps: its result is a permutation of its input. |
| LabelRandomization.FisherYatesDistinct | packages/engine/convex/utils/randomize.ts:16-23 | Swapping keeps the elements pairwise distinct. |
| LabelRandomization.Signed | packages/engine/convex/utils/randomize.ts:20 | The 32-bit pattern read as a signed integer, within the signed 32-bit range. |
| LabelRandomization.TruncRem | packages/engine/convex/utils/randomize.ts:20 | A remainder strictly between -m and m, the Euclidean one for a non-negative dividend. |
| LabelRandomization.SeededSwapIndex | packages/engine/convex/utils/randomize.ts:20 | The seeded swap partner of position i is never beyond i. |
| LabelRandomization.RandomSwapIndex | packages/engine/convex/utils/randomize.ts:21 | The random swap partner of position i is never beyond i. |
| LabelRandomization.LabelPick | packages/engine/convex/utils/randomize.ts:18-21 | The swap partner of position k: from the seed when there is one, otherwise from the draws. |
| LabelRandomization.LabelPicks | packages/engine/convex/utils/randomize.ts:17-21 | Every position k gets a partner in 0..k. |
| LabelRandomization.ShuffleScores | packages/engine/convex/utils/randomize.ts:16-23 | The first loop of generateLabelMapping returns a fresh array of the scale size holding the specified shuffle of 1..n, a permutation of it (FisherYatesPermutes). |
| LabelRandomization.GenerateLabelMapping | packages/engine/convex/utils/randomize.ts:6-30 | The mapping's letters and scores, as LabelMappingKeys and LabelMappingPermutation state about the specification function. |
| LabelRandomization.LabelMappingKeys | packages/engine/convex/utils/randomize.ts:25-28 | The keys are exactly the first n letters, in order, each once. |
| LabelRandomization.LabelMappingPermutation | packages/engine/convex/utils/randomize.ts:6-30 | The scores form a permutation of 1..n: every score is in range, no two letters share one, and every number in 1..n is some letter's score. |
| LabelRandomization.SeededMappingDeterministic | packages/engine/convex/utils/randomize.ts:18-21 | With a seed the draws play no part: the mapping is a function of the scale size and the seed. |
| LabelRandomization.SingleStageMapping | packages/engine/convex/utils/randomize.ts:17 | A one-stage scale is `{ A: 1 }`: the loop does not run. |
| LabelRandomization.FisherYates | packages/engine/convex/utils/randomize.ts:16-23 | Definition: `for (let i = top; i > 0; i--)` swapping position i with pick[i]. |
| LabelRandomization.Top | packages/engine/convex/utils/randomize.ts:16 | Definition: the first index of the loop: `length - 1`, or no iteration at all for length 0 or 1. |
| LabelRandomization.Bits | packages/engine/convex/utils/randomize.ts:20 | Definition: `x \| 0` on an integer: its low 32 bits. |
| LabelRandomization.ValidDraws | packages/engine/convex/utils/randomize.ts:6-30 | Definition: draws of `Math.random`, one per position (the one at position 0 is never used). |
| LabelRandomization.ShuffledScores | packages/engine/convex/utils/randomize.ts:6-30 | Definition: the scores handed out to the letters: 1..n after the pass. |
| LabelRandomization.LabelMappingOf | packages/engine/convex/utils/randomize.ts:6-30 | Definition: `mapping[letters[i]] = shuffled[i]` for each letter in order. |
| LenientVerdicts.FirstVerdictLineSpec | packages/engine/convex/utils/verdict_parser.ts:17-21 | There is no line iff `VERDICT:` (in any letter case) matches nowhere; otherwise the line is the trimmed group of a match before which no position matches. |
| LenientVerdicts.LenientSingleSpec | packages/engine/convex/utils/verdict_parser.ts:9-39 | No match gives the null verdict; ABSTAIN in any case abstains; a line without a token is reported with no scores; otherwise the first token is reported and decoded through the mapping (no scores when it is missing) or, without a mapping, from its first character code as it stands, `A` = 1, with no upper-casing and no range check. |
| LenientVerdicts.LenientSingleOfLineSpec | packages/engine/convex/utils/verdict_parser.ts:22-38 | On the verdict line itself: ABSTAIN in any case abstains; no token reports the line without scores; an unknown token reports the token without scores; otherwise the token and its score. |
| LenientVerdicts.LenientSingleShape | packages/engine/convex/utils/verdict_parser.ts:9-39 | Whatever the response, the result is consistent: it abstains only as the fixed abstention, and decoded scores always come with the token or line they were read from. |
| LenientVerdicts.LenientLineShape | packages/engine/convex/utils/verdict_parser.ts:22-38 | LenientSingleShape for the verdict line itself. |
| LenientVerdicts.LenientAgreesWithStrictMapped | packages/engine/convex/utils/verdict_parser.ts:9-39 | Where the first `VERDICT:` match is also the last one, the lenient parser returns what the strict one returns whenever the strict one succeeds with a mapping. |
| LenientVerdicts.LenientAgreesWithStrictUnmapped | packages/engine/convex/utils/verdict_parser.ts:31-33 | Without a mapping the two agree on upper-case letters and digits; lower-case letters decode differently. |
| LenientVerdicts.LenientDecodeToken | packages/engine/convex/utils/verdict_parser.ts:63 | A token gives at most one score: its mapped score, none for a token the mapping lacks, its first code less 64 without a mapping. |
| LenientVerdicts.LenientDecoded | packages/engine/convex/utils/verdict_parser.ts:62-64 | At most one score per token, in token order. |
| LenientVerdicts.LenientDecodedMapped | packages/engine/convex/utils/verdict_parser.ts:62-64 | Through a mapping, unknown tokens are dropped and the rest decode in order, as in the strict parser. |
| LenientVerdicts.LenientDecodedUnmapped | packages/engine/convex/utils/verdict_parser.ts:62-64 | Without a mapping every token decodes, from its first character code. |
| LenientVerdicts.LenientSubsetSpec | packages/engine/convex/utils/verdict_parser.ts:41-71 | The subset verdict: no match gives the null verdict; ABSTAIN in any case abstains; otherwise the whole line is reported, with the decoded scores or `null` when none decode. It never throws. |
| LenientVerdicts.LenientSubsetAgreesWithStrict | packages/engine/convex/utils/verdict_parser.ts:41-71 | Where the first match is the last one and the strict subset parser succeeds with a mapping, the lenient one gives the same verdict. |
| LenientVerdicts.FirstVerdictLine | packages/engine/convex/utils/verdict_parser.ts:17-21 | Definition: `raw.match(/VERDICT:\s*(.+)/i)`: the trimmed rest of the first `VERDICT:` line, if any. |
| LenientVerdicts.LenientSingleVerdict | packages/engine/convex/utils/verdict_parser.ts:9-39 | Definition: the lenient `parseSingleVerdict` of the unified parser module. |
| LenientVerdicts.LenientSingleOfLine | packages/engine/convex/utils/verdict_parser.ts:31-33 | Definition: what the lenient parseSingleVerdict makes of the verdict line. |
| LenientVerdicts.LenientSubsetVerdict | packages/engine/convex/utils/verdict_parser.ts:41-71 | Definition: the lenient `parseSubsetVerdict` of the unified parser module. |
| LenientVerdicts.LenientSubsetOfLine | packages/engine/convex/utils/verdict_parser.ts:53-70 | Definition: what the lenient parseSubsetVerdict makes of the verdict line. |
| LlmBatches.DueForPollingMembers | packages/engine/convex/domain/llm_calls/llm_calls_batches.ts:51-75 | A batch is listed exactly when it is submitted or running, not locked past now (a falsy lock is none), and its next poll time, or its creation time when none is set, is not after now. |
| LlmBatches.DueForPollingOrder | packages/engine/convex/domain/llm_calls/llm_calls_batches.ts:68-73 | The result is a subsequence of the submitted rows followed by the running rows. |
| LlmBatches.LockedNeverDue | packages/engine/convex/domain/llm_calls/llm_calls_batches.ts:70 | A truthy lock after now keeps a batch out whatever its poll time. |
| LlmBatches.Locked | packages/engine/convex/domain/llm_calls/llm_calls_batches.ts:51-75 | Definition: `batch.locked_until && batch.locked_until > now`: a lock time of 0 counts as no lock. |
| LlmBatches.NextPoll | packages/engine/convex/domain/llm_calls/llm_calls_batches.ts:51-75 | Definition: `batch.next_poll_at ?? batch.created_at`. |
| LlmBatches.DueAt | packages/engine/convex/domain/llm_calls/llm_calls_batches.ts:68-73 | Definition: the filter's predicate. |
| LlmBatches.ByStatus | packages/engine/convex/domain/llm_calls/llm_calls_batches.ts:51-75 | Definition: the `by_status` index for one status, in table order. |
| LlmBatches.Candidates | packages/engine/convex/domain/llm_calls/llm_calls_batches.ts:51-75 | Definition: the rows the query reads: submitted ones first, then running ones. |
| LlmBatches.DueForPolling | packages/engine/convex/domain/llm_calls/llm_calls_batches.ts:51-75 | Definition: `listBatchesDueForPolling(now)`. |
| LlmCalls.MaxAttempts | packages/engine/convex/domain/window/window_orchestrator.ts:100-103 | The fold is at least every request's attempts and equals one of them (0 for none). |
| LlmCalls.KeyAttemptsReached | packages/engine/convex/domain/window/window_orchestrator.ts:100-104 | The bound is reached exactly when some request under the key has attempts at or above it. |
| LlmCalls.HasPendingWitness | packages/engine/convex/domain/window/window_orchestrator.ts:88-94 | The pending query is non-empty exactly when some request under the key is pending. |
| LlmCalls.BatchThreshold | packages/engine/convex/domain/orchestrator/base.ts:75-80 | The threshold is at least min_batch_size and greater than job_fallback_count. |
| LlmCalls.DecideRouteThreshold | packages/engine/convex/domain/orchestrator/base.ts:75-80 | decideRoute gives batch exactly for a batchable model with at least the threshold's requests. |
| LlmCalls.DecideRouteMonotone | packages/engine/convex/domain/orchestrator/base.ts:75-80 | More requests never turn a batch into a job. |
| LlmCalls.DecideRouteBatchSize | packages/engine/convex/domain/orchestrator/base.ts:75-80 | A batch holds at least min_batch_size and more than job_fallback_count requests. |
| LlmCalls.Created | packages/engine/convex/domain/orchestrator/base.ts:143-158 | One new pending request per target, in order, with its key, prompts, no attempts and the given assignment. |
| LlmCalls.EnqueuedKeepsRows | packages/engine/convex/domain/orchestrator/base.ts:137-167 | Enqueueing keeps every existing row and appends one request per target. |
| LlmCalls.EnqueuedOneProcess | packages/engine/convex/domain/orchestrator/base.ts:160-166 | With targets, exactly one queued batch or job row is added under the process key, a batch exactly when decideRoute says so. |
| LlmCalls.EnqueuedNothing | packages/engine/convex/domain/orchestrator/base.ts:138-139 | With no targets the tables are unchanged. |
| LlmCalls.EnqueuedRequest | packages/engine/convex/domain/orchestrator/base.ts:143-166 | Each new request carries its target's key and prompts, no attempts, pending, and exactly one of the new batch and job. |
| LlmCalls.Assign | packages/engine/convex/domain/llm_calls/llm_batch_repo.ts:24-33 | The listed rows get the process id, every other row is unchanged, and the length is kept. |
| LlmCalls.Range | packages/engine/convex/domain/orchestrator/base.ts:142-157 | The ids start, start+1, ..., start+n-1 of the appended requests. |
| LlmCalls.AssignCreated | packages/engine/convex/domain/orchestrator/base.ts:157-166 | Assigning the fresh ids to a process is the same as creating the requests already assigned. |
| LlmCalls.BatchRunning | packages/engine/convex/domain/llm_calls/llm_batch_service.ts:30-45 | The batch is running under the reference with one more attempt and the next poll time. |
| LlmCalls.ErrorAll | packages/engine/convex/domain/llm_calls/llm_batch_service.ts:115-126 | The listed requests are set to error with the batch's error, others unchanged. |
| LlmCalls.HandleBatchErrorRetries | packages/engine/convex/domain/llm_calls/llm_batch_service.ts:87-102 | Within the retry budget the batch is queued again with one more attempt, no reference and the error; requests untouched. |
| LlmCalls.HandleBatchErrorGivesUp | packages/engine/convex/domain/llm_calls/llm_batch_service.ts:104-126 | Past the budget the batch is set to error and every listed request fails with the error; nothing else changes. |
| LlmCalls.FinalizeJobSpec | packages/engine/convex/domain/llm_calls/llm_job_service.ts:48-60 | The job is error exactly when anyErrors, success otherwise, with no next run. |
| LlmCalls.ApplyRequestErrorRetriesIff | packages/engine/convex/domain/llm_calls/llm_job_service.ts:111-139 | The request is retried exactly when attempts < max; it keeps the error and attempt count, and is pending exactly when retried. |
| LlmCalls.BatchLimitDraw | packages/engine/convex/domain/llm_calls/llm_batch_service.ts:156-165 | No draw without rate-limit keys; otherwise one draw of the request count on the requests bucket. |
| LlmCalls.CheckBatchRateLimit | packages/engine/convex/domain/llm_calls/llm_batch_service.ts:156-165 | No delay without keys or when the limiter agrees; otherwise the limiter's retry time. |
| LlmCalls.BatchUsageDraws | packages/engine/convex/domain/llm_calls/llm_batch_service.ts:255-261 | Draws the input total and the output total from their buckets, each only when positive. |
| LlmCalls.BatchUsageDrawsComplete | packages/engine/convex/domain/llm_calls/llm_batch_service.ts:255-261 | Every positive total is drawn exactly once from its own bucket. |
| LlmCalls.LlmStore.CreateLlmRequest | packages/engine/convex/domain/llm_calls/llm_request_repo.ts:18-30 | Appends one pending request with no attempts and returns its id; other tables unchanged. |
| LlmCalls.LlmStore.CreateLlmBatch | packages/engine/convex/domain/llm_calls/llm_batch_repo.ts:13-22 | Appends one queued batch and returns its id; other tables unchanged. |
| LlmCalls.LlmStore.CreateLlmJob | packages/engine/convex/domain/llm_calls/llm_job_repo.ts:13-22 | Appends one queued job and returns its id; other tables unchanged. |
| LlmCalls.LlmStore.AssignRequests | packages/engine/convex/domain/llm_calls/llm_batch_repo.ts:24-33 | The request table becomes Assign of the listed ids; jobs and batches unchanged. |
| LlmCalls.LlmStore.EnqueueStage | packages/engine/convex/domain/orchestrator/base.ts:141-166 | The tables become Enqueued(targets, model, prompts, keys, policy). |
| LlmCalls.LlmStore.PutRequest | packages/engine/convex/domain/llm_calls/llm_request_repo.ts:77-85 | Replaces exactly one request row; batches and jobs unchanged. |
| LlmCalls.LlmStore.MarkBatchRunning | packages/engine/convex/domain/llm_calls/llm_batch_service.ts:30-45 | Replaces the batch with BatchRunning of it; other tables unchanged. |
| LlmCalls.LlmStore.HandleBatchError | packages/engine/convex/domain/llm_calls/llm_batch_service.ts:85-127 | Within the retry budget the batch alone is re-queued with one more attempt, no provider reference, the error and the next poll time; past it the batch fails and every listed request fails with the error. |
| LlmCalls.LlmStore.FinalizeJob | packages/engine/convex/domain/llm_calls/llm_job_service.ts:48-60 | Replaces the job with FinalizeJobSpec of it; other tables unchanged. |
| LlmCalls.LlmStore.ApplyRequestError | packages/engine/convex/domain/llm_calls/llm_job_service.ts:111-139 | Replaces the request with ApplyRequestErrorSpec's row and answers whether it will be retried. |
| LlmCalls.ValidEnginePolicy | packages/engine/convex/models/core.ts:143-162 | Definition: the bounds the schema puts on each field. |
| LlmCalls.HasPending | packages/engine/convex/domain/window/window_orchestrator.ts:88-94 | Definition: some request under the key is still pending (the `by_custom_key_status` query is non-empty). |
| LlmCalls.KeyAttempts | packages/engine/convex/domain/window/window_orchestrator.ts:95-104 | Definition: the largest attempt count among the requests under the key. |
| LlmCalls.DecideRoute | packages/engine/convex/domain/orchestrator/base.ts:75-80 | Definition: `decideRoute`: a job for a model that cannot be batched, for fewer requests than `min_batch_size`, or for no more than `job_fallback_count`. |
| LlmCalls.NewRequest | packages/engine/convex/domain/orchestrator/base.ts:146-155 | Definition: the row `createLlmRequest` inserts: pending, no attempts, assigned to nothing yet. |
| LlmCalls.NewBatch | packages/engine/convex/domain/orchestrator/base.ts:89-97 | Definition: the batch `createLlmBatch` inserts: the model's provider, the model and the process key, queued, with no attempts yet. |
| LlmCalls.NewJob | packages/engine/convex/domain/orchestrator/base.ts:114-122 | Definition: the job `createLlmJob` inserts: the model's provider, the model and the process key, queued. |
| LlmCalls.Enqueued | packages/engine/convex/domain/orchestrator/base.ts:137-167 | Definition: the tables after `enqueueStage`: nothing for no targets; otherwise one request per target and one new batch or job, keyed by the process key, holding all of them. |
| LlmCalls.HandleBatchErrorSpec | packages/engine/convex/domain/llm_calls/llm_batch_service.ts:104-126 | Definition: `handleBatchError`: while the retries allow, the batch goes back to the queue without its provider reference; after that the batch fails and takes every listed request with it. |
| LlmCalls.ApplyRequestErrorSpec | packages/engine/convex/domain/llm_calls/llm_job_service.ts:111-139 | Definition: `applyRequestError`: below the attempt bound the request is pending again with its error and next attempt time, and the answer is "retried"; at the bound it fails. |
| LlmRequests.IdentityOf | packages/engine/convex/domain/llm_calls/llm_requests.ts:68-82 | The by_identity key of the arguments: stage, provider, model, the four ids, and request_version defaulting to 1. |
| LlmRequests.Matching | packages/engine/convex/domain/llm_calls/llm_requests.ts:70-83 | Exactly the positions of the rows whose identity is the given one, increasing. |
| LlmRequests.MatchingNone | packages/engine/convex/domain/llm_calls/llm_requests.ts:70-83 | An identity no row holds matches nothing. |
| LlmRequests.MatchingUnique | packages/engine/convex/domain/llm_calls/llm_requests.ts:70-83 | An identity held only by row i matches exactly [i]. |
| LlmRequests.GetOrCreateCases | packages/engine/convex/domain/llm_calls/llm_requests.ts:68-118 | The call throws exactly when more than one row has the identity; otherwise it returns the found row as it was before any patch, or the id of an appended row. |
| LlmRequests.NewRequestShape | packages/engine/convex/domain/llm_calls/llm_requests.ts:94-117 | A new row is queued, has made no attempt, and carries request_version 1 unless one was given. |
| LlmRequests.PatchOnlyWhenMissing | packages/engine/convex/domain/llm_calls/llm_requests.ts:84-90 | A found row changes only when its user prompt is falsy and the call brings a truthy one; then both prompts are replaced. |
| LlmRequests.GetOrCreateKeepsUnique | packages/engine/convex/domain/llm_calls/llm_requests.ts:68-118 | The call keeps identities unique, and on a table with unique identities it never throws. |
| LlmRequests.GetOrCreateIdempotent | packages/engine/convex/domain/llm_calls/llm_requests.ts:68-118 | Repeating the call finds the row the first call found or created and changes nothing more. |
| LlmRequests.GetOrCreateAllUnique | packages/engine/convex/domain/llm_calls/llm_requests.ts:120-123 | On a table with unique identities no call of a mutation throws and identities stay unique. |
| LlmRequests.KeepsIdentity | packages/engine/convex/domain/llm_calls/llm_requests.ts:84-117 | Rows are never removed and never change identity. |
| LlmRequests.GetOrCreateAllCovers | packages/engine/convex/domain/llm_calls/llm_requests.ts:120-123 | After the mutation every identity it asked for has exactly one row. |
| LlmRequests.ApplyAllNoInsert | packages/engine/convex/domain/llm_calls/llm_requests.ts:84-92 | When every asked identity is already held, no row is inserted. |
| LlmRequests.RepeatInsertsNothing | packages/engine/convex/domain/llm_calls/llm_requests.ts:68-118 | Issuing the same calls a second time inserts no row. |
| LlmRequests.RequestTable.GetOrCreate | packages/engine/convex/domain/llm_calls/llm_requests.ts:68-118 | The rows and the answer become GetOrCreate's: the identity lookup, then a prompt patch or an insert, or the unique() throw. |
| LlmRequests.RequestTable.GetOrCreateAll | packages/engine/convex/domain/llm_calls/llm_requests.ts:120-123 | The rows become GetOrCreateAllRows's of the calls, rolled back to the old rows exactly when one call throws. |
| LlmRequests.Truthy | packages/engine/convex/domain/llm_calls/llm_requests.ts:84-90 | Definition: javaScript truthiness of an optional string: present and non-empty. |
| LlmRequests.NewRequest | packages/engine/convex/domain/llm_calls/llm_requests.ts:94-117 | Definition: the row that the insert branch writes. |
| LlmRequests.PatchPrompts | packages/engine/convex/domain/llm_calls/llm_requests.ts:84-92 | Definition: an existing row gets both prompts from the arguments when it has no user prompt and they bring one. |
| LlmRequests.GetOrCreateOutcome | packages/engine/convex/domain/llm_calls/llm_requests.ts:68-118 | Definition: the value `getOrCreateLlmRequestImpl` returns. |
| LlmRequests.GetOrCreateRows | packages/engine/convex/domain/llm_calls/llm_requests.ts:68-118 | Definition: the table after the call; a thrown error leaves it as it was. |
| LlmRequests.ApplyAll | packages/engine/convex/domain/llm_calls/llm_requests.ts:84-92 | Definition: the table after the calls in order, when none of them throws. |
| LlmRequests.GetOrCreateAllRows | packages/engine/convex/domain/llm_calls/llm_requests.ts:120-123 | Definition: the table after a mutation that issues the calls in order; a throw rolls the whole mutation back. |
| LlmRequests.GetOrCreateAllFails | packages/engine/convex/domain/llm_calls/llm_requests.ts:120-123 | Definition: whether some call of the mutation throws. |
| Metrics.EntrenchmentIndex | packages/analysis/src/judge_gym/metrics.py:20-25 | A zero polarization or a zero mean expert probability gives a zero index. |
| Metrics.EntrenchmentBounds | packages/analysis/src/judge_gym/metrics.py:20-25 | Both factors in [0, 1] keep the index in [0, 1], below each factor. |
| Metrics.EntrenchmentZero | packages/analysis/src/judge_gym/metrics.py:20-25 | The index is high only when both the disagreement and the confidence are. |
| Metrics.AbsDiffs | packages/analysis/src/judge_gym/metrics.py:32 | numpy's elementwise absolute difference: defined exactly when the lengths are equal or one operand has length 1 (broadcast), with the length and every element given by that broadcast. |
| Metrics.Mean | packages/analysis/src/judge_gym/metrics.py:32 | numpy's mean is NaN exactly on an empty array. |
| Metrics.SwapSensitivity | packages/analysis/src/judge_gym/metrics.py:28-32 | Defined exactly when the two arrays can be broadcast together. |
| Metrics.SwapSensitivitySymmetric | packages/analysis/src/judge_gym/metrics.py:28-32 | Swapping the two arrays does not change the sensitivity. |
| Metrics.SwapSensitivityUnchanged | packages/analysis/src/judge_gym/metrics.py:28-32 | Probabilities that do not move under the swap give sensitivity 0. |
| Metrics.SwapSensitivityBounds | packages/analysis/src/judge_gym/metrics.py:28-32 | For probabilities in [0, 1] the sensitivity lies in [0, 1]. |
| Metrics.ScoreHistogramOf | packages/analysis/src/judge_gym/metrics.py:35-47 | Succeeds exactly when the scale size is not negative and no sample is empty (the division by zero), and then has one bin per scale point. |
| Metrics.ScoreHistogram | packages/analysis/src/judge_gym/metrics.py:35-47 | The loop over the samples and their scores fails exactly when the specification does, with the same message, and otherwise returns a fresh array holding the specification's histogram. |
| Metrics.AddSampleTotal | packages/analysis/src/judge_gym/metrics.py:42-46 | Each sample adds w for every one of its scores that is in range. |
| Metrics.AddSampleBin | packages/analysis/src/judge_gym/metrics.py:42-46 | A bin receives the sample's weight once per score equal to its stage. |
| Metrics.AddScoreBin | packages/analysis/src/judge_gym/metrics.py:45-46 | A score adds w to its own bin only. |
| Metrics.HistogramTotalBound | packages/analysis/src/judge_gym/metrics.py:35-47 | Every sample carries total weight at most 1, so the histogram holds at most one unit per sample. |
| Metrics.HistogramTotalExact | packages/analysis/src/judge_gym/metrics.py:35-47 | The histogram holds exactly one unit per sample iff no score is out of range. |
| Metrics.HistogramNonNegative | packages/analysis/src/judge_gym/metrics.py:35-47 | Every bin is non-negative. |
| Metrics.HistogramExample | packages/analysis/src/judge_gym/metrics.py:35-47 | The default scale of 4 with the decoded verdicts [2] and [1, 2] gives the bins [0.5, 1.5, 0, 0]: a single verdict adds 1 to its bin, a subset of two adds 1/2 to each. |
| Metrics.EmptySampleFails | packages/analysis/src/judge_gym/metrics.py:43 | An empty decoded sample makes the histogram fail with Python's division-by-zero error. |
| Metrics.Abs | packages/analysis/src/judge_gym/metrics.py:32 | `np.abs` of one difference. |
| Metrics.AddScore | packages/analysis/src/judge_gym/metrics.py:45-46 | One score adds `w` to its bin when it lies in 1..\|h\|. |
| Metrics.AddSample | packages/analysis/src/judge_gym/metrics.py:42-46 | A sample's scores, added one after the other. |
| Metrics.Zeros | packages/analysis/src/judge_gym/metrics.py:41 | `np.zeros(scale_size)`. |
| Metrics.Histogram | packages/analysis/src/judge_gym/metrics.py:35-47 | The histogram after all samples, each weighted 1/\|scores\|. |
| Metrics.InRange | packages/analysis/src/judge_gym/metrics.py:44-46 | How many of the scores lie in 1..n. |
| Metrics.InRangeWeight | packages/analysis/src/judge_gym/metrics.py:44-46 | Definition: the weight w, once for each score that lies in 1..n. |
| Metrics.Share | packages/analysis/src/judge_gym/metrics.py:43-46 | Definition: the weight a sample puts into the histogram. |
| PilotAggregation.WeightedMeanBounds | packages/analysis/notebooks/pilot_v2.py:1071 | `np.average` with non-negative weights of positive sum lies within any bounds of the values. |
| PilotAggregation.Retained | packages/analysis/notebooks/pilot_v2.py:1019-1021 | The mask keeps at most the input's pairs. |
| PilotAggregation.RetainedNonEmpty | packages/analysis/notebooks/pilot_v2.py:1019-1024 | Something survives the finite mask exactly when some position has both a finite value and a finite weight. |
| PilotAggregation.RetainedWithin | packages/analysis/notebooks/pilot_v2.py:1019-1021 | The retained values come from finite positions, so they obey the same bounds. |
| PilotAggregation.RetainedAllFinite | packages/analysis/notebooks/pilot_v2.py:1019-1021 | With every value and weight finite, every pair is retained. |
| PilotAggregation.SortByValue | packages/analysis/notebooks/pilot_v2.py:1028-1030 | The sort keeps the number of pairs. |
| PilotAggregation.SortByValueCorrect | packages/analysis/notebooks/pilot_v2.py:1028-1030 | The sort orders the pairs by value and is a permutation of them. |
| PilotAggregation.SortKeepsWeight | packages/analysis/notebooks/pilot_v2.py:1028-1033 | Sorting does not change the total weight, so the normalised cumulative curve ends at exactly 1. |
| PilotAggregation.Cdf | packages/analysis/notebooks/pilot_v2.py:1032-1033 | One cumulative point per pair. |
| PilotAggregation.LastAtMost | packages/analysis/notebooks/pilot_v2.py:1034 | The index np.interp starts from: the last abscissa at or below x, with every later one above x, or -1 when none is. |
| PilotAggregation.InterpWithin | packages/analysis/notebooks/pilot_v2.py:1034 | np.interp never leaves the range of the ordinates it interpolates. |
| PilotAggregation.QuantileWithin | packages/analysis/notebooks/pilot_v2.py:1026 | np.quantile with linear interpolation lies within any bounds of the sorted values, for q in [0, 1]. |
| PilotAggregation.WeightedQuantileNaN | packages/analysis/notebooks/pilot_v2.py:1015-1034 | `weighted_quantile` returns a number exactly when some (value, weight) pair is finite, and NaN otherwise. |
| PilotAggregation.WeightedQuantileWithin | packages/analysis/notebooks/pilot_v2.py:1015-1034 | `weighted_quantile` lies between the smallest and the largest retained value, on both the unweighted and the interpolated path. |
| PilotAggregation.RubricWeight | packages/analysis/notebooks/pilot_v2.py:1007-1012 | The rubric weight is never negative; it is 0 or the NaN-skipping mean of the qualities, and equals that mean whenever the mean exists and is not negative. |
| PilotAggregation.RubricWeights | packages/analysis/notebooks/pilot_v2.py:1007-1012 | One non-negative weight for every (tag, rubric) pair that has scores. |
| PilotAggregation.Merge | packages/analysis/notebooks/pilot_v2.py:1042-1049 | The merged table holds only rows of the per-rubric table, at most one per row. |
| PilotAggregation.MergeKeepsUsable | packages/analysis/notebooks/pilot_v2.py:1042-1049 | A row takes part in the aggregation exactly when some combination of its (tag, rubric) has conflict below 0.9, and its weight is never negative. |
| PilotAggregation.GroupOf | packages/analysis/notebooks/pilot_v2.py:1054 | A group holds only merged rows with its own (model, tag, evidence) key. |
| PilotAggregation.EffectiveWeights | packages/analysis/notebooks/pilot_v2.py:1061-1062 | The weights used are the given ones when their sum is positive and all ones otherwise, so on a non-empty group their sum is always positive. |
| PilotAggregation.AggregatePerEvidence | packages/analysis/notebooks/pilot_v2.py:1037-1086 | The loop over the (model, tag, evidence) groups, taken in the order given, returns for every group with merged rows one row per stage (weighted mean, weighted q10 and q90, rubric count, weight sum), in group then stage order, and nothing for a group without rows. |
| PilotAggregation.StageRowBounds | packages/analysis/notebooks/pilot_v2.py:1054-1077 | Every output row of a group: the weight sum is positive, the mean and both quantiles are defined and lie in [0, 1] when the betP values do, and at least one rubric contributes. |
| PilotAggregation.RepeatedRowsShiftQuantile | packages/analysis/notebooks/pilot_v2.py:1072-1073 | Repeating every row, as the per-rubric table does, moves the upper quantile: betP values 0 and 1 with equal weights give q90 = 0.8, the same rows twice over give 1.0. |
| PilotAggregation.Ones | packages/analysis/notebooks/pilot_v2.py:1062 | `np.ones_like(values)`: a weight of 1 per value. |
| PilotAggregation.WeightedMean | packages/analysis/notebooks/pilot_v2.py:1071 | Definition: `np.average(values, weights=weights)`; numpy raises when the weights sum to zero. |
| PilotAggregation.BothFinite | packages/analysis/notebooks/pilot_v2.py:1019 | Definition: the finiteness mask of one (value, weight) pair: both finite. |
| PilotAggregation.WeightSum | packages/analysis/notebooks/pilot_v2.py:1032-1033 | Definition: the total weight of a sequence of pairs. |
| PilotAggregation.Interp | packages/analysis/notebooks/pilot_v2.py:1034 | Definition: `np.interp(x, xp, fp)`: the end values outside the curve, otherwise the straight line between the last point at or below x and the next one. |
| PilotAggregation.Quantile | packages/analysis/notebooks/pilot_v2.py:1026 | Definition: `np.quantile(values, q)` with linear interpolation, on the values in order. |
| PilotAggregation.WeightedQuantile | packages/analysis/notebooks/pilot_v2.py:1015-1034 | Definition: `weighted_quantile(values, weights, q)`; `None` is the NaN returned when no pair is finite. numpy rejects a q outside [0, 1]. |
| PilotAggregation.MeanSkipNaN | packages/analysis/notebooks/pilot_v2.py:1008-1009 | Definition: pandas' mean, which skips NaN and is NaN when nothing is left. |
| PilotAggregation.QualitiesFor | packages/analysis/notebooks/pilot_v2.py:1007-1009 | Definition: the `p_rubric` column of the scores of one (tag, rubric) group, in row order. |
| PilotAggregation.Usable | packages/analysis/notebooks/pilot_v2.py:1042-1044 | Definition: the (tag, rubric) pairs whose combined conflict is below the final threshold. |
| PilotAggregation.RubricIds | packages/analysis/notebooks/pilot_v2.py:1055 | Definition: the distinct rubric ids of a group, whose count is `n_rubrics`. |
| PilotAggregation.StageValues | packages/analysis/notebooks/pilot_v2.py:1058 | The `betP` column of stage s over the group's rows. |
| PilotAggregation.RawWeights | packages/analysis/notebooks/pilot_v2.py:1059 | The `p_rubric` column over the group's rows. |
| PilotAggregation.StageRow | packages/analysis/notebooks/pilot_v2.py:1057-1077 | Definition: the output row of one group for the stage at position s. |
| PilotAggregation.GroupRows | packages/analysis/notebooks/pilot_v2.py:1057-1077 | One output row per stage, in stage order, for one (model, tag, evidence) group. |
| PilotAggregation.AggregateSpec | packages/analysis/notebooks/pilot_v2.py:1037-1086 | Definition: every group in `keys` that has rows, in order, each contributing one row per stage. |
| PilotBootstrap.DominantStage | packages/analysis/notebooks/pilot_v2.py:1460-1467 | The stage loop picks the first stage whose value is strictly above every earlier value and above 0.0, or stage 1 when none is positive. |
| PilotBootstrap.DominantAgreesWithMax | packages/analysis/notebooks/pilot_v2.py:1460-1482 | With non-negative values the bootstrap's winner is the stage Python's `max(stages, key=...)` picks, so point estimate and iterations use one tie rule; with every value zero both pick stages[0]. |
| PilotBootstrap.FlipRate | packages/analysis/notebooks/pilot_v2.py:1481-1483 | The flip rate lies in [0, 1] and is 0 exactly when every iteration picks the point estimate's dominant stage. |
| PilotBootstrap.AbstainRate | packages/analysis/notebooks/pilot_v2.py:1419-1423 | The abstain rate lies in [0, 1], and is 0 for a cell without responses or without abstentions. |
| PilotBootstrap.BootstrapCell | packages/analysis/notebooks/pilot_v2.py:1403-1508 | One cell yields its specified outcome: nothing without responses, a skip record with fewer than two non-abstaining responses, else one row per stage from the point estimate and the N_BOOT resampled combinations. |
| PilotBootstrap.ActiveMasses | packages/analysis/notebooks/pilot_v2.py:1409-1418 | The closed-world masses of the non-abstaining responses, in order, and the number of abstentions. |
| PilotBootstrap.Collect | packages/analysis/notebooks/pilot_v2.py:1437-1467 | The N_BOOT iterations: each column holds that stage's betP of every iteration's normalised combination of the resampled masses, with the conflicts and dominant stages alongside. |
| PilotBootstrap.AppendStageValues | packages/analysis/notebooks/pilot_v2.py:1461-1467 | Each stage's list gains that stage's value, and the dominant stage is the one the first-strict-maximum rule picks. |
| PilotBootstrap.Bootstrap | packages/analysis/notebooks/pilot_v2.py:1393-1510 | The loop over the cells concatenates, in cell order, the rows of every bootstrapped cell and the skip records of every skipped one, as the table specification does. |
| PilotBootstrap.CellSkipRule | packages/analysis/notebooks/pilot_v2.py:1425-1434 | A cell with responses but fewer than two non-abstaining ones is skipped, and its record carries both counts; otherwise it has one row per stage. |
| PilotBootstrap.CellRowBounds | packages/analysis/notebooks/pilot_v2.py:1485-1508 | Every row of a bootstrapped cell: 0 <= flip_rate <= 1, 0 <= abstain_rate <= 1, n_active >= 2, and, when agreements lie in [0, 1], every betP statistic lies in [0, 1]. |
| PilotBootstrap.PointBounds | packages/analysis/notebooks/pilot_v2.py:1469-1479 | The point estimate's betP values lie in [0, 1]. |
| PilotBootstrap.CollectBounds | packages/analysis/notebooks/pilot_v2.py:1441-1467 | Every collected betP value lies in [0, 1]. |
| PilotBootstrap.RowsOfBounds | packages/analysis/notebooks/pilot_v2.py:1485-1508 | The rows of a cell inherit the bounds of its point estimate and of its collected values. |
| PilotBootstrap.DrawBetPBounds | packages/analysis/notebooks/pilot_v2.py:1441-1459 | Each iteration resamples proper masses, so its betP values lie in [0, 1]. |
| PilotBootstrap.IterationDominantIsModal | packages/analysis/notebooks/pilot_v2.py:1460-1482 | With agreements in [0, 1] every iteration's dominant stage follows the same first-maximum rule as the point estimate's, so a flip is a real change of the modal stage and not an artefact of tie-breaking. |
| PilotBootstrap.BestAfter | packages/analysis/notebooks/pilot_v2.py:1460-1466 | Definition: the winner after the loop has looked at the first n stages: it starts at (stages[0], 0.0) and moves only to a strictly larger value. |
| PilotBootstrap.Resample | packages/analysis/notebooks/pilot_v2.py:1442-1443 | The masses the drawn indices pick, in draw order. |
| PilotBootstrap.DrawBetP | packages/analysis/notebooks/pilot_v2.py:1454-1464 | The betP values of one iteration's normalised combination. |
| PilotBootstrap.DrawConflict | packages/analysis/notebooks/pilot_v2.py:1446-1450 | Definition: the conflict m(∅) of one iteration's unnormalised combination. |
| PilotBootstrap.DrawDominant | packages/analysis/notebooks/pilot_v2.py:1460-1467 | Definition: the stage that wins one iteration: the loop's winner over that iteration's betP values. |
| PilotBootstrap.Column | packages/analysis/notebooks/pilot_v2.py:1437-1464 | The betP of stage position t over the first k iterations. |
| PilotBootstrap.Conflicts | packages/analysis/notebooks/pilot_v2.py:1438-1451 | The conflicts of the first k iterations, in order. |
| PilotBootstrap.Dominants | packages/analysis/notebooks/pilot_v2.py:1439-1467 | The winning stages of the first k iterations, in order. |
| PilotBootstrap.Mean | packages/analysis/notebooks/pilot_v2.py:1497 | Definition: `np.mean`: the sum over the count. |
| PilotBootstrap.SortedReals | packages/analysis/notebooks/pilot_v2.py:1498-1499 | The values in ascending order, as `np.percentile` reads them. |
| PilotBootstrap.Percentile | packages/analysis/notebooks/pilot_v2.py:1498-1499 | Definition: `np.percentile(xs, p)` with linear interpolation, for p = 100 q. |
| PilotBootstrap.CountDiffering | packages/analysis/notebooks/pilot_v2.py:1483 | How many iteration winners differ from the point-estimate winner. |
| PilotBootstrap.CellMasses | packages/analysis/notebooks/pilot_v2.py:1409-1416 | Definition: the closed-world masses of a cell's responses, abstentions dropped. |
| PilotBootstrap.CollectSpec | packages/analysis/notebooks/pilot_v2.py:1437-1467 | The three lists the iteration loop collects: per-stage betP columns, conflicts and winners, one entry per draw. |
| PilotBootstrap.PointOf | packages/analysis/notebooks/pilot_v2.py:1469-1479 | The normalised and the unnormalised combination of all masses of a cell, the point estimate. |
| PilotBootstrap.RowsOf | packages/analysis/notebooks/pilot_v2.py:1485-1508 | One output row per stage of a cell, with the point estimate, the mean and 2.5/97.5 percentiles of the draws, the mean conflict and the flip rate. |
| PilotBootstrap.CellOutcome | packages/analysis/notebooks/pilot_v2.py:1418-1508 | Definition: what one cell of the bootstrap loop produces, given its closed-world masses and their point estimate. |
| PilotBootstrap.CellSpec | packages/analysis/notebooks/pilot_v2.py:1403-1508 | Definition: what one cell of the bootstrap loop produces. |
| PilotBootstrap.CellRows | packages/analysis/notebooks/pilot_v2.py:1436-1508 | Definition: the rows of a cell with at least two non-abstaining responses. |
| PilotBootstrap.TablesSpec | packages/analysis/notebooks/pilot_v2.py:1399-1510 | Definition: the bootstrap rows and the skipped cells over every cell, in loop order. |
| PilotCombination.MaxOf | packages/analysis/notebooks/pilot_v2.py:629 | `max(values)`: an element of the list that no element exceeds. |
| PilotCombination.FirstArgMax | packages/analysis/notebooks/pilot_v2.py:630 | The position `max(stages, key=...)` picks: the first maximal value, because Python replaces the running best only on a strictly larger key. |
| PilotCombination.FirstArgMaxIsMax | packages/analysis/notebooks/pilot_v2.py:629-630 | The modal stage carries the maximal value. |
| PilotCombination.OpenRecordsSpec | packages/analysis/notebooks/pilot_v2.py:601-636 | One record per response, in order, each built from the open-world encoding of that response. |
| PilotCombination.OpenRecordsAsWritten | packages/analysis/notebooks/pilot_v2.py:601-636 | The per-response loop as written, with its two appends: the table is every record of the specification repeated twice in a row. |
| PilotCombination.OpenRecordsAsWrittenDoubles | packages/analysis/notebooks/pilot_v2.py:632-634 | The table as written has twice as many rows as there are responses, and rows 2i and 2i+1 both hold the record of response i. |
| PilotCombination.OpenRecords | packages/analysis/notebooks/pilot_v2.py:601-636 | The loop with a single append returns exactly one record per response, in order. |
| PilotCombination.OpenRecordsDoubled | packages/analysis/notebooks/pilot_v2.py:632-634 | A single response yields one row in the intended table but two in the table as written. |
| PilotCombination.OpenRecordBounds | packages/analysis/notebooks/pilot_v2.py:612-630 | Every record's betP values lie in [0, 1] when the agreement probability does. |
| PilotCombination.ClosedRecords | packages/analysis/notebooks/pilot_v2.py:822-858 | Abstentions are skipped; every other response yields its record, in order. |
| PilotCombination.ClosedRecordsCount | packages/analysis/notebooks/pilot_v2.py:822-858 | The closed-world table has one row per non-abstaining response. |
| PilotCombination.CombineOpenWorld | packages/analysis/notebooks/pilot_v2.py:644-694 | One result per non-empty rubric group, in group order, each the summary of the unnormalised conjunctive combination of the group's open-world masses, with betP 0 when the conflict reaches 0.9999. |
| PilotCombination.OpenWorldConflictCap | packages/analysis/notebooks/pilot_v2.py:668-672 | Near-total conflict makes every betP 0.0, so the modal stage is stage 1. |
| PilotCombination.OpenWorldBounds | packages/analysis/notebooks/pilot_v2.py:644-694 | Open world, with every agreement probability in [0, 1]: the combined mass is a proper mass, so the conflict and every betP lie in [0, 1], and the modal stage is the first stage with the largest betP. |
| PilotCombination.CombineClosedWorld | packages/analysis/notebooks/pilot_v2.py:867-924 | One result per rubric group that has a non-abstaining response, with the unnormalised conflict and the summary of the normalised combination, and n_evidence the number of non-abstaining responses. |
| PilotCombination.CollectClosedMasses | packages/analysis/notebooks/pilot_v2.py:879-883 | The inner loop returns exactly the closed-world masses of the group's non-abstaining responses, in order. |
| PilotCombination.ClosedMassesCount | packages/analysis/notebooks/pilot_v2.py:879-887 | The closed-world masses are exactly the encodings of the non-abstaining responses. |
| PilotCombination.ClosedMassesProper | packages/analysis/notebooks/pilot_v2.py:793-819 | Every closed-world mass is proper when the agreement probabilities lie in [0, 1]. |
| PilotCombination.ClosedWorldBounds | packages/analysis/notebooks/pilot_v2.py:867-924 | Closed world: n_evidence counts the non-abstaining responses, and with agreement probabilities in [0, 1] every betP lies in [0, 1]. |
| PilotCombination.BetPs | packages/analysis/notebooks/pilot_v2.py:624-626 | The betP_* columns: the pignistic probability of each stage's singleton, 0 when absent. |
| PilotCombination.Beliefs | packages/analysis/notebooks/pilot_v2.py:684 | The bel_* columns: the belief of each stage's singleton. |
| PilotCombination.Plausibilities | packages/analysis/notebooks/pilot_v2.py:685 | The pl_* columns: the plausibility of each stage's singleton. |
| PilotCombination.Zeros | packages/analysis/notebooks/pilot_v2.py:670 | With the pignistic transform empty every betP column is 0. |
| PilotCombination.Summarise | packages/analysis/notebooks/pilot_v2.py:628-630 | The betP columns with their maximum and the first stage reaching it. |
| PilotCombination.OpenRecord | packages/analysis/notebooks/pilot_v2.py:602-630 | Definition: the record of one response: its own conflict m(∅) and pignistic summary. |
| PilotCombination.DoubleEach | packages/analysis/notebooks/pilot_v2.py:632-634 | Every element twice in a row. |
| PilotCombination.NonAbstained | packages/analysis/notebooks/pilot_v2.py:828-830 | The responses the closed-world loop keeps: those not abstained. |
| PilotCombination.OpenMasses | packages/analysis/notebooks/pilot_v2.py:657 | One open-world mass per response of the rubric, in order. |
| PilotCombination.OpenWorldResult | packages/analysis/notebooks/pilot_v2.py:655-690 | Definition: open world: unnormalised fold; conflict = m(∅); the pignistic cap at 0.9999. |
| PilotCombination.OpenWorldResults | packages/analysis/notebooks/pilot_v2.py:644-694 | Definition: the rubric groups with responses, in order, each with its open-world result. |
| PilotCombination.ClosedMasses | packages/analysis/notebooks/pilot_v2.py:879-883 | The closed-world masses of the non-abstaining responses, in order. |
| PilotCombination.ClosedWorldResult | packages/analysis/notebooks/pilot_v2.py:886-920 | Definition: closed world: conflict from an unnormalised fold, belief, plausibility and betP from a normalised fold of the same masses. |
| PilotCombination.ClosedWorldResults | packages/analysis/notebooks/pilot_v2.py:867-924 | Definition: groups with no non-abstaining response are skipped. |
| PilotEncoders.Stages | packages/analysis/notebooks/pilot_v2.py:599 | The stage list is 1, 2, …, scale_size in order. |
| PilotEncoders.Theta | packages/analysis/notebooks/pilot_v2.py:561 | The frame holds exactly the stages 1..scale_size. |
| PilotEncoders.Probe | packages/analysis/notebooks/pilot_v2.py:573 | A missing or zero agreement probability reads as 1.0; any other value is kept. |
| PilotEncoders.ResponseToMassCases | packages/analysis/notebooks/pilot_v2.py:564-595 | The three cases of the open-world encoder over a non-empty frame: an abstention puts p on the empty set and 1 - p on Θ; the full frame puts p on Θ and 1 - p on the empty set; any other verdict puts p on itself and 1 - p on Θ. |
| PilotEncoders.ResponseToMassTotal | packages/analysis/notebooks/pilot_v2.py:564-595 | Every open-world mass has two distinct keys and sums to 1. |
| PilotEncoders.ResponseToMassClosedCases | packages/analysis/notebooks/pilot_v2.py:793-819 | The closed-world encoder drops an abstention (None), gives the full frame pure ignorance (mass 1 on Θ), and encodes any other verdict as the open world does. |
| PilotEncoders.ResponseToMassClosedTotal | packages/analysis/notebooks/pilot_v2.py:793-819 | Every closed-world mass sums to 1 and has no empty key when the verdict is non-empty. |
| PilotEncoders.Verdict | packages/analysis/notebooks/pilot_v2.py:564-595 | Definition: `frozenset(int(s) for s in row["decodedScores"])`. |
| PilotEncoders.ResponseToMass | packages/analysis/notebooks/pilot_v2.py:564-595 | Definition: response_to_mass: the open-world (TBM) encoder. |
| PilotEncoders.ResponseToMassClosed | packages/analysis/notebooks/pilot_v2.py:793-819 | Definition: response_to_mass_closed: None for an abstention. |
| Providers.ModelById | packages/engine/convex/platform/providers/provider_types.ts:55-57 | The four MODELS entries for their ids; any other id reads undefined, and reading a field of it fails. |
| Providers.IsBatchableModel | packages/engine/convex/platform/providers/provider_types.ts:59-61 | True for gpt-4.1, gpt-4.1-mini and gpt-5.2, false for gpt-5.2-chat, a failure for an unknown id. |
| Providers.ProviderForModel | packages/engine/convex/platform/providers/provider_types.ts:63-65 | openai for every known model, a failure for an unknown id. |
| Providers.OnlyChatIsUnbatchable | packages/engine/convex/platform/providers/provider_types.ts:21-42 | Exactly one known model, gpt-5.2-chat, is not batchable. |
| Providers.EveryModelIsOpenAI | packages/engine/convex/platform/providers/provider_types.ts:21-42 | Every known model's provider is openai. |
| Providers.RateLimitKey | packages/engine/convex/platform/providers/provider_types.ts:75-82 | The key is the model, a colon, then "batch_" in batch scope, then the metric name; job scope is the default. |
| Providers.SuffixDetermines | packages/engine/convex/platform/providers/provider_types.ts:75-82 | The part after the model and colon determines scope and metric. |
| Providers.RateLimitKeyInjective | packages/engine/convex/platform/providers/provider_types.ts:75-82 | For models without a colon, a key determines its model, metric and scope. |
| Providers.RateLimitKeysForModel | packages/engine/convex/platform/providers/provider_types.ts:84-97 | The requests, input-token and output-token keys of the model in the scope, pairwise different. |
| Providers.Distinct | packages/engine/convex/platform/providers/provider_types.ts:75-82 | Different metrics in one scope give different suffixes. |
| Providers.ScopesSeparate | packages/engine/convex/platform/providers/provider_types.ts:84-97 | Job-scope and batch-scope keys never coincide. |
| Providers.MetricName | packages/engine/convex/platform/providers/provider_types.ts:72 | Definition: the metric component of a rate-limit key. |
| Providers.ScopePrefix | packages/engine/convex/platform/providers/provider_types.ts:79 | Definition: the scope prefix of a rate-limit key. |
| RegexScan.Exec | packages/engine/convex/domain/runs/run_parsers.ts:117 | `regex.exec(s)` with `lastIndex == from`: the match at the first position that has one. |
| RegexScan.LastMatch | packages/engine/convex/domain/runs/run_parsers.ts:113-122 | The exec loop, started with lastIndex 0, returns the specified last hit: each exec resumes at the end of the previous match (LastMatchCorrect). |
| RegexScan.ExecFirst | packages/engine/convex/domain/runs/run_parsers.ts:117 | `exec` returns the first matching position at or after `from`, and finds one whenever there is one. |
| RegexScan.LastHitIsLast | packages/engine/convex/domain/runs/run_parsers.ts:113-122 | The loop ends on a match after which no position matches. |
| RegexScan.LastMatchCorrect | packages/engine/convex/domain/runs/run_parsers.ts:113-122 | The loop finds nothing iff the pattern matches nowhere; otherwise it ends on a match after whose end the pattern matches nowhere. |
| RegexScan.LastHitInside | packages/engine/convex/domain/runs/run_parsers.ts:113-125 | The last match lies inside the text and is what the pattern gives at its index. |
| RegexScan.ExecNone | packages/engine/convex/domain/runs/run_parsers.ts:117 | `exec` finds nothing when no position from `from` on matches. |
| RegexScan.LastHit | packages/engine/convex/domain/runs/run_parsers.ts:113-125 | Definition: the last match of the global loop, started at `from` with `last` found so far. |
| ResponsePatterns.VerdictAt | packages/engine/convex/domain/runs/run_parsers.ts:111 | After the marker, `\s*` takes the whole run of whitespace when a character follows it (that character is not a line terminator); at the end of the text it gives back characters until `.+` can start on one that is not a line terminator. The group then runs to the end of the line. |
| ResponsePatterns.VerdictProgressing | packages/engine/convex/domain/runs/run_parsers.ts:113-119 | Every VERDICT match ends after it starts, so the exec loop moves forward. |
| ResponsePatterns.NumberEnd | packages/engine/convex/domain/runs/run_parsers.ts:84-85 | Where `[01](?:\.\d+)?` ends when it starts at i: the fraction is taken whenever a digit follows the point. |
| ResponsePatterns.NumeralValue | packages/engine/convex/domain/runs/run_parsers.ts:57-58 | `Number(g)` (equally `parseFloat(g)`) on such a numeral, as an exact real. |
| ResponsePatterns.NumeralNumber | packages/engine/convex/domain/runs/run_parsers.ts:57-64 | `Number(g)` and `parseFloat(g)`: the numeral's value, `None` standing for `NaN`, which a numeral never gives. |
| ResponsePatterns.QualityAt | packages/engine/convex/domain/runs/run_parsers.ts:84-85 | A match starts at the position, ends inside the text, follows a case-insensitive QUALITY:, and both groups are numerals of the form [01](.digits). |
| ResponsePatterns.QualityProgressing | packages/engine/convex/domain/runs/run_parsers.ts:86-91 | Every QUALITY match ends after it starts, so the exec loop moves forward. |
| ResponsePatterns.ExpertAgreementAt | packages/engine/convex/domain/runs/run_parsers.ts:224 | A match starts at the position, ends inside the text, follows a case-insensitive EXPERT_AGREEMENT:, and its group is a numeral of the form [01](.digits). |
| ResponsePatterns.ExpertAgreementProgressing | packages/engine/convex/domain/runs/run_parsers.ts:225-230 | Every EXPERT_AGREEMENT match ends after it starts, so the exec loop moves forward. |
| ResponsePatterns.RubricBody | packages/engine/convex/domain/runs/run_parsers.ts:8 | `RUBRIC:` at q, then `\s*\n`: the whitespace run must hold a newline; the last one that leaves a non-empty remainder ends it, and the group is the rest of the text. |
| ResponsePatterns.RubricMarkerAt | packages/engine/convex/domain/runs/run_parsers.ts:8 | `^` holds only at 0; otherwise the marker follows a newline at p. |
| ResponsePatterns.RubricMarkerProgressing | packages/engine/convex/domain/runs/run_parsers.ts:8 | Every RUBRIC match ends after it starts. |
| ResponsePatterns.CriteriaAt | packages/engine/convex/domain/runs/run_parsers.ts:25 | What follows the label from b: `\s*::\s*(.+)$`. The group must reach the end of the line without a line terminator; when the line ends in the whitespace after `::`, the second `\s*` gives back one character. |
| ResponsePatterns.LazyLabel | packages/engine/convex/domain/runs/run_parsers.ts:25 | The lazy label `.+?` from a: the shortest extension, over non-terminators, after which the criteria match. |
| ResponsePatterns.LabelSearch | packages/engine/convex/domain/runs/run_parsers.ts:25 | The whitespace after `)` is tried from the longest run down to none. |
| ResponsePatterns.RubricLineGroups | packages/engine/convex/domain/runs/run_parsers.ts:25 | The label and criteria groups of a rubric line, if it has the form `N) label :: criteria`. |
| ResponsePatterns.TokenAt | packages/engine/convex/domain/runs/run_parsers.ts:148 | A token match starts at the position, ends inside the text, and is a non-empty run of ASCII letters and digits. |
| ResponsePatterns.FirstToken | packages/engine/convex/domain/runs/run_parsers.ts:148 | `s.match(/[A-Za-z0-9]+/)`: the first maximal run of ASCII letters and digits, if there is one. |
| ResponsePatterns.LastNonTerminator | packages/engine/convex/domain/runs/run_parsers.ts:111 | The largest r in [lo, hi) with a character `.` matches, if any. |
| ResponsePatterns.IsUnitNumeral | packages/engine/convex/domain/runs/run_parsers.ts:224 | Definition: a numeral `0`, `1`, `0.ddd` or `1.ddd`. |
| ResponsePatterns.LastInnerNewline | packages/engine/convex/domain/runs/run_parsers.ts:8 | The largest j in [lo, hi) holding a newline that is not the last character of s. |
| RubricParsers.StagesOf | packages/engine/convex/domain/runs/run_parsers.ts:24-40 | `lines.map(...)`: the first line that fails decides the error. |
| RubricParsers.Numbered | packages/engine/convex/domain/runs/run_parsers.ts:39 | One numbered stage per stage, stage i numbered i + 1, with its label and criteria. |
| RubricParsers.StageOfSpec | packages/engine/convex/domain/runs/run_parsers.ts:25-38 | A line gives a stage exactly when it has the `N) label :: criteria` form and three to five criteria. |
| RubricParsers.StageWellFormed | packages/engine/convex/domain/runs/run_parsers.ts:29-38 | The trimmed label and the trimmed non-blank `;`-pieces of a line form a well-formed stage when there are three to five. |
| RubricParsers.StagesOfSpec | packages/engine/convex/domain/runs/run_parsers.ts:24-40 | The stages are the lines' stages, in order; the first bad line is the error. |
| RubricParsers.StagesOfSucceeds | packages/engine/convex/domain/runs/run_parsers.ts:24-40 | The block parses exactly when every line does. |
| RubricParsers.StagesOfValues | packages/engine/convex/domain/runs/run_parsers.ts:24-40 | Each stage of a parsed block is the stage of its own line. |
| RubricParsers.RubricOfSpec | packages/engine/convex/utils/rubric_parser.ts:1-49 | No marker, only whitespace before it, a bad line or the wrong number of stages is an error, and nothing else is. |
| RubricParsers.RubricOfStages | packages/engine/convex/utils/rubric_parser.ts:1-49 | A rubric has scaleSize well-formed stages, one per non-blank line of the block, and the trimmed text before the marker as its reasoning. |
| RubricParsers.RubricOfParts | packages/engine/convex/utils/rubric_parser.ts:8-48 | What a successful parse is made of: the trimmed reasoning and the parsed block. |
| RubricParsers.StagesWellFormed | packages/engine/convex/utils/rubric_parser.ts:24-40 | Every stage of a successfully parsed block is its line's stage, and well formed. |
| RubricParsers.NumberedRubricOfSpec | packages/engine/convex/domain/runs/run_parsers.ts:1-49 | `run_parsers.ts` numbers the same stages 1, 2, … in order and fails exactly when the others do. |
| RubricParsers.Clamp01 | packages/engine/convex/domain/runs/run_parsers.ts:73-77 | The value when it lies in [0, 1], 0 below and 1 above. |
| RubricParsers.Clamp01Idempotent | packages/engine/convex/domain/runs/run_parsers.ts:73-77 | Clamping a clamped value changes nothing. |
| RubricParsers.LastQualityHit | packages/engine/convex/domain/runs/run_parsers.ts:84-91 | The last QUALITY match of the `while (regex.exec(raw))` loop. |
| RubricParsers.LastQuality | packages/engine/convex/domain/runs/run_parsers.ts:79-100 | The last match starts inside the response and both of its groups are numerals of the form [01](.digits). |
| RubricParsers.FindLastQualityMatch | packages/engine/convex/domain/runs/run_parsers.ts:79-100 | The loop's result is the last QUALITY match, whose cases LastQualitySpec gives. |
| RubricParsers.ExtractReasoningBeforeQuality | packages/engine/convex/domain/runs/run_parsers.ts:102-109 | The result is the reasoning before the last match, whose cases ReasoningBeforeQualitySpec gives. |
| RubricParsers.ParseQualityResponse | packages/engine/convex/domain/runs/run_parsers.ts:51-71 | The result is the QUALITY parse, whose cases QualityOfSpec and QualityOfScores give. |
| RubricParsers.QualityOfSpec | packages/engine/convex/domain/runs/run_parsers.ts:51-71 | The response fails exactly when there is no QUALITY match or only whitespace precedes the last one. |
| RubricParsers.QualityOfScores | packages/engine/convex/domain/runs/run_parsers.ts:51-71 | The scores come from the last QUALITY match, never read as NaN, and are clamped into [0, 1]; the reasoning is the trimmed text before that match. |
| RubricParsers.ReasoningBeforeQualitySpec | packages/engine/convex/domain/runs/run_parsers.ts:102-109 | The reasoning is the trimmed text before the last match, and it fails when that is only whitespace. |
| RubricParsers.LastQualitySpec | packages/engine/convex/domain/runs/run_parsers.ts:79-100 | The QUALITY match used is one after which no other starts; without one the parse fails. |
| RubricParsers.FirstQualityOfSpec | packages/engine/convex/utils/rubric_parser.ts:51-73 | The first QUALITY match is used: the scores are its two numerals, clamped; the only error is a response without a match. |
| RubricParsers.FirstQualityHit | packages/engine/convex/utils/rubric_parser.ts:55-60 | The first QUALITY match is one before which none starts; there is none only when no position matches. |
| RubricParsers.SingleQualityMatch | packages/engine/convex/utils/rubric_parser.ts:51-73 | The last-match parser agrees with the first-match one on a response with a single QUALITY match. |
| RubricParsers.StageOf | packages/engine/convex/utils/rubric_parser.ts:1-49 | Definition: one non-blank rubric line, in the `lines.map` callback. |
| RubricParsers.BlockLines | packages/engine/convex/utils/rubric_parser.ts:8-48 | Definition: the trimmed, non-blank lines of the rubric block. |
| RubricParsers.RubricMarker | packages/engine/convex/utils/rubric_parser.ts:8-48 | Definition: `raw.match(/(?:^\|\n)RUBRIC:\s*\n([\s\S]+)$/i)`. |
| RubricParsers.RubricOf | packages/engine/convex/domain/runs/run_parsers.ts:1-49 | Definition: parseRubricResponse of the two `rubric_parser.ts` files. |
| RubricParsers.NumberedRubricOf | packages/engine/convex/domain/runs/run_parsers.ts:1-49 | Definition: parseRubricResponse of `run_parsers.ts`. |
| RubricParsers.WellFormedStage | packages/engine/convex/utils/rubric_parser.ts:1-49 | Definition: every stage has a trimmed label and three to five trimmed, non-empty criteria without `;`. |
| RubricParsers.ReasoningBeforeQuality | packages/engine/convex/domain/runs/run_parsers.ts:102-109 | Definition: `extractReasoningBeforeQuality`: the trimmed text before the last quality line, a failure when there is none or it is blank. |
| RubricParsers.QualityOf | packages/engine/convex/domain/runs/run_parsers.ts:51-71 | Definition: `parseQualityResponse`: the last quality value clamped to [0, 1], a failure without one. |
| RubricParsers.FirstQualityOf | packages/engine/convex/utils/rubric_parser.ts:51-73 | Definition: the unified parser's quality: the first match, clamped, a failure without one. |
| RunEntrypoints.FirstRow | packages/engine/convex/domain/runs/runs_entrypoints.ts:347 | The first stage row of the run with that stage, when there is one. |
| RunEntrypoints.OrderedMembers | packages/engine/convex/domain/runs/runs_entrypoints.ts:343-345 | The stage list keeps `STAGE_ORDER`'s order and holds exactly the stages the run has rows for. |
| RunEntrypoints.FirstOpenOrLastCases | packages/engine/convex/domain/runs/runs_entrypoints.ts:346-352 | The first open stage, or the last one when every stage is complete. |
| RunEntrypoints.CurrentStageCases | packages/engine/convex/domain/runs/runs_entrypoints.ts:334-353 | A set current stage is kept. Otherwise the answer is a stage of `STAGE_ORDER` the run has a row for, every stage before it in the run's ordered list is complete, and it is either open itself or the last of the list; there is none only when the run has no row for any stage of `STAGE_ORDER`. |
| RunEntrypoints.UpdateRunCases | packages/engine/convex/domain/runs/runs_entrypoints.ts:119-161 | Every update records the desired state and the time; a pause stops at the resolved stage (when there is one) and keeps a canceled run canceled, leaving it running otherwise; resuming clears the stop stage and runs; canceling cancels and keeps the stop stage. |
| RunEntrypoints.PendingIds | packages/engine/convex/domain/runs/runs_entrypoints.ts:229-233 | The runs of an experiment with status "pending", in table order. |
| RunEntrypoints.NewStageRows | packages/engine/convex/domain/runs/runs_entrypoints.ts:253-262 | One pending row per listed stage, in its order, for the run, with zero counts and the time. |
| RunEntrypoints.Activate | packages/engine/convex/domain/runs/runs_entrypoints.ts:272-297 | The patch to running, then the default stage rows when the run has none. |
| RunEntrypoints.MarkSeeded | packages/engine/convex/domain/runs/runs_entrypoints.ts:308-312 | Marking a run seeded logs exactly one seeding call for it, changes no other run and no stage row. |
| RunEntrypoints.StepTables | packages/engine/convex/domain/runs/runs_entrypoints.ts:272-313 | The tables after visiting one run: activated, then marked seeded when it is seeded now. |
| RunEntrypoints.StepFacts | packages/engine/convex/domain/runs/runs_entrypoints.ts:272-313 | The visited run is running; unless the step fails it has a seeding time and keeps or gains stage rows; other runs keep their stage rows. |
| RunEntrypoints.StageRowsAfterActivate | packages/engine/convex/domain/runs/runs_entrypoints.ts:279-297 | Activation leaves the stage rows of other runs alone and gives this run its rows when it had none. |
| RunEntrypoints.NewRowsPresent | packages/engine/convex/domain/runs/runs_entrypoints.ts:263-265 | Appending a run's new stage rows adds one row of that run per stage. |
| RunEntrypoints.StartFrom | packages/engine/convex/domain/runs/runs_entrypoints.ts:271-315 | The loop over the runs to start, from the given point. A seeding that throws ends the loop with its message; the writes made before it stay. |
| RunEntrypoints.Unseeded | packages/engine/convex/domain/runs/runs_entrypoints.ts:299 | Which of the listed runs have no seeding time. |
| RunEntrypoints.StartFromLog | packages/engine/convex/domain/runs/runs_entrypoints.ts:299-307 | A pass adds exactly the seeding calls of `SeedList` to the log. |
| RunEntrypoints.StartFromError | packages/engine/convex/domain/runs/runs_entrypoints.ts:299-331 | A pass fails exactly when some listed run without a seeding time has a seeding that throws. |
| RunEntrypoints.SeedListListed | packages/engine/convex/domain/runs/runs_entrypoints.ts:299-307 | Every seeding call is for a listed run of this experiment that needed one. |
| RunEntrypoints.SeedListOrdered | packages/engine/convex/domain/runs/runs_entrypoints.ts:271-315 | The seeding calls follow the list's order, so no run is seeded twice. |
| RunEntrypoints.SeedListAll | packages/engine/convex/domain/runs/runs_entrypoints.ts:299-313 | Without a failing seeding, every listed run that needed seeding gets its call. |
| RunEntrypoints.StartFromKeeps | packages/engine/convex/domain/runs/runs_entrypoints.ts:271-315 | A run later in the list is untouched by visiting an earlier one, so a run visited earlier keeps its state and its stage rows through the rest of the loop. |
| RunEntrypoints.StartFromVisited | packages/engine/convex/domain/runs/runs_entrypoints.ts:271-315 | After a pass that does not fail, the k-th listed run is running, keeps its seeding time or has `now` as a new one, and has stage rows when it had some or the stage list is not empty. |
| RunEntrypoints.Prepared | packages/engine/convex/domain/runs/runs_entrypoints.ts:235-269 | The tables before the loop: with the new run and its stage rows when none is pending. |
| RunEntrypoints.StartIds | packages/engine/convex/domain/runs/runs_entrypoints.ts:229-269 | The runs the loop starts: the pending ones, or the new one. |
| RunEntrypoints.StartOutcomes | packages/engine/convex/domain/runs/runs_entrypoints.ts:197-332 | How a start ends: an unknown experiment or a failed preflight reports its error and changes nothing; otherwise a run is created exactly when the experiment had no pending run, the started runs are the pending ones or the new one alone, and the start fails exactly when the seeding of one of them throws. |
| RunEntrypoints.StartSeedsOnce | packages/engine/convex/domain/runs/runs_entrypoints.ts:271-315 | Rubric seeding happens at most once per run: a start seeds only runs without a seeding time, each once; on success every started run is running, has been seeded (now or before) and has stage rows when the stage list is not empty. |
| RunEntrypoints.StartSucceeds | packages/engine/convex/domain/runs/runs_entrypoints.ts:271-327 | On success every started run is running, was seeded now or before (and every one that needed it got its seeding call), and has stage rows when the stage list is not empty. |
| RunEntrypoints.StartTwiceSeedsOnce | packages/engine/convex/domain/runs/runs_entrypoints.ts:299-313 | Starting twice seeds a run at most once: a run the first start seeded or found seeded (at a non-zero time) gets no seeding call from a second start. |
| RunEntrypoints.RunTables.ResolveCurrentStage | packages/engine/convex/domain/runs/runs_entrypoints.ts:334-353 | The walk returns the specified current stage: the run's own, or the first open stage of `STAGE_ORDER` with a row, or the last (CurrentStageCases). |
| RunEntrypoints.RunTables.UpdateRunState | packages/engine/convex/domain/runs/runs_entrypoints.ts:119-161 | An unknown run throws "Run not found" and changes nothing; a known run gets exactly the update UpdateRunCases describes, and only a resume ensures the scheduler; stage rows and seedings stay. |
| RunEntrypoints.RunTables.SetRunCurrentStage | packages/engine/convex/domain/runs/runs_entrypoints.ts:182-195 | An unknown run is an error and changes nothing; otherwise only that run's current stage and update time change. |
| RunEntrypoints.RunTables.MarkStageProgress | packages/engine/convex/domain/runs/runs_entrypoints.ts:163-180 | An unknown row is an error and changes nothing; otherwise the row gets the new status and time, each count or batch id given replaces the old one, and the rest of the row and all other rows stay. |
| RunEntrypoints.RunTables.InsertStageRows | packages/engine/convex/domain/runs/runs_entrypoints.ts:253-265 | The stage table gains exactly the new pending rows of NewStageRows, one per listed stage; runs and seedings stay. |
| RunEntrypoints.RunTables.HasNoStageRows | packages/engine/convex/domain/runs/runs_entrypoints.ts:279-283 | True exactly when the run has no stage row. |
| RunEntrypoints.RunTables.StartOne | packages/engine/convex/domain/runs/runs_entrypoints.ts:272-315 | One visit ends in the tables of StepTables (whose effects StepFacts gives) and reports the seeding's error exactly when that seeding fails. |
| RunEntrypoints.RunTables.QueryPending | packages/engine/convex/domain/runs/runs_entrypoints.ts:229-233 | Exactly the experiment's pending runs, in table order. |
| RunEntrypoints.RunTables.StartRuns | packages/engine/convex/domain/runs/runs_entrypoints.ts:271-315 | The loop ends in the tables and the error of StartFrom, whose log, error and per-run effects StartFromLog, StartFromError and StartFromVisited give. |
| RunEntrypoints.RunTables.InsertRun | packages/engine/convex/domain/runs/runs_entrypoints.ts:236-269 | The new run is appended at the next id, its pending stage rows after the existing rows; no seeding is logged. |
| RunEntrypoints.RunTables.StartExperimentInternal | packages/engine/convex/domain/runs/runs_entrypoints.ts:197-332 | The tables and outcome are those of StartSpec (StartOutcomes, StartSeedsOnce, StartSucceeds); the scheduler is ensured exactly when runs were started and is untouched otherwise. |
| RunEntrypoints.RunTables.CreateRun | packages/engine/convex/domain/runs/runs_entrypoints.ts:29-49 | A start that created a run returns its id with the started tables; a start that only reused pending runs, or failed, returns an error and rolls back every write, the scheduler included. |
| RunEntrypoints.TruthyTime | packages/engine/convex/domain/runs/runs_entrypoints.ts:299 | Definition: truthy: present and not 0. |
| RunEntrypoints.TruthyString | packages/engine/convex/domain/runs/runs_entrypoints.ts:338 | Definition: truthy: present and non-empty. |
| RunEntrypoints.HasRow | packages/engine/convex/domain/runs/runs_entrypoints.ts:343-345 | Definition: whether a run has a stage row for a stage. |
| RunEntrypoints.Open | packages/engine/convex/domain/runs/runs_entrypoints.ts:347-350 | Definition: a present stage is open unless its first row is complete. |
| RunEntrypoints.Ordered | packages/engine/convex/domain/runs/runs_entrypoints.ts:343-345 | Definition: `STAGE_ORDER.filter((stage) => stages.some((row) => row.stage === stage))`. |
| RunEntrypoints.FirstOpenOrLast | packages/engine/convex/domain/runs/runs_entrypoints.ts:346-352 | Definition: the first open stage of the list, or else its last stage, or nothing for an empty list. |
| RunEntrypoints.CurrentStage | packages/engine/convex/domain/runs/runs_entrypoints.ts:334-353 | Definition: `resolveCurrentStage(ctx, run)`. |
| RunEntrypoints.DesiredName | packages/engine/convex/domain/runs/runs_entrypoints.ts:122 | Definition: the three desired states as the schema spells them: running, paused, canceled. |
| RunEntrypoints.UpdateRun | packages/engine/convex/domain/runs/runs_entrypoints.ts:129-152 | Definition: the patch `updateRunState` applies to a run, given the stage a pause resolves to. |
| RunEntrypoints.NewRun | packages/engine/convex/domain/runs/runs_entrypoints.ts:237-250 | Definition: the run a start inserts when the experiment has no pending run. |
| RunEntrypoints.SeedList | packages/engine/convex/domain/runs/runs_entrypoints.ts:299-313 | Definition: the seeding calls a pass makes, given which runs need seeding: one per such run, in order, up to the first one that throws. |
| RunEntrypoints.StartSpec | packages/engine/convex/domain/runs/runs_entrypoints.ts:197-332 | Definition: `startExperimentInternal`: an unknown experiment or a failed preflight changes nothing; otherwise the pending runs (or one new run) are started, and the scheduler is ensured once every run was started. |
| RunPolicies.MergeNothing | packages/engine/convex/utils/policy.ts:4-14 | An empty override changes nothing, just as no override does. |
| RunPolicies.MergeCompose | packages/engine/convex/utils/policy.ts:4-14 | Merging twice in a row is merging once with the combined override. |
| RunPolicies.MergeIdempotent | packages/engine/convex/utils/policy.ts:4-14 | Applying the same override again changes nothing. |
| RunPolicies.MergeValid | packages/engine/convex/models/core.ts:143-162 | A valid override of a valid policy is valid, so `parse` accepts it. |
| RunPolicies.ApplyLayersCombined | packages/engine/convex/utils/policy.ts:16-35 | Layer-by-layer merging is one merge with the combined override: the later layer wins field-wise. |
| RunPolicies.ApplyLayersValid | packages/engine/convex/utils/policy.ts:16-37 | Layers that each respect the schema keep a valid global policy valid. |
| RunPolicies.ApplyLayersAppend | packages/engine/convex/utils/policy.ts:16-35 | Merging one list of layers and then another is merging their concatenation. |
| RunPolicies.ApplyOptional | packages/engine/convex/utils/policy.ts:24-35 | Merging no layer keeps the base; merging one layer is a single merge with it. |
| RunPolicies.ResolveRunPolicy | packages/engine/convex/utils/policy.ts:16-37 | The global policy merged with the team, provider, model and experiment layers that exist, in that order, then checked against the schema; a failed check is an error. |
| RunPolicies.ResolveIgnoresMissing | packages/engine/convex/utils/policy.ts:24-32 | A selector with no table entry contributes nothing, exactly as if it were not given. |
| RunPolicies.ResolveValid | packages/engine/convex/utils/policy.ts:16-37 | With a valid global policy and valid overrides resolution never fails. |
| RunPolicies.AllowsModel | packages/engine/convex/utils/policy.ts:39-47 | True exactly when some spec names the provider and lists the model. |
| RunPolicies.AllowsOtherProvider | packages/engine/convex/utils/policy.ts:39-47 | Adding a spec for another provider does not change what a provider may run. |
| RunPolicies.ValidProviderModels | packages/engine/convex/models/core.ts:154-161 | Definition: at least one spec, each with a known provider and at least one known model. |
| RunPolicies.ValidPolicy | packages/engine/convex/models/core.ts:143-162 | Definition: what `RunPolicySchema.parse` accepts. |
| RunPolicies.ValidOverride | packages/engine/convex/models/core.ts:143-162 | Definition: every field an override sets lies within the schema's bounds. |
| RunPolicies.Pick | packages/engine/convex/utils/policy.ts:9-11 | Definition: the value a spread gives one field: the override's when it sets one. |
| RunPolicies.PickOpt | packages/engine/convex/utils/policy.ts:9-11 | Definition: the same for a field that is itself optional. |
| RunPolicies.Merge | packages/engine/convex/utils/policy.ts:4-14 | Definition: `mergeRunPolicy`: no override gives the base; otherwise `{...base, ...override}`. |
| RunPolicies.Combine | packages/engine/convex/utils/policy.ts:9-12 | Definition: one override applied after another, as a single override: the later one wins each field. |
| RunPolicies.Selects | packages/engine/convex/utils/policy.ts:24-31 | Definition: a selector given and truthy (a non-empty string), whose table has an entry for it. |
| RunPolicies.TeamLayer | packages/engine/convex/utils/policy.ts:24-26 | Definition: the team layer, when it applies. |
| RunPolicies.ProviderLayer | packages/engine/convex/utils/policy.ts:27-29 | Definition: the provider layer, when a provider is given and its table has an entry for it. |
| RunPolicies.ModelLayer | packages/engine/convex/utils/policy.ts:30-32 | Definition: the model layer, when a model is given and its table has an entry for it. |
| RunPolicies.ExperimentLayer | packages/engine/convex/utils/policy.ts:33-35 | Definition: the experiment layer, when one is set. |
| RunPolicies.Layers | packages/engine/convex/utils/policy.ts:23-35 | Definition: the overrides that apply, in the order they are applied. |
| RunPolicies.ApplyLayers | packages/engine/convex/utils/policy.ts:23-35 | Definition: merging each override in turn. |
| RunPolicies.CombineAll | packages/engine/convex/utils/policy.ts:23-35 | Definition: all the overrides as one, each field taken from the last layer that sets it. |
| RunPolicies.Resolved | packages/engine/convex/utils/policy.ts:22-35 | Definition: the policy `resolveRunPolicy` builds before it validates it. |
| RunPolicies.PolicyAllowsModel | packages/engine/convex/utils/policy.ts:39-47 | Definition: `policyAllowsModel`: whether some spec of the policy names the provider and lists the model. |
| RunPrompts.InvertWithin | packages/engine/convex/domain/runs/run_prompts.ts:33-41 | `new Array(stageCount)` filled by `tokens[stage - 1] = token` for the stages in 1..stageCount, the last entry for a stage winning. A length outside 0..2^32-1 throws a `RangeError`. The closing `.map` skips the array's holes, so its letter fallback is never applied: an unfilled slot stays a hole (`None`). |
| RunPrompts.InvertLabelMapping | packages/engine/convex/domain/runs/run_prompts.ts:33-41 | The loop's array is the inversion InvertWithin describes, whose slots InvertWithinSlots gives. |
| RunPrompts.LabelTokensFromMapping | packages/engine/convex/domain/runs/run_prompts.ts:193-198 | The same inversion as invertLabelMapping, holes and `RangeError` included (InvertWithinSlots). |
| RunPrompts.InvertWithinSlots | packages/engine/convex/domain/runs/run_prompts.ts:33-41 | Slot k holds the token of the last entry for stage k + 1, and is a hole exactly when no entry names that stage: holes are not filled with letters. |
| RunPrompts.InvertWithinPlaces | packages/engine/convex/domain/runs/run_prompts.ts:35-39 | A token lands at its stage less one when no later entry has the same stage. |
| RunPrompts.InvertIgnoresOutOfRange | packages/engine/convex/domain/runs/run_prompts.ts:36-38 | An entry whose stage is outside 1..stageCount changes nothing. |
| RunPrompts.InvertAgreesWithMax | packages/engine/convex/domain/runs/run_prompts.ts:33-41 | When the largest stage is the stage count, this inversion and the one sized by the largest stage (`experiments_scoring_prompts.ts`) agree. |
| RunPrompts.InvertGeneratedWithin | packages/engine/convex/domain/runs/run_prompts.ts:33-41 | The mapping generated for a scale of n inverts with no holes, each letter at its score less one. |
| RunPrompts.Midpoint | packages/engine/convex/domain/runs/run_prompts.ts:48 | ⌈n/2⌉ exactly for odd n, none for even or negative n. |
| RunPrompts.DesignLine | packages/engine/convex/domain/runs/run_prompts.ts:55 | The design line never ends on a quote. |
| RunPrompts.ExactlyLine | packages/engine/convex/domain/runs/run_prompts.ts:57 | The size line never ends on a quote. |
| RunPrompts.StrengthLine | packages/engine/convex/domain/runs/run_prompts.ts:58 | The strength line never ends on a quote. |
| RunPrompts.TemplateLine | packages/engine/convex/domain/runs/run_prompts.ts:70 | The template line never ends on a quote. |
| RunPrompts.MidpointLineQuoted | packages/engine/convex/domain/runs/run_prompts.ts:60 | The midpoint rule ends on a quote. |
| RunPrompts.MidpointRule | packages/engine/convex/domain/runs/run_prompts.ts:59-63 | The midpoint rule closes on a quote exactly when the size is odd. |
| RunPrompts.RubricGenLines | packages/engine/convex/domain/runs/run_prompts.ts:50-70 | The generator prompt has thirteen lines. |
| RunPrompts.GenHeadLines | packages/engine/convex/domain/runs/run_prompts.ts:51-58 | Five lines precede the midpoint rule. |
| RunPrompts.GenTailLines | packages/engine/convex/domain/runs/run_prompts.ts:64-70 | Seven lines follow it. |
| RunPrompts.HeadUnquoted | packages/engine/convex/domain/runs/run_prompts.ts:51-58 | No line before the midpoint rule ends on a quote. |
| RunPrompts.TailUnquoted | packages/engine/convex/domain/runs/run_prompts.ts:64-70 | No line after the midpoint rule ends on a quote. |
| RunPrompts.FixedLinesUnquoted | packages/engine/convex/domain/runs/run_prompts.ts:50-70 | None of the fixed lines closes on a quote. |
| RunPrompts.OnlyMidpointLineQuoted | packages/engine/convex/domain/runs/run_prompts.ts:50-70 | Only the midpoint rule can close on a quote. |
| RunPrompts.NoMidpointNamed | packages/engine/convex/domain/runs/run_prompts.ts:48-63 | For an even (or negative) size, no instruction line names a midpoint stage. |
| RunPrompts.MidpointNamed | packages/engine/convex/domain/runs/run_prompts.ts:48-60 | An odd size names stage ⌈n/2⌉ as the midpoint. |
| RunPrompts.MidpointRuleAt | packages/engine/convex/domain/runs/run_prompts.ts:50-60 | The midpoint rule is the sixth line. |
| RunPrompts.MidpointLetter | packages/engine/convex/domain/runs/run_strategies.ts:51-63 | The midpoint stage's letter is the scale strategy's midpoint label. |
| RunPrompts.RubricGenMidpoint | packages/engine/convex/domain/runs/run_prompts.ts:43-76 | The rubric prompt names a midpoint stage exactly when the scale size is odd (and then it is stage ⌈n/2⌉, by MidpointNamed). |
| RunPrompts.CriticRubricLines | packages/engine/convex/domain/runs/run_prompts.ts:83-86 | The numbered stage lines, one per stage in rubric order. |
| RunPrompts.RubricCriticListsStages | packages/engine/convex/domain/runs/run_prompts.ts:78-103 | The critic prompt is one line per element: its three opening lines, then stage k + 1 of the rubric on line 4 + k, then the output format. |
| RunPrompts.JoinFlatten | packages/engine/convex/domain/runs/run_prompts.ts:83-97 | Joining the stage lines as one element is the same as joining them in the outer list. |
| RunPrompts.EvidenceContent | packages/engine/convex/domain/runs/run_prompts.ts:116-117 | The chosen text is the raw content or one of the three derived contents that is set. |
| RunPrompts.ConfigTokensSpec | packages/engine/convex/domain/runs/run_prompts.ts:119-123 | The tokens fail only for a negative scale when anonymised labels invert a mapping; they are the inverted mapping exactly when anonymisation is on and a mapping exists, and the letters otherwise. |
| RunPrompts.ScoreGenPromptSpec | packages/engine/convex/domain/runs/run_prompts.ts:105-162 | The prompt fails only for an unknown scoring method or when the tokens fail; otherwise it carries those tokens and its user prompt ends with the scoring suffix listing them. |
| RunPrompts.ScoreUserPromptEnds | packages/engine/convex/domain/runs/run_prompts.ts:142-159 | The user prompt ends with a newline and the scoring method's suffix for the tokens. |
| RunPrompts.ScoreRubricLinesDisplayed | packages/engine/convex/domain/runs/run_prompts.ts:125-140 | The rubric block shows every stage once: in stage order when the order is not randomised, and as a permutation of that order when it is. |
| RunPrompts.HiddenLabelsDoNotReachPrompt | packages/engine/convex/domain/runs/run_prompts.ts:134-159 | With label text hidden, the scorer's prompt does not depend on the stage labels: two rubrics with the same criteria give the same prompt. |
| RunPrompts.MidpointLine | packages/engine/convex/domain/runs/run_prompts.ts:59-63 | Definition: the midpoint rule line for an odd scale, naming the midpoint letter. |
| RunPrompts.RubricGenPrompt | packages/engine/convex/domain/runs/run_prompts.ts:43-76 | Definition: `buildRubricGenPrompt`: the rubric designer's system prompt and its user lines joined by newlines. |
| RunPrompts.RubricBlock | packages/engine/convex/domain/runs/run_prompts.ts:84-90 | Definition: the numbered rubric block shared by both critic prompts. |
| RunPrompts.RubricCriticLines | packages/engine/convex/domain/runs/run_prompts.ts:82-102 | Definition: the lines of the rubric critic's user prompt, the numbered rubric block among them. |
| RunPrompts.RubricCriticPrompt | packages/engine/convex/domain/runs/run_prompts.ts:78-103 | Definition: `buildRubricCriticPrompt`: the critic's system prompt and its user lines joined by newlines. |
| RunPrompts.ScoreLabelTokens | packages/engine/convex/domain/runs/run_prompts.ts:134-159 | Definition: `labelTokensBase`: the inverted mapping when labels are anonymised and the sample has one, else the letters. |
| RunPrompts.ScoreGenHead | packages/engine/convex/domain/runs/run_prompts.ts:142-159 | Definition: every part of the user prompt before the suffix. |
| RunPrompts.ScoreRubricLines | packages/engine/convex/domain/runs/run_prompts.ts:134-159 | Definition: the rubric lines in display order, shown under their tokens. |
| RunPrompts.ConfigTokens | packages/engine/convex/domain/runs/run_prompts.ts:119-123 | Definition: the label tokens the configuration and the sample call for. |
| RunPrompts.ScoreUserPrompt | packages/engine/convex/domain/runs/run_prompts.ts:142-159 | Definition: the user prompt: the head, then the suffix for the scoring method and the tokens. |
| RunPrompts.ScoreGenPrompt | packages/engine/convex/domain/runs/run_prompts.ts:105-162 | Definition: `buildScoreGenPrompt`: the scoring strategy's system instruction and the user prompt. |
| RunService.RunStore.ListEvidenceForExperiment | packages/engine/convex/domain/runs/run_orchestrator.ts:259-277 | Exactly the experiment's existing evidences in link order, which EvidenceListMembers characterises. |
| RunService.RunStore.ListPendingTargets | packages/engine/convex/domain/runs/run_orchestrator.ts:26-104 | The targets are those of the run-target specification: a sample of the run is listed exactly when it gives a target (RunTargetsMembers), only for an open stage with nothing pending and attempts left (TargetIsOpen), each sample at most once. |
| RunService.RunStore.TargetOfSample | packages/engine/convex/domain/runs/run_orchestrator.ts:58-100 | The target, skip or throw of one sample, as the target specification defines it. |
| RunService.RunStore.EnqueueStage | packages/engine/convex/domain/orchestrator/base.ts:137-166 | The tables and the error are those of the enqueue specification: only LLM rows are appended, nothing on a throw (EnqueueRunFrame), and each new request is pending under an open sample's key (EnqueueRunKeys). |
| RunService.RunStore.CountStage | packages/engine/convex/domain/runs/run_service.ts:394-441 | The counters are those TallyMeaning characterises: pending, completed and failed samples of the run for the stage. |
| RunService.RunStore.MaybeAdvanceRunStage | packages/engine/convex/domain/runs/run_service.ts:373-465 | The tables and the error are those of the advance specification: the run fails, completes, moves or waits exactly as AdvanceFailsIff, AdvanceCompletesIff, AdvanceMovesIff and AdvanceWaits say, and a throw rolls back (MaybeAdvanceRunFrame). |
| RunService.RunStore.RecordStage | packages/engine/convex/domain/runs/run_service.ts:159-281 | The stage's row is recorded exactly as the stage record specification says: its row and the sample's field for it and nothing else (RecordStageWrites); a throw or an unknown stage writes nothing. |
| RunService.RunStore.RecordRubric | packages/engine/convex/domain/runs/run_service.ts:160-200 | A rubric either fails with the row's error and writes nothing, or appends its row and links it to the sample (RecordRubricOutcome, RubricWrites). |
| RunService.RunStore.AppendRubric | packages/engine/convex/domain/runs/run_service.ts:188-199 | The rubric table gains the row, the sample points at it, nothing else changes. |
| RunService.RunStore.RecordRubricCritic | packages/engine/convex/domain/runs/run_service.ts:202-220 | A critique either fails and writes nothing, or writes exactly its row and the sample's critique id (RubricCriticWrites). |
| RunService.RunStore.RecordScore | packages/engine/convex/domain/runs/run_service.ts:222-267 | A score either fails and writes nothing, or writes exactly its row and the sample's score id (ScoreWrites). |
| RunService.RunStore.RecordScoreCritic | packages/engine/convex/domain/runs/run_service.ts:269-281 | A score critique either fails and writes nothing, or writes exactly its row and the sample's critique id (ScoreCriticWrites). |
| RunService.RunStore.ApplyRequestResult | packages/engine/convex/domain/runs/run_service.ts:144-303 | The tables and the error are those of the result specification: unknown keys are refused unchanged (ApplyRunResultRefuses); a sample's result records its stage and succeeds its request, or marks a parse failure (ApplyRunResultEffect). |
| RunService.RunStore.ApplyToSample | packages/engine/convex/domain/runs/run_service.ts:159-301 | The tables and the error of the result specification for a found sample, a throw rolling back. |
| RunService.RunStore.RecordAndPatch | packages/engine/convex/domain/runs/run_service.ts:159-299 | The tables after recording the stage and marking the request, or after marking its parse failure. |
| RunService.RunStore.HandleRequestError | packages/engine/convex/domain/runs/run_service.ts:305-317 | The tables and the error of the error-notice specification, which changes no sample and no request (HandleRunErrorFrame). |
| RunService.RunStore.RequeueRunRequest | packages/engine/convex/domain/runs/run_service.ts:319-358 | The tables and the error of the requeue specification: one new queued job, the request moved onto it (RequeueRunEffect), or a refusal without change (RequeueRunRefuses). |
| RunService.RunStore.StartRunFlow | packages/engine/convex/domain/runs/run_service.ts:25-71 | The tables and the error of the start specification: a new running run at rubric_gen with samples seeded 1..targetCount (StartRunFlowEffect); a throw undoes it all. |
| RunService.RunStore.InsertRun | packages/engine/convex/domain/runs/run_service.ts:38-64 | The run is appended at the next id, running at rubric_gen, with targetCount fresh samples seeded 1..targetCount. |
| RunService.RunStore.InsertSamples | packages/engine/convex/domain/runs/run_service.ts:90-104 | Exactly target - first fresh samples are appended, seeded first + 1 up to target, and that number is returned. |
| RunService.RunStore.CountRunSamples | packages/engine/convex/domain/runs/run_service.ts:84-88 | The number of the run's samples. |
| RunService.RunStore.SeedRunSamples | packages/engine/convex/domain/runs/run_service.ts:73-107 | The tables, count and error of the seeding specification: the run is topped up to its target with the next seeds (SeedRunSamplesTopsUp), and a second seeding adds nothing (SeedRunSamplesIdempotent). |
| RunService.RunStore.StartRunOrchestration | packages/engine/convex/domain/runs/run_service.ts:109-131 | The tables and the error of the orchestration specification: a finished run is untouched, any other runs at rubric_gen with only LLM rows added (StartRunOrchestrationEffect). |
| RunService.RunStore.EnqueueRunStage | packages/engine/convex/domain/runs/run_service.ts:133-142 | The same tables and error as enqueueStage, which it forwards to. |
| RunService.RunStore.CollectTargets | packages/engine/convex/domain/runs/run_orchestrator.ts:58-103 | The result is the run-target fold over the whole sample table: each of the run's samples adds its target in table order, and the first sample whose payload throws ends the loop with that error. |
| RunState.ComputeStageStatusCases | packages/engine/convex/domain/runs/workflows/runs_run_state.ts:14-25 | A stage with no requests is pending; it is finished once completed and failed requests cover the total, complete when none failed and failed otherwise; until then it is running. |
| RunState.ActiveRunCases | packages/engine/convex/domain/runs/workflows/runs_run_state.ts:33-39 | The refresh has an active run exactly when the experiment exists, names a run that exists, and that run is neither complete nor canceled. |
| RunState.TallyRequests | packages/engine/convex/domain/runs/workflows/runs_run_state.ts:49-64 | total counts the experiment's requests with one of the listed statuses, completed those completed, failed those in error. |
| RunState.TallyBounds | packages/engine/convex/domain/runs/workflows/runs_run_state.ts:49-64 | The completed and the failed requests are disjoint parts of the total. |
| RunState.FindStageRow | packages/engine/convex/domain/runs/workflows/runs_run_state.ts:41-45 | The index of the first row of the run for the stage, no row before it matching, or -1 when none does. |
| RunState.RefreshSkips | packages/engine/convex/domain/runs/workflows/runs_run_state.ts:33-47 | The refresh does nothing when there is no active run to refresh, or when it is complete or canceled. |
| RunState.RefreshStageRow | packages/engine/convex/domain/runs/workflows/runs_run_state.ts:66-74 | What the refresh writes: the first stage row of the active run for the stage gets the tally and the status computed from it, with completed and failed each within the total; no other row changes and the requests are untouched. |
| RunState.RefreshCompletesRun | packages/engine/convex/domain/runs/workflows/runs_run_state.ts:76-91 | The run is completed, and the experiment's active run cleared, exactly when after the update every stage row of the run is complete; otherwise runs and experiments are untouched. |
| RunState.RefreshNeverCompletesEarly | packages/engine/convex/domain/runs/workflows/runs_run_state.ts:81-91 | A run is never completed while one of its stage rows is not complete. |
| RunState.RunStateStore.RefreshRunStageCounts | packages/engine/convex/domain/runs/workflows/runs_run_state.ts:27-93 | The tables become exactly those of the refresh specification: the active run's stage row gets its tally and status (RefreshStageRow), and the run completes only when all its rows are complete (RefreshCompletesRun); `Date.now()` is `now`. |
| RunState.StageStatusName | packages/engine/convex/domain/runs/workflows/runs_run_state.ts:14-18 | Definition: the four stage statuses as the schema spells them. |
| RunState.ComputeStageStatus | packages/engine/convex/domain/runs/workflows/runs_run_state.ts:14-25 | Definition: `computeStageStatus`. |
| RunState.SumCounts | packages/engine/convex/domain/runs/workflows/runs_run_state.ts:49-64 | Definition: the per-status counts summed over a list of statuses. |
| RunState.TallyOf | packages/engine/convex/domain/runs/workflows/runs_run_state.ts:49-64 | Definition: the tally of the refresh: every request of the experiment and stage with a known status, and the completed and errored ones. |
| RunState.AllStagesComplete | packages/engine/convex/domain/runs/workflows/runs_run_state.ts:76-91 | Definition: `stages.every((s) => s.status === "complete")` over the run's rows. |
| RunState.ActiveRunOf | packages/engine/convex/domain/runs/workflows/runs_run_state.ts:33-39 | Definition: the experiment's active run, when the refresh goes ahead: present, truthy, existing, neither complete nor canceled. |
| RunState.Refresh | packages/engine/convex/domain/runs/workflows/runs_run_state.ts:76-91 | Definition: `refreshRunStageCountsForExperiment` as a function of the tables. |
| RunStrategies.RandomizationBySet | packages/engine/convex/domain/runs/run_strategies.ts:33-42 | Each flag is on exactly when its mode is listed, so the order and the repetitions of the list do not matter. |
| RunStrategies.ScaleStrategySpec | packages/engine/convex/domain/runs/run_strategies.ts:51-63 | The scale names its n stages A, B, ...; it has a midpoint exactly when n is positive and odd, and the midpoint is the letter of stage ⌈n/2⌉. |
| RunStrategies.EvidenceFieldSpec | packages/engine/convex/domain/runs/run_strategies.ts:73-91 | A canonical view reads the field named after it; any other value, aliases included (nothing normalises them here), reads the raw content. |
| RunStrategies.ResolveScoringStrategy | packages/engine/convex/domain/runs/run_strategies.ts:106-157 | A strategy exactly for the methods single and subset, carrying the config's abstain flag; any other method is an error naming it and the allowed keys. |
| RunStrategies.OptionLines | packages/engine/convex/domain/runs/run_strategies.ts:111 | One option line per label, a hole giving an empty line. |
| RunStrategies.SingleSuffixSplits | packages/engine/convex/domain/runs/run_strategies.ts:110-116 | Split at its newlines, the single-verdict suffix is its header, the options in label order, and the ABSTAIN option when abstaining is allowed. |
| RunStrategies.SingleSuffixJoin | packages/engine/convex/domain/runs/run_strategies.ts:110-116 | The single-verdict suffix is its lines joined with newlines. |
| RunStrategies.SingleSuffixLinesPlain | packages/engine/convex/domain/runs/run_strategies.ts:110-116 | No line of the suffix holds a newline. |
| RunStrategies.OptionLineAbstain | packages/engine/convex/domain/runs/run_strategies.ts:111 | An option line is the ABSTAIN option only for a label "ABSTAIN". |
| RunStrategies.SingleSuffixOffersAbstain | packages/engine/convex/domain/runs/run_strategies.ts:110-116 | The single-verdict suffix offers `VERDICT: ABSTAIN` exactly when abstaining is allowed, unless a label is itself "ABSTAIN". |
| RunStrategies.SubsetSuffixOffersAbstain | packages/engine/convex/domain/runs/run_strategies.ts:129-135 | The subset suffix ends in ` or VERDICT: ABSTAIN` exactly when abstaining is allowed, and in `>` otherwise. |
| RunStrategies.InstructionForbidsAbstain | packages/engine/convex/domain/runs/run_strategies.ts:117-139 | The instruction tells the model not to abstain exactly when abstaining is disabled. |
| RunStrategies.ParseVerdictSpec | packages/engine/convex/domain/runs/run_strategies.ts:120-146 | With abstaining allowed the strategy is the bare parser; with it disabled, the only new error is "Abstain not permitted by config", raised exactly when the parser reports an abstention, and no accepted verdict is an abstention. |
| RunStrategies.AbstentionRefused | packages/engine/convex/domain/runs/run_strategies.ts:120-146 | A response whose last verdict line says ABSTAIN is refused when abstaining is disabled. |
| RunStrategies.ResolveRandomizationStrategy | packages/engine/convex/domain/runs/run_strategies.ts:33-42 | Definition: `new Set(config.scoring_config.randomizations)` and three `has` lookups. |
| RunStrategies.IsOdd | packages/engine/convex/domain/runs/run_strategies.ts:53 | Definition: `n % 2 === 1`: JavaScript's remainder, so a negative size is never odd. |
| RunStrategies.LengthOf | packages/engine/convex/domain/runs/run_strategies.ts:54-56 | Definition: `Array.from({ length: n })` makes no element for a negative length. |
| RunStrategies.ResolveScaleStrategy | packages/engine/convex/domain/runs/run_strategies.ts:51-63 | Definition: `resolveScaleStrategy`: n stages with letters A, B, ... and a midpoint letter exactly when n is odd. |
| RunStrategies.FieldName | packages/engine/convex/domain/runs/run_strategies.ts:66-70 | Definition: the evidence content fields, named as the schema names them. |
| RunStrategies.ResolveEvidenceStrategy | packages/engine/convex/domain/runs/run_strategies.ts:73-91 | Definition: the `switch` on `evidence_view`, whose `default` is the raw content. |
| RunStrategies.HoleText | packages/engine/convex/domain/runs/run_strategies.ts:111 | Definition: how a label prints inside a template or a `join`: a hole of the array prints as nothing. |
| RunStrategies.SubsetBase | packages/engine/convex/domain/runs/run_strategies.ts:130 | Definition: the subset suffix's base line, the labels joined by commas. |
| RunStrategies.PromptSuffix | packages/engine/convex/domain/runs/run_strategies.ts:110-135 | Definition: `buildPromptSuffix(labels)`. |
| RunStrategies.SystemInstruction | packages/engine/convex/domain/runs/run_strategies.ts:117-139 | Definition: `systemInstruction`. |
| RunStrategies.SingleSuffixLines | packages/engine/convex/domain/runs/run_strategies.ts:110-116 | Definition: the lines of the single-verdict suffix: the header, one option per label, then ABSTAIN if allowed. |
| RunStrategies.ParseVerdict | packages/engine/convex/domain/runs/run_strategies.ts:120-146 | Definition: `parseVerdict`: the strict parser of the method, with an abstention refused when abstaining is disabled. |
| RunSummaries.DeriveExperimentStatus | packages/engine/convex/domain/runs/experiments_data.ts:9-24 | Start without runs; running, paused, error and canceled each exactly when some run has it and no run has an earlier one of them; completed exactly when every run is; queued exactly when none of those holds and a run is queued or at start. |
| RunSummaries.StatusBySet | packages/engine/convex/domain/runs/experiments_data.ts:9-24 | The status depends only on which statuses occur. |
| RunSummaries.UrgencyMonotone | packages/engine/convex/domain/runs/experiments_data.ts:14-18 | Adding runs never lowers that precedence. |
| RunSummaries.ErrorOutweighsProgress | packages/engine/convex/domain/runs/experiments_data.ts:17-22 | A single errored run outweighs any number of completed or queued ones. |
| RunSummaries.LatestRunIsNewest | packages/engine/convex/domain/runs/experiments_data.ts:26-31 | The latest run is a run with the greatest creation time, and among several with that time the first in table order (the sort is stable). |
| RunSummaries.StageStatus | packages/engine/convex/domain/runs/experiments_data.ts:243-248 | queued exactly at zero completed, completed exactly when some completed and at least the target count, running in between. |
| RunSummaries.CountCompleted | packages/engine/convex/domain/runs/experiments_data.ts:235-241 | The number of samples with the stage's output. |
| RunSummaries.GetRunSummary | packages/engine/convex/domain/runs/experiments_data.ts:222-266 | `getRunSummary`: one entry per stage of the schema, in its order, with the samples of the run that have that stage's output, a status from that count, and no failures; a missing run is an error. |
| RunSummaries.StageCountMeaning | packages/engine/convex/domain/runs/experiments_data.ts:233-248 | A stage's completed count is at most the number of the run's samples, and the stage is queued exactly when none of them has its output. |
| RunSummaries.Urgency | packages/engine/convex/domain/runs/experiments_data.ts:14-18 | Definition: the precedence of the statuses some run forces: running, paused, error, canceled. |
| RunSummaries.Newest | packages/engine/convex/domain/runs/experiments_data.ts:26-31 | Definition: the sort key of `(a, b) => b._creationTime - a._creationTime`: newest first. |
| RunSummaries.LatestRun | packages/engine/convex/domain/runs/experiments_data.ts:26-31 | Definition: `latestRun(runs)`: null without runs, otherwise the head of the newest-first sort. |
| RunSummaries.HasOutput | packages/engine/convex/domain/runs/experiments_data.ts:235-241 | Definition: whether a sample has the output of a stage: its id for that stage is set. |
| RunSummaries.Done | packages/engine/convex/domain/runs/experiments_data.ts:235-241 | Definition: the number of samples of the run that have the stage's output. |
| RunSummaries.OfRun | packages/engine/convex/domain/runs/experiments_data.ts:222-266 | Definition: the samples of a run (the `by_run` index). |
| Runs.StageName | packages/engine/convex/domain/runs/run_service.ts:360-365 | A stage's name has no colon, so it survives a key split. |
| Runs.StageNamed | packages/engine/convex/domain/runs/run_service.ts:360-371 | The stage named by a text that is one of the four names. |
| Runs.StageNameRoundTrip | packages/engine/convex/domain/runs/run_service.ts:360-365 | Every stage's name reads back as that stage. |
| Runs.IndexOfStage | packages/engine/convex/domain/runs/run_service.ts:367-369 | Every stage is listed once in STAGE_ORDER, at its own index. |
| Runs.RunStagesChain | packages/engine/convex/domain/runs/run_service.ts:360-371 | The chain rubric_gen, rubric_critic, score_gen, score_critic, then nothing. |
| Runs.NextRunStageLater | packages/engine/convex/domain/runs/run_service.ts:367-371 | The next stage is the stage one place later, so a run never goes back and visits each stage once. |
| Runs.RequestKeyRoundTrip | packages/engine/convex/domain/runs/run_orchestrator.ts:164-174 | A sample's request key reads back as the sample and the stage. |
| Runs.ProcessKeyRoundTrip | packages/engine/convex/domain/runs/run_orchestrator.ts:176-186 | A run's process key reads back as the run and the stage. |
| Runs.ParseRequestKeyRefuses | packages/engine/convex/domain/runs/run_orchestrator.ts:168-172 | A key with another first part is refused with the key in the message. |
| Runs.ParseProcessKeyRefuses | packages/engine/convex/domain/runs/run_orchestrator.ts:180-184 | A key whose first part is not "run" is refused, with the key in the message. |
| Runs.SampleKeyInjective | packages/engine/convex/domain/runs/run_orchestrator.ts:164-166 | Distinct samples or stages have distinct request keys. |
| Runs.SampleKeysApart | packages/engine/convex/domain/runs/run_orchestrator.ts:164-178 | Sample keys are neither run keys nor evidence keys, and the retry registry has no handler for them: only the run service retries them. |
| Runs.LookupId | packages/engine/convex/domain/runs/run_service.ts:154-156 | The row a key's id part names, as a number; whether the row exists is for the caller to check. |
| Runs.PlainMapping | packages/engine/convex/domain/runs/run_service.ts:518-522 | The plain mapping: the scale's letter labels in order, letter i worth i + 1. |
| Runs.BuildLabelMappingSpec | packages/engine/convex/domain/runs/run_service.ts:508-523 | Either way the mapping gives the scale's letters, in order, a permutation of 1..n; without anonymised labels letter i gets i + 1. |
| Runs.EvidenceList | packages/engine/convex/domain/runs/run_orchestrator.ts:259-277 | The experiment's evidence among the first n links, in link order (the order of creation), skipping links whose evidence is gone. |
| Runs.EvidenceListMembers | packages/engine/convex/domain/runs/run_orchestrator.ts:259-277 | An evidence is listed exactly when it exists and one of the experiment's links names it. |
| Runs.PickEvidence | packages/engine/convex/domain/runs/run_orchestrator.ts:279-283 | `pickEvidenceForSample`: none for an empty list, otherwise the entry at \|seed\| mod n. |
| Runs.PickEvidenceSymmetry | packages/engine/convex/domain/runs/run_orchestrator.ts:279-283 | The pick ignores the seed's sign and repeats with the length of the list. |
| Runs.PickEvidenceCovers | packages/engine/convex/domain/runs/run_orchestrator.ts:279-283 | Seeds 0..n-1 pick the listed evidences in list order. |
| Runs.FromCharCode | packages/engine/convex/domain/runs/run_orchestrator.ts:298 | `String.fromCharCode(code)`: the UTF-16 unit `code` mod 2^16. A lone surrogate, which a `char` cannot hold, is written as U+FFFD. |
| Runs.FallbackIsLetter | packages/engine/convex/domain/runs/run_orchestrator.ts:297-298 | Scores 1..MaxScale fall back to the scale's letter for that score. |
| Runs.BuildVerdictLabel | packages/engine/convex/domain/runs/run_orchestrator.ts:285-303 | ABSTAIN when there are no scores; otherwise the tokens of the scores, with empty ones dropped, as one token or joined by ", "; null when none is left. |
| Runs.VerdictLabelAbstains | packages/engine/convex/domain/runs/run_orchestrator.ts:290 | No scores, or an empty list, is an abstention. |
| Runs.ResolvedMapped | packages/engine/convex/domain/runs/run_orchestrator.ts:291-297 | The inverted mapping's slot for a score names the token of the last entry with that score. |
| Runs.ResolvedUnmapped | packages/engine/convex/domain/runs/run_orchestrator.ts:297-298 | A score no entry names resolves to the letter of code 64 + score. |
| Runs.VerdictLabelOne | packages/engine/convex/domain/runs/run_orchestrator.ts:297-301 | One score: its token when that is not empty; nothing left to show when it is. |
| Runs.VerdictLabelJoins | packages/engine/convex/domain/runs/run_orchestrator.ts:297-302 | With every score's token non-empty, the label is all of them, in score order, joined by ", ". |
| Runs.PlainVerdictLabel | packages/engine/convex/domain/runs/run_orchestrator.ts:285-303 | Under the plain mapping of a scale of n letters, a score in 1..n is shown as its own letter, the same letter the fallback would give. |
| Runs.OpenIffUnfinished | packages/engine/convex/domain/runs/run_orchestrator.ts:58-68 | The target loop and the stage count agree: a stage is open exactly when it is neither done nor blocked. |
| Runs.RubricAt | packages/engine/convex/domain/runs/run_orchestrator.ts:203-205 | The rubric is found exactly when the id is set and names a row, and it is that row. |
| Runs.ScoreAt | packages/engine/convex/domain/runs/run_orchestrator.ts:235-238 | The score is found exactly when the id is set and names a row, and it is that row. |
| Runs.RubricLines | packages/engine/convex/domain/runs/run_orchestrator.ts:208 | One line per rubric stage, in order, with that stage's label and criteria. |
| Runs.EvidenceText | packages/engine/convex/domain/runs/run_orchestrator.ts:241-243 | The content field of the view when it is set, the raw content otherwise. |
| Runs.InputPayloadCases | packages/engine/convex/domain/runs/run_orchestrator.ts:188-257 | The payload is missing exactly when a record the stage reads is, and building it throws only for the score critique, for a scale size `new Array` refuses. |
| Runs.RunTargets | packages/engine/convex/domain/runs/run_orchestrator.ts:26-104 | The targets among the first n samples, those of the run, in table order; the first throw ends the loop. |
| Runs.RunTargetsThrows | packages/engine/convex/domain/runs/run_orchestrator.ts:26-104 | The loop throws exactly when one of the run's samples does. |
| Runs.RunTargetsNext | packages/engine/convex/domain/runs/run_orchestrator.ts:58-101 | One more sample of the loop, from a prefix that has not thrown. |
| Runs.RunTargetsSticks | packages/engine/convex/domain/runs/run_orchestrator.ts:58-101 | Once a sample throws, the rest of the loop does not run: the result is that throw. |
| Runs.RunTargetsMembers | packages/engine/convex/domain/runs/run_orchestrator.ts:58-101 | A target is listed exactly when a sample of the run gives it. |
| Runs.TargetIsOpen | packages/engine/convex/domain/runs/run_orchestrator.ts:58-101 | A listed target names a sample of the run for which the stage is open, nothing is pending and attempts are left. |
| Runs.TargetIdOf | packages/engine/convex/domain/runs/run_orchestrator.ts:97-100 | A sample's target carries the sample's id. |
| Runs.RunTargetsStep | packages/engine/convex/domain/runs/run_orchestrator.ts:58-101 | One step of the loop: a run's sample adds its target, if it has one; any other sample adds nothing. |
| Runs.RunTargetsDistinct | packages/engine/convex/domain/runs/run_orchestrator.ts:58-101 | Each sample is listed at most once: the targets' ids are distinct. |
| Runs.ModelForStage | packages/engine/convex/domain/runs/run_orchestrator.ts:106-119 | The rubric model for rubric_gen and rubric_critic, the scoring model for the two score stages. |
| Runs.EnqueueRunFrame | packages/engine/convex/domain/orchestrator/base.ts:137-166 | Enqueueing only ever appends LLM rows, and a throw changes nothing. |
| Runs.EnqueueRunShape | packages/engine/convex/domain/orchestrator/base.ts:137-166 | An enqueue that adds requests had targets and a known model, and added them through `Enqueued`. |
| Runs.EnqueueRunKeys | packages/engine/convex/domain/orchestrator/base.ts:143-158 | Each request the enqueue adds is under the key of a sample of the run for which the stage was open, and it is pending. |
| Runs.TargetSample | packages/engine/convex/domain/runs/run_orchestrator.ts:97-100 | A listed target comes from a sample of the run that has the stage open, carries that sample's id, and is keyed by that sample and stage. |
| Runs.TallyMeaning | packages/engine/convex/domain/runs/run_service.ts:394-441 | pending holds exactly when some sample is still going, completed and failed are positive exactly when some sample finished or is stuck, samples exactly when the run has one, and with nothing pending every sample is either completed or failed. |
| Runs.ProgressByRecords | packages/engine/convex/domain/runs/run_service.ts:399-410 | A sample counts as done exactly when the stage's output is on it, and a sample whose input is missing counts as failed whatever its requests. |
| Runs.PendingIsWaiting | packages/engine/convex/domain/runs/run_service.ts:411-421 | A sample with a pending request under its key, and no output or missing input, is still going. |
| Runs.AdvanceFailsIff | packages/engine/convex/domain/runs/run_service.ts:443-451 | A run fails a stage exactly when no sample is going, none finished, and some failed. |
| Runs.AdvanceMovesIff | packages/engine/convex/domain/runs/run_service.ts:453-464 | A run moves on exactly when it sits at this stage, no sample is going, at least one finished, and a next stage exists. |
| Runs.AdvanceCompletesIff | packages/engine/convex/domain/runs/run_service.ts:443-460 | The last stage, or a text naming no stage, completes the run once no sample is going and at least one finished, wherever the run sits. |
| Runs.AdvanceWaits | packages/engine/convex/domain/runs/run_service.ts:443 | While any sample of the stage is still going, the run stays as it is. |
| Runs.Committed | packages/engine/convex/domain/runs/run_service.ts:462-464 | A nested step that threw leaves the tables as they were before the mutation. |
| Runs.MaybeAdvanceRunFrame | packages/engine/convex/domain/runs/run_service.ts:373-465 | A stage notice changes only the run's own row and appends LLM requests, and it rolls back when it throws. |
| Runs.MaybeAdvanceRunEffect | packages/engine/convex/domain/runs/run_service.ts:445-464 | Finishing a known stage sets the run's status and leaves it at that stage; moving on sets it at the next stage, status unchanged. |
| Runs.EnqueueHoldsStage | packages/engine/convex/domain/runs/run_service.ts:411-443 | The requests a stage's enqueue adds hold the stage open: right after it, a notice for that stage leaves the run as it is. |
| Runs.MaybeAdvanceRunOnce | packages/engine/convex/domain/runs/run_service.ts:462 | A repeated notice for a stage the run has already left changes nothing: the next stage is enqueued once. |
| Runs.SampleOf | packages/engine/convex/domain/runs/run_service.ts:155-157 | The sample row the key's id part names, and none when there is no such row. |
| Runs.EntriesMapKeys | packages/engine/convex/domain/runs/run_orchestrator.ts:292-296 | The record's labels are the entries' labels. |
| Runs.EntriesMapLast | packages/engine/convex/domain/runs/run_service.ts:518-521 | A label's value is that of its last entry. |
| Runs.RubricDocFor | packages/engine/convex/domain/runs/run_service.ts:160-197 | The rubric row of the parsed output, with the sample's label mapping, or the error of a missing experiment or a failed parse. |
| Runs.RubricCriticDocFor | packages/engine/convex/domain/runs/run_service.ts:202-217 | The critique row, or the error of a missing rubric or a failed parse. |
| Runs.ScoreDocFor | packages/engine/convex/domain/runs/run_service.ts:222-264 | The score row for the sample's evidence, or the error of a missing rubric, experiment or evidence or a failed parse. |
| Runs.ScoreCriticDocFor | packages/engine/convex/domain/runs/run_service.ts:269-278 | The score critique row, or the error of a missing score or a failed parse. |
| Runs.RecordStageWrites | packages/engine/convex/domain/runs/run_service.ts:159-281 | A recorded stage writes exactly its row and the sample's field for it. |
| Runs.RecordRubricOutcome | packages/engine/convex/domain/runs/run_service.ts:160-200 | RecordRubric either passes on the row's error or appends the row and links it. |
| Runs.RubricWrites | packages/engine/convex/domain/runs/run_service.ts:160-200 | A recorded rubric writes exactly its row and the sample's rubric id. |
| Runs.RubricAppendWrites | packages/engine/convex/domain/runs/run_service.ts:188-199 | Appending a rubric row for the sample and linking it is a recorded write. |
| Runs.RubricCriticWrites | packages/engine/convex/domain/runs/run_service.ts:202-220 | A recorded critique writes exactly its row and the sample's critique id. |
| Runs.ScoreWrites | packages/engine/convex/domain/runs/run_service.ts:222-267 | A recorded score writes exactly its row and the sample's score id. |
| Runs.ScoreCriticWrites | packages/engine/convex/domain/runs/run_service.ts:269-281 | A recorded score critique writes exactly its row and the sample's critique id. |
| Runs.RecordStageNeedsInput | packages/engine/convex/domain/runs/run_service.ts:202-270 | A stage whose input is missing on the sample cannot be recorded. |
| Runs.ParseFailureFails | packages/engine/convex/domain/runs/run_service.ts:489-506 | After a parse failure the sample counts as failed in the stage, provided no other request under its key is still pending. |
| Runs.ApplyRunResultRefuses | packages/engine/convex/domain/runs/run_service.ts:152-157 | Keys that are not sample keys, and keys naming no sample, are refused without a change. |
| Runs.ApplyRunResultEffect | packages/engine/convex/domain/runs/run_service.ts:144-303 | A result under a sample's own key either records the stage (a new row, the sample pointed at it, the request succeeded with the output) or, when the output does not parse, marks the request as failed with the attempts used up and records nothing. A throw changes nothing. |
| Runs.HandleRunErrorFrame | packages/engine/convex/domain/runs/run_service.ts:305-317 | An error notice changes no sample and no existing request; it can only move, fail or complete the sample's run. |
| Runs.RequeueRunEffect | packages/engine/convex/domain/runs/run_service.ts:319-358 | Retrying a sample's request adds exactly one queued job keyed by the sample's run and stage, points the request at it and out of its batch, and changes nothing else. |
| Runs.RequeueRunRefuses | packages/engine/convex/domain/runs/run_service.ts:332-335 | Keys naming no sample are refused, unchanged, with the id part in the message. |
| Runs.FreshSamples | packages/engine/convex/domain/runs/run_service.ts:45-59 | count samples of the run, each with the scoring model and no stage output, seeded first + 1 up to first + count. |
| Runs.FreshSamplesSnoc | packages/engine/convex/domain/runs/run_service.ts:46-58 | One more fresh sample is the next seed appended. |
| Runs.SeedRange | packages/engine/convex/domain/runs/run_service.ts:91-92 | The seeds first + 1, ..., first + n, one per index. |
| Runs.SeedsOfFresh | packages/engine/convex/domain/runs/run_service.ts:91-104 | The fresh samples carry exactly the seeds first + 1 up to first + count. |
| Runs.SeedsOfNone | packages/engine/convex/domain/runs/run_service.ts:84-88 | A run none of whose samples exist yet has no seeds. |
| Runs.StartRunFlowEffect | packages/engine/convex/domain/runs/run_service.ts:25-71 | A started run is appended to the runs, running at rubric_gen; its samples are exactly the new ones, seeded 1..targetCount with the scoring model; nothing else but LLM rows changes. |
| Runs.SeedsAfterStart | packages/engine/convex/domain/runs/run_service.ts:45-59 | Appending a new run's fresh samples gives that run exactly the seeds 1..count, and keeps every sample's run in the table. |
| Runs.SeedRunSamplesTopsUp | packages/engine/convex/domain/runs/run_service.ts:73-107 | After seeding, the run has max(existing, target) samples: the existing seeds followed by existing + 1 .. target, and the count returned is the number added. |
| Runs.SeedRunSamplesIdempotent | packages/engine/convex/domain/runs/run_service.ts:88 | Seeding twice adds nothing the second time. |
| Runs.StartedRunIsFull | packages/engine/convex/domain/runs/run_service.ts:25-107 | A run started by `startRunFlow` is already full. |
| Runs.StartRunOrchestrationEffect | packages/engine/convex/domain/runs/run_service.ts:109-131 | A started run runs at rubric_gen with only LLM rows added; a finished run is untouched. |
| Runs.NextRunStage | packages/engine/convex/domain/runs/run_service.ts:367-371 | Definition: `nextStageFor`: the stage after this one in `STAGE_ORDER`, `null` after the last. |
| Runs.NextStageOfText | packages/engine/convex/domain/runs/run_service.ts:367-371 | Definition: `nextStageFor` on a stage read from a key: a text that is no stage has index -1 and no next stage. |
| Runs.IsScoreStage | packages/engine/convex/domain/runs/run_orchestrator.ts:17 | Definition: `SCORE_STAGES`: score_gen and score_critic read the experiment's evidence list and use the scoring model. |
| Runs.Terminal | packages/engine/convex/domain/runs/run_service.ts:114-120 | Definition: run statuses after which the pipeline leaves the run alone. |
| Runs.SampleKey | packages/engine/convex/domain/runs/run_orchestrator.ts:164-166 | Definition: `makeRequestKey`: `sample:<sample id>:<stage>`. |
| Runs.RunKey | packages/engine/convex/domain/runs/run_orchestrator.ts:176-178 | Definition: `makeProcessKey`: `run:<run id>:<stage>`. |
| Runs.ParseRequestKey | packages/engine/convex/domain/runs/run_orchestrator.ts:168-174 | Definition: `parseRequestKey`: the key split on colons; a first part other than "sample" throws with the key in the message, otherwise the id and stage parts. |
| Runs.ParseProcessKey | packages/engine/convex/domain/runs/run_orchestrator.ts:180-186 | Definition: `parseProcessKey`: the key split on colons; a first part other than "run" throws with the key in the message, otherwise the id and stage parts. |
| Runs.RequestKeyFor | packages/engine/convex/domain/orchestrator/base.ts:143-145 | Definition: the request-key maker the base orchestrator calls for each target of a stage. |
| Runs.BuildLabelMapping | packages/engine/convex/domain/runs/run_service.ts:508-523 | Definition: `buildLabelMapping(config, scaleSize, seed)`, called with the experiment's own scale size: the seeded shuffle when labels are anonymised, otherwise the letters in order. |
| Runs.AllEvidence | packages/engine/convex/domain/runs/run_orchestrator.ts:259-277 | Definition: the experiment's evidence ids over all its links, in link order, skipping links to missing rows. |
| Runs.ResolveEvidenceForSample | packages/engine/convex/domain/runs/run_service.ts:525-548 | Definition: `resolveEvidenceForSample`: the same list and the same pick. |
| Runs.ResolvedToken | packages/engine/convex/domain/runs/run_orchestrator.ts:297-298 | Definition: `tokens[score - 1] ?? String.fromCharCode(64 + score)`: a hole or an index out of range falls back. |
| Runs.StageOpen | packages/engine/convex/domain/runs/run_orchestrator.ts:58-68 | Definition: the stage filter at the head of the target loop: the stage's input is there and its output is not. |
| Runs.OutputId | packages/engine/convex/domain/runs/run_service.ts:467-480 | Definition: `getStageOutputId`: the id a stage writes on the sample; none for a stage text that names no stage. |
| Runs.Blocked | packages/engine/convex/domain/runs/run_service.ts:482-487 | Definition: `isStageBlockedByMissingInput`: the earlier output a stage reads is missing. |
| Runs.InputPayload | packages/engine/convex/domain/runs/run_orchestrator.ts:188-257 | Definition: `buildInputPayload`: the stage input, or none when a record the stage reads is missing. Only the score critique's verdict label can throw. |
| Runs.PayloadMissing | packages/engine/convex/domain/runs/run_orchestrator.ts:188-257 | Definition: a record the stage's payload reads is missing. |
| Runs.SampleTarget | packages/engine/convex/domain/runs/run_orchestrator.ts:58-101 | Definition: one sample of the loop: skipped when the stage is not open for it, when a request under its key is pending, when its attempts are used up, or when it has no payload; otherwise a target with the payload's JSON. |
| Runs.ListRunTargetsSpec | packages/engine/convex/domain/runs/run_orchestrator.ts:26-104 | Definition: `listPendingTargets(runId, stage)`: the run and its experiment must exist; the score stages read the experiment's evidence list. |
| Runs.EnqueueRunSpec | packages/engine/convex/domain/orchestrator/base.ts:137-166 | Definition: `enqueueStage(runId, stage)` of the run orchestrator: no targets leaves everything as it is; otherwise the stage's model routes one request per target into a new batch or job under the run's process key. |
| Runs.ProgressOf | packages/engine/convex/domain/runs/run_service.ts:399-421 | Definition: where one sample stands in a stage, read in the loop's order: an output means done, a missing input means failed; then a pending request, or none at all, means still going, and otherwise the attempts decide. The stage is the text of a key, so it may name no stage. |
| Runs.TallyOf | packages/engine/convex/domain/runs/run_service.ts:394-441 | Definition: the counters over the run's samples among the first n rows. |
| Runs.AdvanceOf | packages/engine/convex/domain/runs/run_service.ts:443-464 | Definition: the decision at the end of the stage loop, for a stage given as text. |
| Runs.Live | packages/engine/convex/domain/runs/run_service.ts:378-393 | Definition: the run a stage notice may change: it exists, is not finished, and has samples. |
| Runs.MaybeAdvanceRunSpec | packages/engine/convex/domain/runs/run_service.ts:373-465 | Definition: `maybeAdvanceRunStage(runId, stage)`. Writing a stage text that names no stage into `current_stage` fails the schema and throws. |
| Runs.EntriesMap | packages/engine/convex/domain/runs/run_orchestrator.ts:292-296 | Definition: the record a label mapping spells: later entries for a label override earlier ones. |
| Runs.RecordStage | packages/engine/convex/domain/runs/run_service.ts:159-281 | Definition: the body of the `try` block of `applyRequestResult`: the stage's output is parsed, one row is inserted into the stage's table and the sample is pointed at it. Each branch throws before it writes. A key with another stage text records nothing. |
| Runs.RecordRubric | packages/engine/convex/domain/runs/run_service.ts:160-200 | Definition: the rubric is parsed against the experiment's scale size and gets the sample's label mapping. |
| Runs.RecordRubricCritic | packages/engine/convex/domain/runs/run_service.ts:202-220 | Definition: the critique needs the sample's rubric and takes the rubric's model. |
| Runs.RecordScore | packages/engine/convex/domain/runs/run_service.ts:222-267 | Definition: the score needs the sample's rubric, experiment and evidence; the verdict is parsed with the rubric's label mapping under the experiment's scoring method, and an abstention stores no scores. |
| Runs.RecordScoreCritic | packages/engine/convex/domain/runs/run_service.ts:269-281 | Definition: the score critique needs the sample's score and takes the sample's model. |
| Runs.MarkParseFailure | packages/engine/convex/domain/runs/run_service.ts:489-506 | Definition: `markRequestParseFailure`: the request errs with the message and its attempts set to the limit. |
| Runs.WithOutput | packages/engine/convex/domain/runs/run_service.ts:285-296 | Definition: the patch of a successful request: status success, the output and the two token counts. |
| Runs.ApplyRunResultSpec | packages/engine/convex/domain/runs/run_service.ts:144-303 | Definition: `applyRequestResult`. A bad key or a missing sample throws before anything is written. A throw inside the `try` block marks the request as a parse failure and re-counts the stage; otherwise the request succeeds with the output and the stage is re-counted. A request that is not in the table makes its patch throw, which rolls everything back. |
| Runs.ApplyToSample | packages/engine/convex/domain/runs/run_service.ts:159-302 | Definition: the body of `applyRequestResult` once the sample and the request are found: record the stage's row (or mark the parse failure), patch the request and re-count the run's stage, all rolled back on a throw. |
| Runs.RecordAndPatch | packages/engine/convex/domain/runs/run_service.ts:159-296 | Definition: the stage's row is recorded and the request gets the output; when the row cannot be recorded, only the request is marked as a parse failure. |
| Runs.HandleRunErrorSpec | packages/engine/convex/domain/runs/run_service.ts:305-317 | Definition: `handleRequestError`: the key's sample must exist, and its stage is re-counted. |
| Runs.RequeueRunSpec | packages/engine/convex/domain/runs/run_service.ts:319-358 | Definition: `requeueRunRequest`: the request moves to a new job under its sample's run and stage, with the provider of its model, and leaves its batch. |
| Runs.NewSample | packages/engine/convex/domain/runs/run_service.ts:47-57 | Definition: the sample row the service inserts: no stage output yet. |
| Runs.SeedsOf | packages/engine/convex/domain/runs/run_service.ts:84-87 | Definition: the seeds of the run's samples, in table order (what `by_run` returns). |
| Runs.StartRunFlowSpec | packages/engine/convex/domain/runs/run_service.ts:25-71 | Definition: `startRunFlow(experimentId, targetCount)`: a new run at rubric_gen with samples seeded 1..targetCount (inserted as "start", then set "running"), and its rubric_gen requests enqueued. The schema demands a whole target count of at least 1. |
| Runs.SeedRunSamplesSpec | packages/engine/convex/domain/runs/run_service.ts:73-107 | Definition: `seedRunSamples(runId)`: tops the run's samples up to its target count, continuing the seeds after the existing ones; a full run gets nothing. |
| Runs.StartRunOrchestrationSpec | packages/engine/convex/domain/runs/run_service.ts:109-131 | Definition: `startRunOrchestration(runId)`: a missing run throws, a finished one is left alone, and any other run is set running at rubric_gen and gets its rubric_gen requests. |
| Scheduler.EnsureCases | packages/engine/convex/domain/runs/workflows/runs_scheduler.ts:12-50 | A pending future tick makes the call a no-op; otherwise exactly one tick is scheduled 500 ms out and recorded as the next tick, and the lock is not touched. |
| Scheduler.EnsureTwice | packages/engine/convex/domain/runs/workflows/runs_scheduler.ts:32-46 | A second call less than 500 ms after one that scheduled a tick schedules nothing. |
| Scheduler.SnapshotPolicies | packages/engine/convex/domain/runs/workflows/runs_scheduler.ts:91-94 | One policy per active run, in order: its snapshot when it has one, the engine policy otherwise. |
| Scheduler.FindConfig | packages/engine/convex/domain/runs/workflows/scheduler.ts:95-98 | The first config with the id, and none exactly when no config has it. |
| Scheduler.MissingConfigGivesDefault | packages/engine/convex/domain/runs/workflows/scheduler.ts:94-107 | A run without a config, or whose config is gone, contributes the default policy. |
| Scheduler.ConfigPolicyResolves | packages/engine/convex/domain/runs/workflows/scheduler.ts:94-107 | A config whose layers resolve to an invalid policy contributes the default policy too; a valid one contributes exactly its resolution. |
| Scheduler.FoldBounds | packages/engine/convex/domain/runs/workflows/runs_scheduler.ts:96-115 | The fold is the least poll interval, the largest batch size and the least submit and poll caps over the seed and every policy, each attained by the seed or by some policy. |
| Scheduler.PollWithinCap | packages/engine/convex/domain/runs/workflows/runs_scheduler.ts:125-138 | The global cap holds, and the polls are the due batches in order, with some skipped. |
| Scheduler.PollWithinBucket | packages/engine/convex/domain/runs/workflows/runs_scheduler.ts:125-138 | Every poll was within its bucket's cap when it was made: fewer polls of its bucket came before it than the `max_poll_per_tick` of the policy resolved for it. |
| Scheduler.PollBucketCap | packages/engine/convex/domain/runs/workflows/runs_scheduler.ts:125-138 | When every due batch of a bucket resolves to the same policy, the bucket gets at most that policy's `max_poll_per_tick` polls. |
| Scheduler.FindRun | packages/engine/convex/domain/runs/workflows/runs_scheduler.ts:205-208 | The first run with the id, and none exactly when no run has it. |
| Scheduler.SnapshotResolveByRun | packages/engine/convex/domain/runs/workflows/runs_scheduler.ts:200-209 | In runs_scheduler.ts a batch's policy depends on its run id alone. |
| Scheduler.SnapshotPollsPerRun | packages/engine/convex/domain/runs/workflows/runs_scheduler.ts:125-138 | runs_scheduler.ts: a run gets at most its own `max_poll_per_tick` polls (its snapshot's, or the engine's), whatever the global cap; a run named "none" would share the bucket of the batches without a run. |
| Scheduler.KeyIndex | packages/engine/convex/domain/runs/workflows/runs_scheduler.ts:144-147 | The position of the key's entry, no earlier entry having that key, or the map's size when it has none. |
| Scheduler.Values | packages/engine/convex/domain/runs/workflows/runs_scheduler.ts:161 | The map's values, in the order their keys were first set. |
| Scheduler.MapSetAllKeyed | packages/engine/convex/domain/runs/workflows/runs_scheduler.ts:140-158 | Setting pairs keeps the map well keyed, and afterwards every pair's key is present. |
| Scheduler.SubmitWithinCap | packages/engine/convex/domain/runs/workflows/runs_scheduler.ts:160-178 | At most the cap of new batches, each one a batch some pair's queue produced. |
| Scheduler.FinishReleases | packages/engine/convex/domain/runs/workflows/runs_scheduler.ts:180-194 | The lock is released and the next tick is at least 500 ms and at least the folded poll interval away, and is the last call scheduled. |
| Scheduler.TickWhileLocked | packages/engine/convex/domain/runs/workflows/runs_scheduler.ts:59-69 | With no state row, or while the lock is held past now, a tick does nothing. |
| Scheduler.TickFailureRollsBack | packages/engine/convex/domain/runs/workflows/scheduler.ts:92-108 | A tick whose policy lookup throws leaves the state and the scheduled calls as they were. |
| Scheduler.TickGuarantees | packages/engine/convex/domain/runs/workflows/runs_scheduler.ts:52-198 | A tick that runs: the caps hold, the lock is released, and the next tick is at least 500 ms and at least the folded poll interval away. |
| Scheduler.SchedulerStore.EnsureScheduler | packages/engine/convex/domain/runs/workflows/runs_scheduler.ts:12-50 | The state, the flag and the scheduled calls are those of the ensure specification: no-op under a pending future tick, one tick 500 ms out otherwise (EnsureCases, EnsureTwice); `Date.now()` is `now`. |
| Scheduler.SchedulerStore.TickSnapshots | packages/engine/convex/domain/runs/workflows/runs_scheduler.ts:52-198 | runs_scheduler.ts `tick`: the result, state and calls of the tick specification with the runs' snapshot policies, so caps, lock release and the next tick hold (TickGuarantees, SnapshotPollsPerRun). |
| Scheduler.SchedulerStore.TickConfigs | packages/engine/convex/domain/runs/workflows/scheduler.ts:53-212 | scheduler.ts `tick`: the result, state and calls of the tick specification with the runs' config policies, so the caps, the release and the next tick hold (TickGuarantees), and a throwing lookup rolls back (TickFailureRollsBack). |
| Scheduler.SchedulerStore.TickWith | packages/engine/convex/domain/runs/workflows/runs_scheduler.ts:71-196 | An unlocked tick ends in the tick specification's result, state and new calls. |
| Scheduler.SchedulerStore.CollectSnapshotPolicies | packages/engine/convex/domain/runs/workflows/runs_scheduler.ts:91-94 | One policy per active run: its snapshot, or the engine policy (SnapshotPolicies). |
| Scheduler.SchedulerStore.CollectConfigPolicies | packages/engine/convex/domain/runs/workflows/scheduler.ts:92-108 | One policy per active run: its config's resolution, or the default (MissingConfigGivesDefault, ConfigPolicyResolves). |
| Scheduler.SchedulerStore.FoldPolicies | packages/engine/convex/domain/runs/workflows/runs_scheduler.ts:96-115 | The folded tick policy, whose least and largest fields FoldBounds characterises. |
| Scheduler.SchedulerStore.PollDue | packages/engine/convex/domain/runs/workflows/runs_scheduler.ts:122-138 | The polls of the poll specification, within the global and the bucket caps (PollWithinCap, PollWithinBucket). |
| Scheduler.SchedulerStore.BuildProviderModels | packages/engine/convex/domain/runs/workflows/runs_scheduler.ts:140-158 | The map after setting every pair, well keyed with every pair's key present (MapSetAllKeyed). |
| Scheduler.SchedulerStore.SubmitQueued | packages/engine/convex/domain/runs/workflows/runs_scheduler.ts:160-178 | The submissions of the submit specification: at most the cap, each a batch some pair's queue produced (SubmitWithinCap). |
| Scheduler.TruthyTime | packages/engine/convex/domain/runs/workflows/runs_scheduler.ts:32 | Definition: a truthy time: present and not 0. |
| Scheduler.TruthyId | packages/engine/convex/domain/runs/workflows/scheduler.ts:217-221 | Definition: a truthy id: present and non-empty. |
| Scheduler.EnsureSpec | packages/engine/convex/domain/runs/workflows/runs_scheduler.ts:12-50 | Definition: `ensureScheduler` at time `now`: the row is created when missing; a tick already due after now is left alone; otherwise a tick is scheduled 500 ms out. |
| Scheduler.ActiveRuns | packages/engine/convex/domain/runs/workflows/runs_scheduler.ts:77-89 | Definition: `running.concat(paused, pending)`, each from the `by_status` index in table order. |
| Scheduler.ResolveOutcome | packages/engine/convex/domain/runs/workflows/scheduler.ts:99-104 | Definition: `resolveRunPolicy`, with the schema's rejection as a failure. |
| Scheduler.ConfigPolicy | packages/engine/convex/domain/runs/workflows/scheduler.ts:93-107 | Definition: scheduler.ts: the policy of one active run; every error inside the `try` gives the default. |
| Scheduler.ConfigPolicies | packages/engine/convex/domain/runs/workflows/scheduler.ts:92-108 | One policy per active run, in order, each that run's configured policy or the default. |
| Scheduler.Seed | packages/engine/convex/domain/runs/workflows/runs_scheduler.ts:109-114 | Definition: the fold's seed: the four fields of the engine (or default) policy. |
| Scheduler.FoldStep | packages/engine/convex/domain/runs/workflows/runs_scheduler.ts:97-108 | Definition: one step of the `reduce`. |
| Scheduler.Fold | packages/engine/convex/domain/runs/workflows/runs_scheduler.ts:96-115 | Definition: `policies.reduce(step, seed)`, left to right. |
| Scheduler.BatchKey | packages/engine/convex/domain/runs/workflows/runs_scheduler.ts:128 | Definition: `batch.run_id ?? "none"`: batches without a run share one bucket. |
| Scheduler.KeyCount | packages/engine/convex/domain/runs/workflows/runs_scheduler.ts:129 | Definition: the polls already scheduled for a bucket. |
| Scheduler.PollFrom | packages/engine/convex/domain/runs/workflows/runs_scheduler.ts:125-138 | Definition: the poll loop from the given point: stop at the global cap; skip a batch whose bucket has reached its own policy's cap; a policy lookup that throws aborts the tick. |
| Scheduler.SnapshotResolve | packages/engine/convex/domain/runs/workflows/runs_scheduler.ts:200-209 | Definition: runs_scheduler.ts `resolvePolicyForBatch`: no run → engine policy; an unknown run throws "Run not found"; otherwise the run's snapshot or the engine policy. |
| Scheduler.ConfigResolve | packages/engine/convex/domain/runs/workflows/scheduler.ts:213-233 | Definition: scheduler.ts `resolvePolicyForBatch`: no run or no config id → default; an unknown run or config throws; otherwise the config resolved for the batch's provider and model, whose schema rejection is not caught. |
| Scheduler.ModelPairs | packages/engine/convex/domain/runs/workflows/runs_scheduler.ts:143-148 | The provider:model pairs of one spec, one per model, in order. |
| Scheduler.SpecPairs | packages/engine/convex/domain/runs/workflows/runs_scheduler.ts:142-149 | Definition: the pairs of one `provider_models` list, in loop order. |
| Scheduler.PolicyPairs | packages/engine/convex/domain/runs/workflows/runs_scheduler.ts:140-158 | Definition: the pairs of every policy, then of the engine (or default) policy: the order of the nested loops. |
| Scheduler.MapSet | packages/engine/convex/domain/runs/workflows/runs_scheduler.ts:144-147 | Definition: `Map.set`: an existing key keeps its place and takes the new value; a new key goes last. |
| Scheduler.MapSetAll | packages/engine/convex/domain/runs/workflows/runs_scheduler.ts:140-158 | Definition: the `providerModels` map after setting every pair in order. |
| Scheduler.SubmitFrom | packages/engine/convex/domain/runs/workflows/runs_scheduler.ts:160-178 | Definition: the submit loop from the given point: stop at the cap; a pair whose queue yields no batch is skipped; each new batch gets a submit call. |
| Scheduler.TickPairs | packages/engine/convex/domain/runs/workflows/runs_scheduler.ts:140-161 | Definition: the pairs the submit loop walks: every policy's, then the base policy's, deduplicated by key. |
| Scheduler.Finish | packages/engine/convex/domain/runs/workflows/runs_scheduler.ts:180-196 | Definition: the end of a tick that did not throw: release the lock, record and schedule the next tick. |
| Scheduler.TickSpec | packages/engine/convex/domain/runs/workflows/runs_scheduler.ts:52-198 | Definition: `tick` given the active runs' policies and the per-batch policy lookup. A throw rolls the whole mutation back, lock and scheduled calls included. |
| Scheduler.PollCalls | packages/engine/convex/domain/runs/workflows/runs_scheduler.ts:133-137 | One `pollBatch` call per polled batch, with the batch's id and provider, in order. |
| ScoringParsers.LastVerdictLine | packages/engine/convex/domain/runs/run_parsers.ts:113-125 | A found line starts at an index inside the response. |
| ScoringParsers.GetLastVerdictMatch | packages/engine/convex/domain/runs/run_parsers.ts:113-125 | The loop's last match is the specification's line, whose cases LastVerdictLineSpec gives. |
| ScoringParsers.LastVerdictLineSpec | packages/engine/convex/domain/runs/run_parsers.ts:111-125 | No `VERDICT:` anywhere is an error; otherwise the line comes from a case-insensitive `VERDICT:` match after which there is no other, and it is the trimmed rest of that line. |
| ScoringParsers.ExtractReasoningBeforeVerdict | packages/engine/convex/domain/runs/run_parsers.ts:127-134 | The loop-based extraction equals the specification's reasoning, whose cases ReasoningBeforeVerdictSpec gives. |
| ScoringParsers.ReasoningBeforeVerdictSpec | packages/engine/convex/domain/runs/run_parsers.ts:127-134 | The reasoning is the trimmed text before the last verdict; only whitespace there is an error. |
| ScoringParsers.VerdictToken | packages/engine/convex/domain/runs/run_parsers.ts:148-153 | `line.match(/[A-Za-z0-9]+/)`: the first maximal run of ASCII letters and digits, if there is one. |
| ScoringParsers.VerdictTokenFirst | packages/engine/convex/domain/runs/run_parsers.ts:148-153 | The token is the maximal run of letters and digits starting at the first one. |
| ScoringParsers.ParseSingleVerdict | packages/engine/convex/domain/runs/run_parsers.ts:136-165 | The method's result is the single-verdict parse whose cases SingleVerdictAbstains and SingleVerdictDecodes give. |
| ScoringParsers.ParseSingleVerdictLine | packages/engine/convex/domain/runs/run_parsers.ts:145-164 | The rest of parseSingleVerdict, once the verdict line is found. |
| ScoringParsers.SingleVerdictAbstains | packages/engine/convex/domain/runs/run_parsers.ts:145-146 | ABSTAIN in any letter case, and only that, gives the abstention verdict. |
| ScoringParsers.SingleVerdictDecodes | packages/engine/convex/domain/runs/run_parsers.ts:148-164 | Otherwise the first token is the verdict: it is looked up in the mapping, whose missing keys are errors, or without a mapping its upper-cased first character counts from `A` = 1, with no range check. A line without a token is an error. |
| ScoringParsers.RemoveBrackets | packages/engine/convex/domain/runs/run_parsers.ts:179 | No bracket is left, nothing is added, and a line without brackets is unchanged. |
| ScoringParsers.DecodeToken | packages/engine/convex/domain/runs/run_parsers.ts:189-202 | A token contributes at most one score. |
| ScoringParsers.Decoded | packages/engine/convex/domain/runs/run_parsers.ts:187-203 | At most one score per token. |
| ScoringParsers.DecodeTokens | packages/engine/convex/domain/runs/run_parsers.ts:187-203 | The `for (const token of tokens)` loop: the decoded scores, and whether a mapping missed a token. |
| ScoringParsers.ParseSubsetVerdict | packages/engine/convex/domain/runs/run_parsers.ts:167-218 | The method's result is the subset-verdict parse whose cases SubsetVerdictMapped and SubsetVerdictUnmapped give. |
| ScoringParsers.DecodedAppend | packages/engine/convex/domain/runs/run_parsers.ts:187-203 | Decoding a concatenation decodes each part, in order. |
| ScoringParsers.DecodedMapped | packages/engine/convex/domain/runs/run_parsers.ts:190-197 | With a mapping and every token known, each token gives its mapped score, in order. |
| ScoringParsers.DecodedLetters | packages/engine/convex/domain/runs/run_parsers.ts:199-202 | Without a mapping, exactly the single-letter tokens decode, each to its place in the alphabet. |
| ScoringParsers.SubsetVerdictMapped | packages/engine/convex/domain/runs/run_parsers.ts:175-218 | With a mapping: an unknown token is an error, and otherwise every token decodes through the mapping, in token order. |
| ScoringParsers.SubsetVerdictUnmapped | packages/engine/convex/domain/runs/run_parsers.ts:175-218 | Without a mapping: only single letters decode, other tokens are skipped, and a line with no single letter is an error. |
| ScoringParsers.SubsetLineUnmapped | packages/engine/convex/domain/runs/run_parsers.ts:179-211 | SubsetVerdictUnmapped for the verdict line itself. |
| ScoringParsers.VerdictTokensClean | packages/engine/convex/domain/runs/run_parsers.ts:179-183 | Tokens never hold a bracket or a separator. |
| ScoringParsers.ClampProbability | packages/engine/convex/domain/runs/run_parsers.ts:244 | The result lies in [0, 1], and a probability already in [0, 1] is kept. |
| ScoringParsers.LastExpertMatch | packages/engine/convex/domain/runs/run_parsers.ts:224-230 | The last EXPERT_AGREEMENT match of the `while (regex.exec(raw))` loop. |
| ScoringParsers.ParseExpertAgreementResponse | packages/engine/convex/domain/runs/run_parsers.ts:220-246 | The method's result is the expert-agreement parse, whose cases ExpertAgreementSpec gives. |
| ScoringParsers.ExpertAgreementSpec | packages/engine/convex/domain/runs/run_parsers.ts:220-246 | The probability comes from the last EXPERT_AGREEMENT match, never reads as NaN, and is clamped into [0, 1]; the response fails exactly when there is no match or only whitespace precedes the last one. |
| ScoringParsers.ClampProbabilityIdempotent | packages/engine/convex/domain/runs/run_parsers.ts:244 | Clamping keeps the result in [0, 1] and is idempotent. |
| ScoringParsers.ReasoningBeforeVerdict | packages/engine/convex/domain/runs/run_parsers.ts:127-134 | Definition: `extractReasoningBeforeVerdict`: the trimmed text before the last verdict line, a failure when there is none or it is blank. |
| ScoringParsers.SingleVerdictOf | packages/engine/convex/domain/runs/run_parsers.ts:136-165 | Definition: `parseSingleVerdict`, with its thrown errors as failures. |
| ScoringParsers.SingleVerdictOfLine | packages/engine/convex/domain/runs/run_parsers.ts:145-164 | Definition: what parseSingleVerdict makes of the verdict line. |
| ScoringParsers.VerdictTokens | packages/engine/convex/domain/runs/run_parsers.ts:167-218 | Definition: the tokens of a verdict line: brackets removed, split on runs of commas, whitespace and `/`, blanks dropped. |
| ScoringParsers.IsSingleLetter | packages/engine/convex/domain/runs/run_parsers.ts:189-202 | Definition: a token `^[A-Z]$` matches once upper-cased. |
| ScoringParsers.SubsetVerdictOf | packages/engine/convex/domain/runs/run_parsers.ts:167-218 | Definition: `parseSubsetVerdict`, with its thrown errors as failures. |
| ScoringParsers.SubsetVerdictOfLine | packages/engine/convex/domain/runs/run_parsers.ts:179-211 | Definition: what parseSubsetVerdict makes of the verdict line. |
| ScoringParsers.ExpertAgreementOf | packages/engine/convex/domain/runs/run_parsers.ts:220-246 | Definition: `parseExpertAgreementResponse`, with its thrown errors as failures. |
| ScoringPrompts.MulberryValue | packages/engine/convex/domain/experiments/stages/scoring/experiments_scoring_prompts.ts:35 | Every draw lies in [0, 1). |
| ScoringPrompts.Mulberry32.Next | packages/engine/convex/domain/experiments/stages/scoring/experiments_scoring_prompts.ts:31-36 | Each call advances the generator by one draw and returns the mulberry32 value of the new state, which lies in [0, 1). |
| ScoringPrompts.ShufflePicks | packages/engine/convex/domain/experiments/stages/scoring/experiments_scoring_prompts.ts:40-45 | The swap partner of each position: position i is handled by the (n - i)-th call of the generator, which is `mulberry32(seed)` when a seed is given and `Math.random` (the draws) otherwise. |
| ScoringPrompts.ShuffleDraw | packages/engine/convex/domain/experiments/stages/scoring/experiments_scoring_prompts.ts:40-43 | Every draw lies in [0, 1). |
| ScoringPrompts.Draw | packages/engine/convex/domain/experiments/stages/scoring/experiments_scoring_prompts.ts:40-43 | The value returned at position i is the specified draw, and exactly one mulberry32 call is consumed. |
| ScoringPrompts.DrawPick | packages/engine/convex/domain/experiments/stages/scoring/experiments_scoring_prompts.ts:43 | The partner of position i is the specified pick, at most i. |
| ScoringPrompts.ShuffleStep | packages/engine/convex/domain/experiments/stages/scoring/experiments_scoring_prompts.ts:43-44 | One iteration at position i swaps it with its specified partner: the array then equals the Fisher-Yates pass that still has to handle position i. |
| ScoringPrompts.ShuffleInPlace | packages/engine/convex/domain/experiments/stages/scoring/experiments_scoring_prompts.ts:42-45 | The loop leaves the copy as the Fisher-Yates pass with the specified partners, the generator advancing once per position. |
| ScoringPrompts.ShuffleWithSeed | packages/engine/convex/domain/experiments/stages/scoring/experiments_scoring_prompts.ts:39-47 | A shuffled copy of the items; the items themselves are a value and stay as they are. |
| ScoringPrompts.ShufflePermutes | packages/engine/convex/domain/experiments/stages/scoring/experiments_scoring_prompts.ts:39-47 | The shuffle is a permutation of its input. |
| ScoringPrompts.SeededShuffleDeterministic | packages/engine/convex/domain/experiments/stages/scoring/experiments_scoring_prompts.ts:40 | With a seed the order is reproducible: the same for every run of `Math.random`. |
| ScoringPrompts.MaxOf | packages/engine/convex/domain/experiments/stages/scoring/experiments_scoring_prompts.ts:50 | The largest of the values: no value exceeds it and it is one of them. |
| ScoringPrompts.LastTokenFor | packages/engine/convex/domain/experiments/stages/scoring/experiments_scoring_prompts.ts:52-54 | A token found for a stage comes from an entry with that stage. |
| ScoringPrompts.InvertedByMax | packages/engine/convex/domain/experiments/stages/scoring/experiments_scoring_prompts.ts:49-56 | `new Array(Math.max(...values))` filled by `tokens[stage - 1] = token`: the slots of a length-max array, with unassigned slots as holes (`None`). `Math.max()` of no values is `-Infinity`, and an array length outside 0..2^32-1 throws a `RangeError`. |
| ScoringPrompts.InvertLabelMapping | packages/engine/convex/domain/experiments/stages/scoring/experiments_scoring_prompts.ts:49-56 | The loop's array is the inversion sized by the largest score, as InvertedByMax describes. |
| ScoringPrompts.PlaceTokens | packages/engine/convex/domain/experiments/stages/scoring/experiments_scoring_prompts.ts:52-54 | After the loop every slot holds the token of the last entry for its stage, or a hole when none names that stage. |
| ScoringPrompts.InvertedPlacesTokens | packages/engine/convex/domain/experiments/stages/scoring/experiments_scoring_prompts.ts:52-54 | Each token lands at index stage - 1, the last entry for a stage winning. |
| ScoringPrompts.LastTokenForNone | packages/engine/convex/domain/experiments/stages/scoring/experiments_scoring_prompts.ts:52-54 | A stage gets no token exactly when no entry carries that stage. |
| ScoringPrompts.InvertBijective | packages/engine/convex/domain/experiments/stages/scoring/experiments_scoring_prompts.ts:49-56 | A mapping that gives n labels the scores 1..n, one each, inverts with no holes to an array of length n holding each label at its score less one. |
| ScoringPrompts.InvertGenerated | packages/engine/convex/domain/experiments/stages/scoring/experiments_scoring_prompts.ts:49-56 | Inverting a generated mapping gives back every letter, at the index of its score less one, with no holes: inversion undoes generation. |
| ScoringPrompts.StageTokenLetters | packages/engine/convex/domain/experiments/stages/scoring/experiments_scoring_prompts.ts:72-81 | Without anonymisation, or without a mapping, every stage is shown under its letter. |
| ScoringPrompts.StageTokenAnonymised | packages/engine/convex/domain/experiments/stages/scoring/experiments_scoring_prompts.ts:72-81 | With anonymisation and a mapping, a stage shows its inverted token, or its letter where the inversion has a hole. |
| ScoringPrompts.StagedOf | packages/engine/convex/domain/experiments/stages/scoring/experiments_scoring_prompts.ts:78-81 | One staged entry per stage, in rubric order, each with the token StageTokenLetters and StageTokenAnonymised describe. |
| ScoringPrompts.RubricLines | packages/engine/convex/domain/experiments/stages/scoring/experiments_scoring_prompts.ts:87-93 | One line per staged entry, in order. |
| ScoringPrompts.HiddenLabelNotShown | packages/engine/convex/domain/experiments/stages/scoring/experiments_scoring_prompts.ts:87-93 | With label text hidden, a line is the token and the criteria only: two stages that differ in their label alone give the same line. |
| ScoringPrompts.FisherYatesLines | packages/engine/convex/domain/experiments/stages/scoring/experiments_scoring_prompts.ts:83-93 | The pass moves lines with their stages: rendering commutes with it. |
| ScoringPrompts.RubricLinesDisplayed | packages/engine/convex/domain/experiments/stages/scoring/experiments_scoring_prompts.ts:83-99 | The block lists every stage's line once: unshuffled it is in stage order, and shuffled it is a permutation of that. |
| ScoringPrompts.VerdictText | packages/engine/convex/domain/experiments/stages/scoring/experiments_scoring_prompts.ts:137 | The verdict when there is one, `(none)` otherwise. |
| ScoringPrompts.CriticPromptHead | packages/engine/convex/domain/experiments/stages/scoring/experiments_scoring_prompts.ts:126-136 | Ten lines precede the verdict line. |
| ScoringPrompts.CriticPromptEndsWithVerdict | packages/engine/convex/domain/experiments/stages/scoring/experiments_scoring_prompts.ts:117-144 | The prompt ends with the model's verdict line, `(none)` standing in for a missing verdict. |
| ScoringPrompts.Mix | packages/engine/convex/domain/experiments/stages/scoring/experiments_scoring_prompts.ts:35 | Definition: the output mix of a state that has just been advanced. |
| ScoringPrompts.MulberryState | packages/engine/convex/domain/experiments/stages/scoring/experiments_scoring_prompts.ts:40-43 | Definition: the state after k draws from `mulberry32(seed)`. |
| ScoringPrompts.ShuffleOf | packages/engine/convex/domain/experiments/stages/scoring/experiments_scoring_prompts.ts:39-47 | Definition: `shuffle`: Fisher–Yates over the items with the picks that the seeded generator or the unseeded draws give. |
| ScoringPrompts.LabelTokens | packages/engine/convex/domain/experiments/stages/scoring/experiments_scoring_prompts.ts:72-81 | Definition: the prompt's label tokens: the inverted sample mapping when labels are anonymised and the sample has a mapping, otherwise the scale's letters. |
| ScoringPrompts.StageToken | packages/engine/convex/domain/experiments/stages/scoring/experiments_scoring_prompts.ts:72-81 | Definition: `labelTokens[idx] ?? scale.letterLabels[idx]`, printed as "undefined" when both are missing. |
| ScoringPrompts.RubricLine | packages/engine/convex/domain/experiments/stages/scoring/experiments_scoring_prompts.ts:87-93 | Definition: one line of the `RUBRIC STAGES:` block. The label is followed by a dash: an em dash "—" in this builder, a hyphen "-" in `run_prompts.ts`. |
| ScoringPrompts.DisplayOrder | packages/engine/convex/domain/experiments/stages/scoring/experiments_scoring_prompts.ts:83-99 | Definition: the stages in display order: shuffled with the sample's display seed when the rubric order is randomised. |
| ScoringPrompts.CriticRubricLine | packages/engine/convex/domain/experiments/stages/scoring/experiments_scoring_prompts.ts:126-136 | Definition: `${idx + 1}) ${label} :: ${criteria.join("; ")}`. |
| ScoringPrompts.ScoreCriticUserPrompt | packages/engine/convex/domain/experiments/stages/scoring/experiments_scoring_prompts.ts:117-144 | Definition: the critic's user prompt: its lines joined by newlines. |
| Tbm.CombineUnnormalisedConserves | packages/analysis/notebooks/pilot_v2.py:659-663 | The unnormalised rule conserves mass (its total is Σm1 · Σm2), keeps the keys distinct and the weights non-negative. |
| Tbm.CombineUnnormalisedSymmetric | packages/analysis/notebooks/pilot_v2.py:659-663 | The unnormalised conjunctive rule gives the same weight to every key whichever mass comes first. |
| Tbm.CombineUnnormalisedAgrees | packages/analysis/src/judge_gym/dempster_shafer.py:23-39 | The unnormalised rule agrees with the analysis library's combination before normalisation: the mass of {} is its conflict k, and every other key carries the library's pre-normalised bucket. |
| Tbm.FoldUnnormalisedProper | packages/analysis/notebooks/pilot_v2.py:659-663 | Folding proper masses with the unnormalised rule gives a proper mass. |
| Tbm.FoldNormalisedShape | packages/analysis/notebooks/pilot_v2.py:896-900 | Folding with Dempster's rule never yields the empty set as a key. |
| Tbm.CombineEmptyLeft | packages/analysis/notebooks/pilot_v2.py:896-900 | Combining the empty dict (total conflict reached earlier) gives the empty dict. |
| Tbm.FoldNormalisedProper | packages/analysis/notebooks/pilot_v2.py:896-900 | Folding proper masses with Dempster's rule gives a non-negative mass that sums to 1, or the empty dict once the conflict was total. |
| Tbm.PignisticBounds | packages/analysis/notebooks/pilot_v2.py:612-626 | For a non-negative mass of total at most 1, every BetP lies in [0, 1]. |
| Tbm.CombineUnnormalised | packages/analysis/notebooks/pilot_v2.py:661 | Definition: `m1.combine_conjunctive(m2, normalization=False)`: the conjunctive rule without renormalisation. |
| Tbm.CombineNormalisedRule | packages/analysis/notebooks/pilot_v2.py:898 | Definition: `m1.combine_conjunctive(m2, normalization=True)`: Dempster's rule. |
| Tbm.FoldUnnormalised | packages/analysis/notebooks/pilot_v2.py:660-663 | Definition: `reduce` of the unnormalised rule over the list of masses. |
| Tbm.FoldNormalised | packages/analysis/notebooks/pilot_v2.py:897-900 | Definition: `reduce` of Dempster's rule over the list of masses. |
| Tbm.PignisticSum | packages/analysis/notebooks/pilot_v2.py:612 | Definition: σ over the items whose focal set contains s of m(A) / \|A\|. |
| Tbm.Pignistic | packages/analysis/notebooks/pilot_v2.py:612 | Definition: betP(s) = Σ_{A ∋ s} m(A) / \|A\|, renormalised by 1 − m(∅); when all the mass is on ∅ there is nothing to distribute and BetP(s) = 0. |
| VerdictExamples.BracketedLetter | packages/engine/tests/utils_verdict_parser.test.ts:37-44 | `VERDICT: [B].` decodes to stage 2 with raw verdict B, through the strict single-verdict parser. |
| VerdictExamples.LowerCaseLetter | packages/engine/tests/utils_verdict_parser.test.ts:46-53 | `verdict: d` decodes to stage 4 with raw verdict d: the strict parser reads the marker in either case and upper-cases the letter. |
| VerdictExamples.LineBeforeMoreText | packages/engine/tests/utils_verdict_parser.test.ts:87-94 | Only the rest of the marker's line is read: `VERDICT: [A / D]` followed by more text gives the line `[A / D]`. |
| VerdictExamples.SlashTokens | packages/engine/tests/utils_verdict_parser.test.ts:78-85 | `A / C` splits into the tokens A and C. |
| VerdictExamples.SlashSubset | packages/engine/tests/utils_verdict_parser.test.ts:78-85 | `VERDICT: A / C` decodes to the stages 1 and 3 with raw verdict `A / C`. |
| VerdictExamples.BracketedSubsetThenText | packages/engine/tests/utils_verdict_parser.test.ts:87-94 | `VERDICT: [A / D]` then more text decodes to the stages 1 and 4, with the bracketed line as raw verdict. |
| VerdictExamples.EmptyBracketsFail | packages/engine/tests/utils_verdict_parser.test.ts:105-107 | `VERDICT: []` is rejected: no token is left once the brackets go. |
| VerdictExamples.AbstainAnyCase | packages/engine/tests/utils_verdict_parser.test.ts:28-35 | An ABSTAIN line in any letter case is an abstention for both strict parsers, with or without a mapping. |
| VerdictExamples.UnknownMappedTokenFails | packages/engine/tests/utils_verdict_parser.test.ts:73-76 | A subset verdict with a label the mapping does not know is rejected. |
| VerdictExamples.LenientWithoutMarker | packages/engine/convex/utils/verdict_parser.ts:17-19 | The lenient parsers give the null verdict, rather than an error, for a response without a `VERDICT:` line. |
| VerdictExamples.LenientLowerCaseLetter | packages/engine/convex/utils/verdict_parser.ts:25-38 | The lenient single parser decodes `verdict: d` to 36, the character code of d minus 64, where the strict parser gives 4. |
| VerdictExamples.LenientFirstOfTwo | packages/engine/convex/utils/verdict_parser.ts:17-21 | The lenient parser reads the first `VERDICT:` line of the response. |
| VerdictExamples.KnownThenUnknown | packages/engine/convex/utils/verdict_parser.ts:62-64 | Through a mapping, a known label followed by an unknown one decodes to the known label's score alone. |
| VerdictExamples.LenientDropsUnknown | packages/engine/convex/utils/verdict_parser.ts:62-64 | Through a mapping the lenient subset parser drops an unknown label rather than rejecting the verdict. |
| WindowService.WindowStore.ListPendingTargets | packages/engine/convex/domain/window/window_orchestrator.ts:68-110 | Returns exactly ListPendingTargetsSpec of the tables: the eligible evidences of the window in table order, or the stage error. |
| WindowService.WindowStore.EnqueueStage | packages/engine/convex/domain/orchestrator/base.ts:137-167 | The tables and the error are those of the enqueue specification: only LLM rows are appended (EnqueueSpecFrame), each under an evidence key of the stage (EnqueueSpecKeys). |
| WindowService.WindowStore.RecordSuccess | packages/engine/convex/domain/window/window_orchestrator.ts:151-168 | The tables and the error are those of the record specification: output and request id in the stage's fields, request marked success; recording twice is recording once (RecordSuccessIdempotent). |
| WindowService.WindowStore.HasWindowEvidence | packages/engine/convex/domain/window/window_service.ts:244-248 | True exactly when some evidence row belongs to the window. |
| WindowService.WindowStore.CountStage | packages/engine/convex/domain/window/window_service.ts:249-291 | The counters are the tally of evidences of the window that TallyMeaning characterises. |
| WindowService.WindowStore.MaybeAdvanceWindowStage | packages/engine/convex/domain/window/window_service.ts:226-319 | The tables and error of the advance specification: the window fails, moves, completes or waits exactly as AdvanceFailsIff, AdvanceMovesIff, AdvanceCompletesIff and AdvanceWaits say, rolling back on a throw (MaybeAdvanceFrame). |
| WindowService.WindowStore.StartWindowOrchestration | packages/engine/convex/domain/window/window_service.ts:82-105 | The tables and error of the start specification: a missing window throws, a finished one is untouched, any other runs at l1 (StartSpecEffect). |
| WindowService.WindowStore.EnqueueWindowStage | packages/engine/convex/domain/window/window_service.ts:107-116 | The tables and error of the enqueue specification for the given stage, as in EnqueueStage. |
| WindowService.WindowStore.ApplyRequestResult | packages/engine/convex/domain/window/window_service.ts:118-155 | The tables and error of the result specification: an evidence's result is recorded and the window advanced (ApplyResultRecords), other keys throw unchanged (ApplyResultRefuses). |
| WindowService.WindowStore.HandleRequestError | packages/engine/convex/domain/window/window_service.ts:157-169 | The tables and error of the error-notice specification, which changes no evidence and no request (HandleErrorFrame). |
| WindowService.WindowStore.RequeueRequest | packages/engine/convex/domain/window/window_service.ts:171-212 | The tables and error of the requeue specification: one new job for the window and stage (RequeueSpecEffect), other keys refused (RequeueRefusesOtherKeys). |
| WindowService.WindowStore.ApplyResultForRequest | packages/engine/convex/domain/llm_calls/llm_batch_service.ts:197-243 | The tables, totals and error for one result row: applied on success, retried or failed otherwise (ResultForRequest, FailedResultRetries, FailedResultGivesUp). |
| WindowService.WindowStore.ApplyBatchResults | packages/engine/convex/domain/llm_calls/llm_batch_service.ts:184-247 | The tables, totals and error of the batch loop: unknown keys ignored, the last document under a key updated, nothing after a throw (UnknownResultIgnored, KnownResultUsesLast, BatchErrorSticks). |
| WindowService.WindowStore.RunJobRequest | packages/engine/convex/domain/llm_calls/llm_job_service.ts:151-201 | The tables and the two flags of one job step as written (JobStepWaits, JobStepFailure, JobStepSuccess). |
| WindowService.WindowStore.RunJobRequests | packages/engine/convex/domain/llm_calls/llm_job_service.ts:147-203 | The tables and the two flags of the job loop as written, whose flags stick (RunJobsFlagsStick). |
| WindowService.WindowStore.RunJobRequestNotifying | packages/engine/convex/domain/window/window_service.ts:157-169 | The tables and flags of the corrected step: the step as written, then handleRequestError after a terminal failure, which errors the window (TerminalFailureErrorsWindow). |
| WindowService.WindowStore.RunJobRequestsNotifying | packages/engine/convex/domain/llm_calls/llm_job_service.ts:147-203 | The tables and flags of the corrected loop over all documents (NotifyingAgrees). |
| WindowService.WindowStore.RecordResult | packages/engine/convex/domain/window/window_service.ts:135-153 | The evidence gets the output and the request id in the stage's fields, the request succeeds with the output and token counts, and the window's stage is re-counted; when the re-count throws the tables are as before the call and the error is the re-count's. |
| WindowService.WindowStore.CountOne | packages/engine/convex/domain/window/window_service.ts:254-290 | One turn of the count is one step of the tally: an evidence of the window adds to completed when it has output, to failed when its attempts are used up, and otherwise marks work pending (also when no request exists yet); rows of other windows change nothing. |
| Windows.LevelNamed | packages/engine/convex/domain/window/window_orchestrator.ts:136-140 | The level a stage string names: Some exactly for the four level names, each read back to its own level. |
| Windows.LevelNameRoundTrip | packages/engine/convex/domain/window/window_orchestrator.ts:133-148 | Every level name reads back as that level and contains no ":" separator, so keys built from it split back correctly. |
| Windows.StageConfigOf | packages/engine/convex/domain/window/window_orchestrator.ts:29-66 | The raw level fails with "l0_raw is not a processing stage"; each processing stage gets the input, output and request-id fields of STAGE_CONFIGS. |
| Windows.StageConfigNamed | packages/engine/convex/domain/window/window_orchestrator.ts:63-66 | A missing or unknown stage string gives the undefined read failure, a known one the configuration of its level. |
| Windows.StagesChain | packages/engine/convex/domain/window/window_orchestrator.ts:29-54 | l1 reads the raw text, l2 reads l1's output and l3 reads l2's output. |
| Windows.StageFieldsDistinct | packages/engine/convex/domain/window/window_orchestrator.ts:29-54 | Different stages have different output and request-id fields. |
| Windows.NextStageOrder | packages/engine/convex/domain/window/window_service.ts:214-224 | nextStageFor: l1 to l2, l2 to l3, nothing after l3 or for the raw level. |
| Windows.WithResult | packages/engine/convex/domain/window/window_orchestrator.ts:151-157 | The patched evidence has the output in the stage's output field and the request id in its request-id field, every other field unchanged. |
| Windows.RequestKeyRoundTrip | packages/engine/convex/domain/window/window_orchestrator.ts:133-140 | parseRequestKey(makeRequestKey(id, stage)) gives back the id and the stage. |
| Windows.ProcessKeyRoundTrip | packages/engine/convex/domain/window/window_orchestrator.ts:142-149 | parseProcessKey(makeProcessKey(id, stage)) gives back the window id and the stage. |
| Windows.EvidenceKeyInjective | packages/engine/convex/domain/window/window_orchestrator.ts:133-135 | Request keys of different evidences or different stages differ. |
| Windows.RequestKeyIsNotProcessKey | packages/engine/convex/domain/window/window_orchestrator.ts:136-149 | A request key is refused by parseProcessKey with the unexpected-type error. |
| Windows.PendingTargets | packages/engine/convex/domain/window/window_orchestrator.ts:68-110 | The targets among the first n evidences, in table order, one per eligible evidence, with its input. |
| Windows.PendingTargetsMembers | packages/engine/convex/domain/window/window_orchestrator.ts:82-107 | A target is listed exactly when an eligible evidence (window, no output, no request id, input present, no pending request, attempts left) gives it. |
| Windows.GivesStep | packages/engine/convex/domain/window/window_orchestrator.ts:82-107 | Extending the evidences by one adds that evidence's target exactly when it is eligible. |
| Windows.PendingTargetsDistinct | packages/engine/convex/domain/window/window_orchestrator.ts:82-107 | The listed targets have distinct evidence ids. |
| Windows.ListedIndex | packages/engine/convex/domain/window/window_orchestrator.ts:82-107 | A listed target names one of the evidences it came from. |
| Windows.DistinctSnoc | packages/engine/convex/domain/window/window_orchestrator.ts:82-107 | Appending a target with a new id keeps the ids distinct. |
| Windows.EnqueueSpecFrame | packages/engine/convex/domain/orchestrator/base.ts:137-167 | Enqueueing never changes windows or evidences; it only appends LLM requests and a batch or job row. |
| Windows.EnqueueSpecShape | packages/engine/convex/domain/orchestrator/base.ts:137-167 | An enqueue that adds requests is for a processing stage of an existing window with a model. |
| Windows.EnqueueSpecKeys | packages/engine/convex/domain/orchestrator/base.ts:143-158 | Every request added by the enqueue carries a request key of that stage for an evidence of the window. |
| Windows.PendingTargetEvidence | packages/engine/convex/domain/window/window_orchestrator.ts:82-107 | Every listed target's id is an evidence row. |
| Windows.EnqueuedKey | packages/engine/convex/domain/orchestrator/base.ts:143-158 | The request created for target i carries makeRequestKey(i, stage). |
| Windows.SomeAtStep | packages/engine/convex/domain/window/window_service.ts:253-291 | One more row adds that row's progress to the set of progress values present. |
| Windows.HasEvidenceStep | packages/engine/convex/domain/window/window_service.ts:244-248 | One more row belongs to the window, or the window's rows are those below it. |
| Windows.TallyMeaning | packages/engine/convex/domain/window/window_service.ts:249-291 | hasPending, completed and failed hold exactly when some evidence of the window is waiting, finished or stuck; without pending work every evidence is counted as completed or failed. |
| Windows.FinishedIffOutput | packages/engine/convex/domain/window/window_service.ts:255-259 | An evidence counts as completed exactly when its output field is set. |
| Windows.AdvanceFailsIff | packages/engine/convex/domain/window/window_service.ts:293-302 | The window is set to error exactly when it is live, has evidence, none waiting, none finished and some stuck. |
| Windows.AdvanceMovesIff | packages/engine/convex/domain/window/window_service.ts:304-318 | The window moves to the next stage exactly when it is live at this stage, nothing is waiting, something finished and a next stage exists. |
| Windows.AdvanceCompletesIff | packages/engine/convex/domain/window/window_service.ts:304-311 | At the last stage the window is completed once nothing is waiting and something finished. |
| Windows.AdvanceWaits | packages/engine/convex/domain/window/window_service.ts:293 | While any evidence of the stage is still waiting, the window is left as it is. |
| Windows.MaybeAdvanceFrame | packages/engine/convex/domain/window/window_service.ts:226-319 | A stage notice never changes evidences or the number of windows, only appends requests, and rolls back when it throws. |
| Windows.MaybeAdvanceOnce | packages/engine/convex/domain/window/window_service.ts:313-318 | A notice for a stage the window has left changes nothing, so the next stage is enqueued once. |
| Windows.LookupEvidence | packages/engine/convex/domain/window/window_service.ts:132-133 | A found evidence is a row of the table whose id text is the key's id part. |
| Windows.StartSpecEffect | packages/engine/convex/domain/window/window_service.ts:82-105 | A missing window throws "Window not found"; a finished window is untouched; any other becomes running at l1 with only LLM rows added. |
| Windows.ApplyResultRecords | packages/engine/convex/domain/window/window_service.ts:118-155 | A result under an evidence's own key records the output in that stage's field, marks the request done with the tokens, and advances the window. |
| Windows.ApplyResultRefuses | packages/engine/convex/domain/window/window_service.ts:126-133 | Keys that are not evidence keys, and raw-level keys, throw and change nothing. |
| Windows.HandleErrorFrame | packages/engine/convex/domain/window/window_service.ts:157-169 | An error notice changes no evidence and no existing request. |
| Windows.RecordSuccessIdempotent | packages/engine/convex/domain/window/window_orchestrator.ts:151-168 | Recording the same result twice equals recording it once. |
| Windows.RequeueSpecEffect | packages/engine/convex/domain/window/window_service.ts:171-212 | A retried evidence request gets exactly one new job keyed by its window and stage, points at it and leaves its batch. |
| Windows.RequeueRefusesOtherKeys | packages/engine/convex/domain/window/window_service.ts:176-189 | Keys that are not evidence keys throw and change nothing. |
| Windows.ApplyResultFrame | packages/engine/convex/domain/window/window_service.ts:118-169 | A result notice only appends requests, keeps the evidence table's size, and rolls back when it throws. |
| Windows.LastWithKey | packages/engine/convex/domain/llm_calls/llm_batch_service.ts:186-194 | The lookup finds a document with the key, the last such one. |
| Windows.ResultForRequest | packages/engine/convex/domain/llm_calls/llm_batch_service.ts:193-243 | A completed row with output goes through applyRequestResult with its tokens counted; any other row costs an attempt and is requeued or failed. |
| Windows.BatchResultStep | packages/engine/convex/domain/llm_calls/llm_batch_service.ts:193-195 | An unknown key is skipped; otherwise the row applies to the last document with that key. |
| Windows.ApplyBatchResultsSpec | packages/engine/convex/domain/llm_calls/llm_batch_service.ts:184-247 | Over the rows in order, stopping at the first throw, the request table never shrinks. |
| Windows.UnknownResultIgnored | packages/engine/convex/domain/llm_calls/llm_batch_service.ts:194-195 | A row whose key names no loaded request changes nothing. |
| Windows.KnownResultUsesLast | packages/engine/convex/domain/llm_calls/llm_batch_service.ts:186-194 | With several documents under the result's key, the last of them is updated. |
| Windows.LastWithKeyFinds | packages/engine/convex/domain/llm_calls/llm_batch_service.ts:186-188 | The last document carrying a key is the one the Map returns. |
| Windows.BatchTotalsNonNegative | packages/engine/convex/domain/llm_calls/llm_batch_service.ts:190-199 | With non-negative token counts the totals are non-negative. |
| Windows.BatchErrorSticks | packages/engine/convex/domain/llm_calls/llm_batch_service.ts:193-244 | After a throw no later row is applied. |
| Windows.FailedResultRetries | packages/engine/convex/domain/llm_calls/llm_batch_service.ts:213-230 | A failed row with attempts left makes the request pending with attempts + 1, the error and the next attempt time, then requeues it. |
| Windows.FailedResultGivesUp | packages/engine/convex/domain/llm_calls/llm_batch_service.ts:231-243 | A failed row without attempts left sets the request to error with attempts + 1 and changes nothing else. |
| Windows.CompletedResultApplied | packages/engine/convex/domain/llm_calls/llm_batch_service.ts:197-210 | A completed row with output is applied by applyRequestResult and its tokens are added to the totals. |
| Windows.JobStep | packages/engine/convex/domain/llm_calls/llm_job_service.ts:151-201 | One request of the job: the request table never shrinks and the flags, once raised, stay raised (the cases are in JobStepWaits, JobStepFailure, JobStepSuccess). |
| Windows.RunJobsSpec | packages/engine/convex/domain/llm_calls/llm_job_service.ts:147-203 | The request table never shrinks over the loop. |
| Windows.JobStepWaits | packages/engine/convex/domain/llm_calls/llm_job_service.ts:152-172 | Settled requests are skipped; one not due sets anyPending; one refused by the limiter is deferred to the retry time and sets anyPending. |
| Windows.JobStepFailure | packages/engine/convex/domain/llm_calls/llm_job_service.ts:186-199 | A provider failure sets attempts + 1 and the error; with attempts left the request is pending again and anyPending is set, otherwise it is an error and anyErrors is set; windows and evidences unchanged. |
| Windows.JobStepSuccess | packages/engine/convex/domain/llm_calls/llm_job_service.ts:174-185 | A provider answer goes through applyRequestSuccess and leaves the flags as they were. |
| Windows.RunJobsFlagsStick | packages/engine/convex/domain/llm_calls/llm_job_service.ts:147-203 | Once anyPending or anyErrors is raised at request m it is still raised at every later request n. |
| Windows.JobStepNotifying | packages/engine/convex/domain/window/window_service.ts:157-169 | The corrected step keeps both flags once raised and never shrinks the request table. |
| Windows.TerminalFailureStep | packages/engine/convex/domain/llm_calls/llm_job_service.ts:186-199 | In the terminal branch the step as written only sets the request to error and raises anyErrors. |
| Windows.RunJobsNotifying | packages/engine/convex/domain/window/window_service.ts:157-169 | The corrected loop never shrinks the request table. |
| Windows.NotifyingAgrees | packages/engine/convex/domain/llm_calls/llm_job_service.ts:147-203 | The corrected step equals the step as written except after a terminal failure, and both flags always agree. |
| Windows.NoticeOfFailedStage | packages/engine/convex/domain/window/window_service.ts:293-302 | A stage notice that finds the stage failed sets the window to error at that stage. |
| Windows.ErrorNoticeFailsWindow | packages/engine/convex/domain/window/window_service.ts:157-169 | handleRequestError for a stage of a live window with nothing finished or waiting errors the window at that stage. |
| Windows.TerminalFailureErrorsWindow | packages/engine/convex/tests/orchestrator_workflows.test.ts:719-775 | For the test's last failing request, the step as written leaves the live window's status as it was, while the corrected step sets it to error at that stage. |
| Windows.LevelName | packages/engine/convex/domain/window/window_service.ts:214-219 | Definition: the names of the semantic levels, as they appear in keys and in `current_stage`. |
| Windows.Content | packages/engine/convex/domain/window/window_orchestrator.ts:85 | Definition: `evidence[field]`; the raw text is never null. |
| Windows.RequestIdAt | packages/engine/convex/domain/window/window_orchestrator.ts:76-78 | Definition: the request id field of the stage, read from the evidence row. |
| Windows.NextStage | packages/engine/convex/domain/window/window_service.ts:214-224 | Definition: the window's stage order. |
| Windows.EvidenceKey | packages/engine/convex/domain/window/window_orchestrator.ts:132-134 | Definition: `makeRequestKey`: `evidence:<evidence id>:<stage>`. |
| Windows.WindowKey | packages/engine/convex/domain/window/window_orchestrator.ts:141-143 | Definition: `makeProcessKey`: `window:<window id>:<stage>`. |
| Windows.ParseRequestKey | packages/engine/convex/domain/window/window_orchestrator.ts:135-139 | Definition: `parseRequestKey`: the key split on colons; a first part other than "evidence" throws with the key in the message, otherwise the id and stage parts. |
| Windows.ParseProcessKey | packages/engine/convex/domain/window/window_orchestrator.ts:144-148 | Definition: `parseProcessKey`: the key split on colons; a first part other than "window" throws with the key in the message, otherwise the id and stage parts. |
| Windows.Terminal | packages/engine/convex/domain/window/window_service.ts:233-238 | Definition: window statuses after which the pipeline leaves the window alone: completed, canceled and error. |
| Windows.RequestKeyFor | packages/engine/convex/domain/orchestrator/base.ts:143-145 | Definition: the request-key maker the base orchestrator calls for each target of a stage. |
| Windows.Awaiting | packages/engine/convex/domain/window/window_orchestrator.ts:73-80 | Definition: the `by_window_lN_pending` index: the window's evidence with neither output nor request id. |
| Windows.Eligible | packages/engine/convex/domain/window/window_orchestrator.ts:82-107 | Definition: an awaiting evidence with input, no pending request and attempts left becomes a target. |
| Windows.TargetOf | packages/engine/convex/domain/window/window_orchestrator.ts:84-107 | Definition: the listed target of an evidence: its id as text and the stage's input. |
| Windows.ListPendingTargetsSpec | packages/engine/convex/domain/window/window_orchestrator.ts:68-110 | Definition: the targets of a stage: a throw for the raw level, otherwise every eligible evidence. |
| Windows.EnqueueSpec | packages/engine/convex/domain/orchestrator/base.ts:137-167 | Definition: `enqueueStage(windowId, stage)`: no targets leaves everything as it is; otherwise the window's model routes one request per target into a new batch or job under the window's process key. |
| Windows.ProgressOf | packages/engine/convex/domain/window/window_service.ts:254-291 | Definition: an output means done; a pending request, or none at all, means still going; otherwise the attempts decide. |
| Windows.TallyOf | packages/engine/convex/domain/window/window_service.ts:249-291 | Definition: the counters over the window's evidences among the first n rows. |
| Windows.AdvanceOf | packages/engine/convex/domain/window/window_service.ts:293-318 | Definition: the decision at the end of the stage loop: wait while pending, fail when nothing completed and something failed, complete after the last stage, otherwise move to the next stage when the window still stands at this one. |
| Windows.Live | packages/engine/convex/domain/window/window_service.ts:226-248 | Definition: the window a stage notice may change: live, and holding this stage's evidences. |
| Windows.MaybeAdvanceSpec | packages/engine/convex/domain/window/window_service.ts:226-319 | Definition: `maybeAdvanceWindowStage(windowId, stage)` for a stage read from a key. An unknown stage gets no configuration, and the loop's first use of it throws. |
| Windows.StartSpec | packages/engine/convex/domain/window/window_service.ts:82-105 | Definition: `startWindowOrchestration`: a missing window throws, a finished one is left alone, and any other window is set running at l1 and gets its l1 requests. |
| Windows.WithOutput | packages/engine/convex/domain/window/window_service.ts:139-152 | Definition: the patch of a successful request: status success, the output and the two token counts. |
| Windows.ApplyResultSpec | packages/engine/convex/domain/window/window_service.ts:118-155 | Definition: `applyRequestResult`: the key names an evidence and a stage; the output lands in that stage's field with the request's id, the request succeeds, and the stage is re-counted. |
| Windows.HandleErrorSpec | packages/engine/convex/domain/window/window_service.ts:157-169 | Definition: `handleRequestError`: the key's evidence must exist, and its stage is re-counted. |
| Windows.RecordSuccessSpec | packages/engine/convex/domain/window/window_orchestrator.ts:151-168 | Definition: `recordSuccess`: the output and request id land in the stage's fields and the request succeeds, tokens untouched. |
| Windows.RequeueSpec | packages/engine/convex/domain/llm_calls/llm_batch_service.ts:213-230 | Definition: the evidence retry: `requeueRequest` through the registry (provider "openai") when `viaRegistry`, otherwise `requeueWindowRequest` (provider of the request's model). The request moves to a new job under the evidence's window and stage and leaves its batch. |
| Windows.TerminalFailure | packages/engine/convex/domain/llm_calls/llm_job_service.ts:186-199 | Definition: the branch of `JobStep` in which the provider failed and no attempt is left. |
| Windows.GivenUp | packages/engine/convex/domain/llm_calls/llm_job_service.ts:186-199 | Definition: the tables once `applyRequestError` has failed the request for good. |

## Left out

- Tbm: `pyds.MassFunction` is a library that is not part of this model. `Tbm` defines the conjunctive rule, Dempster's normalisation and the pignistic transform itself. Combination follows `dempster_shafer.py`. Pignistic mass is m(A)/|A| over non-empty A, renormalised by 1 − m(∅). How the library treats ∅ in `bel`/`pl` is not modelled.
- Floating point: all masses, probabilities, weights and quantiles are exact reals. Rounding error is not modelled. The `0.9999` and `0.9` thresholds (`pilot_v2.py:669`, `:699`) are exact comparisons.
- PilotEncoders.Probe: the probability is missing, zero or a finite value. A NaN is truthy in Python, so `or 1.0` keeps it; that case is not modelled.
- PilotBootstrap.BootRow: the `betP_std` column (`np.std` of the bootstrap values) is dropped. Only the mean, the dominant stage and the flip rate are modelled.
- PilotAggregation.AggregatePerEvidence: the groupby keys are a parameter, the distinct (model, tag, evidence) groups in pandas' order. The final `sort_values` is not modelled. A group's rows and its aggregate are proved; the row order of the frame pandas produces is not.
- PilotAggregation.WeightedQuantile: requires `0 <= q <= 1`. The only callers pass 0.10 and 0.90 (`pilot_v2.py:1072-1073`), and `np.quantile` in the zero-weight branch rejects any other q.
- PilotBootstrap.Bootstrap: numpy's `default_rng` is replaced by the resampled index sequences, which are inputs.
- ScoringPrompts.ShuffleOf: without a seed the shuffle draws from `Math.random`. The model takes these draws as an input sequence of reals in [0, 1). The permutation property is proved for every draw sequence; no particular order is claimed.
- RunPrompts.ScoreRubricLinesDisplayed: `run_prompts.ts:1` imports `shuffleWithSeed` from `utils/randomize.ts`, but that module exports only `generateLabelMapping`. The model uses the mulberry32 `shuffleWithSeed` of `experiments_scoring_prompts.ts:39-47` in its place. The displayed block is proved to be a permutation of the stages; its concrete order is not claimed.
- Windows.Prompter: the prompt builders of `evidence_prompts.ts` are a parameter. Their wording is not modelled.
- LlmCalls.LimitVerdict: the rate limiter (`rate_limiter*.ts` and its tier tables) is an input verdict per call. Its token buckets are not modelled.
- Windows.JobStep: `nextAttemptAt` and `nextPollAt` (`utils/scheduling.ts`) are given as parameters, and so is the provider's chat answer.
- LabelRandomization.SeededSwapIndex: `seed * 2654435761` is an exact integer product. In JavaScript the double product loses bits above 2^53 before the `^`, so for large seeds the model's indices can differ.
- RunStrategies.ResolveScaleStrategy: requires the scale size to be at most `MaxScale` (0xD800 − 65). This keeps every `String.fromCharCode` letter a single character. Larger sizes, whose letters are lone UTF-16 surrogates, are not modelled.
- JsStrings.UpperChar: `toUpperCase` maps a-z, `ı` and `ſ` one character to one character. Expansions to several characters (for example `ﬆ` to `ST`) are not modelled, so `"abﬆain"` is not read as an abstention although JavaScript reads it as one.
- JsStrings.Lower: `toLowerCase` is modelled for ASCII letters only.
- Strings: a Dafny string is a sequence of code points, while JavaScript counts UTF-16 code units in `length`, `slice` and regex indices. Text outside the Basic Multilingual Plane is indexed differently.
- JS regex `i` flag: case-insensitive matching folds ASCII letters only.
- EvidenceCollect.NormalizeUrl: the WHATWG `URL` parser and its serialisation are a parameter (`parse`), over a host, a path, a query as key/value pairs and a fragment. The percent-encoding that `URLSearchParams` applies when the query is written back is not modelled.
- EvidenceCollect.NormalizeUrlIdempotent: holds only under the premise that the parser reads a normalised key back to itself. A serialisation ending in `//` breaks that premise, because one slash is stripped per call.
- EvidenceCollect.PreviewLength: what Convex's `take` does with a negative count is not visible. The model reads it as the whole list, and the limit comparison that follows treats both readings alike.
- EvidenceCollect: the search (Firecrawl) is a parameter. The creation time of a new row is the `now` parameter rather than Convex's `_creationTime`.
- Clock: `Date.now()` is the `now` parameter wherever the source reads it.
- Convex scheduler and workflows: where the model keeps `ctx.scheduler.runAfter` calls, they are recorded and not run. `WorkflowManager` steps are not modelled.
- Lookups on plain objects: the model looks up own keys only. In JavaScript `obj[key]` on a plain object also finds members that `Object.prototype` supplies: `constructor`, `toString`, `valueOf`, `hasOwnProperty` and `__proto__`, among others. For such a key the source reads a function or an object where the model reads "not there". The label-mapping lookups below say what follows for each parser. The same holds for `REQUEUE_HANDLERS[targetType]` (`domain/orchestrator/target_registry.ts:53-60`), `policies.team?.[team_id]` and its provider and model forms (`utils/policy.ts:24-31`), `MODEL_BY_ID[model]` (`platform/providers/provider_types.ts:55-65`) and `strategies[config.scoring_config.method]` (`domain/runs/run_strategies.ts:149`). These keys come from the custom-key format, the schema's enums or stored ids, so an inherited name reaches them only through a row that bypassed validation.
- ScoringParsers.DecodeToken: a token that is not an own key of the label mapping decodes to nothing. In the source, `labelMapping[token]` (`run_parsers.ts:157`, `:191`) reads the inherited member for `constructor`, `toString`, `valueOf` or `__proto__`. That value is not `undefined`, so the source keeps it as a decoded "score".
- ScoringParsers.SingleVerdictDecodes: states the own-key reading. When the verdict token is `constructor`, `toString` or `valueOf` and the mapping lacks it, `parseSingleVerdict` (`run_parsers.ts:148-164`) returns that inherited function as the decoded score. The model fails with "Unrecognized verdict label" instead. `__proto__` cannot be a single token, because `_` is not in `[A-Za-z0-9]`.
- ScoringParsers.SubsetVerdictMapped: states the own-key reading. With a mapping, a subset token named like an inherited member, `__proto__` included, is pushed as a decoded value by `parseSubsetVerdict` (`run_parsers.ts:175-218`) and does not set `unknownToken`. The model counts it as an unknown token and fails.
- LenientVerdicts.LenientDecodeToken: a subset token that is not an own key is dropped. The lenient `.filter(d => d !== undefined)` (`utils/verdict_parser.ts:62-64`) keeps an inherited member instead; `labelMapping[t]` is read at line 63.
- LenientVerdicts.LenientSingleOfLineSpec: states the own-key reading. For a token `constructor`, `toString` or `valueOf` missing from the mapping, the code at `utils/verdict_parser.ts:22-38` returns the inherited function as the decoded score. The model returns no decoded scores.
- JsStrings.ParseNumber: models `Number(t)` for the empty string, "NaN" and optionally negated decimal digit runs only. Every other spelling reads as NaN. JavaScript trims whitespace and reads decimals, exponents, hexadecimal and `Infinity`: `Number(" 1")` is 1, `Number("1.5")` is 1.5 and `Number("1e3")` is 1000, but the model gives NaN for each. `Number("-0")` is the number −0, which the model reads as the integer 0. The `parseFloat` of the expert-agreement parser is a different function, modelled by the numeral pattern of `ResponsePatterns`: it reads the leading numeral and ignores the rest. The keys that `dst.ts` splits are written by `massFromVerdict` from decoded scores. These are integers wherever the engine produces them, so the model leaves out decoded scores that are not integers.
- PilotCombination.ClosedRecords and PilotCombination.OpenRecordsSpec: the `p_score` and `verdict` columns of a record (`pilot_v2.py:619-621`, `:845-846`) are not modelled. They are copied or formatted from the row, and no modelled computation reads them.
- Messages of zod and Convex validation errors are not modelled. A failed validation is an error with a fixed message of the model's choosing. The `model_id` enum of request arguments is not checked.
- RunEntrypoints.RunTables.StartExperimentInternal: the writes of the rubric-seeding mutation are not modelled; its outcome is an input.
- `startExperiment` and `startExperiments` (`runs_entrypoints.ts:51-117`) only forward to `startExperimentInternal`, once per experiment, and are not modelled.
- WindowService.WindowStore.RunJobRequestNotifying: if `handleRequestError` throws inside the corrected step, that throw is not surfaced as the action's error. The tables stay as the failed request left them.
- RunPrompts: `buildScoreGenPrompt`'s JSON payload and the `JSON.stringify` of `utils/spec_signature.ts` are not modelled.
- `buildScoreCriticPrompt` (`run_prompts.ts:164-191`) is the same text as `experiments_scoring_prompts.ts:117-144` and is covered by `ScoringPrompts.CriticPromptEndsWithVerdict`.
- LabViews: the tag of a new window (`buildRandomTag`) is the parameter `tag`.
- `packages/lab.ts`: the forwarders and projections below are not modelled. They only call a modelled mutation or read a row:
  - `initEvidenceWindowAndCollect`, `startWindowFlow`, `insertEvidenceBatch`, `startScheduler`;
  - `getEvidenceContent`, `getWindowSummary`.
- `domain/runs/experiments_data.ts`: `listExperiments`, `getExperimentSummary` and `listExperimentEvidence` (lines 43-221) are not modelled. They are query loops over the modelled status, latest-run and stage rules.
- `domain/experiments/experiments_data.ts`: the list and export queries are not modelled. These are `getExperimentSummary`, `listExperimentEvidence`, `listExperimentsByTaskType`, `getRunSummary` and `exportExperimentBundle` (lines 16-62 and 129-end). They are projections of rows.
- `metrics.py` `jsd_polarization` (lines 9-17) uses scipy's Jensen–Shannon distance in floating point and is not modelled.
- Provider adapters, HTTP, Firecrawl search, `collect.py`, CSV loading, plotting, regressions and the lab UI are not modelled. The `*_repo.ts` and admin files are not modelled either. Under `stages/**`, only the agents and workflows are left out. `stages/3_scoring/scoring_parsers.ts` and `domain/experiments/stages/rubric/parsers/rubric_parser.ts` are modelled, as the note under "## Model" says.

## Findings

| source | as written | input that shows it | evidently intended | confidence | as-written member | corrected member |
|---|---|---|---|---|---|---|
| packages/analysis/notebooks/pilot_v2.py:632-634 | each per-rubric open-world record is appended twice | any one response: the table gets two identical rows, so the weight sum doubles and the weighted quantiles shift | one record per response | high (not executed) | PilotCombination.OpenRecordsAsWritten, PilotCombination.OpenRecordsAsWrittenDoubles, PilotCombination.OpenRecordsDoubled | PilotCombination.OpenRecords |
| packages/engine/convex/utils/dst.ts:10-11 | the focal key keeps repeated scores | decoded scores [1, 1] are keyed "1,1" and [1] is keyed "1", so the focal set {1} has two distinct keys that are never merged. `dempsterCombine` rebuilds sets from the keys (`dst.ts:23-24`), so combining [1, 1] with itself or with [1] gives the key "1" and conflict 0. The two keys differ only where masses from `massFromVerdict` are compared or looked up directly | a verdict's focal set is its set of scores, each once | low (not executed) | DstTs.MassFromVerdict, DstTs.RepeatedScoreKeys, DstTs.RepeatedScoreMeetsSingle | DstTs.MassFromScoreSet, DstTs.MassFromScoreSetDeterminedBySet, DstTs.MassFromScoreSetAgrees, DstTs.MassFromScoreSetIdempotent |
| packages/engine/convex/domain/llm_calls/llm_job_service.ts:186-201 | a terminal job failure marks the request as an error but never calls `handleRequestError` (`window_service.ts:157-169`), so the window is not told | the last pending request of a live window's stage fails with no attempts left: the window stays running (the case of `orchestrator_workflows.test.ts:719-775`) | the window is notified and set to error at that stage | medium (not executed) | Windows.JobStep, Windows.RunJobsSpec, Windows.TerminalFailureErrorsWindow | Windows.JobStepNotifying, Windows.RunJobsNotifying, WindowService.WindowStore.RunJobRequestsNotifying |
