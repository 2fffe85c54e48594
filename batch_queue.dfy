/**
 * Choosing the requests for the next provider batch
 * (`domain/llm_calls/workflows/batch_queue_logic.ts`): queued requests for
 * one provider and model are filtered for readiness, gated by the run that
 * governs their experiment, grouped by that run, and the largest group is
 * cut down to the batch size.
 */
module BatchQueue {
  import opened Wrappers
  import opened JsArrays
  import RunPolicies

  datatype QueuedRequest = QueuedRequest(
    id: string,
    experimentId: Option<string>,
    provider: string,
    model: string,
    stage: string,
    userPrompt: Option<string>,
    nextRetryAt: Option<int>,
    attempt: int)

  datatype RunCandidate = RunCandidate(
    id: string,
    experimentId: string,
    desiredState: string,
    stopAtStage: Option<string>,
    updatedAt: Option<int>,
    policy: RunPolicies.RunPolicy,
    activeBatches: Option<int>)

  /** What the selection returns: the items, and the run and policy of their group when it has one. */
  datatype Selection = Selection(items: seq<QueuedRequest>, runId: Option<string>, policy: Option<RunPolicies.RunPolicy>)

  /** A string the interpreter treats as true: present and non-empty. */
  predicate Truthy(s: Option<string>)
  {
    s.Some? && s.value != ""
  }

  const StageOrder: seq<string> := ["evidence_clean", "evidence_neutralize", "evidence_abstract", "rubric_gen", "rubric_critic", "score_gen", "score_critic"]

  const MaxSafeInteger: int := 9007199254740991

  /** `stageIndex`: a stage's position in the pipeline; an unknown stage sorts after all of them. */
  function StageIndex(stage: string): (i: int)
    ensures stage in StageOrder ==> 0 <= i < |StageOrder| && StageOrder[i] == stage
    ensures stage !in StageOrder ==> i == MaxSafeInteger
  {
    if stage == StageOrder[0] then 0
    else if stage == StageOrder[1] then 1
    else if stage == StageOrder[2] then 2
    else if stage == StageOrder[3] then 3
    else if stage == StageOrder[4] then 4
    else if stage == StageOrder[5] then 5
    else if stage == StageOrder[6] then 6
    else MaxSafeInteger
  }

  /** The stage names are distinct, so a known stage's index is the only position holding it. */
  lemma StageIndexUnique(stage: string, k: int)
    requires 0 <= k < |StageOrder| && StageOrder[k] == stage
    ensures StageIndex(stage) == k
  {
  }

  // ---------------------------------------------------------------------
  // The readiness filter

  /** Same provider and model, a non-empty prompt, and no retry time still in the future (0 counts as none). */
  predicate Ready(req: QueuedRequest, provider: string, model: string, now: int)
  {
    req.provider == provider && req.model == model && Truthy(req.userPrompt) &&
    (req.nextRetryAt.None? || req.nextRetryAt.value == 0 || req.nextRetryAt.value <= now)
  }

  function ReadyFor(provider: string, model: string, now: int): QueuedRequest -> bool
  {
    req => Ready(req, provider, model, now)
  }

  // ---------------------------------------------------------------------
  // The governing run of each experiment

  function UpdatedAt(run: RunCandidate): int
  {
    if run.updatedAt.Some? then run.updatedAt.value else 0
  }

  /** One step of the `activeRuns` loop: a run replaces the current one only when strictly more recent. */
  function Govern(active: map<string, RunCandidate>, run: RunCandidate): map<string, RunCandidate>
  {
    if run.experimentId !in active || UpdatedAt(run) > UpdatedAt(active[run.experimentId])
    then active[run.experimentId := run]
    else active
  }

  /** The `activeRuns` map after the loop over `runs`. */
  function ActiveRuns(runs: seq<RunCandidate>): map<string, RunCandidate>
    decreases |runs|
  {
    if |runs| == 0 then map[] else Govern(ActiveRuns(runs[..|runs| - 1]), runs[|runs| - 1])
  }

  /** The run at position i governs experiment e: the first of e's runs with the greatest `updated_at`. */
  predicate IsGovernor(runs: seq<RunCandidate>, i: int, e: string)
  {
    0 <= i < |runs| && runs[i].experimentId == e &&
    (forall k :: 0 <= k < |runs| && runs[k].experimentId == e ==> UpdatedAt(runs[k]) <= UpdatedAt(runs[i])) &&
    (forall k :: 0 <= k < i && runs[k].experimentId == e ==> UpdatedAt(runs[k]) < UpdatedAt(runs[i]))
  }

  lemma GovernorKept(p: seq<RunCandidate>, x: RunCandidate, i: int, e: string)
    requires IsGovernor(p, i, e)
    requires x.experimentId != e || UpdatedAt(x) <= UpdatedAt(p[i])
    ensures IsGovernor(p + [x], i, e)
  {
    var s := p + [x];
    assert forall k :: 0 <= k < |p| ==> s[k] == p[k];
  }

  lemma GovernorReplaced(p: seq<RunCandidate>, x: RunCandidate, e: string)
    requires x.experimentId == e
    requires forall k :: 0 <= k < |p| && p[k].experimentId == e ==> UpdatedAt(p[k]) < UpdatedAt(x)
    ensures IsGovernor(p + [x], |p|, e)
  {
    var s := p + [x];
    assert forall k :: 0 <= k < |p| ==> s[k] == p[k];
  }

  /** Exactly the experiments with a candidate run are in the map. */
  lemma {:induction false} ActiveRunsDomain(runs: seq<RunCandidate>, e: string)
    ensures e in ActiveRuns(runs) <==> exists k :: 0 <= k < |runs| && runs[k].experimentId == e
    decreases |runs|
  {
    if |runs| > 0 {
      var p := runs[..|runs| - 1];
      ActiveRunsDomain(p, e);
      assert forall k :: 0 <= k < |p| ==> p[k] == runs[k];
      if e in ActiveRuns(p) {
        var k :| 0 <= k < |p| && p[k].experimentId == e;
        assert runs[k].experimentId == e;
      }
    }
  }

  /** Each experiment in the map is governed by the first of its runs with the greatest `updated_at` (missing counts as 0). */
  lemma {:induction false} ActiveRunsGovern(runs: seq<RunCandidate>, e: string)
    requires e in ActiveRuns(runs)
    ensures exists i :: IsGovernor(runs, i, e) && runs[i] == ActiveRuns(runs)[e]
    decreases |runs|
  {
    var p := runs[..|runs| - 1];
    var x := runs[|runs| - 1];
    assert runs == p + [x];
    var prev := ActiveRuns(p);
    if e in prev {
      ActiveRunsGovern(p, e);
      var i :| IsGovernor(p, i, e) && p[i] == prev[e];
      if x.experimentId == e && UpdatedAt(x) > UpdatedAt(prev[e]) {
        GovernorReplaced(p, x, e);
        assert (p + [x])[|p|] == x;
      } else {
        GovernorKept(p, x, i, e);
        assert (p + [x])[i] == p[i];
      }
    } else {
      ActiveRunsDomain(p, e);
      GovernorReplaced(p, x, e);
      assert (p + [x])[|p|] == x;
    }
  }

  /** The loop that builds `activeRuns`. */
  method BuildActiveRuns(runs: seq<RunCandidate>) returns (active: map<string, RunCandidate>)
    ensures active == ActiveRuns(runs)
  {
    active := map[];
    for n := 0 to |runs|
      invariant active == ActiveRuns(runs[..n])
    {
      assert runs[..n + 1][..n] == runs[..n];
      active := Govern(active, runs[n]);
    }
    assert runs[..|runs|] == runs;
  }

  /** The map is only built when some ready request names an experiment. */
  function ActiveRunsFor(ready: seq<QueuedRequest>, runs: seq<RunCandidate>): map<string, RunCandidate>
  {
    if exists k :: 0 <= k < |ready| && Truthy(ready[k].experimentId) then ActiveRuns(runs) else map[]
  }

  // ---------------------------------------------------------------------
  // Gating by the governing run

  /** The run governing a request, when it names an experiment that has one. */
  function RunOf(req: QueuedRequest, active: map<string, RunCandidate>): Option<RunCandidate>
  {
    if Truthy(req.experimentId) && req.experimentId.value in active then Some(active[req.experimentId.value]) else None
  }

  /** The run lets a request through: running, allowing the model, under its batch limit and not past its stop stage. */
  predicate RunAdmits(run: RunCandidate, req: QueuedRequest)
  {
    run.desiredState == "running" &&
    RunPolicies.AllowsModel(run.policy.providerModels, req.provider, req.model) &&
    !(run.policy.maxConcurrentBatches.Some? &&
      (if run.activeBatches.Some? then run.activeBatches.value else 0) >= run.policy.maxConcurrentBatches.value) &&
    (Truthy(run.stopAtStage) ==> StageIndex(req.stage) <= StageIndex(run.stopAtStage.value))
  }

  predicate Runnable(req: QueuedRequest, active: map<string, RunCandidate>)
  {
    RunOf(req, active).None? || RunAdmits(RunOf(req, active).value, req)
  }

  function RunnableUnder(active: map<string, RunCandidate>): QueuedRequest -> bool
  {
    req => Runnable(req, active)
  }

  /** A request without an experiment, or whose experiment has no candidate run, is never held back by a run. */
  lemma UngovernedRunnable(req: QueuedRequest, active: map<string, RunCandidate>)
    requires !Truthy(req.experimentId) || req.experimentId.value !in active
    ensures Runnable(req, active)
  {
  }

  /** A governed request runs exactly when its run admits it. */
  lemma GovernedRunnable(req: QueuedRequest, active: map<string, RunCandidate>)
    requires Truthy(req.experimentId) && req.experimentId.value in active
    ensures Runnable(req, active) <==> RunAdmits(active[req.experimentId.value], req)
  {
  }

  // ---------------------------------------------------------------------
  // Grouping by run

  datatype Group = Group(key: string, runId: Option<string>, policy: Option<RunPolicies.RunPolicy>, items: seq<QueuedRequest>)

  /** The group a request joins: its run's id, or `"none"`. */
  function KeyOf(req: QueuedRequest, active: map<string, RunCandidate>): string
  {
    if RunOf(req, active).Some? then RunOf(req, active).value.id else "none"
  }

  function KeyIs(active: map<string, RunCandidate>, key: string): QueuedRequest -> bool
  {
    req => KeyOf(req, active) == key
  }

  /** Where the group with this key sits in insertion order, or -1. */
  function FindGroup(gs: seq<Group>, key: string): (i: int)
    ensures -1 <= i < |gs|
    ensures i >= 0 ==> gs[i].key == key
    ensures i == -1 ==> forall k :: 0 <= k < |gs| ==> gs[k].key != key
  {
    if |gs| == 0 then -1
    else if gs[|gs| - 1].key == key then |gs| - 1
    else FindGroup(gs[..|gs| - 1], key)
  }

  /** One step of the grouping loop: push onto the group with this key, or open a new one at the end. */
  function AddToGroup(gs: seq<Group>, req: QueuedRequest, active: map<string, RunCandidate>): seq<Group>
  {
    var key := KeyOf(req, active);
    var i := FindGroup(gs, key);
    if i >= 0 then gs[i := gs[i].(items := gs[i].items + [req])]
    else
      var run := RunOf(req, active);
      gs + [Group(key, if run.Some? then Some(run.value.id) else None, if run.Some? then Some(run.value.policy) else None, [req])]
  }

  /** The groups, in insertion order, after the loop over `reqs`. */
  function Grouped(reqs: seq<QueuedRequest>, active: map<string, RunCandidate>): seq<Group>
    decreases |reqs|
  {
    if |reqs| == 0 then [] else AddToGroup(Grouped(reqs[..|reqs| - 1], active), reqs[|reqs| - 1], active)
  }

  predicate DistinctKeys(gs: seq<Group>)
  {
    forall i, j :: 0 <= i < j < |gs| ==> gs[i].key != gs[j].key
  }

  /** What one step does to distinct-keyed groups: it extends the one group with the request's key, or appends a new one. */
  lemma AddToGroupShape(gs: seq<Group>, x: QueuedRequest, active: map<string, RunCandidate>)
    requires DistinctKeys(gs)
    ensures var ng := AddToGroup(gs, x, active);
      DistinctKeys(ng) &&
      |ng| == (if FindGroup(gs, KeyOf(x, active)) >= 0 then |gs| else |gs| + 1) &&
      (forall g :: 0 <= g < |gs| ==>
        ng[g].key == gs[g].key && ng[g].runId == gs[g].runId && ng[g].policy == gs[g].policy &&
        ng[g].items == gs[g].items + (if gs[g].key == KeyOf(x, active) then [x] else [])) &&
      (FindGroup(gs, KeyOf(x, active)) < 0 ==> ng[|gs|].key == KeyOf(x, active) && ng[|gs|].items == [x])
  {
  }

  lemma {:induction false} GroupedDistinct(reqs: seq<QueuedRequest>, active: map<string, RunCandidate>)
    ensures DistinctKeys(Grouped(reqs, active))
    decreases |reqs|
  {
    if |reqs| > 0 {
      GroupedDistinct(reqs[..|reqs| - 1], active);
      AddToGroupShape(Grouped(reqs[..|reqs| - 1], active), reqs[|reqs| - 1], active);
    }
  }

  /** Every request has a group. */
  lemma {:induction false} GroupedCovers(reqs: seq<QueuedRequest>, active: map<string, RunCandidate>, k: int)
    requires 0 <= k < |reqs|
    ensures FindGroup(Grouped(reqs, active), KeyOf(reqs[k], active)) >= 0
    decreases |reqs|
  {
    var p := reqs[..|reqs| - 1];
    var x := reqs[|reqs| - 1];
    var gs := Grouped(p, active);
    GroupedDistinct(p, active);
    AddToGroupShape(gs, x, active);
    var ng := Grouped(reqs, active);
    var key := KeyOf(reqs[k], active);
    if k < |p| {
      GroupedCovers(p, active, k);
      assert p[k] == reqs[k];
      var j := FindGroup(gs, key);
      assert ng[j].key == key;
    } else if FindGroup(gs, key) >= 0 {
      var j := FindGroup(gs, key);
      assert ng[j].key == key;
    } else {
      assert ng[|gs|].key == key;
    }
  }

  /** Each group holds exactly the requests with its key, in queue order. */
  lemma {:induction false} GroupedItems(reqs: seq<QueuedRequest>, active: map<string, RunCandidate>, g: int)
    requires 0 <= g < |Grouped(reqs, active)|
    ensures Grouped(reqs, active)[g].items == Filter(reqs, KeyIs(active, Grouped(reqs, active)[g].key))
    decreases |reqs|
  {
    var p := reqs[..|reqs| - 1];
    var x := reqs[|reqs| - 1];
    assert reqs == p + [x];
    var gs := Grouped(p, active);
    GroupedDistinct(p, active);
    AddToGroupShape(gs, x, active);
    var ng := Grouped(reqs, active);
    var key := ng[g].key;
    FilterSnoc(p, x, KeyIs(active, key));
    if g < |gs| {
      GroupedItems(p, active, g);
    } else {
      forall k | 0 <= k < |p|
        ensures KeyOf(p[k], active) != key
      {
        GroupedCovers(p, active, k);
      }
      FilterNone(p, KeyIs(active, key));
    }
  }

  /** A group's policy, when it has one, is that of a governing run. */
  lemma {:induction false} GroupPolicyFromRuns(reqs: seq<QueuedRequest>, active: map<string, RunCandidate>, g: int)
    requires 0 <= g < |Grouped(reqs, active)|
    ensures Grouped(reqs, active)[g].policy.Some? ==>
      exists e :: e in active && active[e].policy == Grouped(reqs, active)[g].policy.value
    decreases |reqs|
  {
    var p := reqs[..|reqs| - 1];
    var x := reqs[|reqs| - 1];
    var gs := Grouped(p, active);
    GroupedDistinct(p, active);
    AddToGroupShape(gs, x, active);
    if g < |gs| {
      GroupPolicyFromRuns(p, active, g);
    } else if RunOf(x, active).Some? {
      assert active[x.experimentId.value].policy == Grouped(reqs, active)[g].policy.value;
    }
  }

  /** The grouping loop. */
  method GroupRequests(reqs: seq<QueuedRequest>, active: map<string, RunCandidate>) returns (gs: seq<Group>)
    ensures gs == Grouped(reqs, active)
  {
    gs := [];
    for n := 0 to |reqs|
      invariant gs == Grouped(reqs[..n], active)
    {
      assert reqs[..n + 1][..n] == reqs[..n];
      gs := AddToGroup(gs, reqs[n], active);
    }
    assert reqs[..|reqs|] == reqs;
  }

  /** Groups are ranked by size, larger first: `sort((a, b) => b.items.length - a.items.length)`. */
  function GroupRank(g: Group): int
  {
    -|g.items|
  }

  // ---------------------------------------------------------------------
  // The selection

  /** The first of the largest groups. */
  function LargestGroup(gs: seq<Group>): (i: nat)
    requires |gs| > 0
    ensures i < |gs|
    ensures forall k :: 0 <= k < |gs| ==> |gs[k].items| <= |gs[i].items|
    ensures forall k :: 0 <= k < i ==> |gs[k].items| < |gs[i].items|
  {
    var i := FirstMin(gs, GroupRank);
    assert forall k :: 0 <= k < |gs| ==> GroupRank(gs[i]) <= GroupRank(gs[k]);
    assert forall k :: 0 <= k < i ==> GroupRank(gs[i]) < GroupRank(gs[k]);
    i
  }

  function Cap(maxItems: int, policy: RunPolicies.RunPolicy): int
  {
    if maxItems < policy.maxBatchSize then maxItems else policy.maxBatchSize
  }

  /** The whole of `selectBatchCandidates`, as a function of its inputs and the default run policy. */
  function Select(queued: seq<QueuedRequest>, runs: seq<RunCandidate>, provider: string, model: string,
                  maxItems: int, now: int, defaults: RunPolicies.RunPolicy): Selection
  {
    var ready := Filter(queued, ReadyFor(provider, model, now));
    var active := ActiveRunsFor(ready, runs);
    var runnable := Filter(ready, RunnableUnder(active));
    var gs := Grouped(runnable, active);
    if |gs| == 0 then Selection([], None, None)
    else
      var selected := SortBy(gs, GroupRank)[0];
      var policy := if selected.policy.Some? then selected.policy.value else defaults;
      Selection(SliceTo(selected.items, Cap(maxItems, policy)), selected.runId, selected.policy)
  }

  method SelectBatchCandidates(queued: seq<QueuedRequest>, runs: seq<RunCandidate>, provider: string, model: string,
                               maxItems: int, now: int, defaults: RunPolicies.RunPolicy) returns (r: Selection)
    ensures r == Select(queued, runs, provider, model, maxItems, now, defaults)
  {
    var ready := Filter(queued, ReadyFor(provider, model, now));
    var active: map<string, RunCandidate> := map[];
    if exists k :: 0 <= k < |ready| && Truthy(ready[k].experimentId) {
      active := BuildActiveRuns(runs);
    }
    var runnable := Filter(ready, RunnableUnder(active));
    var grouped := GroupRequests(runnable, active);
    if |grouped| == 0 {
      return Selection([], None, None);
    }
    var selected := SortBy(grouped, GroupRank)[0];
    var policy := if selected.policy.Some? then selected.policy.value else defaults;
    r := Selection(SliceTo(selected.items, Cap(maxItems, policy)), selected.runId, selected.policy);
  }

  /** The runnable requests, as `Select` computes them. */
  function Runnables(queued: seq<QueuedRequest>, runs: seq<RunCandidate>, provider: string, model: string, now: int): seq<QueuedRequest>
  {
    var ready := Filter(queued, ReadyFor(provider, model, now));
    Filter(ready, RunnableUnder(ActiveRunsFor(ready, runs)))
  }

  /** The governing runs, as `Select` computes them. */
  function Governing(queued: seq<QueuedRequest>, runs: seq<RunCandidate>, provider: string, model: string, now: int): map<string, RunCandidate>
  {
    ActiveRunsFor(Filter(queued, ReadyFor(provider, model, now)), runs)
  }

  /** The group `Select` picks is the first of the largest groups. */
  lemma SelectPicksFirstLargest(queued: seq<QueuedRequest>, runs: seq<RunCandidate>, provider: string, model: string,
                                maxItems: int, now: int, defaults: RunPolicies.RunPolicy)
    requires |Grouped(Runnables(queued, runs, provider, model, now), Governing(queued, runs, provider, model, now))| > 0
    ensures var gs := Grouped(Runnables(queued, runs, provider, model, now), Governing(queued, runs, provider, model, now));
      var g := gs[LargestGroup(gs)];
      var policy := if g.policy.Some? then g.policy.value else defaults;
      Select(queued, runs, provider, model, maxItems, now, defaults) == Selection(SliceTo(g.items, Cap(maxItems, policy)), g.runId, g.policy)
  {
    var gs := Grouped(Runnables(queued, runs, provider, model, now), Governing(queued, runs, provider, model, now));
    SortByFirst(gs, GroupRank);
    assert LargestGroup(gs) == FirstMin(gs, GroupRank);
  }

  /** Every selected request was queued, is ready, and its governing run admits it. */
  lemma SelectedAreRunnable(queued: seq<QueuedRequest>, runs: seq<RunCandidate>, provider: string, model: string,
                            maxItems: int, now: int, defaults: RunPolicies.RunPolicy, k: int)
    requires 0 <= k < |Select(queued, runs, provider, model, maxItems, now, defaults).items|
    ensures var req := Select(queued, runs, provider, model, maxItems, now, defaults).items[k];
      req in queued && Ready(req, provider, model, now) &&
      Runnable(req, Governing(queued, runs, provider, model, now))
  {
    var ready := Filter(queued, ReadyFor(provider, model, now));
    var active := Governing(queued, runs, provider, model, now);
    var runnable := Runnables(queued, runs, provider, model, now);
    var gs := Grouped(runnable, active);
    SelectPicksFirstLargest(queued, runs, provider, model, maxItems, now, defaults);
    var i := LargestGroup(gs);
    GroupedItems(runnable, active, i);
    var req := Select(queued, runs, provider, model, maxItems, now, defaults).items[k];
    assert req == gs[i].items[k];
    assert req in runnable;
    assert req in ready;
  }

  /**
   * The items all come from one group, the first of the largest ones;
   * they are a prefix, in queue order, of the runnable requests with that
   * group's key; and the run and policy returned are that group's.
   */
  lemma SelectedLargestGroup(queued: seq<QueuedRequest>, runs: seq<RunCandidate>, provider: string, model: string,
                             maxItems: int, now: int, defaults: RunPolicies.RunPolicy)
    requires |Runnables(queued, runs, provider, model, now)| > 0
    ensures var runnable := Runnables(queued, runs, provider, model, now);
      var active := Governing(queued, runs, provider, model, now);
      var gs := Grouped(runnable, active);
      var r := Select(queued, runs, provider, model, maxItems, now, defaults);
      |gs| > 0 &&
      var g := gs[LargestGroup(gs)];
      r.runId == g.runId && r.policy == g.policy &&
      r.items == SliceTo(Filter(runnable, KeyIs(active, g.key)), Cap(maxItems, if g.policy.Some? then g.policy.value else defaults))
  {
    var runnable := Runnables(queued, runs, provider, model, now);
    var active := Governing(queued, runs, provider, model, now);
    var gs := Grouped(runnable, active);
    GroupedCovers(runnable, active, 0);
    SelectPicksFirstLargest(queued, runs, provider, model, maxItems, now, defaults);
    GroupedItems(runnable, active, LargestGroup(gs));
  }

  /** A cap that is not negative bounds the batch: at most `max_items` and at most the policy's `max_batch_size`. */
  lemma SelectedWithinCap(queued: seq<QueuedRequest>, runs: seq<RunCandidate>, provider: string, model: string,
                          maxItems: int, now: int, defaults: RunPolicies.RunPolicy)
    requires var r := Select(queued, runs, provider, model, maxItems, now, defaults);
      0 <= Cap(maxItems, if r.policy.Some? then r.policy.value else defaults)
    ensures var r := Select(queued, runs, provider, model, maxItems, now, defaults);
      |r.items| <= maxItems &&
      |r.items| <= (if r.policy.Some? then r.policy.value else defaults).maxBatchSize
  {
  }

  /** With nothing runnable the selection is empty and names no run. */
  lemma NothingRunnable(queued: seq<QueuedRequest>, runs: seq<RunCandidate>, provider: string, model: string,
                        maxItems: int, now: int, defaults: RunPolicies.RunPolicy)
    requires |Runnables(queued, runs, provider, model, now)| == 0
    ensures Select(queued, runs, provider, model, maxItems, now, defaults) == Selection([], None, None)
  {
  }

  /** A non-empty queue forms a non-empty largest group. */
  lemma LargestNonEmpty(reqs: seq<QueuedRequest>, active: map<string, RunCandidate>)
    requires |reqs| > 0
    ensures |Grouped(reqs, active)| > 0 && |Grouped(reqs, active)[LargestGroup(Grouped(reqs, active))].items| > 0
  {
    var gs := Grouped(reqs, active);
    GroupedCovers(reqs, active, 0);
    var j := FindGroup(gs, KeyOf(reqs[0], active));
    GroupedItems(reqs, active, j);
    assert reqs[0] in gs[j].items;
  }

  /** A group's policy, when it has one, has a positive batch size if every candidate run's does. */
  lemma GroupPolicyPositive(reqs: seq<QueuedRequest>, ready: seq<QueuedRequest>, runs: seq<RunCandidate>, g: int)
    requires 0 <= g < |Grouped(reqs, ActiveRunsFor(ready, runs))|
    requires forall k :: 0 <= k < |runs| ==> runs[k].policy.maxBatchSize > 0
    ensures var gp := Grouped(reqs, ActiveRunsFor(ready, runs))[g].policy;
      gp.Some? ==> gp.value.maxBatchSize > 0
  {
    var active := ActiveRunsFor(ready, runs);
    GroupPolicyFromRuns(reqs, active, g);
    if Grouped(reqs, active)[g].policy.Some? {
      var e :| e in active && active[e].policy == Grouped(reqs, active)[g].policy.value;
      ActiveRunsGovern(runs, e);
    }
  }

  /** With something runnable, a positive `max_items` and positive batch sizes, the selection is never empty. */
  lemma SomethingSelected(queued: seq<QueuedRequest>, runs: seq<RunCandidate>, provider: string, model: string,
                          maxItems: int, now: int, defaults: RunPolicies.RunPolicy)
    requires |Runnables(queued, runs, provider, model, now)| > 0
    requires maxItems > 0 && defaults.maxBatchSize > 0
    requires forall k :: 0 <= k < |runs| ==> runs[k].policy.maxBatchSize > 0
    ensures |Select(queued, runs, provider, model, maxItems, now, defaults).items| > 0
  {
    var runnable := Runnables(queued, runs, provider, model, now);
    var active := Governing(queued, runs, provider, model, now);
    LargestNonEmpty(runnable, active);
    var gs := Grouped(runnable, active);
    GroupPolicyPositive(runnable, Filter(queued, ReadyFor(provider, model, now)), runs, LargestGroup(gs));
    SelectPicksFirstLargest(queued, runs, provider, model, maxItems, now, defaults);
  }
}
