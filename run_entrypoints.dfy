/**
 * The run entry points (`domain/runs/runs_entrypoints.ts`): starting an
 * experiment (reusing its pending runs or creating one, inserting stage
 * rows once, seeding rubric requests once per run), changing a run's
 * desired state, and resolving the stage a paused run stops at.  Run and
 * stage ids are positions in their tables; the environment preflight and
 * the rubric-seeding mutation are parameters, and starting a run ensures
 * the scheduler of `Scheduler.SchedulerStore`.
 */
module RunEntrypoints {
  import opened Wrappers
  import opened JsArrays
  import opened RunPolicies
  import Scheduler

  /** `DEFAULT_RUN_STAGES`. */
  const DefaultRunStages: seq<string> := ["rubric_gen", "rubric_critic", "score_gen", "score_critic"]

  /** `STAGE_ORDER`: the pipeline's stages in the order a run goes through them. */
  const StageOrder: seq<string> := ["evidence_clean", "evidence_neutralize", "evidence_abstract",
                                    "rubric_gen", "rubric_critic", "score_gen", "score_critic"]

  /** `run_counts`. */
  datatype RunCounts = RunCounts(sampleCount: nat, evidenceCap: nat)

  /** The fields of a `runs` row the entry points write. */
  datatype RunRow = RunRow(
    experimentId: string,
    runCounts: RunCounts,
    policySnapshot: RunPolicy,
    status: string,
    desiredState: string,
    stopAtStage: Option<string>,
    currentStage: Option<string>,
    rubricSeededAt: Option<int>,
    createdAt: int,
    updatedAt: int)

  /** A `run_stages` row. */
  datatype StageRow = StageRow(
    runId: nat,
    stage: string,
    status: string,
    totalRequests: nat,
    completedRequests: nat,
    failedRequests: nat,
    lastBatchId: Option<nat>,
    updatedAt: int)

  /** A call of the rubric-seeding mutation that went through. */
  datatype SeedCall = SeedCall(experimentId: string, runId: nat)

  datatype Tables = Tables(runs: seq<RunRow>, stages: seq<StageRow>, seeded: seq<SeedCall>)

  /** What `startExperimentInternal` answers: `{ok: true, run_ids, created_run_id}` or `{ok: false, error}`. */
  datatype StartOutcome =
    | Started(runIds: seq<nat>, createdRunId: Option<nat>)
    | NotStarted(error: string)

  /** Truthy: present and not 0. */
  predicate TruthyTime(t: Option<int>)
  {
    t.Some? && t.value != 0
  }

  /** Truthy: present and non-empty. */
  predicate TruthyString(s: Option<string>)
  {
    s.Some? && s.value != ""
  }

  // ---------------------------------------------------------------------
  // resolveCurrentStage

  /** Whether a run has a stage row for a stage. */
  predicate HasRow(stages: seq<StageRow>, runId: nat, stage: string)
  {
    exists k :: 0 <= k < |stages| && stages[k].runId == runId && stages[k].stage == stage
  }

  /** `stages.find((item) => item.stage === stage)` over the run's rows: the first such row. */
  function FirstRow(stages: seq<StageRow>, runId: nat, stage: string): (i: nat)
    ensures i <= |stages|
    ensures i < |stages| ==> stages[i].runId == runId && stages[i].stage == stage
    ensures forall k :: 0 <= k < i ==> !(stages[k].runId == runId && stages[k].stage == stage)
  {
    if |stages| == 0 then 0
    else if stages[0].runId == runId && stages[0].stage == stage then 0
    else 1 + FirstRow(stages[1..], runId, stage)
  }

  /** A present stage is open unless its first row is complete. */
  predicate Open(stages: seq<StageRow>, runId: nat, stage: string)
  {
    var i := FirstRow(stages, runId, stage);
    i == |stages| || stages[i].status != "complete"
  }

  function RowPresent(stages: seq<StageRow>, runId: nat): string -> bool
  {
    (stage: string) => FirstRow(stages, runId, stage) < |stages|
  }

  /** `STAGE_ORDER.filter((stage) => stages.some((row) => row.stage === stage))`. */
  function Ordered(stages: seq<StageRow>, runId: nat): seq<string>
  {
    Filter(StageOrder, RowPresent(stages, runId))
  }

  /** The first open stage of the list, or else its last stage, or nothing for an empty list. */
  function FirstOpenOrLast(stages: seq<StageRow>, runId: nat, ordered: seq<string>): Option<string>
  {
    if |ordered| == 0 then None
    else if Open(stages, runId, ordered[0]) || |ordered| == 1 then Some(ordered[0])
    else FirstOpenOrLast(stages, runId, ordered[1..])
  }

  /** `resolveCurrentStage(ctx, run)`. */
  function CurrentStage(run: RunRow, stages: seq<StageRow>, runId: nat): Option<string>
  {
    if TruthyString(run.currentStage) then run.currentStage
    else FirstOpenOrLast(stages, runId, Ordered(stages, runId))
  }

  /** The stage list keeps `STAGE_ORDER`'s order and holds exactly the stages the run has rows for. */
  lemma OrderedMembers(stages: seq<StageRow>, runId: nat)
    ensures Subsequence(Ordered(stages, runId), StageOrder)
    ensures forall s :: s in Ordered(stages, runId) <==> s in StageOrder && HasRow(stages, runId, s)
  {
    FilterSubsequence(StageOrder, RowPresent(stages, runId));
    forall s | s in StageOrder && HasRow(stages, runId, s)
      ensures s in Ordered(stages, runId)
    {
      var k :| 0 <= k < |StageOrder| && StageOrder[k] == s;
    }
  }

  /** The first open stage, or the last one when every stage is complete. */
  lemma {:induction false} FirstOpenOrLastCases(stages: seq<StageRow>, runId: nat, ordered: seq<string>)
    ensures FirstOpenOrLast(stages, runId, ordered).None? <==> |ordered| == 0
    ensures FirstOpenOrLast(stages, runId, ordered).Some? ==>
              var s := FirstOpenOrLast(stages, runId, ordered).value;
              exists j :: 0 <= j < |ordered| && ordered[j] == s
                          && (forall k :: 0 <= k < j ==> !Open(stages, runId, ordered[k]))
                          && (Open(stages, runId, s) || j == |ordered| - 1)
  {
    if |ordered| > 1 && !Open(stages, runId, ordered[0]) {
      FirstOpenOrLastCases(stages, runId, ordered[1..]);
      var s := FirstOpenOrLast(stages, runId, ordered).value;
      var j :| 0 <= j < |ordered[1..]| && ordered[1..][j] == s
               && (forall k :: 0 <= k < j ==> !Open(stages, runId, ordered[1..][k]))
               && (Open(stages, runId, s) || j == |ordered[1..]| - 1);
      assert forall k :: 1 <= k < j + 1 ==> ordered[k] == ordered[1..][k - 1];
      assert ordered[j + 1] == s;
    } else if |ordered| > 0 {
      assert ordered[0] == FirstOpenOrLast(stages, runId, ordered).value;
    }
  }

  /** A set current stage is kept.  Otherwise the answer is a stage of `STAGE_ORDER` the run
      has a row for, every stage before it in the run's ordered list is complete, and it is
      either open itself or the last of the list; there is none only when the run has no row
      for any stage of `STAGE_ORDER`. */
  lemma CurrentStageCases(run: RunRow, stages: seq<StageRow>, runId: nat)
    ensures TruthyString(run.currentStage) ==> CurrentStage(run, stages, runId) == run.currentStage
    ensures !TruthyString(run.currentStage) ==>
              (CurrentStage(run, stages, runId).None? <==> forall s :: s in StageOrder ==> !HasRow(stages, runId, s))
    ensures !TruthyString(run.currentStage) && CurrentStage(run, stages, runId).Some? ==>
              var s := CurrentStage(run, stages, runId).value;
              var ordered := Ordered(stages, runId);
              s in StageOrder && HasRow(stages, runId, s)
              && exists j :: 0 <= j < |ordered| && ordered[j] == s
                             && (forall k :: 0 <= k < j ==> !Open(stages, runId, ordered[k]))
                             && (Open(stages, runId, s) || j == |ordered| - 1)
  {
    if !TruthyString(run.currentStage) {
      var ordered := Ordered(stages, runId);
      FirstOpenOrLastCases(stages, runId, ordered);
      OrderedMembers(stages, runId);
      if CurrentStage(run, stages, runId).Some? {
        var s := CurrentStage(run, stages, runId).value;
        var j :| 0 <= j < |ordered| && ordered[j] == s;
      }
    }
  }

  // ---------------------------------------------------------------------
  // updateRunState

  datatype DesiredState = WantRunning | WantPaused | WantCanceled

  function DesiredName(d: DesiredState): string
  {
    match d
    case WantRunning => "running"
    case WantPaused => "paused"
    case WantCanceled => "canceled"
  }

  /** The patch `updateRunState` applies to a run, given the stage a pause resolves to. */
  function UpdateRun(run: RunRow, desired: DesiredState, current: Option<string>, now: int): RunRow
  {
    var r := run.(desiredState := DesiredName(desired), updatedAt := now);
    match desired
    case WantPaused =>
      var r1 := if TruthyString(current) then r.(stopAtStage := current) else r;
      if run.status != "canceled" then r1.(status := "running") else r1
    case WantRunning => r.(stopAtStage := None, status := "running")
    case WantCanceled => r.(status := "canceled")
  }

  /** Every update records the desired state and the time; a pause stops at the resolved
      stage (when there is one) and keeps a canceled run canceled, leaving it running otherwise;
      resuming clears the stop stage and runs; canceling cancels and keeps the stop stage. */
  lemma UpdateRunCases(run: RunRow, desired: DesiredState, current: Option<string>, now: int)
    ensures var r := UpdateRun(run, desired, current, now);
            r.desiredState == DesiredName(desired) && r.updatedAt == now
            && r.experimentId == run.experimentId && r.currentStage == run.currentStage
            && r.rubricSeededAt == run.rubricSeededAt && r.createdAt == run.createdAt
    ensures var r := UpdateRun(run, desired, current, now);
            desired == WantPaused ==>
              r.stopAtStage == (if TruthyString(current) then current else run.stopAtStage)
              && r.status == (if run.status == "canceled" then "canceled" else "running")
    ensures var r := UpdateRun(run, desired, current, now);
            desired == WantRunning ==> r.stopAtStage.None? && r.status == "running"
    ensures var r := UpdateRun(run, desired, current, now);
            desired == WantCanceled ==> r.stopAtStage == run.stopAtStage && r.status == "canceled"
  {
  }

  // ---------------------------------------------------------------------
  // startExperimentInternal

  /** The runs of an experiment with status "pending", in table order. */
  function PendingIds(runs: seq<RunRow>, experimentId: string, from: nat): (ids: seq<nat>)
    requires from <= |runs|
    ensures forall k :: 0 <= k < |ids| ==> from <= ids[k] < |runs|
    ensures forall j, k :: 0 <= j < k < |ids| ==> ids[j] < ids[k]
    ensures forall i :: from <= i < |runs| ==>
              (i in ids <==> runs[i].experimentId == experimentId && runs[i].status == "pending")
    decreases |runs| - from
  {
    if from == |runs| then []
    else if runs[from].experimentId == experimentId && runs[from].status == "pending" then [from] + PendingIds(runs, experimentId, from + 1)
    else PendingIds(runs, experimentId, from + 1)
  }

  /** The stage rows a start inserts for a run: one pending row per stage, all counts 0. */
  function NewStageRows(runId: nat, stageList: seq<string>, now: int): (rows: seq<StageRow>)
    ensures |rows| == |stageList|
    ensures forall k :: 0 <= k < |rows| ==> rows[k] == StageRow(runId, stageList[k], "pending", 0, 0, 0, None, now)
  {
    seq(|stageList|, k requires 0 <= k < |stageList| => StageRow(runId, stageList[k], "pending", 0, 0, 0, None, now))
  }

  /** The run a start inserts when the experiment has no pending run. */
  function NewRun(experimentId: string, counts: RunCounts, engine: RunPolicy, stopAtStage: Option<string>, now: int): RunRow
  {
    RunRow(experimentId, counts, engine, "running", "running", stopAtStage, None, None, now, now)
  }

  function RowOf(runId: nat): StageRow -> bool
  {
    (r: StageRow) => r.runId == runId
  }

  /** The patch to running, then the default stage rows when the run has none. */
  function Activate(t: Tables, runId: nat, stageList: seq<string>, now: int): (t': Tables)
    requires runId < |t.runs|
    ensures |t'.runs| == |t.runs| && t'.seeded == t.seeded
    ensures forall i :: 0 <= i < |t.runs| ==> t'.runs[i].rubricSeededAt == t.runs[i].rubricSeededAt
    ensures forall i :: 0 <= i < |t.runs| && i != runId ==> t'.runs[i] == t.runs[i]
  {
    var runs := t.runs[runId := t.runs[runId].(status := "running", desiredState := "running", updatedAt := now)];
    var stages := if Count(t.stages, RowOf(runId)) == 0 then t.stages + NewStageRows(runId, stageList, now) else t.stages;
    Tables(runs, stages, t.seeded)
  }

  /** The patch after a successful seeding. */
  function MarkSeeded(t: Tables, experimentId: string, runId: nat, now: int): (t': Tables)
    requires runId < |t.runs|
    ensures |t'.runs| == |t.runs| && t'.stages == t.stages && t'.seeded == t.seeded + [SeedCall(experimentId, runId)]
    ensures forall i :: 0 <= i < |t.runs| && i != runId ==> t'.runs[i] == t.runs[i]
  {
    var runs := t.runs[runId := t.runs[runId].(rubricSeededAt := Some(now), currentStage := Some("rubric_gen"), updatedAt := now)];
    Tables(runs, t.stages, t.seeded + [SeedCall(experimentId, runId)])
  }

  /** Whether visiting a run ends the loop: it has no seeding time and the seeding throws. */
  predicate StepFails(t: Tables, runId: nat, experimentId: string, seed: (string, nat) -> Option<string>)
    requires runId < |t.runs|
  {
    !TruthyTime(t.runs[runId].rubricSeededAt) && seed(experimentId, runId).Some?
  }

  /** The tables after visiting one run: activated, then marked seeded when it is seeded now. */
  function StepTables(t: Tables, runId: nat, experimentId: string, stageList: seq<string>, now: int,
                      seed: (string, nat) -> Option<string>): (t': Tables)
    requires runId < |t.runs|
    ensures |t'.runs| == |t.runs|
    ensures forall i :: 0 <= i < |t.runs| && i != runId ==> t'.runs[i] == t.runs[i]
    ensures t'.seeded == t.seeded + if TruthyTime(t.runs[runId].rubricSeededAt) || seed(experimentId, runId).Some? then []
                                    else [SeedCall(experimentId, runId)]
  {
    var t1 := Activate(t, runId, stageList, now);
    if TruthyTime(t.runs[runId].rubricSeededAt) || seed(experimentId, runId).Some? then t1
    else MarkSeeded(t1, experimentId, runId, now)
  }

  /** The visited run is running; unless the step fails it has a seeding time and keeps or
      gains stage rows; other runs keep their stage rows. */
  lemma StepFacts(t: Tables, runId: nat, experimentId: string, stageList: seq<string>, now: int,
                  seed: (string, nat) -> Option<string>)
    requires runId < |t.runs|
    ensures var t' := StepTables(t, runId, experimentId, stageList, now, seed);
            t'.runs[runId].status == "running" && t'.runs[runId].desiredState == "running"
            && (!StepFails(t, runId, experimentId, seed) ==>
                  t'.runs[runId].rubricSeededAt == if TruthyTime(t.runs[runId].rubricSeededAt) then t.runs[runId].rubricSeededAt else Some(now))
            && (Count(t.stages, RowOf(runId)) > 0 || |stageList| > 0 ==> Count(t'.stages, RowOf(runId)) > 0)
            && forall r :: Count(t'.stages, RowOf(r)) >= Count(t.stages, RowOf(r))
  {
    StageRowsAfterActivate(t, runId, stageList, now);
  }

  /** Activation leaves the stage rows of other runs alone and gives this run its rows when
      it had none. */
  lemma StageRowsAfterActivate(t: Tables, runId: nat, stageList: seq<string>, now: int)
    requires runId < |t.runs|
    ensures forall r :: r != runId ==> Count(Activate(t, runId, stageList, now).stages, RowOf(r)) >= Count(t.stages, RowOf(r))
    ensures Count(t.stages, RowOf(runId)) > 0 ==> Activate(t, runId, stageList, now).stages == t.stages
    ensures Count(t.stages, RowOf(runId)) == 0 ==>
              Count(Activate(t, runId, stageList, now).stages, RowOf(runId)) == |stageList|
  {
    if Count(t.stages, RowOf(runId)) == 0 {
      var rows := NewStageRows(runId, stageList, now);
      forall r
        ensures Count(t.stages + rows, RowOf(r)) >= Count(t.stages, RowOf(r))
        ensures r == runId ==> Count(t.stages + rows, RowOf(r)) == Count(t.stages, RowOf(r)) + |rows|
      {
        CountAppend(t.stages, rows, RowOf(r));
        if r == runId {
          CountAll(rows, RowOf(r));
        }
      }
    }
  }

  /** Appending a run's new stage rows adds one row of that run per stage. */
  lemma NewRowsPresent(t: Tables, runId: nat, stageList: seq<string>, now: int)
    ensures Count(t.stages + NewStageRows(runId, stageList, now), RowOf(runId)) == Count(t.stages, RowOf(runId)) + |stageList|
  {
    CountAppend(t.stages, NewStageRows(runId, stageList, now), RowOf(runId));
    CountAll(NewStageRows(runId, stageList, now), RowOf(runId));
  }

  predicate Below(ids: seq<nat>, n: nat)
  {
    forall k :: 0 <= k < |ids| ==> ids[k] < n
  }

  predicate Increasing(ids: seq<nat>)
  {
    forall j, k :: 0 <= j < k < |ids| ==> ids[j] < ids[k]
  }

  datatype StartStep = StartStep(error: Option<string>, tables: Tables)

  /** The loop over the runs to start, from the given point.  A seeding that throws ends the
      loop with its message; the writes made before it stay. */
  function StartFrom(t: Tables, ids: seq<nat>, experimentId: string, stageList: seq<string>, now: int,
                     seed: (string, nat) -> Option<string>): (r: StartStep)
    requires Below(ids, |t.runs|)
    ensures |r.tables.runs| == |t.runs|
    decreases |ids|
  {
    if |ids| == 0 then StartStep(None, t)
    else
      var t1 := StepTables(t, ids[0], experimentId, stageList, now, seed);
      if StepFails(t, ids[0], experimentId, seed) then StartStep(seed(experimentId, ids[0]), t1)
      else StartFrom(t1, ids[1..], experimentId, stageList, now, seed)
  }

  /** Which of the listed runs have no seeding time. */
  function Unseeded(t: Tables, ids: seq<nat>): (flags: seq<bool>)
    requires Below(ids, |t.runs|)
    ensures |flags| == |ids|
    ensures forall k :: 0 <= k < |ids| ==> flags[k] == !TruthyTime(t.runs[ids[k]].rubricSeededAt)
  {
    seq(|ids|, k requires 0 <= k < |ids| => !TruthyTime(t.runs[ids[k]].rubricSeededAt))
  }

  /** The seeding calls a pass makes, given which runs need seeding: one per such run, in
      order, up to the first one that throws. */
  function SeedList(ids: seq<nat>, flags: seq<bool>, experimentId: string, seed: (string, nat) -> Option<string>): seq<SeedCall>
    requires |flags| == |ids|
    decreases |ids|
  {
    if |ids| == 0 then []
    else if flags[0] && seed(experimentId, ids[0]).Some? then []
    else (if flags[0] then [SeedCall(experimentId, ids[0])] else []) + SeedList(ids[1..], flags[1..], experimentId, seed)
  }

  /** The tail of a strictly increasing list is strictly increasing and misses its head. */
  lemma TailIncreasing(ids: seq<nat>, n: nat)
    requires |ids| > 0 && Increasing(ids) && Below(ids, n)
    ensures Increasing(ids[1..]) && Below(ids[1..], n) && ids[0] !in ids[1..]
    ensures forall k :: 0 <= k < |ids[1..]| ==> ids[1..][k] == ids[k + 1] && ids[k + 1] > ids[0]
  {
  }

  /** Visiting the head of the list leaves the flags of the rest as they were. */
  lemma UnseededTail(t: Tables, t1: Tables, ids: seq<nat>)
    requires |ids| > 0 && Below(ids, |t.runs|) && |t1.runs| == |t.runs|
    requires forall k :: 1 <= k < |ids| ==> t1.runs[ids[k]] == t.runs[ids[k]]
    ensures Unseeded(t1, ids[1..]) == Unseeded(t, ids)[1..]
  {
    assert forall k :: 0 <= k < |ids[1..]| ==> ids[1..][k] == ids[k + 1];
  }

  /** Visiting the head of the list leaves the rest of the list as it was. */
  lemma StepTail(t: Tables, ids: seq<nat>, experimentId: string, stageList: seq<string>, now: int,
                 seed: (string, nat) -> Option<string>)
    requires |ids| > 0 && Below(ids, |t.runs|) && Increasing(ids)
    ensures var t1 := StepTables(t, ids[0], experimentId, stageList, now, seed);
            Below(ids[1..], |t1.runs|) && Increasing(ids[1..])
            && Unseeded(t1, ids[1..]) == Unseeded(t, ids)[1..]
  {
    var t1 := StepTables(t, ids[0], experimentId, stageList, now, seed);
    TailIncreasing(ids, |t.runs|);
    assert forall k :: 1 <= k < |ids| ==> t1.runs[ids[k]] == t.runs[ids[k]];
    UnseededTail(t, t1, ids);
  }

  /** A pass adds exactly the seeding calls of `SeedList` to the log. */
  lemma {:induction false} StartFromLog(t: Tables, ids: seq<nat>, experimentId: string, stageList: seq<string>, now: int,
                                        seed: (string, nat) -> Option<string>)
    requires Below(ids, |t.runs|) && Increasing(ids)
    ensures StartFrom(t, ids, experimentId, stageList, now, seed).tables.seeded
            == t.seeded + SeedList(ids, Unseeded(t, ids), experimentId, seed)
    decreases |ids|
  {
    if |ids| > 0 && !StepFails(t, ids[0], experimentId, seed) {
      var flags := Unseeded(t, ids);
      var t1 := StepTables(t, ids[0], experimentId, stageList, now, seed);
      StepTail(t, ids, experimentId, stageList, now, seed);
      StartFromLog(t1, ids[1..], experimentId, stageList, now, seed);
      var rest := SeedList(ids[1..], flags[1..], experimentId, seed);
      var head := if flags[0] then [SeedCall(experimentId, ids[0])] else [];
      assert SeedList(ids, flags, experimentId, seed) == head + rest;
      assert t.seeded + head + rest == t.seeded + (head + rest);
    }
  }

  /** A pass fails exactly when some listed run without a seeding time has a seeding that throws. */
  lemma {:induction false} StartFromError(t: Tables, ids: seq<nat>, experimentId: string, stageList: seq<string>, now: int,
                                          seed: (string, nat) -> Option<string>)
    requires Below(ids, |t.runs|) && Increasing(ids)
    ensures StartFrom(t, ids, experimentId, stageList, now, seed).error.None? <==>
              forall k :: 0 <= k < |ids| && !TruthyTime(t.runs[ids[k]].rubricSeededAt) ==> seed(experimentId, ids[k]).None?
    decreases |ids|
  {
    if |ids| > 0 {
      var t1 := StepTables(t, ids[0], experimentId, stageList, now, seed);
      TailIncreasing(ids, |t.runs|);
      if !StepFails(t, ids[0], experimentId, seed) {
        StartFromError(t1, ids[1..], experimentId, stageList, now, seed);
        assert forall k :: 1 <= k < |ids| ==> t1.runs[ids[k]] == t.runs[ids[k]];
      }
    }
  }

  /** Some listed run that needs seeding has this id. */
  predicate Listed(ids: seq<nat>, flags: seq<bool>, runId: nat)
    requires |flags| == |ids|
  {
    exists k :: 0 <= k < |ids| && ids[k] == runId && flags[k]
  }

  /** Every seeding call is for a listed run of this experiment that needed one. */
  lemma {:induction false} SeedListListed(ids: seq<nat>, flags: seq<bool>, experimentId: string, seed: (string, nat) -> Option<string>)
    requires |flags| == |ids|
    ensures forall m :: 0 <= m < |SeedList(ids, flags, experimentId, seed)| ==>
              SeedList(ids, flags, experimentId, seed)[m].experimentId == experimentId
              && Listed(ids, flags, SeedList(ids, flags, experimentId, seed)[m].runId)
    decreases |ids|
  {
    if |ids| > 0 && !(flags[0] && seed(experimentId, ids[0]).Some?) {
      SeedListListed(ids[1..], flags[1..], experimentId, seed);
      var rest := SeedList(ids[1..], flags[1..], experimentId, seed);
      var head := if flags[0] then [SeedCall(experimentId, ids[0])] else [];
      var calls := head + rest;
      assert SeedList(ids, flags, experimentId, seed) == calls;
      forall m | 0 <= m < |calls|
        ensures calls[m].experimentId == experimentId && Listed(ids, flags, calls[m].runId)
      {
        if m < |head| {
          assert calls[m] == SeedCall(experimentId, ids[0]) && flags[0];
        } else {
          var c := rest[m - |head|];
          assert calls[m] == c;
          assert Listed(ids[1..], flags[1..], c.runId);
          var k :| 0 <= k < |ids[1..]| && ids[1..][k] == c.runId && flags[1..][k];
          assert ids[k + 1] == c.runId && flags[k + 1];
        }
      }
    }
  }

  predicate CallsIncreasing(calls: seq<SeedCall>)
  {
    forall j, m :: 0 <= j < m < |calls| ==> calls[j].runId < calls[m].runId
  }

  /** The seeding calls follow the list's order, so no run is seeded twice. */
  lemma {:induction false} SeedListOrdered(ids: seq<nat>, flags: seq<bool>, experimentId: string, seed: (string, nat) -> Option<string>)
    requires |flags| == |ids| && Increasing(ids)
    ensures CallsIncreasing(SeedList(ids, flags, experimentId, seed))
    decreases |ids|
  {
    if |ids| > 0 && !(flags[0] && seed(experimentId, ids[0]).Some?) {
      assert Increasing(ids[1..]) by {
        forall j, k | 0 <= j < k < |ids[1..]| ensures ids[1..][j] < ids[1..][k] {
          assert ids[1..][j] == ids[j + 1] && ids[1..][k] == ids[k + 1];
        }
      }
      SeedListOrdered(ids[1..], flags[1..], experimentId, seed);
      SeedListListed(ids[1..], flags[1..], experimentId, seed);
      var rest := SeedList(ids[1..], flags[1..], experimentId, seed);
      var head := if flags[0] then [SeedCall(experimentId, ids[0])] else [];
      var calls := head + rest;
      assert SeedList(ids, flags, experimentId, seed) == calls;
      if flags[0] {
        forall m | 0 <= m < |rest|
          ensures ids[0] < rest[m].runId
        {
          assert Listed(ids[1..], flags[1..], rest[m].runId);
          var k :| 0 <= k < |ids[1..]| && ids[1..][k] == rest[m].runId && flags[1..][k];
          assert ids[1..][k] == ids[k + 1];
        }
        forall j, m | 0 <= j < m < |calls|
          ensures calls[j].runId < calls[m].runId
        {
          assert calls[m] == rest[m - 1];
          if j > 0 { assert calls[j] == rest[j - 1]; }
        }
      } else {
        assert calls == rest;
      }
    }
  }

  /** Without a failing seeding, every listed run that needed seeding gets its call. */
  lemma {:induction false} SeedListAll(ids: seq<nat>, flags: seq<bool>, experimentId: string, seed: (string, nat) -> Option<string>)
    requires |flags| == |ids|
    requires forall k :: 0 <= k < |ids| && flags[k] ==> seed(experimentId, ids[k]).None?
    ensures forall k :: 0 <= k < |ids| && flags[k] ==> SeedCall(experimentId, ids[k]) in SeedList(ids, flags, experimentId, seed)
    decreases |ids|
  {
    if |ids| > 0 {
      assert forall k :: 0 <= k < |ids[1..]| ==> ids[1..][k] == ids[k + 1] && flags[1..][k] == flags[k + 1];
      SeedListAll(ids[1..], flags[1..], experimentId, seed);
    }
  }

  /** A run later in the list is untouched by visiting an earlier one, so a run visited
      earlier keeps its state and its stage rows through the rest of the loop. */
  lemma {:induction false} StartFromKeeps(t: Tables, ids: seq<nat>, experimentId: string, stageList: seq<string>, now: int,
                                          seed: (string, nat) -> Option<string>, done: nat)
    requires Below(ids, |t.runs|)
    requires done < |t.runs| && done !in ids
    ensures var r := StartFrom(t, ids, experimentId, stageList, now, seed);
            r.tables.runs[done] == t.runs[done] && Count(r.tables.stages, RowOf(done)) >= Count(t.stages, RowOf(done))
    decreases |ids|
  {
    if |ids| > 0 {
      var id := ids[0];
      StepFacts(t, id, experimentId, stageList, now, seed);
      assert forall k :: 0 <= k < |ids[1..]| ==> ids[1..][k] == ids[k + 1];
      if !StepFails(t, id, experimentId, seed) {
        StartFromKeeps(StepTables(t, id, experimentId, stageList, now, seed), ids[1..], experimentId, stageList, now, seed, done);
      }
    }
  }

  /** After a pass that does not fail, the k-th listed run is running, keeps its seeding time or
      has `now` as a new one, and has stage rows when it had some or the stage list is not empty. */
  lemma {:induction false} StartFromVisited(t: Tables, ids: seq<nat>, experimentId: string, stageList: seq<string>, now: int,
                                            seed: (string, nat) -> Option<string>, k: nat)
    requires Below(ids, |t.runs|) && Increasing(ids) && k < |ids|
    requires StartFrom(t, ids, experimentId, stageList, now, seed).error.None?
    ensures var run := StartFrom(t, ids, experimentId, stageList, now, seed).tables.runs[ids[k]];
            var before := t.runs[ids[k]];
            run.status == "running" && run.desiredState == "running"
            && run.rubricSeededAt == (if TruthyTime(before.rubricSeededAt) then before.rubricSeededAt else Some(now))
    ensures Count(t.stages, RowOf(ids[k])) > 0 || |stageList| > 0 ==>
              Count(StartFrom(t, ids, experimentId, stageList, now, seed).tables.stages, RowOf(ids[k])) > 0
    decreases |ids|
  {
    var t1 := StepTables(t, ids[0], experimentId, stageList, now, seed);
    TailIncreasing(ids, |t.runs|);
    assert !StepFails(t, ids[0], experimentId, seed);
    assert StartFrom(t, ids, experimentId, stageList, now, seed) == StartFrom(t1, ids[1..], experimentId, stageList, now, seed);
    StepFacts(t, ids[0], experimentId, stageList, now, seed);
    if k == 0 {
      StartFromKeeps(t1, ids[1..], experimentId, stageList, now, seed, ids[0]);
    } else {
      StartFromVisited(t1, ids[1..], experimentId, stageList, now, seed, k - 1);
      assert t1.runs[ids[k]] == t.runs[ids[k]];
    }
  }

  datatype StartOut = StartOut(outcome: StartOutcome, tables: Tables, ensure: bool)

  /** The tables before the loop: with the new run and its stage rows when none is pending. */
  function Prepared(t: Tables, experimentId: string, counts: RunCounts, engine: RunPolicy,
                    stopAtStage: Option<string>, stageList: seq<string>, now: int): (t': Tables)
    ensures |PendingIds(t.runs, experimentId, 0)| == 0 ==> |t'.runs| == |t.runs| + 1
    ensures |PendingIds(t.runs, experimentId, 0)| > 0 ==> t' == t
    ensures forall i :: 0 <= i < |t.runs| ==> t'.runs[i] == t.runs[i]
    ensures t'.seeded == t.seeded
  {
    if |PendingIds(t.runs, experimentId, 0)| == 0 then
      Tables(t.runs + [NewRun(experimentId, counts, engine, stopAtStage, now)],
             t.stages + NewStageRows(|t.runs|, stageList, now), t.seeded)
    else t
  }

  /** The runs the loop starts: the pending ones, or the new one. */
  function StartIds(t: Tables, experimentId: string): (ids: seq<nat>)
    ensures Increasing(ids) && Below(ids, |t.runs| + 1) && |ids| > 0
    ensures |PendingIds(t.runs, experimentId, 0)| > 0 ==> Below(ids, |t.runs|)
  {
    var pending := PendingIds(t.runs, experimentId, 0);
    if |pending| == 0 then [|t.runs|] else pending
  }

  /** `startExperimentInternal`: an unknown experiment or a failed preflight changes nothing;
      otherwise the pending runs (or one new run) are started, and the scheduler is ensured
      once every run was started. */
  function StartSpec(t: Tables, experiments: set<string>, experimentId: string, counts: RunCounts,
                     stopAtStage: Option<string>, stages: Option<seq<string>>, engine: RunPolicy, now: int,
                     preflight: string -> Option<string>, seed: (string, nat) -> Option<string>): StartOut
  {
    if experimentId !in experiments then StartOut(NotStarted("experiment_not_found"), t, false)
    else if preflight(experimentId).Some? then StartOut(NotStarted(preflight(experimentId).value), t, false)
    else
      var stageList := stages.GetOr(DefaultRunStages);
      var pending := PendingIds(t.runs, experimentId, 0);
      var created := if |pending| == 0 then Some(|t.runs|) else None;
      var step := StartFrom(Prepared(t, experimentId, counts, engine, stopAtStage, stageList, now),
                            StartIds(t, experimentId), experimentId, stageList, now, seed);
      if step.error.Some? then StartOut(NotStarted(step.error.value), step.tables, false)
      else StartOut(Started(StartIds(t, experimentId), created), step.tables, true)
  }

  /** How a start ends: an unknown experiment or a failed preflight reports its error and
      changes nothing; otherwise a run is created exactly when the experiment had no pending
      run, the started runs are the pending ones or the new one alone, and the start fails
      exactly when the seeding of one of them throws. */
  lemma StartOutcomes(t: Tables, experiments: set<string>, experimentId: string, counts: RunCounts,
                      stopAtStage: Option<string>, stages: Option<seq<string>>, engine: RunPolicy, now: int,
                      preflight: string -> Option<string>, seed: (string, nat) -> Option<string>)
    ensures var out := StartSpec(t, experiments, experimentId, counts, stopAtStage, stages, engine, now, preflight, seed);
            experimentId !in experiments ==> out == StartOut(NotStarted("experiment_not_found"), t, false)
    ensures var out := StartSpec(t, experiments, experimentId, counts, stopAtStage, stages, engine, now, preflight, seed);
            experimentId in experiments && preflight(experimentId).Some? ==>
              out == StartOut(NotStarted(preflight(experimentId).value), t, false)
    ensures var out := StartSpec(t, experiments, experimentId, counts, stopAtStage, stages, engine, now, preflight, seed);
            var pending := PendingIds(t.runs, experimentId, 0);
            experimentId in experiments && preflight(experimentId).None? ==>
              (|pending| > 0 ==> (out.outcome.Started? <==>
                 forall k :: 0 <= k < |pending| && !TruthyTime(t.runs[pending[k]].rubricSeededAt) ==> seed(experimentId, pending[k]).None?))
              && (|pending| == 0 ==> (out.outcome.Started? <==> seed(experimentId, |t.runs|).None?))
    ensures var out := StartSpec(t, experiments, experimentId, counts, stopAtStage, stages, engine, now, preflight, seed);
            var pending := PendingIds(t.runs, experimentId, 0);
            out.outcome.Started? ==>
              out.ensure
              && (out.outcome.createdRunId.Some? <==> |pending| == 0)
              && (|pending| == 0 ==> out.outcome.createdRunId == Some(|t.runs|) && out.outcome.runIds == [|t.runs|]
                                     && |out.tables.runs| == |t.runs| + 1)
              && (|pending| > 0 ==> out.outcome.runIds == pending && |out.tables.runs| == |t.runs|)
    ensures var out := StartSpec(t, experiments, experimentId, counts, stopAtStage, stages, engine, now, preflight, seed);
            out.outcome.NotStarted? ==> !out.ensure
  {
    if experimentId in experiments && preflight(experimentId).None? {
      var stageList := stages.GetOr(DefaultRunStages);
      var t1 := Prepared(t, experimentId, counts, engine, stopAtStage, stageList, now);
      var ids := StartIds(t, experimentId);
      StartFromError(t1, ids, experimentId, stageList, now, seed);
      if |PendingIds(t.runs, experimentId, 0)| == 0 {
        assert t1.runs[|t.runs|].rubricSeededAt.None?;
      }
    }
  }

  /** Rubric seeding happens at most once per run: a start seeds only runs without a seeding
      time, each once; on success every started run is running, has been seeded (now or
      before) and has stage rows when the stage list is not empty. */
  lemma StartSeedsOnce(t: Tables, experiments: set<string>, experimentId: string, counts: RunCounts,
                       stopAtStage: Option<string>, stages: Option<seq<string>>, engine: RunPolicy, now: int,
                       preflight: string -> Option<string>, seed: (string, nat) -> Option<string>)
    ensures var out := StartSpec(t, experiments, experimentId, counts, stopAtStage, stages, engine, now, preflight, seed);
            var calls := out.tables.seeded;
            |calls| >= |t.seeded| && calls[..|t.seeded|] == t.seeded
            && (forall k :: |t.seeded| <= k < |calls| ==>
                  calls[k].experimentId == experimentId
                  && (calls[k].runId < |t.runs| ==> !TruthyTime(t.runs[calls[k].runId].rubricSeededAt)))
            && (forall j, k :: |t.seeded| <= j < k < |calls| ==> calls[j].runId != calls[k].runId)
  {
    if experimentId in experiments && preflight(experimentId).None? {
      var stageList := stages.GetOr(DefaultRunStages);
      var t1 := Prepared(t, experimentId, counts, engine, stopAtStage, stageList, now);
      var ids := StartIds(t, experimentId);
      StartFromLog(t1, ids, experimentId, stageList, now, seed);
      var flags := Unseeded(t1, ids);
      SeedListListed(ids, flags, experimentId, seed);
      SeedListOrdered(ids, flags, experimentId, seed);
      var calls := StartSpec(t, experiments, experimentId, counts, stopAtStage, stages, engine, now, preflight, seed).tables.seeded;
      var added := SeedList(ids, flags, experimentId, seed);
      assert calls == t.seeded + added;
      forall k | |t.seeded| <= k < |calls|
        ensures calls[k].experimentId == experimentId
        ensures calls[k].runId < |t.runs| ==> !TruthyTime(t.runs[calls[k].runId].rubricSeededAt)
      {
        assert calls[k] == added[k - |t.seeded|];
        assert Listed(ids, flags, added[k - |t.seeded|].runId);
        var m :| 0 <= m < |ids| && ids[m] == added[k - |t.seeded|].runId && flags[m];
      }
      forall j, k | |t.seeded| <= j < k < |calls|
        ensures calls[j].runId != calls[k].runId
      {
        assert calls[j] == added[j - |t.seeded|] && calls[k] == added[k - |t.seeded|];
        assert CallsIncreasing(added);
      }
    }
  }

  /** On success every started run is running, was seeded now or before (and every one that
      needed it got its seeding call), and has stage rows when the stage list is not empty. */
  lemma StartSucceeds(t: Tables, experiments: set<string>, experimentId: string, counts: RunCounts,
                      stopAtStage: Option<string>, stages: Option<seq<string>>, engine: RunPolicy, now: int,
                      preflight: string -> Option<string>, seed: (string, nat) -> Option<string>, k: nat)
    requires StartSpec(t, experiments, experimentId, counts, stopAtStage, stages, engine, now, preflight, seed).outcome.Started?
    requires k < |StartSpec(t, experiments, experimentId, counts, stopAtStage, stages, engine, now, preflight, seed).outcome.runIds|
    ensures var out := StartSpec(t, experiments, experimentId, counts, stopAtStage, stages, engine, now, preflight, seed);
            var id := out.outcome.runIds[k];
            id < |out.tables.runs|
            && out.tables.runs[id].status == "running" && out.tables.runs[id].desiredState == "running"
            && (id < |t.runs| && TruthyTime(t.runs[id].rubricSeededAt) ==> out.tables.runs[id].rubricSeededAt == t.runs[id].rubricSeededAt)
            && (!(id < |t.runs| && TruthyTime(t.runs[id].rubricSeededAt)) ==>
                  out.tables.runs[id].rubricSeededAt == Some(now) && SeedCall(experimentId, id) in out.tables.seeded)
            && (|stages.GetOr(DefaultRunStages)| > 0 ==> Count(out.tables.stages, RowOf(id)) > 0)
  {
    var stageList := stages.GetOr(DefaultRunStages);
    var t1 := Prepared(t, experimentId, counts, engine, stopAtStage, stageList, now);
    var ids := StartIds(t, experimentId);
    var id := ids[k];
    StartFromVisited(t1, ids, experimentId, stageList, now, seed, k);
    StartFromLog(t1, ids, experimentId, stageList, now, seed);
    StartFromError(t1, ids, experimentId, stageList, now, seed);
    SeedListAll(ids, Unseeded(t1, ids), experimentId, seed);
    if |PendingIds(t.runs, experimentId, 0)| == 0 {
      assert id == |t.runs| && t1.runs[id].rubricSeededAt.None?;
    }
  }

  /** Starting twice seeds a run at most once: a run the first start seeded or found seeded
      (at a non-zero time) gets no seeding call from a second start. */
  lemma StartTwiceSeedsOnce(t: Tables, experiments: set<string>, experimentId: string, counts: RunCounts,
                            stopAtStage: Option<string>, stages: Option<seq<string>>, engine: RunPolicy, now: int,
                            preflight: string -> Option<string>, seed: (string, nat) -> Option<string>,
                            experimentId': string, counts': RunCounts, stopAtStage': Option<string>,
                            stages': Option<seq<string>>, now': int, seed': (string, nat) -> Option<string>, k: nat)
    requires now != 0
    requires StartSpec(t, experiments, experimentId, counts, stopAtStage, stages, engine, now, preflight, seed).outcome.Started?
    requires k < |StartSpec(t, experiments, experimentId, counts, stopAtStage, stages, engine, now, preflight, seed).outcome.runIds|
    ensures var first := StartSpec(t, experiments, experimentId, counts, stopAtStage, stages, engine, now, preflight, seed);
            var t' := first.tables;
            var second := StartSpec(t', experiments, experimentId', counts', stopAtStage', stages', engine, now', preflight, seed');
            forall j :: |t'.seeded| <= j < |second.tables.seeded| ==> second.tables.seeded[j].runId != first.outcome.runIds[k]
  {
    var first := StartSpec(t, experiments, experimentId, counts, stopAtStage, stages, engine, now, preflight, seed);
    StartSucceeds(t, experiments, experimentId, counts, stopAtStage, stages, engine, now, preflight, seed, k);
    StartSeedsOnce(first.tables, experiments, experimentId', counts', stopAtStage', stages', engine, now', preflight, seed');
  }

  // ---------------------------------------------------------------------
  // The tables, and the entry points as methods

  class RunTables {
    var runs: seq<RunRow>
    var stages: seq<StageRow>
    var seeded: seq<SeedCall>
    const experiments: set<string>
    /** `ENGINE_SETTINGS.run_policy`, copied into every new run. */
    const engine: RunPolicy
    const scheduler: Scheduler.SchedulerStore

    constructor(runs0: seq<RunRow>, stages0: seq<StageRow>, experiments0: set<string>, engine0: RunPolicy,
                scheduler0: Scheduler.SchedulerStore)
      ensures runs == runs0 && stages == stages0 && seeded == [] && experiments == experiments0
      ensures engine == engine0 && scheduler == scheduler0
    {
      runs := runs0;
      stages := stages0;
      seeded := [];
      experiments := experiments0;
      engine := engine0;
      scheduler := scheduler0;
    }

    function Snapshot(): Tables
      reads this
    {
      Tables(runs, stages, seeded)
    }

    /** `resolveCurrentStage`: the run's current stage, or a walk over `STAGE_ORDER`. */
    method ResolveCurrentStage(run: RunRow, runId: nat) returns (s: Option<string>)
      ensures s == CurrentStage(run, stages, runId)
    {
      if TruthyString(run.currentStage) {
        return run.currentStage;
      }
      var ordered := Ordered(stages, runId);
      var i := 0;
      while i < |ordered|
        invariant 0 <= i <= |ordered|
        invariant FirstOpenOrLast(stages, runId, ordered[i..]) == FirstOpenOrLast(stages, runId, ordered)
      {
        assert ordered[i..][0] == ordered[i] && ordered[i..][1..] == ordered[i + 1..];
        var row := FirstRow(stages, runId, ordered[i]);
        if row == |stages| || stages[row].status != "complete" {
          return Some(ordered[i]);
        }
        if i == |ordered| - 1 {
          return Some(ordered[i]);
        }
        i := i + 1;
      }
      return None;
    }

    /** `updateRunState`: an unknown run throws "Run not found"; resuming ensures the scheduler. */
    method UpdateRunState(runId: nat, desired: DesiredState, now: int) returns (r: Result<bool>)
      modifies this, scheduler
      ensures runId >= |old(runs)| ==> r == Failure("Run not found") && runs == old(runs)
                                       && unchanged(scheduler)
      ensures runId < |old(runs)| ==>
                r == Success(true)
                && runs == old(runs)[runId := UpdateRun(old(runs)[runId], desired,
                                                         CurrentStage(old(runs)[runId], old(stages), runId), now)]
      ensures runId < |old(runs)| && desired == WantRunning ==>
                var out := Scheduler.EnsureSpec(old(scheduler.state), now);
                scheduler.state == Some(out.state) && scheduler.scheduled == old(scheduler.scheduled) + out.calls
      ensures runId < |old(runs)| && desired != WantRunning ==> unchanged(scheduler)
      ensures stages == old(stages) && seeded == old(seeded)
    {
      if runId >= |runs| {
        return Failure("Run not found");
      }
      var run := runs[runId];
      var current: Option<string> := None;
      if desired == WantPaused {
        current := ResolveCurrentStage(run, runId);
      }
      runs := runs[runId := UpdateRun(run, desired, current, now)];
      if desired == WantRunning {
        var _ := scheduler.EnsureScheduler(now);
      }
      return Success(true);
    }

    /** `setRunCurrentStage`: patching an unknown run throws. */
    method SetRunCurrentStage(runId: nat, currentStage: Option<string>, now: int) returns (r: Result<bool>)
      modifies this
      ensures runId >= |old(runs)| ==> r.Failure? && runs == old(runs)
      ensures runId < |old(runs)| ==>
                r == Success(true) && runs == old(runs)[runId := old(runs)[runId].(currentStage := currentStage, updatedAt := now)]
      ensures stages == old(stages) && seeded == old(seeded)
    {
      if runId >= |runs| {
        return Failure("run not found");
      }
      runs := runs[runId := runs[runId].(currentStage := currentStage, updatedAt := now)];
      return Success(true);
    }

    /** `markStageProgress`: only the fields given are patched, with the time; patching an
        unknown row throws. */
    method MarkStageProgress(stageId: nat, status: string, total: Option<nat>, completed: Option<nat>,
                             failed: Option<nat>, lastBatchId: Option<nat>, now: int) returns (r: Result<bool>)
      modifies this
      ensures stageId >= |old(stages)| ==> r.Failure? && stages == old(stages)
      ensures stageId < |old(stages)| ==>
                var s := old(stages)[stageId];
                r == Success(true)
                && stages == old(stages)[stageId := s.(status := status,
                                                      totalRequests := total.GetOr(s.totalRequests),
                                                      completedRequests := completed.GetOr(s.completedRequests),
                                                      failedRequests := failed.GetOr(s.failedRequests),
                                                      lastBatchId := if lastBatchId.Some? then lastBatchId else s.lastBatchId,
                                                      updatedAt := now)]
      ensures runs == old(runs) && seeded == old(seeded)
    {
      if stageId >= |stages| {
        return Failure("run stage not found");
      }
      var s := stages[stageId];
      var row := s.(status := status, updatedAt := now);
      if total.Some? { row := row.(totalRequests := total.value); }
      if completed.Some? { row := row.(completedRequests := completed.value); }
      if failed.Some? { row := row.(failedRequests := failed.value); }
      if lastBatchId.Some? { row := row.(lastBatchId := lastBatchId); }
      stages := stages[stageId := row];
      return Success(true);
    }

    /** Insert one pending row per stage. */
    method InsertStageRows(runId: nat, stageList: seq<string>, now: int)
      modifies this
      ensures stages == old(stages) + NewStageRows(runId, stageList, now)
      ensures runs == old(runs) && seeded == old(seeded)
    {
      var i := 0;
      while i < |stageList|
        invariant 0 <= i <= |stageList|
        invariant stages == old(stages) + NewStageRows(runId, stageList[..i], now)
        invariant runs == old(runs) && seeded == old(seeded)
      {
        stages := stages + [StageRow(runId, stageList[i], "pending", 0, 0, 0, None, now)];
        i := i + 1;
        assert NewStageRows(runId, stageList[..i], now) == NewStageRows(runId, stageList[..i - 1], now)
                 + [StageRow(runId, stageList[i - 1], "pending", 0, 0, 0, None, now)];
      }
      assert stageList[..i] == stageList;
    }

    /** `existingStages.length === 0`, by a walk over the stage rows. */
    method HasNoStageRows(runId: nat) returns (none: bool)
      ensures none <==> Count(stages, RowOf(runId)) == 0
    {
      var i := |stages|;
      var n := 0;
      while i > 0
        invariant 0 <= i <= |stages| && n == Count(stages[i..], RowOf(runId))
      {
        i := i - 1;
        assert stages[i..] == [stages[i]] + stages[i + 1..];
        if stages[i].runId == runId {
          n := n + 1;
        }
      }
      assert stages[0..] == stages;
      return n == 0;
    }

    /** One pass of the loop over the pending runs: patch, stage rows, seeding. */
    method StartOne(runId: nat, experimentId: string, stageList: seq<string>, now: int,
                    seed: (string, nat) -> Option<string>) returns (error: Option<string>)
      modifies this
      requires runId < |runs|
      ensures Snapshot() == StepTables(old(Snapshot()), runId, experimentId, stageList, now, seed)
      ensures error == if StepFails(old(Snapshot()), runId, experimentId, seed) then seed(experimentId, runId) else None
    {
      var seededAt := runs[runId].rubricSeededAt;
      runs := runs[runId := runs[runId].(status := "running", desiredState := "running", updatedAt := now)];
      var none := HasNoStageRows(runId);
      if none {
        InsertStageRows(runId, stageList, now);
      }
      if TruthyTime(seededAt) {
        return None;
      }
      error := seed(experimentId, runId);
      if error.Some? {
        return;
      }
      seeded := seeded + [SeedCall(experimentId, runId)];
      runs := runs[runId := runs[runId].(rubricSeededAt := Some(now), currentStage := Some("rubric_gen"), updatedAt := now)];
    }

    /** The pending runs of an experiment, by a walk over the runs table. */
    method QueryPending(experimentId: string) returns (ids: seq<nat>)
      ensures ids == PendingIds(runs, experimentId, 0)
    {
      ids := [];
      var i := |runs|;
      while i > 0
        invariant 0 <= i <= |runs| && ids == PendingIds(runs, experimentId, i)
      {
        i := i - 1;
        if runs[i].experimentId == experimentId && runs[i].status == "pending" {
          ids := [i] + ids;
        }
      }
    }

    /** The loop over the runs to start. */
    method StartRuns(ids: seq<nat>, experimentId: string, stageList: seq<string>, now: int,
                     seed: (string, nat) -> Option<string>) returns (error: Option<string>)
      modifies this
      requires Below(ids, |runs|)
      ensures var r := StartFrom(old(Snapshot()), ids, experimentId, stageList, now, seed);
              error == r.error && Snapshot() == r.tables
    {
      ghost var t0 := Snapshot();
      var i := 0;
      while i < |ids|
        invariant 0 <= i <= |ids| && |runs| == |t0.runs|
        invariant StartFrom(t0, ids, experimentId, stageList, now, seed)
                  == StartFrom(Snapshot(), ids[i..], experimentId, stageList, now, seed)
      {
        assert ids[i..][0] == ids[i] && ids[i..][1..] == ids[i + 1..];
        error := StartOne(ids[i], experimentId, stageList, now, seed);
        if error.Some? {
          return;
        }
        i := i + 1;
      }
      return None;
    }

    /** The run a start creates when none is pending, with its stage rows. */
    method InsertRun(experimentId: string, counts: RunCounts, stopAtStage: Option<string>, stageList: seq<string>, now: int)
      returns (runId: nat)
      modifies this
      ensures runId == |old(runs)|
      ensures Snapshot() == Tables(old(runs) + [NewRun(experimentId, counts, engine, stopAtStage, now)],
                                   old(stages) + NewStageRows(runId, stageList, now), old(seeded))
    {
      runId := |runs|;
      runs := runs + [NewRun(experimentId, counts, engine, stopAtStage, now)];
      InsertStageRows(runId, stageList, now);
    }

    /** `startExperimentInternal`, with `Date.now()` as `now`; the seeding mutation's own writes are not modelled. */
    method StartExperimentInternal(experimentId: string, counts: RunCounts, stopAtStage: Option<string>,
                                   stageList: Option<seq<string>>, now: int,
                                   preflight: string -> Option<string>, seed: (string, nat) -> Option<string>)
      returns (out: StartOutcome)
      modifies this, scheduler
      ensures var spec := StartSpec(old(Snapshot()), experiments, experimentId, counts, stopAtStage, stageList,
                                    engine, now, preflight, seed);
              out == spec.outcome && Snapshot() == spec.tables
      ensures out.Started? ==>
                var e := Scheduler.EnsureSpec(old(scheduler.state), now);
                scheduler.state == Some(e.state) && scheduler.scheduled == old(scheduler.scheduled) + e.calls
      ensures out.NotStarted? ==> scheduler.state == old(scheduler.state) && scheduler.scheduled == old(scheduler.scheduled)
    {
      if experimentId !in experiments {
        return NotStarted("experiment_not_found");
      }
      var failure := preflight(experimentId);
      if failure.Some? {
        return NotStarted(failure.value);
      }
      var list := stageList.GetOr(DefaultRunStages);
      var pending := QueryPending(experimentId);
      var created: Option<nat> := None;
      if |pending| == 0 {
        var runId := InsertRun(experimentId, counts, stopAtStage, list, now);
        created := Some(runId);
        pending := [runId];
      }
      var error := StartRuns(pending, experimentId, list, now, seed);
      if error.Some? {
        return NotStarted(error.value);
      }
      var _ := scheduler.EnsureScheduler(now);
      return Started(pending, created);
    }

    /** `createRun`: a start that fails, or that reused pending runs, throws, and the throw
        rolls back every write of the mutation. */
    method CreateRun(experimentId: string, counts: RunCounts, stopAtStage: Option<string>,
                     stageList: Option<seq<string>>, now: int,
                     preflight: string -> Option<string>, seed: (string, nat) -> Option<string>)
      returns (r: Result<nat>)
      modifies this, scheduler
      ensures var spec := StartSpec(old(Snapshot()), experiments, experimentId, counts, stopAtStage, stageList,
                                    engine, now, preflight, seed);
              match spec.outcome
              case Started(_, Some(id)) => r == Success(id) && Snapshot() == spec.tables
              case Started(_, None) => r == Failure("run_start_failed") && Snapshot() == old(Snapshot())
              case NotStarted(e) => r == Failure(e) && Snapshot() == old(Snapshot())
      ensures r.Failure? ==> scheduler.state == old(scheduler.state) && scheduler.scheduled == old(scheduler.scheduled)
    {
      var savedRuns, savedStages, savedSeeded := runs, stages, seeded;
      var savedState, savedScheduled := scheduler.state, scheduler.scheduled;
      var out := StartExperimentInternal(experimentId, counts, stopAtStage, stageList, now, preflight, seed);
      if out.Started? && out.createdRunId.Some? {
        return Success(out.createdRunId.value);
      }
      runs, stages, seeded := savedRuns, savedStages, savedSeeded;
      scheduler.state, scheduler.scheduled := savedState, savedScheduled;
      if out.NotStarted? {
        return Failure(out.error);
      }
      return Failure("run_start_failed");
    }
  }
}
