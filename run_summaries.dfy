/**
 * The run read-outs of `domain/runs/experiments_data.ts`: the experiment
 * status over its runs' state statuses, the latest run, and the per-stage
 * progress of `getRunSummary`.
 */
module RunSummaries {
  import opened Wrappers
  import opened JsArrays
  import Runs

  // ---------------------------------------------------------------------
  // deriveExperimentStatus

  /** `StateStatusSchema`, as this file returns it. */
  datatype StateStatus = Start | Queued | Running | Paused | Completed | Canceled | Error

  predicate AllAre(statuses: seq<string>, x: string)
  {
    forall k :: 0 <= k < |statuses| ==> statuses[k] == x
  }

  /** The experiment status: start without runs; otherwise the first of running, paused,
      error and canceled that some run has; completed when every run is; queued when some
      run is queued or at start; start for anything else. */
  function DeriveExperimentStatus(statuses: seq<string>): (r: StateStatus)
    ensures |statuses| == 0 ==> r == Start
    ensures r == Running <==> "running" in statuses
    ensures r == Paused <==> "running" !in statuses && "paused" in statuses
    ensures r == Error <==> "running" !in statuses && "paused" !in statuses && "error" in statuses
    ensures r == Canceled <==>
              "running" !in statuses && "paused" !in statuses && "error" !in statuses && "canceled" in statuses
    ensures r == Completed <==> |statuses| > 0 && AllAre(statuses, "completed")
    ensures r == Queued <==>
              !AllAre(statuses, "completed") && ("queued" in statuses || "start" in statuses)
              && "running" !in statuses && "paused" !in statuses && "error" !in statuses && "canceled" !in statuses
  {
    if |statuses| == 0 then Start
    else if "running" in statuses then Running
    else if "paused" in statuses then Paused
    else if "error" in statuses then Error
    else if "canceled" in statuses then Canceled
    else if AllAre(statuses, "completed") then Completed
    else if exists k :: 0 <= k < |statuses| && (statuses[k] == "queued" || statuses[k] == "start") then Queued
    else Start
  }

  /** The status depends only on which statuses occur. */
  lemma StatusBySet(s: seq<string>, t: seq<string>)
    requires forall x :: x in s <==> x in t
    ensures DeriveExperimentStatus(s) == DeriveExperimentStatus(t)
  {
    if |s| > 0 { assert s[0] in t; }
    if |t| > 0 { assert t[0] in s; }
    if |s| > 0 && AllAre(s, "completed") {
      forall k | 0 <= k < |t| ensures t[k] == "completed" {
        assert t[k] in s;
      }
    }
    if |t| > 0 && AllAre(t, "completed") {
      forall k | 0 <= k < |s| ensures s[k] == "completed" {
        assert s[k] in t;
      }
    }
  }

  /** The precedence of the statuses some run forces: running, paused, error, canceled. */
  function Urgency(r: StateStatus): nat
  {
    match r
    case Running => 4
    case Paused => 3
    case Error => 2
    case Canceled => 1
    case _ => 0
  }

  /** Adding runs never lowers that precedence. */
  lemma UrgencyMonotone(s: seq<string>, t: seq<string>)
    ensures Urgency(DeriveExperimentStatus(s)) <= Urgency(DeriveExperimentStatus(s + t))
  {
    assert forall x :: x in s ==> x in s + t;
  }

  /** A single errored run outweighs any number of completed or queued ones. */
  lemma ErrorOutweighsProgress(s: seq<string>)
    requires forall k :: 0 <= k < |s| ==> s[k] in {"completed", "queued", "start"}
    ensures DeriveExperimentStatus(s + ["error"]) == Error
  {
    assert (s + ["error"])[|s|] == "error";
    assert forall k :: 0 <= k < |s| ==> (s + ["error"])[k] == s[k];
  }

  // ---------------------------------------------------------------------
  // latestRun

  /** The fields of a run row this file reads. */
  datatype RunDoc = RunDoc(id: nat, creationTime: int, status: string, currentStage: Runs.RunStage, targetCount: int)

  /** The sort key of `(a, b) => b._creationTime - a._creationTime`: newest first. */
  function Newest(): RunDoc -> int
  {
    (r: RunDoc) => -r.creationTime
  }

  /** `latestRun(runs)`: null without runs, otherwise the head of the newest-first sort. */
  function LatestRun(runs: seq<RunDoc>): Option<RunDoc>
  {
    if |runs| == 0 then None else Some(SortBy(runs, Newest())[0])
  }

  /** The latest run is a run with the greatest creation time, and among several with that
      time the first in table order (the sort is stable). */
  lemma LatestRunIsNewest(runs: seq<RunDoc>)
    ensures LatestRun(runs).None? <==> |runs| == 0
    ensures |runs| > 0 ==>
              exists i :: 0 <= i < |runs| && LatestRun(runs) == Some(runs[i])
                          && (forall k :: 0 <= k < |runs| ==> runs[k].creationTime <= runs[i].creationTime)
                          && (forall k :: 0 <= k < i ==> runs[k].creationTime < runs[i].creationTime)
  {
    if |runs| > 0 {
      SortByFirst(runs, Newest());
      var i := FirstMin(runs, Newest());
      assert LatestRun(runs) == Some(runs[i]);
    }
  }

  // ---------------------------------------------------------------------
  // getRunSummary

  /** `RunStageSchema.options`, in order. */
  const StageOptions: seq<Runs.RunStage> := [Runs.RubricGen, Runs.RubricCritic, Runs.ScoreGen, Runs.ScoreCritic]

  /** Whether a sample has the output of a stage: its id for that stage is set. */
  predicate HasOutput(stage: Runs.RunStage, s: Runs.Sample)
  {
    match stage
    case RubricGen => s.rubricId.Some?
    case RubricCritic => s.rubricCriticId.Some?
    case ScoreGen => s.scoreId.Some?
    case ScoreCritic => s.scoreCriticId.Some?
  }

  function Done(stage: Runs.RunStage): Runs.Sample -> bool
  {
    (s: Runs.Sample) => HasOutput(stage, s)
  }

  /** A stage's status from its completed count and the run's target count. */
  function StageStatus(completed: nat, total: int): (status: string)
    ensures status == "queued" <==> completed == 0
    ensures status == "completed" <==> completed > 0 && completed >= total
    ensures status == "running" <==> 0 < completed < total
  {
    if completed == 0 then "queued" else if completed >= total then "completed" else "running"
  }

  datatype StageSummary = StageSummary(stage: Runs.RunStage, status: string, total: int, completed: nat, failed: nat)

  datatype RunSummary = RunSummary(runId: nat, status: string, currentStage: Runs.RunStage, targetCount: int,
                                   stages: seq<StageSummary>)

  /** The samples of a run (the `by_run` index). */
  function OfRun(runId: nat): Runs.Sample -> bool
  {
    (s: Runs.Sample) => s.runId == runId
  }

  /** The counting loop of one stage. */
  method CountCompleted(samples: seq<Runs.Sample>, stage: Runs.RunStage) returns (completed: nat)
    ensures completed == Count(samples, Done(stage))
  {
    completed := 0;
    var i := 0;
    while i < |samples|
      invariant 0 <= i <= |samples|
      invariant completed == Count(samples[..i], Done(stage))
    {
      assert samples[..i + 1] == samples[..i] + [samples[i]];
      CountSnoc(samples[..i], samples[i], Done(stage));
      if HasOutput(stage, samples[i]) {
        completed := completed + 1;
      }
      i := i + 1;
    }
    assert samples[..i] == samples;
  }

  /** `getRunSummary`: one entry per stage of the schema, in its order, with the samples of
      the run that have that stage's output, a status from that count, and no failures;
      a missing run is an error. */
  method GetRunSummary(runs: seq<RunDoc>, samples: seq<Runs.Sample>, runId: nat) returns (r: Result<RunSummary>)
    ensures r.Failure? <==> (forall k :: 0 <= k < |runs| ==> runs[k].id != runId)
    ensures r.Failure? ==> r.error == "Run not found"
    ensures r.Success? ==>
              var run := r.value;
              var mine := Filter(samples, OfRun(runId));
              (exists k :: 0 <= k < |runs| && runs[k].id == runId && run.status == runs[k].status
                           && run.targetCount == runs[k].targetCount && run.currentStage == runs[k].currentStage)
              && run.runId == runId && |run.stages| == |StageOptions|
              && forall j :: 0 <= j < |StageOptions| ==>
                   run.stages[j].stage == StageOptions[j]
                   && run.stages[j].total == run.targetCount
                   && run.stages[j].completed == Count(mine, Done(StageOptions[j]))
                   && run.stages[j].status == StageStatus(run.stages[j].completed, run.targetCount)
                   && run.stages[j].failed == 0
  {
    var i := 0;
    while i < |runs| && runs[i].id != runId
      invariant 0 <= i <= |runs|
      invariant forall k :: 0 <= k < i ==> runs[k].id != runId
    {
      i := i + 1;
    }
    if i == |runs| {
      return Failure("Run not found");
    }
    var run := runs[i];
    var mine := Filter(samples, OfRun(runId));
    var stages: seq<StageSummary> := [];
    var j := 0;
    while j < |StageOptions|
      invariant 0 <= j <= |StageOptions| && |stages| == j
      invariant forall m :: 0 <= m < j ==>
                  stages[m].stage == StageOptions[m] && stages[m].total == run.targetCount
                  && stages[m].completed == Count(mine, Done(StageOptions[m]))
                  && stages[m].status == StageStatus(stages[m].completed, run.targetCount) && stages[m].failed == 0
    {
      var completed := CountCompleted(mine, StageOptions[j]);
      stages := stages + [StageSummary(StageOptions[j], StageStatus(completed, run.targetCount), run.targetCount, completed, 0)];
      j := j + 1;
    }
    r := Success(RunSummary(runId, run.status, run.currentStage, run.targetCount, stages));
  }

  /** A stage's completed count is at most the number of the run's samples, and the stage
      is queued exactly when none of them has its output. */
  lemma StageCountMeaning(samples: seq<Runs.Sample>, runId: nat, stage: Runs.RunStage)
    ensures var mine := Filter(samples, OfRun(runId));
            Count(mine, Done(stage)) <= |mine|
            && (StageStatus(Count(mine, Done(stage)), 0) == "queued" <==>
                  forall k :: 0 <= k < |samples| && samples[k].runId == runId ==> !HasOutput(stage, samples[k]))
  {
    var mine := Filter(samples, OfRun(runId));
    CountPositive(mine, Done(stage));
    if exists k :: 0 <= k < |samples| && samples[k].runId == runId && HasOutput(stage, samples[k]) {
      var k :| 0 <= k < |samples| && samples[k].runId == runId && HasOutput(stage, samples[k]);
      assert samples[k] in mine;
    }
  }
}
