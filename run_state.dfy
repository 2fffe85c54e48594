/**
 * Stage status of a run (`domain/runs/workflows/runs_run_state.ts`): the
 * status a stage row gets from its request counts, the tally of an
 * experiment's requests for one stage, and the refresh that writes the
 * counts back and completes the run once every stage row is complete.
 */
module RunState {
  import opened Wrappers
  import opened JsArrays

  datatype StageStatus = Pending | Running | Complete | Failed

  function StageStatusName(s: StageStatus): string
  {
    match s
    case Pending => "pending"
    case Running => "running"
    case Complete => "complete"
    case Failed => "failed"
  }

  /** `computeStageStatus`. */
  function ComputeStageStatus(total: nat, completed: nat, failed: nat): StageStatus
  {
    if total == 0 then Pending
    else if completed + failed >= total then (if failed > 0 then Failed else Complete)
    else Running
  }

  /**
   * A stage with no requests is pending; it is finished once completed
   * and failed requests cover the total, complete when none failed and
   * failed otherwise; until then it is running.
   */
  lemma ComputeStageStatusCases(total: nat, completed: nat, failed: nat)
    ensures ComputeStageStatus(total, completed, failed) == Pending <==> total == 0
    ensures ComputeStageStatus(total, completed, failed) == Complete <==> total > 0 && completed + failed >= total && failed == 0
    ensures ComputeStageStatus(total, completed, failed) == Failed <==> total > 0 && completed + failed >= total && failed > 0
    ensures ComputeStageStatus(total, completed, failed) == Running <==> total > 0 && completed + failed < total
  {
  }

  // ---------------------------------------------------------------------
  // Tallying the requests of one experiment and stage

  /** The request statuses the tally looks at, in the order it queries them. */
  const RequestStatuses: seq<string> := ["queued", "submitted", "completed", "error", "canceled"]

  datatype RequestRow = RequestRow(experimentId: string, stage: string, status: string)

  function WithStatus(experimentId: string, stage: string, status: string): RequestRow -> bool
  {
    (r: RequestRow) => r.experimentId == experimentId && r.stage == stage && r.status == status
  }

  function WithStatusIn(experimentId: string, stage: string, statuses: seq<string>): RequestRow -> bool
  {
    (r: RequestRow) => r.experimentId == experimentId && r.stage == stage && r.status in statuses
  }

  /** The per-status counts summed over a list of statuses. */
  function SumCounts(reqs: seq<RequestRow>, experimentId: string, stage: string, statuses: seq<string>): nat
    decreases |statuses|
  {
    if |statuses| == 0 then 0
    else SumCounts(reqs, experimentId, stage, statuses[..|statuses| - 1]) + Count(reqs, WithStatus(experimentId, stage, statuses[|statuses| - 1]))
  }

  /** Counting matches of one more status, not among the others, adds its own count. */
  lemma {:induction false} CountSplit(reqs: seq<RequestRow>, experimentId: string, stage: string, statuses: seq<string>, s: string)
    requires s !in statuses
    ensures Count(reqs, WithStatusIn(experimentId, stage, statuses + [s])) ==
            Count(reqs, WithStatusIn(experimentId, stage, statuses)) + Count(reqs, WithStatus(experimentId, stage, s))
  {
    if |reqs| > 0 {
      CountSplit(reqs[1..], experimentId, stage, statuses, s);
    }
  }

  /** Over distinct statuses, the summed counts are the requests with any of them. */
  lemma {:induction false} SumCountsIsCount(reqs: seq<RequestRow>, experimentId: string, stage: string, statuses: seq<string>)
    requires forall i, j :: 0 <= i < j < |statuses| ==> statuses[i] != statuses[j]
    ensures SumCounts(reqs, experimentId, stage, statuses) == Count(reqs, WithStatusIn(experimentId, stage, statuses))
    decreases |statuses|
  {
    if |statuses| == 0 {
      CountNone(reqs, WithStatusIn(experimentId, stage, statuses));
    } else {
      var init := statuses[..|statuses| - 1];
      var s := statuses[|statuses| - 1];
      assert statuses == init + [s];
      SumCountsIsCount(reqs, experimentId, stage, init);
      CountSplit(reqs, experimentId, stage, init, s);
    }
  }

  lemma {:induction false} CountNone<T>(s: seq<T>, p: T -> bool)
    requires forall k :: 0 <= k < |s| ==> !p(s[k])
    ensures Count(s, p) == 0
  {
    if |s| > 0 {
      CountNone(s[1..], p);
    }
  }

  datatype Tally = Tally(total: nat, completed: nat, failed: nat)

  /** The tally of the refresh: every request of the experiment and stage with a known status, and the completed and errored ones. */
  function TallyOf(reqs: seq<RequestRow>, experimentId: string, stage: string): Tally
  {
    Tally(Count(reqs, WithStatusIn(experimentId, stage, RequestStatuses)),
          Count(reqs, WithStatus(experimentId, stage, "completed")),
          Count(reqs, WithStatus(experimentId, stage, "error")))
  }

  /** The tallying loop: one query per status, adding to the total and to the completed or failed counter. */
  method TallyRequests(reqs: seq<RequestRow>, experimentId: string, stage: string) returns (t: Tally)
    ensures t == TallyOf(reqs, experimentId, stage)
  {
    var total: nat := 0;
    var completed: nat := 0;
    var failed: nat := 0;
    for i := 0 to |RequestStatuses|
      invariant total == SumCounts(reqs, experimentId, stage, RequestStatuses[..i])
      invariant completed == (if i > 2 then Count(reqs, WithStatus(experimentId, stage, "completed")) else 0)
      invariant failed == (if i > 3 then Count(reqs, WithStatus(experimentId, stage, "error")) else 0)
    {
      var status := RequestStatuses[i];
      var n := Count(reqs, WithStatus(experimentId, stage, status));
      assert RequestStatuses[..i + 1][..i] == RequestStatuses[..i];
      total := total + n;
      if status == "completed" {
        completed := completed + n;
      }
      if status == "error" {
        failed := failed + n;
      }
    }
    assert RequestStatuses[..|RequestStatuses|] == RequestStatuses;
    SumCountsIsCount(reqs, experimentId, stage, RequestStatuses);
    t := Tally(total, completed, failed);
  }

  /** The completed and the failed requests are disjoint parts of the total. */
  lemma {:induction false} TallyBounds(reqs: seq<RequestRow>, experimentId: string, stage: string)
    ensures TallyOf(reqs, experimentId, stage).completed + TallyOf(reqs, experimentId, stage).failed <= TallyOf(reqs, experimentId, stage).total
    ensures |reqs| >= TallyOf(reqs, experimentId, stage).total
  {
    SumCountsIsCount(reqs, experimentId, stage, ["completed", "error"]);
    assert ["completed", "error"][..1] == ["completed"];
    assert [] + ["completed"] == ["completed"];
    SumCountsIsCount(reqs, experimentId, stage, []);
    CountSub(reqs, WithStatusIn(experimentId, stage, ["completed", "error"]), WithStatusIn(experimentId, stage, RequestStatuses));
  }

  /** Counting a weaker condition counts at least as many. */
  lemma {:induction false} CountSub<T>(s: seq<T>, p: T -> bool, q: T -> bool)
    requires forall x :: p(x) ==> q(x)
    ensures Count(s, p) <= Count(s, q)
  {
    if |s| > 0 {
      CountSub(s[1..], p, q);
    }
  }

  // ---------------------------------------------------------------------
  // The refresh

  datatype ExperimentRow = ExperimentRow(activeRunId: Option<string>, status: string)
  datatype RunRow = RunRow(status: string, updatedAt: int)
  datatype StageRow = StageRow(runId: string, stage: string, status: string,
                               totalRequests: nat, completedRequests: nat, failedRequests: nat, updatedAt: int)

  datatype Tables = Tables(experiments: map<string, ExperimentRow>, runs: map<string, RunRow>,
                           stages: seq<StageRow>, requests: seq<RequestRow>)

  /** The first stage row of a run for a stage, or -1. */
  function FindStageRow(stages: seq<StageRow>, runId: string, stage: string): (i: int)
    ensures -1 <= i < |stages|
    ensures i >= 0 ==> stages[i].runId == runId && stages[i].stage == stage
    ensures forall k :: 0 <= k < |stages| && (i == -1 || k < i) ==> !(stages[k].runId == runId && stages[k].stage == stage)
  {
    if |stages| == 0 then -1
    else if stages[0].runId == runId && stages[0].stage == stage then 0
    else
      var i := FindStageRow(stages[1..], runId, stage);
      assert forall k :: 1 <= k < |stages| ==> stages[k] == stages[1..][k - 1];
      if i == -1 then -1 else i + 1
  }

  /** `stages.every((s) => s.status === "complete")` over the run's rows. */
  predicate AllStagesComplete(stages: seq<StageRow>, runId: string)
  {
    forall k :: 0 <= k < |stages| && stages[k].runId == runId ==> stages[k].status == "complete"
  }

  /** The experiment's active run, when the refresh goes ahead: present, truthy, existing, neither complete nor canceled. */
  function ActiveRunOf(db: Tables, experimentId: string): Option<string>
  {
    if experimentId !in db.experiments then None
    else
      var active := db.experiments[experimentId].activeRunId;
      if active.None? || active.value == "" || active.value !in db.runs then None
      else if db.runs[active.value].status == "complete" || db.runs[active.value].status == "canceled" then None
      else active
  }

  /** `refreshRunStageCountsForExperiment` as a function of the tables. */
  function Refresh(db: Tables, experimentId: string, stage: string, now: int): Tables
  {
    var active := ActiveRunOf(db, experimentId);
    if active.None? then db
    else
      var runId := active.value;
      var i := FindStageRow(db.stages, runId, stage);
      if i < 0 then db
      else
        var t := TallyOf(db.requests, experimentId, stage);
        var status := ComputeStageStatus(t.total, t.completed, t.failed);
        var stages := db.stages[i := db.stages[i].(status := StageStatusName(status), totalRequests := t.total,
                                                   completedRequests := t.completed, failedRequests := t.failed, updatedAt := now)];
        if AllStagesComplete(stages, runId) then
          Tables(db.experiments[experimentId := db.experiments[experimentId].(activeRunId := None, status := "complete")],
                 db.runs[runId := db.runs[runId].(status := "complete", updatedAt := now)],
                 stages, db.requests)
        else Tables(db.experiments, db.runs, stages, db.requests)
  }

  /** The refresh does nothing when there is no active run to refresh, or when it is complete or canceled. */
  lemma RefreshSkips(db: Tables, experimentId: string, stage: string, now: int)
    requires ActiveRunOf(db, experimentId).None?
    ensures Refresh(db, experimentId, stage, now) == db
  {
  }

  lemma ActiveRunCases(db: Tables, experimentId: string)
    ensures ActiveRunOf(db, experimentId).Some? <==>
      experimentId in db.experiments && db.experiments[experimentId].activeRunId.Some? &&
      db.experiments[experimentId].activeRunId.value != "" &&
      db.experiments[experimentId].activeRunId.value in db.runs &&
      db.runs[db.experiments[experimentId].activeRunId.value].status !in {"complete", "canceled"}
  {
  }

  /**
   * What the refresh writes: the first stage row of the active run for
   * the stage gets the tally and the status computed from it, with
   * completed and failed each within the total; no other row changes and
   * the requests are untouched.
   */
  lemma RefreshStageRow(db: Tables, experimentId: string, stage: string, now: int)
    requires ActiveRunOf(db, experimentId).Some?
    requires FindStageRow(db.stages, ActiveRunOf(db, experimentId).value, stage) >= 0
    ensures var i := FindStageRow(db.stages, ActiveRunOf(db, experimentId).value, stage);
      var r := Refresh(db, experimentId, stage, now);
      var row := r.stages[i];
      |r.stages| == |db.stages| && r.requests == db.requests &&
      (forall k :: 0 <= k < |db.stages| && k != i ==> r.stages[k] == db.stages[k]) &&
      row.runId == db.stages[i].runId && row.stage == stage && row.updatedAt == now &&
      row.completedRequests <= row.totalRequests && row.failedRequests <= row.totalRequests &&
      row.status == StageStatusName(ComputeStageStatus(row.totalRequests, row.completedRequests, row.failedRequests))
  {
    TallyBounds(db.requests, experimentId, stage);
  }

  /**
   * The run is completed, and the experiment's active run cleared, exactly
   * when after the update every stage row of the run is complete; otherwise
   * runs and experiments are untouched.
   */
  lemma RefreshCompletesRun(db: Tables, experimentId: string, stage: string, now: int)
    requires ActiveRunOf(db, experimentId).Some?
    requires FindStageRow(db.stages, ActiveRunOf(db, experimentId).value, stage) >= 0
    ensures var runId := ActiveRunOf(db, experimentId).value;
      var r := Refresh(db, experimentId, stage, now);
      (AllStagesComplete(r.stages, runId) ==>
        r.runs == db.runs[runId := db.runs[runId].(status := "complete", updatedAt := now)] &&
        r.experiments[experimentId].activeRunId.None? && r.experiments[experimentId].status == "complete") &&
      (!AllStagesComplete(r.stages, runId) ==> r.runs == db.runs && r.experiments == db.experiments)
  {
  }

  /** A run is never completed while one of its stage rows is not complete. */
  lemma RefreshNeverCompletesEarly(db: Tables, experimentId: string, stage: string, now: int, k: int)
    requires ActiveRunOf(db, experimentId).Some?
    requires 0 <= k < |Refresh(db, experimentId, stage, now).stages|
    requires Refresh(db, experimentId, stage, now).stages[k].runId == ActiveRunOf(db, experimentId).value
    requires Refresh(db, experimentId, stage, now).stages[k].status != "complete"
    ensures Refresh(db, experimentId, stage, now).runs == db.runs
    ensures Refresh(db, experimentId, stage, now).experiments == db.experiments
  {
  }

  /** The refresh over in-memory tables. */
  class RunStateStore {
    var experiments: map<string, ExperimentRow>
    var runs: map<string, RunRow>
    var stages: seq<StageRow>
    var requests: seq<RequestRow>

    constructor (experiments0: map<string, ExperimentRow>, runs0: map<string, RunRow>, stages0: seq<StageRow>, requests0: seq<RequestRow>)
      ensures experiments == experiments0 && runs == runs0 && stages == stages0 && requests == requests0
    {
      experiments := experiments0;
      runs := runs0;
      stages := stages0;
      requests := requests0;
    }

    function Snapshot(): Tables
      reads this
    {
      Tables(experiments, runs, stages, requests)
    }

    /** `refreshRunStageCountsForExperiment`, with `Date.now()` given as `now`. */
    method RefreshRunStageCounts(experimentId: string, stage: string, now: int)
      modifies this
      ensures Snapshot() == Refresh(old(Snapshot()), experimentId, stage, now)
    {
      if experimentId !in experiments { return; }
      var active := experiments[experimentId].activeRunId;
      if active.None? || active.value == "" { return; }
      if active.value !in runs { return; }
      var runId := active.value;
      var run := runs[runId];
      if run.status == "complete" || run.status == "canceled" { return; }
      var i := FindStageRow(stages, runId, stage);
      if i < 0 { return; }
      var t := TallyRequests(requests, experimentId, stage);
      var status := ComputeStageStatus(t.total, t.completed, t.failed);
      stages := stages[i := stages[i].(status := StageStatusName(status), totalRequests := t.total,
                                       completedRequests := t.completed, failedRequests := t.failed, updatedAt := now)];
      if forall k :: 0 <= k < |stages| && stages[k].runId == runId ==> stages[k].status == "complete" {
        runs := runs[runId := run.(status := "complete", updatedAt := now)];
        experiments := experiments[experimentId := experiments[experimentId].(activeRunId := None, status := "complete")];
      }
    }
  }
}
