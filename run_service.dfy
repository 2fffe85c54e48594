/**
 * The run pipeline as the database sees it: the run orchestrator's queries
 * and the run service's mutations, run against tables that are updated in
 * place.  Each method is proved to leave the tables as the matching
 * function of `Runs` says; a mutation that throws is rolled back.
 */
module RunService {
  import opened Wrappers
  import opened JsArrays
  import opened Documents
  import opened CustomKeys
  import opened LlmCalls
  import opened Runs
  import opened RunStrategies
  import Windows
  import Providers

  class RunStore {
    const experiments: seq<Experiment>
    var runs: seq<Run>
    var samples: seq<Sample>
    var rubrics: seq<RubricDoc>
    var rubricCritics: seq<RubricCriticDoc>
    var scores: seq<ScoreDoc>
    var scoreCritics: seq<ScoreCriticDoc>
    const evidences: seq<Windows.Evidence>
    const links: seq<EvidenceLink>
    const llm: LlmStore
    const env: RunEnv

    constructor(db: RunDb, llm: LlmStore, env: RunEnv)
      requires llm.Tables() == db.llm
      ensures State() == db && this.llm == llm && this.env == env
    {
      experiments := db.experiments;
      runs := db.runs;
      samples := db.samples;
      rubrics := db.rubrics;
      rubricCritics := db.rubricCritics;
      scores := db.scores;
      scoreCritics := db.scoreCritics;
      evidences := db.evidences;
      links := db.links;
      this.llm := llm;
      this.env := env;
    }

    /** The tables as one value. */
    function State(): RunDb
      reads this, llm
    {
      RunDb(experiments, runs, samples, rubrics, rubricCritics, scores, scoreCritics, evidences, links, llm.Tables())
    }

    /** Puts every table back as it was, as a mutation that throws is rolled back. */
    method Restore(d: RunDb)
      modifies this, llm
      requires d.experiments == experiments && d.evidences == evidences && d.links == links
      ensures State() == d
    {
      runs, samples := d.runs, d.samples;
      rubrics, rubricCritics, scores, scoreCritics := d.rubrics, d.rubricCritics, d.scores, d.scoreCritics;
      llm.Restore(d.llm);
    }

    // -------------------------------------------------------------------
    // RunOrchestrator

    /** `listEvidenceForExperiment`: the experiment's links in creation order, keeping the evidences that exist. */
    method ListEvidenceForExperiment(experimentId: nat) returns (ids: seq<nat>)
      ensures ids == AllEvidence(State(), experimentId)
    {
      ids := [];
      var i := 0;
      while i < |links|
        invariant 0 <= i <= |links|
        invariant ids == EvidenceList(State(), experimentId, i)
      {
        var link := links[i];
        if link.experimentId == experimentId && link.evidenceId < |evidences| {
          ids := ids + [link.evidenceId];
        }
        i := i + 1;
      }
    }

    /**
     * `listPendingTargets`: one pass over the run's samples, skipping those
     * whose stage is not open, whose key has a pending request or no
     * attempts left, or which have no payload.
     */
    method ListPendingTargets(runId: nat, stage: RunStage) returns (r: Result<seq<PendingTarget>>)
      ensures r == ListRunTargetsSpec(State(), runId, stage, env)
    {
      if runId >= |runs| {
        return Failure("Run not found");
      }
      var run := runs[runId];
      if run.experimentId >= |experiments| {
        return Failure("Experiment not found");
      }
      var config := experiments[run.experimentId].config;
      var evidenceList: seq<nat> := [];
      if IsScoreStage(stage) {
        evidenceList := ListEvidenceForExperiment(run.experimentId);
      }
      r := CollectTargets(runId, stage, config, evidenceList);
    }

    /** The loop of `listPendingTargets` over every sample of the table, stopping at the first throw. */
    method CollectTargets(runId: nat, stage: RunStage, config: ExperimentConfig, evidenceList: seq<nat>)
      returns (r: Result<seq<PendingTarget>>)
      requires ListedIn(State(), evidenceList)
      ensures r == RunTargets(State(), |samples|, runId, stage, config, evidenceList, env)
    {
      ghost var db := State();
      var pending: seq<PendingTarget> := [];
      var i := 0;
      while i < |samples|
        invariant 0 <= i <= |samples|
        invariant RunTargets(db, i, runId, stage, config, evidenceList, env) == Success(pending)
      {
        RunTargetsNext(db, i, runId, stage, config, evidenceList, env, pending);
        if samples[i].runId == runId {
          var t := TargetOfSample(i, stage, config, evidenceList);
          if t.Failure? {
            RunTargetsSticks(db, i + 1, |samples|, runId, stage, config, evidenceList, env);
            return Failure(t.error);
          }
          if t.value.Some? {
            pending := pending + [t.value.value];
          }
        }
        i := i + 1;
      }
      return Success(pending);
    }

    /**
     * The body of the target loop for one of the run's samples: skipped
     * when its stage is not open, when a request under its key is pending
     * or its attempts are used up, or when it has no payload.
     */
    method TargetOfSample(sid: nat, stage: RunStage, config: ExperimentConfig, evidenceList: seq<nat>)
      returns (t: Result<Option<PendingTarget>>)
      requires sid < |samples| && ListedIn(State(), evidenceList)
      ensures t == SampleTarget(State(), sid, stage, config, evidenceList, env)
    {
      var sample := samples[sid];
      var key := SampleKey(sid, StageName(stage));
      if !StageOpen(sample, stage) || HasPending(llm.requests, key)
         || KeyAttempts(llm.requests, key) >= env.policy.maxRequestAttempts {
        return Success(None);
      }
      var payload := InputPayload(State(), stage, sample, config, evidenceList);
      if payload.Failure? {
        return Failure(payload.error);
      }
      if payload.value.None? {
        return Success(None);
      }
      return Success(Some(PendingTarget(IdText(sid), env.encode(payload.value.value))));
    }

    /** `enqueueStage`: the targets, then the stage's model, then the requests and their batch or job. */
    method EnqueueStage(runId: nat, stage: RunStage) returns (error: Option<string>)
      modifies llm
      ensures State() == EnqueueRunSpec(old(State()), runId, stage, env).db
      ensures error == ErrorOf(EnqueueRunSpec(old(State()), runId, stage, env))
    {
      var listed := ListPendingTargets(runId, stage);
      if listed.Failure? {
        return Some(listed.error);
      }
      var targets := listed.value;
      if |targets| == 0 {
        return None;
      }
      var model := ModelForStage(State(), runId, stage);
      if model.Failure? {
        return Some(model.error);
      }
      if Providers.ModelById(model.value).Failure? {
        return Some(Windows.UndefinedRead);
      }
      llm.EnqueueStage(targets, model.value, env.prompter(stage), RequestKeyFor(stage), RunKey(runId, StageName(stage)), env.policy);
      return None;
    }

    // -------------------------------------------------------------------
    // maybeAdvanceRunStage

    /** The counting loop of `maybeAdvanceRunStage` over the run's samples. */
    method CountStage(runId: nat, stage: string) returns (t: RunTally)
      ensures t == TallyOf(State(), |samples|, runId, stage, env.policy.maxRequestAttempts)
    {
      t := RunTally(0, 0, 0, false);
      var named := StageNamed(stage);
      var i := 0;
      while i < |samples|
        invariant 0 <= i <= |samples|
        invariant t == TallyOf(State(), i, runId, stage, env.policy.maxRequestAttempts)
      {
        var sample := samples[i];
        if sample.runId == runId {
          var key := SampleKey(i, stage);
          if OutputId(sample, named).Some? {
            t := t.(samples := t.samples + 1, completed := t.completed + 1);
          } else if Blocked(sample, named) {
            t := t.(samples := t.samples + 1, failed := t.failed + 1);
          } else if HasPending(llm.requests, key) || Count(llm.requests, KeyIs(key)) == 0 {
            t := t.(samples := t.samples + 1, hasPending := true);
          } else if KeyAttempts(llm.requests, key) >= env.policy.maxRequestAttempts {
            t := t.(samples := t.samples + 1, failed := t.failed + 1);
          } else {
            t := t.(samples := t.samples + 1, hasPending := true);
          }
        }
        i := i + 1;
      }
    }

    /**
     * `maybeAdvanceRunStage`: count the stage, then fail, complete or move
     * the run; moving enqueues the next stage, and a throw there puts the
     * run back.
     */
    method MaybeAdvanceRunStage(runId: nat, stage: string) returns (error: Option<string>)
      modifies this, llm
      ensures State() == MaybeAdvanceRunSpec(old(State()), runId, stage, env).db
      ensures error == ErrorOf(MaybeAdvanceRunSpec(old(State()), runId, stage, env))
    {
      if runId >= |runs| || Terminal(runs[runId].status) {
        return None;
      }
      var t := CountStage(runId, stage);
      if t.samples == 0 || t.hasPending {
        return None;
      }
      var named := StageNamed(stage);
      if t.completed == 0 && t.failed > 0 {
        if named.None? {
          return Some(StageSchemaError);
        }
        runs := runs[runId := runs[runId].(status := "error", currentStage := named.value)];
        return None;
      }
      var next := NextStageOfText(stage);
      if next.None? {
        if named.None? {
          return Some(StageSchemaError);
        }
        runs := runs[runId := runs[runId].(status := "completed", currentStage := named.value)];
        return None;
      }
      if StageName(runs[runId].currentStage) != stage {
        return None;
      }
      var saved := runs;
      runs := runs[runId := runs[runId].(currentStage := next.value)];
      error := EnqueueStage(runId, next.value);
      if error.Some? {
        runs := saved;
      }
    }

    // -------------------------------------------------------------------
    // applyRequestResult, handleRequestError, requeueRunRequest

    /**
     * The `try` block of `applyRequestResult`: the stage's row is built,
     * inserted, and the sample pointed at it; a throw writes nothing.  A
     * stage text that names no stage records nothing.
     */
    method RecordStage(sid: nat, stage: Option<string>, requestId: nat, output: string) returns (error: Option<string>)
      modifies this
      requires sid < |samples|
      ensures var rec := Runs.RecordStage(old(State()), sid, stage, requestId, output);
        (rec.Failure? ==> error == Some(rec.error) && State() == old(State()))
        && (rec.Success? ==> error.None? && State() == rec.value)
    {
      if stage == Some("rubric_gen") {
        error := RecordRubric(sid, requestId, output);
      } else if stage == Some("rubric_critic") {
        error := RecordRubricCritic(sid, requestId, output);
      } else if stage == Some("score_gen") {
        error := RecordScore(sid, requestId, output);
      } else if stage == Some("score_critic") {
        error := RecordScoreCritic(sid, requestId, output);
      } else {
        error := None;
      }
    }

    method RecordRubric(sid: nat, requestId: nat, output: string) returns (error: Option<string>)
      modifies this
      requires sid < |samples|
      ensures var rec := Runs.RecordRubric(old(State()), sid, requestId, output);
        (rec.Failure? ==> error == Some(rec.error) && State() == old(State()))
        && (rec.Success? ==> error.None? && State() == rec.value)
    {
      ghost var d := State();
      RecordRubricOutcome(d, sid, requestId, output);
      var doc := RubricDocFor(State(), sid, requestId, output);
      if doc.Failure? {
        return Some(doc.error);
      }
      AppendRubric(sid, doc.value);
      return None;
    }

    /** Appends a rubric row and links the sample to it. */
    method AppendRubric(sid: nat, doc: RubricDoc)
      modifies this
      requires sid < |samples|
      ensures State() == old(State()).(rubrics := old(rubrics) + [doc], samples := old(samples)[sid := old(samples)[sid].(rubricId := Some(|old(rubrics)|))])
    {
      samples := samples[sid := samples[sid].(rubricId := Some(|rubrics|))];
      rubrics := rubrics + [doc];
    }

    method RecordRubricCritic(sid: nat, requestId: nat, output: string) returns (error: Option<string>)
      modifies this
      requires sid < |samples|
      ensures var rec := Runs.RecordRubricCritic(old(State()), sid, requestId, output);
        (rec.Failure? ==> error == Some(rec.error) && State() == old(State()))
        && (rec.Success? ==> error.None? && State() == rec.value)
    {
      var doc := RubricCriticDocFor(State(), sid, requestId, output);
      if doc.Failure? {
        return Some(doc.error);
      }
      samples := samples[sid := samples[sid].(rubricCriticId := Some(|rubricCritics|))];
      rubricCritics := rubricCritics + [doc.value];
      return None;
    }

    method RecordScore(sid: nat, requestId: nat, output: string) returns (error: Option<string>)
      modifies this
      requires sid < |samples|
      ensures var rec := Runs.RecordScore(old(State()), sid, requestId, output);
        (rec.Failure? ==> error == Some(rec.error) && State() == old(State()))
        && (rec.Success? ==> error.None? && State() == rec.value)
    {
      var doc := ScoreDocFor(State(), sid, requestId, output);
      if doc.Failure? {
        return Some(doc.error);
      }
      samples := samples[sid := samples[sid].(scoreId := Some(|scores|))];
      scores := scores + [doc.value];
      return None;
    }

    method RecordScoreCritic(sid: nat, requestId: nat, output: string) returns (error: Option<string>)
      modifies this
      requires sid < |samples|
      ensures var rec := Runs.RecordScoreCritic(old(State()), sid, requestId, output);
        (rec.Failure? ==> error == Some(rec.error) && State() == old(State()))
        && (rec.Success? ==> error.None? && State() == rec.value)
    {
      var doc := ScoreCriticDocFor(State(), sid, requestId, output);
      if doc.Failure? {
        return Some(doc.error);
      }
      samples := samples[sid := samples[sid].(scoreCriticId := Some(|scoreCritics|))];
      scoreCritics := scoreCritics + [doc.value];
      return None;
    }

    /**
     * `applyRequestResult`: the stage recorded and the request marked done,
     * or, when recording throws, the request marked as a parse failure;
     * then the stage is re-counted, and a throw there undoes everything.
     */
    method ApplyRequestResult(requestId: nat, customKey: string, output: string,
                              inputTokens: Option<int>, outputTokens: Option<int>) returns (error: Option<string>)
      modifies this, llm
      ensures State() == ApplyRunResultSpec(old(State()), requestId, customKey, output, inputTokens, outputTokens, env).db
      ensures error == ErrorOf(ApplyRunResultSpec(old(State()), requestId, customKey, output, inputTokens, outputTokens, env))
    {
      var parsed := ParseRequestKey(customKey);
      if parsed.Failure? {
        return Some(parsed.error);
      }
      var parts := parsed.value;
      var found := SampleOf(State(), parts.id);
      if found.None? {
        return Some("Sample not found");
      }
      if requestId >= |llm.requests| {
        return Some(Windows.MissingDocument);
      }
      error := ApplyToSample(found.value, parts.stage, requestId, output, inputTokens, outputTokens);
    }

    /** The writes of `applyRequestResult` for a found sample and request, rolled back on a throw. */
    method ApplyToSample(sid: nat, stage: Option<string>, requestId: nat, output: string,
                         inputTokens: Option<int>, outputTokens: Option<int>) returns (error: Option<string>)
      modifies this, llm
      requires sid < |samples| && requestId < |llm.requests|
      ensures State() == Runs.ApplyToSample(old(State()), sid, stage, requestId, output, inputTokens, outputTokens, env).db
      ensures error == ErrorOf(Runs.ApplyToSample(old(State()), sid, stage, requestId, output, inputTokens, outputTokens, env))
    {
      var runId := samples[sid].runId;
      var saved := State();
      RecordAndPatch(sid, stage, requestId, output, inputTokens, outputTokens);
      error := MaybeAdvanceRunStage(runId, PartText(stage));
      if error.Some? {
        Restore(saved);
      }
    }

    /** Records the stage's row and patches the request, or marks the request's parse failure. */
    method RecordAndPatch(sid: nat, stage: Option<string>, requestId: nat, output: string,
                          inputTokens: Option<int>, outputTokens: Option<int>)
      modifies this, llm
      requires sid < |samples| && requestId < |llm.requests|
      ensures State() == Runs.RecordAndPatch(old(State()), sid, stage, requestId, output, inputTokens, outputTokens, env)
    {
      var request := llm.requests[requestId];
      var failure := RecordStage(sid, stage, requestId, output);
      if failure.Some? {
        llm.PutRequest(requestId, MarkParseFailure(request, failure.value, env.policy.maxRequestAttempts));
      } else {
        llm.PutRequest(requestId, WithOutput(request, output, inputTokens, outputTokens));
      }
    }

    /** `handleRequestError`: the key's sample must exist, and its run's stage is re-counted. */
    method HandleRequestError(customKey: string) returns (error: Option<string>)
      modifies this, llm
      ensures State() == HandleRunErrorSpec(old(State()), customKey, env).db
      ensures error == ErrorOf(HandleRunErrorSpec(old(State()), customKey, env))
    {
      var parsed := ParseRequestKey(customKey);
      if parsed.Failure? {
        return Some(parsed.error);
      }
      var found := SampleOf(State(), parsed.value.id);
      if found.None? {
        return Some("Sample not found");
      }
      error := MaybeAdvanceRunStage(samples[found.value].runId, PartText(parsed.value.stage));
    }

    /** `requeueRunRequest`: a new job under the sample's run and stage, and the request moved onto it. */
    method RequeueRunRequest(requestId: nat) returns (error: Option<string>)
      modifies llm
      ensures State() == RequeueRunSpec(old(State()), requestId).db
      ensures error == ErrorOf(RequeueRunSpec(old(State()), requestId))
    {
      if requestId >= |llm.requests| {
        return Some("Request not found");
      }
      var request := llm.requests[requestId];
      var parsed := ParseRequestKey(request.customKey);
      if parsed.Failure? {
        return Some(parsed.error);
      }
      var parts := parsed.value;
      var found := SampleOf(State(), parts.id);
      if found.None? {
        return Some("Sample not found for retry: " + PartText(parts.id));
      }
      var provider := Providers.ProviderForModel(request.model);
      if provider.Failure? {
        return Some(provider.error);
      }
      var jobId := llm.CreateLlmJob(provider.value, request.model, RunKey(samples[found.value].runId, PartText(parts.stage)));
      llm.PutRequest(requestId, request.(jobId := Some(jobId), batchId := None));
      return None;
    }

    // -------------------------------------------------------------------
    // startRunFlow, seedRunSamples, startRunOrchestration, enqueueRunStage

    /**
     * `startRunFlow`: the run inserted at "start", target_count samples
     * inserted with seeds 1, 2, ..., the run set running, and its
     * rubric_gen requests enqueued; a throw undoes it all.
     */
    method StartRunFlow(experimentId: nat, targetCount: int) returns (runId: nat, samplesCreated: nat, error: Option<string>)
      modifies this, llm
      requires targetCount >= 1
      ensures State() == StartRunFlowSpec(old(State()), experimentId, targetCount, env).db
      ensures error == ErrorOf(StartRunFlowSpec(old(State()), experimentId, targetCount, env))
      ensures error.None? ==> runId == |old(runs)| && samplesCreated == targetCount
    {
      if experimentId >= |experiments| {
        return 0, 0, Some("Experiment not found");
      }
      var savedRuns, savedSamples := runs, samples;
      runId, samplesCreated := InsertRun(experimentId, targetCount);
      error := EnqueueStage(runId, RubricGen);
      if error.Some? {
        runs, samples := savedRuns, savedSamples;
      }
    }

    /** The inserts of `startRunFlow`: the run at "start", its samples, then the patch to "running". */
    method InsertRun(experimentId: nat, targetCount: int) returns (runId: nat, samplesCreated: nat)
      modifies this
      requires experimentId < |experiments| && targetCount >= 1
      ensures runId == |old(runs)| && samplesCreated == targetCount
      ensures State() == old(State()).(runs := old(runs) + [Run(experimentId, targetCount, "running", RubricGen)],
                                       samples := old(samples) + FreshSamples(runId, experimentId, experiments[experimentId].scoringModel, 0, targetCount))
    {
      var experiment := experiments[experimentId];
      ghost var savedRuns := runs;
      runId := |runs|;
      runs := runs + [Run(experimentId, targetCount, "start", RubricGen)];
      samplesCreated := InsertSamples(runId, experimentId, experiment.scoringModel, 0, targetCount);
      runs := runs[runId := runs[runId].(status := "running", currentStage := RubricGen)];
      assert runs == savedRuns + [Run(experimentId, targetCount, "running", RubricGen)];
    }

    /** The insertion loop of both seeders: seeds first + 1 up to target, one row each; the count inserted is returned. */
    method InsertSamples(runId: nat, experimentId: nat, model: string, first: nat, target: int) returns (created: nat)
      modifies this
      requires first < target
      ensures created == target - first
      ensures State() == old(State()).(samples := old(samples) + FreshSamples(runId, experimentId, model, first, created))
    {
      created := 0;
      var i := first;
      while i < target
        invariant first <= i <= target
        invariant created == i - first
        invariant State() == old(State()).(samples := old(samples) + FreshSamples(runId, experimentId, model, first, created))
      {
        FreshSamplesSnoc(runId, experimentId, model, first, created);
        samples := samples + [NewSample(runId, experimentId, model, i + 1)];
        created := created + 1;
        i := i + 1;
      }
    }

    /** The `by_run` query of `seedRunSamples`: how many samples the run has. */
    method CountRunSamples(runId: nat) returns (n: nat)
      ensures n == |SeedsOf(samples, runId)|
    {
      n := 0;
      var i := 0;
      while i < |samples|
        invariant 0 <= i <= |samples|
        invariant n == |SeedsOf(samples[..i], runId)|
      {
        assert samples[..i + 1][..i] == samples[..i];
        if samples[i].runId == runId {
          n := n + 1;
        }
        i := i + 1;
      }
      assert samples[..|samples|] == samples;
    }

    /** `seedRunSamples`: samples inserted from seed existing + 1 up to the target count; the number inserted is returned. */
    method SeedRunSamples(runId: nat) returns (created: nat, error: Option<string>)
      modifies this
      ensures SeedRunSamplesSpec(old(State()), runId).Failure? ==>
        error == Some(SeedRunSamplesSpec(old(State()), runId).error) && State() == old(State())
      ensures SeedRunSamplesSpec(old(State()), runId).Success? ==>
        error.None? && State() == SeedRunSamplesSpec(old(State()), runId).value.db
        && created == SeedRunSamplesSpec(old(State()), runId).value.created
    {
      if runId >= |runs| {
        return 0, Some("Run not found");
      }
      var run := runs[runId];
      if run.experimentId >= |experiments| {
        return 0, Some("Experiment not found");
      }
      var model := experiments[run.experimentId].scoringModel;
      var existing := CountRunSamples(runId);
      if existing >= run.targetCount {
        return 0, None;
      }
      created := InsertSamples(runId, run.experimentId, model, existing, run.targetCount);
      return created, None;
    }

    /** `startRunOrchestration`: a finished run is left alone; any other is set running at rubric_gen and enqueued. */
    method StartRunOrchestration(runId: nat) returns (error: Option<string>)
      modifies this, llm
      ensures State() == StartRunOrchestrationSpec(old(State()), runId, env).db
      ensures error == ErrorOf(StartRunOrchestrationSpec(old(State()), runId, env))
    {
      if runId >= |runs| {
        return Some("Run not found");
      }
      if Terminal(runs[runId].status) {
        return None;
      }
      var saved := runs;
      runs := runs[runId := runs[runId].(status := "running", currentStage := RubricGen)];
      error := EnqueueStage(runId, RubricGen);
      if error.Some? {
        runs := saved;
      }
    }

    /** `enqueueRunStage`. */
    method EnqueueRunStage(runId: nat, stage: RunStage) returns (error: Option<string>)
      modifies llm
      ensures State() == EnqueueRunSpec(old(State()), runId, stage, env).db
      ensures error == ErrorOf(EnqueueRunSpec(old(State()), runId, stage, env))
    {
      error := EnqueueStage(runId, stage);
    }
  }
}
