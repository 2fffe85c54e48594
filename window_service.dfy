/**
 * The window pipeline as the database sees it: the window orchestrator's
 * queries and the window service's mutations, run against tables that
 * are updated in place.  Each method is proved to leave the tables as the
 * matching function of `Windows` says; a mutation that throws is rolled
 * back, and the batch and job runners, which are actions, keep what each
 * committed mutation wrote.
 */
module WindowService {
  import opened Wrappers
  import opened CustomKeys
  import opened LlmCalls
  import opened Windows
  import Providers

  class WindowStore {
    var windows: seq<Window>
    var evidences: seq<Evidence>
    const llm: LlmStore
    const policy: EnginePolicy
    const prompter: Prompter

    constructor(windows: seq<Window>, evidences: seq<Evidence>, llm: LlmStore, policy: EnginePolicy, prompter: Prompter)
      ensures this.windows == windows && this.evidences == evidences
      ensures this.llm == llm && this.policy == policy && this.prompter == prompter
    {
      this.windows := windows;
      this.evidences := evidences;
      this.llm := llm;
      this.policy := policy;
      this.prompter := prompter;
    }

    /** The tables as one value. */
    function State(): WindowDb
      reads this, llm
    {
      WindowDb(windows, evidences, llm.Tables())
    }

    // -------------------------------------------------------------------
    // WindowOrchestrator

    /** `listPendingTargets`: one pass over the evidences, keeping the eligible ones in table order. */
    method ListPendingTargets(windowId: nat, stage: SemanticLevel) returns (r: Result<seq<PendingTarget>>)
      ensures r == ListPendingTargetsSpec(State(), windowId, stage, policy.maxRequestAttempts)
    {
      var config := StageConfigOf(stage);
      if config.Failure? {
        return Failure(config.error);
      }
      var cfg := config.value;
      var pending: seq<PendingTarget> := [];
      var i := 0;
      while i < |evidences|
        invariant 0 <= i <= |evidences|
        invariant pending == PendingTargets(State(), i, windowId, stage, cfg, policy.maxRequestAttempts)
      {
        var evidence := evidences[i];
        if Eligible(evidence, i, llm.requests, windowId, stage, cfg, policy.maxRequestAttempts) {
          pending := pending + [TargetOf(evidence, i, cfg)];
        }
        i := i + 1;
      }
      return Success(pending);
    }

    /** `enqueueStage`: the targets, then the window's model, then the requests and their batch or job. */
    method EnqueueStage(windowId: nat, stage: SemanticLevel) returns (error: Option<string>)
      modifies llm
      ensures State() == EnqueueSpec(old(State()), windowId, stage, policy, prompter).db
      ensures error == ErrorOf(EnqueueSpec(old(State()), windowId, stage, policy, prompter))
    {
      var listed := ListPendingTargets(windowId, stage);
      if listed.Failure? {
        return Some(listed.error);
      }
      var targets := listed.value;
      if |targets| == 0 {
        return None;
      }
      if windowId >= |windows| {
        return Some("Window not found");
      }
      var model := windows[windowId].model;
      if Providers.ModelById(model).Failure? {
        return Some(UndefinedRead);
      }
      llm.EnqueueStage(targets, model, prompter(stage), RequestKeyFor(stage), WindowKey(windowId, LevelName(stage)), policy);
      return None;
    }

    /** `recordSuccess`: the output and the request id into the stage's fields, then the request's status and output. */
    method RecordSuccess(customKey: string, requestId: nat, output: string) returns (error: Option<string>)
      modifies this, llm
      ensures State() == RecordSuccessSpec(old(State()), customKey, requestId, output).db
      ensures error == ErrorOf(RecordSuccessSpec(old(State()), customKey, requestId, output))
    {
      var parsed := ParseRequestKey(customKey);
      if parsed.Failure? {
        return Some(parsed.error);
      }
      var parts := parsed.value;
      if parts.stage == Some("l0_raw") {
        return Some(L0RawError);
      }
      var config := StageConfigNamed(parts.stage);
      if config.Failure? {
        return Some(config.error);
      }
      var found := LookupEvidence(State(), parts.id);
      if found.None? || requestId >= |llm.requests| {
        return Some(MissingDocument);
      }
      var eid := found.value;
      evidences := evidences[eid := WithResult(evidences[eid], config.value, output, requestId)];
      var r := llm.requests[requestId];
      llm.PutRequest(requestId, r.(status := Succeeded, output := Some(output)));
      return None;
    }

    // -------------------------------------------------------------------
    // window_service.ts

    /** Whether the window has any evidence (the `by_window_id` query is non-empty). */
    method HasWindowEvidence(windowId: nat) returns (b: bool)
      ensures b == HasEvidence(State(), |evidences|, windowId)
    {
      var i := 0;
      while i < |evidences|
        invariant 0 <= i <= |evidences|
        invariant !HasEvidence(State(), i, windowId)
      {
        if evidences[i].windowId == windowId {
          return true;
        }
        i := i + 1;
      }
      return false;
    }

    /** The counting loop of `maybeAdvanceWindowStage` over the window's evidences. */
    method CountStage(windowId: nat, stage: SemanticLevel, cfg: StageConfig) returns (t: Tally)
      ensures t == TallyOf(State(), |evidences|, windowId, stage, cfg, policy.maxRequestAttempts)
    {
      ghost var db := State();
      t := Tally(0, 0, 0, false);
      var i := 0;
      while i < |evidences|
        invariant 0 <= i <= |evidences| == |db.evidences|
        invariant db.evidences == evidences && db.llm.requests == llm.requests
        invariant t == TallyOf(db, i, windowId, stage, cfg, policy.maxRequestAttempts)
      {
        t := CountOne(db, i, t, evidences[i], llm.requests, windowId, stage, cfg);
        i := i + 1;
      }
    }

    /** One turn of the counting loop: an evidence of the window adds itself to its progress's counter. */
    method CountOne(ghost db: WindowDb, i: nat, t: Tally, evidence: Evidence, requests: seq<LlmRequest>,
                    windowId: nat, stage: SemanticLevel, cfg: StageConfig) returns (t': Tally)
      requires i < |db.evidences| && evidence == db.evidences[i] && requests == db.llm.requests
      requires t == TallyOf(db, i, windowId, stage, cfg, policy.maxRequestAttempts)
      ensures t' == TallyOf(db, i + 1, windowId, stage, cfg, policy.maxRequestAttempts)
    {
      t' := t;
      if evidence.windowId == windowId {
        match ProgressOf(evidence, i, requests, stage, cfg, policy.maxRequestAttempts) {
          case Finished =>
            t' := t.(evidences := t.evidences + 1, completed := t.completed + 1);
          case Stuck =>
            t' := t.(evidences := t.evidences + 1, failed := t.failed + 1);
          case Waiting =>
            t' := t.(evidences := t.evidences + 1, hasPending := true);
        }
      }
    }

    /**
     * `maybeAdvanceWindowStage`: count the stage, then fail, complete or
     * move the window; moving enqueues the next stage, and a throw there
     * puts the window back.
     */
    method MaybeAdvanceWindowStage(windowId: nat, stage: Option<string>) returns (error: Option<string>)
      modifies this, llm
      ensures State() == MaybeAdvanceSpec(old(State()), windowId, stage, policy, prompter).db
      ensures error == ErrorOf(MaybeAdvanceSpec(old(State()), windowId, stage, policy, prompter))
    {
      if stage == Some("l0_raw") || windowId >= |windows| || Terminal(windows[windowId].status) {
        return None;
      }
      if stage.None? || LevelNamed(stage.value).None? {
        var any := HasWindowEvidence(windowId);
        return if any then Some(UndefinedRead) else None;
      }
      var level := LevelNamed(stage.value).value;
      var cfg := StageConfigOf(level).value;
      var t := CountStage(windowId, level, cfg);
      if t.evidences == 0 || t.hasPending {
        return None;
      }
      if t.completed == 0 && t.failed > 0 {
        windows := windows[windowId := windows[windowId].(status := "error", currentStage := level)];
        return None;
      }
      var next := NextStage(level);
      if next.None? {
        windows := windows[windowId := windows[windowId].(status := "completed", currentStage := level)];
        return None;
      }
      if windows[windowId].currentStage != level {
        return None;
      }
      var saved := windows;
      windows := windows[windowId := windows[windowId].(currentStage := next.value)];
      error := EnqueueStage(windowId, next.value);
      if error.Some? {
        windows := saved;
      }
    }

    /** `startWindowOrchestration`. */
    method StartWindowOrchestration(windowId: nat) returns (error: Option<string>)
      modifies this, llm
      ensures State() == StartSpec(old(State()), windowId, policy, prompter).db
      ensures error == ErrorOf(StartSpec(old(State()), windowId, policy, prompter))
    {
      if windowId >= |windows| {
        return Some("Window not found");
      }
      if Terminal(windows[windowId].status) {
        return None;
      }
      var saved := windows;
      windows := windows[windowId := windows[windowId].(status := "running", currentStage := L1Cleaned)];
      error := EnqueueStage(windowId, L1Cleaned);
      if error.Some? {
        windows := saved;
      }
    }

    /** `enqueueWindowStage`. */
    method EnqueueWindowStage(windowId: nat, stage: SemanticLevel) returns (error: Option<string>)
      modifies llm
      ensures State() == EnqueueSpec(old(State()), windowId, stage, policy, prompter).db
      ensures error == ErrorOf(EnqueueSpec(old(State()), windowId, stage, policy, prompter))
    {
      error := EnqueueStage(windowId, stage);
    }

    /**
     * `applyRequestResult`: the output into the evidence, the request
     * marked done, then the stage re-counted; a throw undoes both patches.
     */
    method ApplyRequestResult(requestId: nat, customKey: string, output: string,
                              inputTokens: Option<int>, outputTokens: Option<int>) returns (error: Option<string>)
      modifies this, llm
      ensures State() == ApplyResultSpec(old(State()), requestId, customKey, output, inputTokens, outputTokens, policy, prompter).db
      ensures error == ErrorOf(ApplyResultSpec(old(State()), requestId, customKey, output, inputTokens, outputTokens, policy, prompter))
    {
      var parsed := ParseRequestKey(customKey);
      if parsed.Failure? {
        return Some(parsed.error);
      }
      var parts := parsed.value;
      if parts.stage == Some("l0_raw") {
        return Some(L0RawError);
      }
      var found := LookupEvidence(State(), parts.id);
      if found.None? {
        return Some("Evidence not found");
      }
      var config := StageConfigNamed(parts.stage);
      if config.Failure? {
        return Some(config.error);
      }
      if requestId >= |llm.requests| {
        return Some(MissingDocument);
      }
      error := RecordResult(found.value, config.value, requestId, parts.stage, output, inputTokens, outputTokens);
    }

    /** The tail of `applyRequestResult` once the key, the evidence, the stage and the request
        are found: record the output, mark the request done, re-count the stage, and roll
        everything back when the re-count throws. */
    method RecordResult(eid: nat, cfg: StageConfig, requestId: nat, stage: Option<string>, output: string,
                        inputTokens: Option<int>, outputTokens: Option<int>) returns (error: Option<string>)
      requires eid < |evidences| && requestId < |llm.requests|
      modifies this, llm
      ensures var db := old(State());
              var e := db.evidences[eid];
              var recorded := db.(evidences := db.evidences[eid := WithResult(e, cfg, output, requestId)],
                                  llm := db.llm.(requests := db.llm.requests[requestId := WithOutput(db.llm.requests[requestId], output, inputTokens, outputTokens)]));
              var o := MaybeAdvanceSpec(recorded, e.windowId, stage, policy, prompter);
              State() == (if o.Threw? then db else o.db) && error == ErrorOf(o)
    {
      var savedEvidences := evidences;
      var savedTables := llm.Tables();
      var evidence := evidences[eid];
      evidences := evidences[eid := WithResult(evidence, cfg, output, requestId)];
      llm.PutRequest(requestId, WithOutput(llm.requests[requestId], output, inputTokens, outputTokens));
      error := MaybeAdvanceWindowStage(evidence.windowId, stage);
      if error.Some? {
        evidences := savedEvidences;
        llm.Restore(savedTables);
      }
    }

    /** `handleRequestError`: the key's evidence must exist, and its window's stage is re-counted. */
    method HandleRequestError(customKey: string) returns (error: Option<string>)
      modifies this, llm
      ensures State() == HandleErrorSpec(old(State()), customKey, policy, prompter).db
      ensures error == ErrorOf(HandleErrorSpec(old(State()), customKey, policy, prompter))
    {
      var parsed := ParseRequestKey(customKey);
      if parsed.Failure? {
        return Some(parsed.error);
      }
      var found := LookupEvidence(State(), parsed.value.id);
      if found.None? {
        return Some("Evidence not found");
      }
      error := MaybeAdvanceWindowStage(evidences[found.value].windowId, parsed.value.stage);
    }

    /**
     * The evidence retry: `requeueRequest` through the registry when
     * `viaRegistry`, `requeueWindowRequest` otherwise.
     */
    method RequeueRequest(requestId: nat, viaRegistry: bool) returns (error: Option<string>)
      modifies llm
      ensures State() == RequeueSpec(old(State()), requestId, viaRegistry).db
      ensures error == ErrorOf(RequeueSpec(old(State()), requestId, viaRegistry))
    {
      if requestId >= |llm.requests| {
        return Some("Request not found");
      }
      var r := llm.requests[requestId];
      if viaRegistry && ResolveRequeueHandler(r.customKey).None? {
        return Some("Unsupported target type for retry: " + r.customKey);
      }
      var parsed := ParseRequestKey(r.customKey);
      if parsed.Failure? {
        return Some(parsed.error);
      }
      var parts := parsed.value;
      var found := LookupEvidence(State(), parts.id);
      if found.None? {
        return Some("Evidence not found for retry: " + PartText(parts.id));
      }
      var provider := if viaRegistry then Success("openai") else Providers.ProviderForModel(r.model);
      if provider.Failure? {
        return Some(provider.error);
      }
      var jobId := llm.CreateLlmJob(provider.value, r.model, WindowKey(evidences[found.value].windowId, PartText(parts.stage)));
      llm.PutRequest(requestId, r.(jobId := Some(jobId), batchId := None));
      return None;
    }

    // -------------------------------------------------------------------
    // llm_batch_service.ts and llm_job_service.ts

    /** One result row whose request was found; the token totals come in and go out. */
    method ApplyResultForRequest(req: RequestDoc, row: BatchResult, nextAttemptAt: int, totalInput: int, totalOutput: int)
      returns (newInput: int, newOutput: int, error: Option<string>)
      modifies this, llm
      requires req.id < |llm.requests|
      ensures BatchRun(State(), newInput, newOutput, error)
           == ResultForRequest(BatchRun(old(State()), totalInput, totalOutput, None), req, row, nextAttemptAt, policy, prompter)
    {
      if row.completed && row.output.Some? {
        var out := row.output.value;
        newInput := totalInput + out.inputTokens.GetOr(0);
        newOutput := totalOutput + out.outputTokens.GetOr(0);
        error := ApplyRequestResult(req.id, req.row.customKey, out.assistantOutput, out.inputTokens, out.outputTokens);
        return;
      }
      newInput, newOutput := totalInput, totalOutput;
      var attempts := req.row.attempts + 1;
      var message := row.error.GetOr("provider_error");
      var current := llm.requests[req.id];
      if attempts < policy.maxRequestAttempts {
        llm.PutRequest(req.id, current.(status := Pending, attempts := attempts, lastError := Some(message),
                                        nextAttemptAt := Some(nextAttemptAt)));
        error := RequeueRequest(req.id, true);
      } else {
        llm.PutRequest(req.id, current.(status := Errored, attempts := attempts, lastError := Some(message)));
        error := None;
      }
    }

    /** `applyBatchResults`: the rows in order, stopping at the first throw. */
    method ApplyBatchResults(docs: seq<RequestDoc>, results: seq<BatchResult>, nextAttemptAt: int)
      returns (totalInput: int, totalOutput: int, error: Option<string>)
      modifies this, llm
      requires DocsIn(docs, State())
      ensures BatchRun(State(), totalInput, totalOutput, error)
           == ApplyBatchResultsSpec(old(State()), docs, results, nextAttemptAt, policy, prompter)
    {
      totalInput, totalOutput, error := 0, 0, None;
      var i := 0;
      while i < |results|
        invariant 0 <= i <= |results|
        invariant |llm.requests| >= |old(llm.requests)|
        invariant BatchRun(State(), totalInput, totalOutput, error)
               == ApplyBatchResultsSpec(old(State()), docs, results[..i], nextAttemptAt, policy, prompter)
        invariant error.None?
      {
        var row := results[i];
        assert results[..i + 1][..i] == results[..i];
        var k := LastWithKey(docs, row.customKey);
        if k.Some? {
          totalInput, totalOutput, error := ApplyResultForRequest(docs[k.value], row, nextAttemptAt, totalInput, totalOutput);
        }
        i := i + 1;
        if error.Some? {
          BatchErrorSticks(old(State()), docs, results, i, nextAttemptAt, policy, prompter);
          return;
        }
      }
      assert results[..|results|] == results;
    }

    /** One request of `runJobRequests`. */
    method RunJobRequest(doc: RequestDoc, call: JobCall, nextAttemptAt: int, anyPending: bool, anyErrors: bool)
      returns (pending: bool, errors: bool)
      modifies this, llm
      requires doc.id < |llm.requests|
      ensures JobRun(State(), pending, errors)
           == JobStep(JobRun(old(State()), anyPending, anyErrors), doc, call, nextAttemptAt, policy, prompter)
    {
      if doc.row.status != Pending {
        return anyPending, anyErrors;
      }
      if !call.due {
        return true, anyErrors;
      }
      if call.limit.RetryAfter? {
        llm.PutRequest(doc.id, llm.requests[doc.id].(nextAttemptAt := Some(call.limit.at)));
        return true, anyErrors;
      }
      var failure: Option<string>;
      match call.response {
        case Failure(m) =>
          failure := Some(m);
        case Success(out) =>
          failure := ApplyRequestResult(doc.id, doc.row.customKey, out.assistantOutput, out.inputTokens, out.outputTokens);
      }
      if failure.None? {
        return anyPending, anyErrors;
      }
      var didRetry := llm.ApplyRequestError(doc.id, failure.value, doc.row.attempts + 1, nextAttemptAt, policy.maxRequestAttempts);
      if didRetry {
        return true, anyErrors;
      }
      return anyPending, true;
    }

    /** `runJobRequests`: every loaded request in order, with the job's two flags. */
    method RunJobRequests(docs: seq<RequestDoc>, calls: seq<JobCall>, nextAttemptAt: int)
      returns (anyPending: bool, anyErrors: bool)
      modifies this, llm
      requires |calls| == |docs| && DocsIn(docs, State())
      ensures JobRun(State(), anyPending, anyErrors) == RunJobsSpec(old(State()), docs, calls, |docs|, nextAttemptAt, policy, prompter)
    {
      anyPending, anyErrors := false, false;
      var i := 0;
      while i < |docs|
        invariant 0 <= i <= |docs|
        invariant |llm.requests| >= |old(llm.requests)|
        invariant JobRun(State(), anyPending, anyErrors) == RunJobsSpec(old(State()), docs, calls, i, nextAttemptAt, policy, prompter)
      {
        anyPending, anyErrors := RunJobRequest(docs[i], calls[i], nextAttemptAt, anyPending, anyErrors);
        i := i + 1;
      }
    }

    /**
     * One request of the corrected `runJobRequests`: a request failed for
     * good is also reported with `handleRequestError`, whose own throw is
     * rolled back and not surfaced.
     */
    method RunJobRequestNotifying(doc: RequestDoc, call: JobCall, nextAttemptAt: int, anyPending: bool, anyErrors: bool)
      returns (pending: bool, errors: bool)
      modifies this, llm
      requires doc.id < |llm.requests|
      ensures JobRun(State(), pending, errors)
           == JobStepNotifying(JobRun(old(State()), anyPending, anyErrors), doc, call, nextAttemptAt, policy, prompter)
    {
      var s := JobRun(State(), anyPending, anyErrors);
      pending, errors := RunJobRequest(doc, call, nextAttemptAt, anyPending, anyErrors);
      if TerminalFailure(s, doc, call, policy) {
        TerminalFailureStep(s, doc, call, nextAttemptAt, policy, prompter);
        var ignored := HandleRequestError(doc.row.customKey);
      }
    }

    /** The corrected `runJobRequests`, which the window's stage hears about from each request it fails for good. */
    method RunJobRequestsNotifying(docs: seq<RequestDoc>, calls: seq<JobCall>, nextAttemptAt: int)
      returns (anyPending: bool, anyErrors: bool)
      modifies this, llm
      requires |calls| == |docs| && DocsIn(docs, State())
      ensures JobRun(State(), anyPending, anyErrors) == RunJobsNotifying(old(State()), docs, calls, |docs|, nextAttemptAt, policy, prompter)
    {
      anyPending, anyErrors := false, false;
      var i := 0;
      while i < |docs|
        invariant 0 <= i <= |docs|
        invariant |llm.requests| >= |old(llm.requests)|
        invariant JobRun(State(), anyPending, anyErrors) == RunJobsNotifying(old(State()), docs, calls, i, nextAttemptAt, policy, prompter)
      {
        anyPending, anyErrors := RunJobRequestNotifying(docs[i], calls[i], nextAttemptAt, anyPending, anyErrors);
        i := i + 1;
      }
    }
  }
}
