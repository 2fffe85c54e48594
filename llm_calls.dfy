/**
 * The LLM call tables of the window and run pipelines (`llm_requests`,
 * `llm_batches`, `llm_jobs`), the engine's run policy, and the routing of
 * a stage's new requests into one batch or one job
 * (`domain/orchestrator/base.ts`).  The tables live in an `LlmStore`
 * whose methods insert and patch rows as the repository mutations do.
 */
module LlmCalls {
  import opened Wrappers
  import opened JsArrays
  import Providers

  /** A request's status: "pending", "success" or "error". */
  datatype RequestStatus = Pending | Succeeded | Errored

  /** A batch's or job's status: "queued", "running", "success" or "error". */
  datatype ProcessStatus = Queued | Running | Completed | Failed

  datatype LlmRequest = LlmRequest(
    model: string,
    systemPrompt: string,
    userPrompt: string,
    customKey: string,
    attempts: nat,
    status: RequestStatus,
    batchId: Option<nat>,
    jobId: Option<nat>,
    lastError: Option<string>,
    nextAttemptAt: Option<int>,
    output: Option<string>,
    inputTokens: Option<int>,
    outputTokens: Option<int>)

  datatype LlmBatch = LlmBatch(
    provider: string,
    model: string,
    customKey: string,
    status: ProcessStatus,
    batchRef: Option<string>,
    attempts: nat,
    lastError: Option<string>,
    nextPollAt: Option<int>)

  datatype LlmJob = LlmJob(
    provider: string,
    model: string,
    customKey: string,
    status: ProcessStatus,
    nextRunAt: Option<int>)

  /** The three tables; a row's id is its position. */
  datatype LlmTables = LlmTables(requests: seq<LlmRequest>, batches: seq<LlmBatch>, jobs: seq<LlmJob>)

  // ---------------------------------------------------------------------
  // The engine's run policy (`platform/run_policy.ts`)

  datatype EnginePolicy = EnginePolicy(
    pollIntervalMs: int,
    maxBatchSize: int,
    minBatchSize: int,
    jobFallbackCount: int,
    maxTokens: int,
    maxBatchRetries: int,
    maxRequestAttempts: int,
    retryBackoffMs: int)

  /** The bounds the schema puts on each field. */
  predicate ValidEnginePolicy(p: EnginePolicy)
  {
    p.pollIntervalMs >= 500 && p.maxBatchSize >= 1 && p.minBatchSize >= 1 && p.jobFallbackCount >= 0
    && p.maxTokens >= 1 && p.maxBatchRetries >= 0 && p.maxRequestAttempts >= 1 && p.retryBackoffMs >= 0
  }

  // ---------------------------------------------------------------------
  // Requests sharing a custom key

  function KeyIs(key: string): LlmRequest -> bool
  {
    (r: LlmRequest) => r.customKey == key
  }

  function PendingKeyIs(key: string): LlmRequest -> bool
  {
    (r: LlmRequest) => r.customKey == key && r.status == Pending
  }

  /** `requests.reduce((max, req) => Math.max(max, req.attempts ?? 0), 0)`. */
  function MaxAttempts(rs: seq<LlmRequest>): (m: nat)
    ensures forall k :: 0 <= k < |rs| ==> rs[k].attempts <= m
    ensures m == 0 || exists k :: 0 <= k < |rs| && rs[k].attempts == m
  {
    if |rs| == 0 then 0
    else
      var m := MaxAttempts(rs[..|rs| - 1]);
      assert forall k :: 0 <= k < |rs| - 1 ==> rs[..|rs| - 1][k] == rs[k];
      if rs[|rs| - 1].attempts > m then rs[|rs| - 1].attempts else m
  }

  /** Some request under the key is still pending (the `by_custom_key_status` query is non-empty). */
  predicate HasPending(rs: seq<LlmRequest>, key: string)
  {
    Count(rs, PendingKeyIs(key)) > 0
  }

  /** The largest attempt count among the requests under the key. */
  function KeyAttempts(rs: seq<LlmRequest>, key: string): nat
  {
    MaxAttempts(Filter(rs, KeyIs(key)))
  }

  /** The attempt bound is reached exactly when one request under the key has used it up. */
  lemma KeyAttemptsReached(rs: seq<LlmRequest>, key: string, limit: nat)
    requires limit > 0
    ensures KeyAttempts(rs, key) >= limit <==>
      exists k :: 0 <= k < |rs| && rs[k].customKey == key && rs[k].attempts >= limit
  {
    var f := Filter(rs, KeyIs(key));
    if KeyAttempts(rs, key) >= limit {
      var j :| 0 <= j < |f| && f[j].attempts == KeyAttempts(rs, key);
      assert f[j] in rs && KeyIs(key)(f[j]);
      var k :| 0 <= k < |rs| && rs[k] == f[j];
    }
    if exists k :: 0 <= k < |rs| && rs[k].customKey == key && rs[k].attempts >= limit {
      var k :| 0 <= k < |rs| && rs[k].customKey == key && rs[k].attempts >= limit;
      assert KeyIs(key)(rs[k]);
      assert rs[k] in f;
    }
  }

  /** A pending request under the key exists exactly when the pending query returns one. */
  lemma HasPendingWitness(rs: seq<LlmRequest>, key: string)
    ensures HasPending(rs, key) <==> exists k :: 0 <= k < |rs| && rs[k].customKey == key && rs[k].status == Pending
  {
    CountPositive(rs, PendingKeyIs(key));
    if exists k :: 0 <= k < |rs| && rs[k].customKey == key && rs[k].status == Pending {
      var k :| 0 <= k < |rs| && rs[k].customKey == key && rs[k].status == Pending;
      assert PendingKeyIs(key)(rs[k]);
    }
  }

  // ---------------------------------------------------------------------
  // decideRoute

  datatype Route = BatchRoute | JobRoute

  /**
   * `decideRoute`: a job for a model that cannot be batched, for fewer
   * requests than `min_batch_size`, or for no more than `job_fallback_count`.
   */
  function DecideRoute(model: string, count: int, policy: EnginePolicy): (r: Route)
    requires Providers.ModelById(model).Success?
  {
    if Providers.IsBatchableModel(model) == Success(false) then JobRoute
    else if count < policy.minBatchSize then JobRoute
    else if count <= policy.jobFallbackCount then JobRoute
    else BatchRoute
  }

  /** The smallest count a batchable model is batched at. */
  function BatchThreshold(policy: EnginePolicy): (n: int)
    ensures n >= policy.minBatchSize && n > policy.jobFallbackCount
  {
    if policy.minBatchSize > policy.jobFallbackCount then policy.minBatchSize else policy.jobFallbackCount + 1
  }

  /** A batch is chosen exactly for a batchable model and at least the threshold's requests. */
  lemma DecideRouteThreshold(model: string, count: int, policy: EnginePolicy)
    requires Providers.ModelById(model).Success?
    ensures DecideRoute(model, count, policy) == BatchRoute <==>
      model != "gpt-5.2-chat" && count >= BatchThreshold(policy)
  {
    Providers.OnlyChatIsUnbatchable(model);
  }

  /** More requests never turn a batch back into a job. */
  lemma DecideRouteMonotone(model: string, count: int, more: int, policy: EnginePolicy)
    requires Providers.ModelById(model).Success?
    requires count <= more && DecideRoute(model, count, policy) == BatchRoute
    ensures DecideRoute(model, more, policy) == BatchRoute
  {
  }

  /** A batch holds at least `min_batch_size` requests, and more than `job_fallback_count`. */
  lemma DecideRouteBatchSize(model: string, count: int, policy: EnginePolicy)
    requires Providers.ModelById(model).Success? && ValidEnginePolicy(policy)
    requires DecideRoute(model, count, policy) == BatchRoute
    ensures count >= policy.minBatchSize >= 1 && count > policy.jobFallbackCount
  {
  }

  // ---------------------------------------------------------------------
  // enqueueStage

  datatype PendingTarget = PendingTarget(targetId: string, input: string)
  datatype Prompts = Prompts(system: string, user: string)

  /** The row `createLlmRequest` inserts: pending, no attempts, assigned to nothing yet. */
  function NewRequest(model: string, p: Prompts, key: string): LlmRequest
  {
    LlmRequest(model, p.system, p.user, key, 0, Pending, None, None, None, None, None, None, None)
  }

  function NewBatch(provider: string, model: string, key: string): LlmBatch
  {
    LlmBatch(provider, model, key, Queued, None, 0, None, None)
  }

  function NewJob(provider: string, model: string, key: string): LlmJob
  {
    LlmJob(provider, model, key, Queued, None)
  }

  /** The requests created for the targets, in order, each assigned as given. */
  function Created(targets: seq<PendingTarget>, model: string, prompts: string -> Prompts,
                   requestKey: string -> string, batchId: Option<nat>, jobId: Option<nat>): (rs: seq<LlmRequest>)
    ensures |rs| == |targets|
  {
    seq(|targets|, k requires 0 <= k < |targets| =>
      NewRequest(model, prompts(targets[k].input), requestKey(targets[k].targetId)).(batchId := batchId, jobId := jobId))
  }

  /**
   * The tables after `enqueueStage`: nothing for no targets; otherwise one
   * request per target and one new batch or job, keyed by the process key,
   * holding all of them.
   */
  function Enqueued(t: LlmTables, targets: seq<PendingTarget>, model: string, prompts: string -> Prompts,
                    requestKey: string -> string, processKey: string, policy: EnginePolicy): LlmTables
    requires Providers.ModelById(model).Success?
  {
    if |targets| == 0 then t
    else
      var provider := Providers.ProviderForModel(model).value;
      match DecideRoute(model, |targets|, policy)
      case BatchRoute =>
        LlmTables(t.requests + Created(targets, model, prompts, requestKey, Some(|t.batches|), None),
                  t.batches + [NewBatch(provider, model, processKey)], t.jobs)
      case JobRoute =>
        LlmTables(t.requests + Created(targets, model, prompts, requestKey, None, Some(|t.jobs|)),
                  t.batches, t.jobs + [NewJob(provider, model, processKey)])
  }

  /** Enqueueing keeps every existing row and adds one request per target. */
  lemma EnqueuedKeepsRows(t: LlmTables, targets: seq<PendingTarget>, model: string, prompts: string -> Prompts,
                          requestKey: string -> string, processKey: string, policy: EnginePolicy)
    requires Providers.ModelById(model).Success?
    ensures var r := Enqueued(t, targets, model, prompts, requestKey, processKey, policy);
      |r.requests| == |t.requests| + |targets|
      && r.requests[..|t.requests|] == t.requests
      && r.batches[..|t.batches|] == t.batches
      && r.jobs[..|t.jobs|] == t.jobs
  {
  }

  /**
   * With targets, exactly one process row is added, a batch exactly when
   * `decideRoute` says so, and it is a fresh queued row for the model under
   * the process key.
   */
  lemma EnqueuedOneProcess(t: LlmTables, targets: seq<PendingTarget>, model: string, prompts: string -> Prompts,
                           requestKey: string -> string, processKey: string, policy: EnginePolicy)
    requires Providers.ModelById(model).Success?
    ensures var r := Enqueued(t, targets, model, prompts, requestKey, processKey, policy);
      |r.batches| + |r.jobs| == |t.batches| + |t.jobs| + (if |targets| == 0 then 0 else 1)
    ensures var r := Enqueued(t, targets, model, prompts, requestKey, processKey, policy);
      |targets| > 0 && DecideRoute(model, |targets|, policy) == BatchRoute ==>
        |r.batches| == |t.batches| + 1 && r.batches[|t.batches|] == NewBatch("openai", model, processKey)
    ensures var r := Enqueued(t, targets, model, prompts, requestKey, processKey, policy);
      |targets| > 0 && DecideRoute(model, |targets|, policy) == JobRoute ==>
        |r.jobs| == |t.jobs| + 1 && r.jobs[|t.jobs|] == NewJob("openai", model, processKey)
  {
    Providers.EveryModelIsOpenAI(model);
  }

  lemma EnqueuedNothing(t: LlmTables, model: string, prompts: string -> Prompts,
                        requestKey: string -> string, processKey: string, policy: EnginePolicy)
    requires Providers.ModelById(model).Success?
    ensures Enqueued(t, [], model, prompts, requestKey, processKey, policy) == t
  {
  }

  /**
   * Each new request is the target's own: its request key, its prompts, no
   * attempts, pending, and assigned to exactly one of the new batch and the
   * new job.
   */
  lemma EnqueuedRequest(t: LlmTables, targets: seq<PendingTarget>, model: string, prompts: string -> Prompts,
                        requestKey: string -> string, processKey: string, policy: EnginePolicy, k: nat)
    requires Providers.ModelById(model).Success?
    requires k < |targets|
    ensures var r := Enqueued(t, targets, model, prompts, requestKey, processKey, policy);
      var q := r.requests[|t.requests| + k];
      q.customKey == requestKey(targets[k].targetId) && q.model == model
      && q.systemPrompt == prompts(targets[k].input).system && q.userPrompt == prompts(targets[k].input).user
      && q.attempts == 0 && q.status == Pending
      && (q.batchId.Some? != q.jobId.Some?)
      && (q.batchId.Some? ==> q.batchId.value == |t.batches| && |r.batches| == |t.batches| + 1
                              && r.batches[q.batchId.value].customKey == processKey)
      && (q.jobId.Some? ==> q.jobId.value == |t.jobs| && |r.jobs| == |t.jobs| + 1
                            && r.jobs[q.jobId.value].customKey == processKey)
  {
  }

  // ---------------------------------------------------------------------
  // Row patches used by the store

  /** `assignRequestsToBatch` / `assignRequestsToJob`: the listed rows get the process id. */
  function Assign(rs: seq<LlmRequest>, ids: seq<nat>, batchId: Option<nat>, jobId: Option<nat>): (r: seq<LlmRequest>)
    ensures |r| == |rs|
  {
    seq(|rs|, k requires 0 <= k < |rs| =>
      if k in ids then
        (if batchId.Some? then rs[k].(batchId := batchId) else rs[k].(jobId := jobId))
      else rs[k])
  }

  /** The ids `start`, `start + 1`, …, `start + n - 1`. */
  function Range(start: nat, n: nat): (ids: seq<nat>)
    ensures |ids| == n && forall k :: 0 <= k < n ==> ids[k] == start + k
  {
    seq(n, k requires 0 <= k < n => start + k)
  }

  lemma AssignCreated(rs: seq<LlmRequest>, targets: seq<PendingTarget>, model: string, prompts: string -> Prompts,
                      requestKey: string -> string, batchId: Option<nat>, jobId: Option<nat>)
    requires batchId.Some? != jobId.Some?
    ensures Assign(rs + Created(targets, model, prompts, requestKey, None, None), Range(|rs|, |targets|), batchId, jobId)
         == rs + Created(targets, model, prompts, requestKey, batchId, jobId)
  {
    var before := rs + Created(targets, model, prompts, requestKey, None, None);
    var ids := Range(|rs|, |targets|);
    var a := Assign(before, ids, batchId, jobId);
    var b := rs + Created(targets, model, prompts, requestKey, batchId, jobId);
    forall k | 0 <= k < |a|
      ensures a[k] == b[k]
    {
      if k < |rs| {
        assert k !in ids;
      } else {
        assert ids[k - |rs|] == k;
      }
    }
  }

  // ---------------------------------------------------------------------
  // Batch and job bookkeeping (`llm_batch_service.ts`, `llm_job_service.ts`)

  /** `markBatchRunning`: submitted under `batchRef`, one more attempt, next poll set. */
  function BatchRunning(b: LlmBatch, batchRef: string, nextPollAt: int): (r: LlmBatch)
    ensures r.attempts == b.attempts + 1 && r.batchRef == Some(batchRef) && r.status == Running
    ensures r.provider == b.provider && r.model == b.model && r.customKey == b.customKey && r.lastError == b.lastError
  {
    b.(status := Running, batchRef := Some(batchRef), nextPollAt := Some(nextPollAt), attempts := b.attempts + 1)
  }

  /** The listed requests marked failed with the batch's error. */
  function ErrorAll(rs: seq<LlmRequest>, ids: seq<nat>, error: string): (r: seq<LlmRequest>)
    ensures |r| == |rs|
  {
    seq(|rs|, k requires 0 <= k < |rs| =>
      if k in ids then rs[k].(status := Errored, lastError := Some(error)) else rs[k])
  }

  /**
   * `handleBatchError`: while the retries allow, the batch goes back to the
   * queue without its provider reference; after that the batch fails and
   * takes every listed request with it.
   */
  function HandleBatchErrorSpec(t: LlmTables, batchId: nat, ids: seq<nat>, error: string, nextPollAt: int,
                                maxBatchRetries: int): LlmTables
    requires batchId < |t.batches|
  {
    var b := t.batches[batchId];
    var attempts := b.attempts + 1;
    if attempts <= maxBatchRetries then
      t.(batches := t.batches[batchId := b.(status := Queued, batchRef := None, attempts := attempts,
                                            lastError := Some(error), nextPollAt := Some(nextPollAt))])
    else
      t.(batches := t.batches[batchId := b.(status := Failed, lastError := Some(error))],
         requests := ErrorAll(t.requests, ids, error))
  }

  /** A retried batch is queued again with one more attempt and no reference, its requests untouched. */
  lemma HandleBatchErrorRetries(t: LlmTables, batchId: nat, ids: seq<nat>, error: string, nextPollAt: int, maxBatchRetries: int)
    requires batchId < |t.batches|
    ensures var r := HandleBatchErrorSpec(t, batchId, ids, error, nextPollAt, maxBatchRetries);
      (r.batches[batchId].status == Queued <==> t.batches[batchId].attempts + 1 <= maxBatchRetries)
      && (r.batches[batchId].status == Queued ==>
            r.requests == t.requests && r.batches[batchId].batchRef.None?
            && r.batches[batchId].attempts == t.batches[batchId].attempts + 1
            && r.batches[batchId].nextPollAt == Some(nextPollAt))
      && r.jobs == t.jobs && |r.batches| == |t.batches|
      && (forall k :: 0 <= k < |t.batches| && k != batchId ==> r.batches[k] == t.batches[k])
  {
  }

  /** Once the retries are spent the batch fails, every listed request fails with its error, and no other request changes. */
  lemma HandleBatchErrorGivesUp(t: LlmTables, batchId: nat, ids: seq<nat>, error: string, nextPollAt: int, maxBatchRetries: int)
    requires batchId < |t.batches| && t.batches[batchId].attempts + 1 > maxBatchRetries
    ensures var r := HandleBatchErrorSpec(t, batchId, ids, error, nextPollAt, maxBatchRetries);
      r.batches[batchId].status == Failed && r.batches[batchId].lastError == Some(error)
      && (forall k :: 0 <= k < |t.requests| && k in ids ==>
            r.requests[k].status == Errored && r.requests[k].lastError == Some(error))
      && (forall k :: 0 <= k < |t.requests| && k !in ids ==> r.requests[k] == t.requests[k])
  {
  }

  /** `finalizeJob`: failed exactly when some request failed for good, and no next run. */
  function FinalizeJobSpec(j: LlmJob, anyErrors: bool): (r: LlmJob)
    ensures r.status == (if anyErrors then Failed else Completed) && r.nextRunAt.None?
    ensures r.provider == j.provider && r.model == j.model && r.customKey == j.customKey
  {
    j.(status := if anyErrors then Failed else Completed, nextRunAt := None)
  }

  /**
   * `applyRequestError`: below the attempt bound the request is pending
   * again with its error and next attempt time, and the answer is "retried";
   * at the bound it fails.
   */
  function ApplyRequestErrorSpec(r: LlmRequest, error: string, attempts: nat, nextAttemptAt: int, maxAttempts: int): (LlmRequest, bool)
  {
    if attempts < maxAttempts then
      (r.(status := Pending, attempts := attempts, lastError := Some(error), nextAttemptAt := Some(nextAttemptAt)), true)
    else
      (r.(status := Errored, attempts := attempts, lastError := Some(error)), false)
  }

  /** The request is retried exactly below the bound, keeps its error and attempt count either way, and stays pending exactly when retried. */
  lemma ApplyRequestErrorRetriesIff(r: LlmRequest, error: string, attempts: nat, nextAttemptAt: int, maxAttempts: int)
    ensures var (q, retried) := ApplyRequestErrorSpec(r, error, attempts, nextAttemptAt, maxAttempts);
      (retried <==> attempts < maxAttempts)
      && (q.status == Pending <==> retried) && (q.status == Errored <==> !retried)
      && q.attempts == attempts && q.lastError == Some(error)
      && (retried ==> q.nextAttemptAt == Some(nextAttemptAt))
      && q.customKey == r.customKey && q.model == r.model && q.batchId == r.batchId && q.jobId == r.jobId
  {
  }

  /** What the rate limiter says about one draw. */
  datatype LimitVerdict = LimitOk | RetryAfter(at: int)

  /** `checkBatchRateLimit`: the draw it makes, one per request on the model's request bucket, if the model has buckets. */
  function BatchLimitDraw(keys: Option<Providers.RateLimitKeys>, requestCount: nat): (d: Option<(string, nat)>)
    ensures d.Some? <==> keys.Some?
    ensures d.Some? ==> d.value == (keys.value.requestsKey, requestCount)
  {
    if keys.None? then None else Some((keys.value.requestsKey, requestCount))
  }

  /** `checkBatchRateLimit`: no delay without buckets or when the limiter agrees, otherwise the limiter's retry time. */
  function CheckBatchRateLimit(keys: Option<Providers.RateLimitKeys>, verdict: LimitVerdict): (r: Option<int>)
    ensures r.None? <==> keys.None? || verdict.LimitOk?
    ensures r.Some? ==> r == Some(verdict.at)
  {
    if keys.None? then None
    else match verdict
      case LimitOk => None
      case RetryAfter(at) => Some(at)
  }

  /** `applyBatchRateLimitUsage`: the token totals drawn from the input and output buckets, each only when positive. */
  function BatchUsageDraws(keys: Option<Providers.RateLimitKeys>, totalInput: int, totalOutput: int): (ds: seq<(string, int)>)
    ensures forall k :: 0 <= k < |ds| ==> ds[k].1 > 0
    ensures |ds| <= 2 && (keys.None? ==> ds == [])
  {
    if keys.None? then []
    else (if totalInput > 0 then [(keys.value.inputKey, totalInput)] else [])
         + (if totalOutput > 0 then [(keys.value.outputKey, totalOutput)] else [])
  }

  /** Every positive total is drawn once from its own bucket. */
  lemma BatchUsageDrawsComplete(keys: Providers.RateLimitKeys, totalInput: int, totalOutput: int)
    ensures (keys.inputKey, totalInput) in BatchUsageDraws(Some(keys), totalInput, totalOutput) <== totalInput > 0
    ensures (keys.outputKey, totalOutput) in BatchUsageDraws(Some(keys), totalInput, totalOutput) <== totalOutput > 0
    ensures |BatchUsageDraws(Some(keys), totalInput, totalOutput)| == (if totalInput > 0 then 1 else 0) + (if totalOutput > 0 then 1 else 0)
  {
  }

  // ---------------------------------------------------------------------
  // The store

  class LlmStore {
    var requests: seq<LlmRequest>
    var batches: seq<LlmBatch>
    var jobs: seq<LlmJob>

    constructor(t: LlmTables)
      ensures Tables() == t
    {
      requests := t.requests;
      batches := t.batches;
      jobs := t.jobs;
    }

    function Tables(): LlmTables
      reads this
    {
      LlmTables(requests, batches, jobs)
    }

    /** `createLlmRequest`: inserts a pending request and returns its id. */
    method CreateLlmRequest(model: string, p: Prompts, key: string) returns (id: nat)
      modifies this
      ensures id == |old(requests)|
      ensures requests == old(requests) + [NewRequest(model, p, key)]
      ensures batches == old(batches) && jobs == old(jobs)
    {
      id := |requests|;
      requests := requests + [NewRequest(model, p, key)];
    }

    /** `createLlmBatch`: inserts a queued batch and returns its id. */
    method CreateLlmBatch(provider: string, model: string, key: string) returns (id: nat)
      modifies this
      ensures id == |old(batches)|
      ensures batches == old(batches) + [NewBatch(provider, model, key)]
      ensures requests == old(requests) && jobs == old(jobs)
    {
      id := |batches|;
      batches := batches + [NewBatch(provider, model, key)];
    }

    /** `createLlmJob`: inserts a queued job and returns its id. */
    method CreateLlmJob(provider: string, model: string, key: string) returns (id: nat)
      modifies this
      ensures id == |old(jobs)|
      ensures jobs == old(jobs) + [NewJob(provider, model, key)]
      ensures requests == old(requests) && batches == old(batches)
    {
      id := |jobs|;
      jobs := jobs + [NewJob(provider, model, key)];
    }

    /** `assignRequestsToBatch` (a batch id) or `assignRequestsToJob` (a job id), one patch per listed row. */
    method AssignRequests(ids: seq<nat>, batchId: Option<nat>, jobId: Option<nat>)
      modifies this
      requires forall k :: 0 <= k < |ids| ==> ids[k] < |requests|
      ensures requests == Assign(old(requests), ids, batchId, jobId)
      ensures batches == old(batches) && jobs == old(jobs)
    {
      var i := 0;
      while i < |ids|
        invariant 0 <= i <= |ids|
        invariant requests == Assign(old(requests), ids[..i], batchId, jobId)
        invariant batches == old(batches) && jobs == old(jobs)
      {
        var id := ids[i];
        var row := requests[id];
        if batchId.Some? {
          requests := requests[id := row.(batchId := batchId)];
        } else {
          requests := requests[id := row.(jobId := jobId)];
        }
        assert ids[..i + 1] == ids[..i] + [id];
        i := i + 1;
      }
      assert ids[..|ids|] == ids;
    }

    /**
     * `enqueueStage` once the targets and the model are known: one request
     * per target, then one batch or job for all of them.
     */
    method EnqueueStage(targets: seq<PendingTarget>, model: string, prompts: string -> Prompts,
                        requestKey: string -> string, processKey: string, policy: EnginePolicy)
      modifies this
      requires Providers.ModelById(model).Success?
      ensures Tables() == Enqueued(old(Tables()), targets, model, prompts, requestKey, processKey, policy)
    {
      if |targets| == 0 {
        return;
      }
      var start := |requests|;
      var ids: seq<nat> := [];
      var i := 0;
      while i < |targets|
        invariant 0 <= i <= |targets|
        invariant requests == old(requests) + Created(targets[..i], model, prompts, requestKey, None, None)
        invariant ids == Range(start, i)
        invariant batches == old(batches) && jobs == old(jobs)
      {
        var target := targets[i];
        var id := CreateLlmRequest(model, prompts(target.input), requestKey(target.targetId));
        ids := ids + [id];
        i := i + 1;
      }
      assert targets[..|targets|] == targets;
      var provider := Providers.ProviderForModel(model).value;
      var route := DecideRoute(model, |ids|, policy);
      if route == BatchRoute {
        var batchId := CreateLlmBatch(provider, model, processKey);
        AssignRequests(ids, Some(batchId), None);
        AssignCreated(old(requests), targets, model, prompts, requestKey, Some(batchId), None);
      } else {
        var jobId := CreateLlmJob(provider, model, processKey);
        AssignRequests(ids, None, Some(jobId));
        AssignCreated(old(requests), targets, model, prompts, requestKey, None, Some(jobId));
      }
    }

    /** Puts the tables back as they were, as a mutation that throws is rolled back. */
    method Restore(t: LlmTables)
      modifies this
      ensures Tables() == t
    {
      requests := t.requests;
      batches := t.batches;
      jobs := t.jobs;
    }

    /** Replaces one request row, as a `patchRequest` does. */
    method PutRequest(id: nat, r: LlmRequest)
      modifies this
      requires id < |requests|
      ensures requests == old(requests)[id := r]
      ensures batches == old(batches) && jobs == old(jobs)
    {
      requests := requests[id := r];
    }

    /** `markBatchRunning`. */
    method MarkBatchRunning(batchId: nat, batchRef: string, nextPollAt: int)
      modifies this
      requires batchId < |batches|
      ensures batches == old(batches)[batchId := BatchRunning(old(batches[batchId]), batchRef, nextPollAt)]
      ensures requests == old(requests) && jobs == old(jobs)
    {
      batches := batches[batchId := BatchRunning(batches[batchId], batchRef, nextPollAt)];
    }

    /** `handleBatchError`: one batch patch, then one patch per listed request when the batch is given up. */
    method HandleBatchError(batchId: nat, ids: seq<nat>, error: string, nextPollAt: int, maxBatchRetries: int)
      modifies this
      requires batchId < |batches|
      requires forall k :: 0 <= k < |ids| ==> ids[k] < |requests|
      ensures Tables() == HandleBatchErrorSpec(old(Tables()), batchId, ids, error, nextPollAt, maxBatchRetries)
    {
      var b := batches[batchId];
      var attempts := b.attempts + 1;
      if attempts <= maxBatchRetries {
        batches := batches[batchId := b.(status := Queued, batchRef := None, attempts := attempts,
                                         lastError := Some(error), nextPollAt := Some(nextPollAt))];
        return;
      }
      batches := batches[batchId := b.(status := Failed, lastError := Some(error))];
      var i := 0;
      while i < |ids|
        invariant 0 <= i <= |ids|
        invariant requests == ErrorAll(old(requests), ids[..i], error)
        invariant batches == old(batches)[batchId := b.(status := Failed, lastError := Some(error))]
        invariant jobs == old(jobs)
      {
        var id := ids[i];
        requests := requests[id := requests[id].(status := Errored, lastError := Some(error))];
        assert ids[..i + 1] == ids[..i] + [id];
        i := i + 1;
      }
      assert ids[..|ids|] == ids;
    }

    /** `finalizeJob`. */
    method FinalizeJob(jobId: nat, anyErrors: bool)
      modifies this
      requires jobId < |jobs|
      ensures jobs == old(jobs)[jobId := FinalizeJobSpec(old(jobs[jobId]), anyErrors)]
      ensures requests == old(requests) && batches == old(batches)
    {
      jobs := jobs[jobId := FinalizeJobSpec(jobs[jobId], anyErrors)];
    }

    /** `applyRequestError`, answering whether the request will be retried. */
    method ApplyRequestError(id: nat, error: string, attempts: nat, nextAttemptAt: int, maxAttempts: int) returns (didRetry: bool)
      modifies this
      requires id < |requests|
      ensures var (q, retried) := ApplyRequestErrorSpec(old(requests[id]), error, attempts, nextAttemptAt, maxAttempts);
        requests == old(requests)[id := q] && didRetry == retried
      ensures batches == old(batches) && jobs == old(jobs)
    {
      var r := requests[id];
      if attempts < maxAttempts {
        requests := requests[id := r.(status := Pending, attempts := attempts, lastError := Some(error), nextAttemptAt := Some(nextAttemptAt))];
        return true;
      }
      requests := requests[id := r.(status := Errored, attempts := attempts, lastError := Some(error))];
      return false;
    }
  }
}
