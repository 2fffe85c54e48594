/**
 * The global batch scheduler, in the two versions the engine carries:
 * `domain/runs/workflows/runs_scheduler.ts`, where a run carries its own
 * policy snapshot, and `domain/runs/workflows/scheduler.ts`, where a
 * run's policy is resolved from its run config.  Both keep one
 * `scheduler_state` row holding a lock and the time of the next tick;
 * a tick folds the active runs' policies into one, schedules polls of the
 * due batches under a global and a per-run cap, asks for new batches per
 * provider and model under a submit cap, then releases the lock and
 * schedules the next tick.  `ctx.scheduler.runAfter` appends to a log of
 * scheduled calls; `createBatchFromQueued` is a parameter.
 */
module Scheduler {
  import opened Wrappers
  import opened JsArrays
  import opened RunPolicies
  import opened LlmBatches

  const LockMs: int := 30000
  const MinDelayMs: int := 500

  /** The `scheduler_state` row with key "global". */
  datatype SchedulerState = SchedulerState(lockedUntil: Option<int>, nextTickAt: Option<int>, updatedAt: int)

  /** A call handed to `ctx.scheduler.runAfter`. */
  datatype Scheduled =
    | TickAfter(delay: int, scheduledAt: int)
    | PollAfter(batch: Batch)
    | SubmitAfter(batchId: nat, provider: string)

  /** The fields of a `runs` row the two schedulers read. */
  datatype RunRow = RunRow(id: string, status: string, policySnapshot: Option<RunPolicy>, runConfigId: Option<string>)

  /** A `run_configs` row: its policy layers and team. */
  datatype RunConfig = RunConfig(id: string, policies: PolicyLayers, teamId: Option<string>)

  /** The four fields the policy fold keeps. */
  datatype TickPolicy = TickPolicy(pollIntervalMs: int, maxBatchSize: int, maxNewBatchesPerTick: int, maxPollPerTick: int)

  datatype TickResult = TickResult(polled: nat, submitted: nat)

  datatype ProviderModel = ProviderModel(provider: string, model: string)

  /** One entry of the `providerModels` map, keyed "provider:model". */
  datatype Entry = Entry(key: string, value: ProviderModel)

  /** What `ensureScheduler` leaves: its answer, the state row and the calls it scheduled. */
  datatype EnsureOut = EnsureOut(scheduled: bool, state: SchedulerState, calls: seq<Scheduled>)

  /** What a tick leaves: its result, the state row and the calls it scheduled. */
  datatype TickOut = TickOut(result: Result<TickResult>, state: Option<SchedulerState>, calls: seq<Scheduled>)

  /** A truthy time: present and not 0. */
  predicate TruthyTime(t: Option<int>)
  {
    t.Some? && t.value != 0
  }

  /** A truthy id: present and non-empty. */
  predicate TruthyId(s: Option<string>)
  {
    s.Some? && s.value != ""
  }

  // ---------------------------------------------------------------------
  // ensureScheduler

  /** `ensureScheduler` at time `now`: the row is created when missing; a tick already
      due after now is left alone; otherwise a tick is scheduled 500 ms out. */
  function EnsureSpec(state: Option<SchedulerState>, now: int): EnsureOut
  {
    var s := state.GetOr(SchedulerState(None, None, now));
    if TruthyTime(s.nextTickAt) && s.nextTickAt.value > now then EnsureOut(false, s, [])
    else EnsureOut(true, s.(nextTickAt := Some(now + MinDelayMs), updatedAt := now),
                   [TickAfter(MinDelayMs, now + MinDelayMs)])
  }

  /** A pending future tick makes the call a no-op; otherwise exactly one tick is scheduled
      500 ms out and recorded as the next tick, and the lock is not touched. */
  lemma EnsureCases(state: Option<SchedulerState>, now: int)
    ensures var s := state.GetOr(SchedulerState(None, None, now));
            var out := EnsureSpec(state, now);
            out.state.lockedUntil == s.lockedUntil
            && (!out.scheduled <==> TruthyTime(s.nextTickAt) && s.nextTickAt.value > now)
            && (!out.scheduled ==> out.state == s && out.calls == [])
            && (out.scheduled ==> out.state.nextTickAt == Some(now + 500) && out.state.updatedAt == now
                                  && out.calls == [TickAfter(500, now + 500)])
  {
  }

  /** A second call less than 500 ms after one that scheduled a tick schedules nothing. */
  lemma EnsureTwice(state: Option<SchedulerState>, now: int, now': int)
    requires EnsureSpec(state, now).scheduled && now <= now' < now + MinDelayMs && now + MinDelayMs != 0
    ensures var first := EnsureSpec(state, now);
            var second := EnsureSpec(Some(first.state), now');
            !second.scheduled && second.state == first.state && second.calls == []
  {
  }

  // ---------------------------------------------------------------------
  // Active runs and their policies

  function StatusIs(st: string): RunRow -> bool
  {
    (r: RunRow) => r.status == st
  }

  /** `running.concat(paused, pending)`, each from the `by_status` index in table order. */
  function ActiveRuns(runs: seq<RunRow>): seq<RunRow>
  {
    Filter(runs, StatusIs("running")) + Filter(runs, StatusIs("paused")) + Filter(runs, StatusIs("pending"))
  }

  /** runs_scheduler.ts: each active run contributes its snapshot, or the engine policy. */
  function SnapshotPolicies(active: seq<RunRow>, engine: RunPolicy): (ps: seq<RunPolicy>)
    ensures |ps| == |active|
    ensures forall i :: 0 <= i < |active| ==>
              ps[i] == if active[i].policySnapshot.Some? then active[i].policySnapshot.value else engine
  {
    seq(|active|, i requires 0 <= i < |active| => active[i].policySnapshot.GetOr(engine))
  }

  /** The first config with the given id; a missing id finds none. */
  function FindConfig(configs: seq<RunConfig>, id: Option<string>): (c: Option<RunConfig>)
    ensures c.Some? ==> c.value in configs && id == Some(c.value.id)
    ensures c.None? ==> id.None? || forall k :: 0 <= k < |configs| ==> configs[k].id != id.value
  {
    if id.None? || |configs| == 0 then None
    else if configs[0].id == id.value then Some(configs[0])
    else FindConfig(configs[1..], id)
  }

  /** `resolveRunPolicy`, with the schema's rejection as a failure. */
  function ResolveOutcome(p: PolicyLayers, teamId: Option<string>, provider: Option<string>, model: Option<string>): Result<RunPolicy>
  {
    var resolved := Resolved(p, teamId, provider, model);
    if ValidPolicy(resolved) then Success(resolved) else Failure("invalid run policy")
  }

  /** scheduler.ts: the policy of one active run; every error inside the `try` gives the default. */
  function ConfigPolicy(configs: seq<RunConfig>, run: RunRow, default: RunPolicy): RunPolicy
  {
    match FindConfig(configs, run.runConfigId)
    case None => default
    case Some(c) =>
      match ResolveOutcome(c.policies, c.teamId, None, None)
      case Failure(_) => default
      case Success(p) => p
  }

  function ConfigPolicies(active: seq<RunRow>, configs: seq<RunConfig>, default: RunPolicy): (ps: seq<RunPolicy>)
    ensures |ps| == |active|
    ensures forall i :: 0 <= i < |active| ==> ps[i] == ConfigPolicy(configs, active[i], default)
  {
    seq(|active|, i requires 0 <= i < |active| => ConfigPolicy(configs, active[i], default))
  }

  /** A run without a config, or whose config is gone, contributes the default policy. */
  lemma MissingConfigGivesDefault(configs: seq<RunConfig>, run: RunRow, default: RunPolicy)
    requires run.runConfigId.None? || forall k :: 0 <= k < |configs| ==> configs[k].id != run.runConfigId.value
    ensures ConfigPolicy(configs, run, default) == default
  {
  }

  /** A config whose layers resolve to an invalid policy contributes the default policy too;
      a valid one contributes exactly its resolution. */
  lemma ConfigPolicyResolves(configs: seq<RunConfig>, run: RunRow, default: RunPolicy, c: RunConfig)
    requires FindConfig(configs, run.runConfigId) == Some(c)
    ensures ValidPolicy(Resolved(c.policies, c.teamId, None, None)) ==>
              ConfigPolicy(configs, run, default) == Resolved(c.policies, c.teamId, None, None)
    ensures !ValidPolicy(Resolved(c.policies, c.teamId, None, None)) ==> ConfigPolicy(configs, run, default) == default
  {
  }

  // ---------------------------------------------------------------------
  // The policy fold

  function Min(a: int, b: int): int { if a <= b then a else b }
  function Max(a: int, b: int): int { if a >= b then a else b }

  /** The fold's seed: the four fields of the engine (or default) policy. */
  function Seed(p: RunPolicy): TickPolicy
  {
    TickPolicy(p.pollIntervalMs, p.maxBatchSize, p.maxNewBatchesPerTick, p.maxPollPerTick)
  }

  /** One step of the `reduce`. */
  function FoldStep(acc: TickPolicy, p: RunPolicy): TickPolicy
  {
    TickPolicy(Min(acc.pollIntervalMs, p.pollIntervalMs), Max(acc.maxBatchSize, p.maxBatchSize),
               Min(acc.maxNewBatchesPerTick, p.maxNewBatchesPerTick), Min(acc.maxPollPerTick, p.maxPollPerTick))
  }

  /** `policies.reduce(step, seed)`, left to right. */
  function Fold(acc: TickPolicy, ps: seq<RunPolicy>): TickPolicy
    decreases |ps|
  {
    if |ps| == 0 then acc else Fold(FoldStep(acc, ps[0]), ps[1..])
  }

  /** The fold is the least poll interval, the largest batch size and the least submit and
      poll caps over the seed and every policy, each attained by the seed or by some policy. */
  lemma {:induction false} FoldBounds(acc: TickPolicy, ps: seq<RunPolicy>)
    ensures var f := Fold(acc, ps);
            f.pollIntervalMs <= acc.pollIntervalMs && f.maxBatchSize >= acc.maxBatchSize
            && f.maxNewBatchesPerTick <= acc.maxNewBatchesPerTick && f.maxPollPerTick <= acc.maxPollPerTick
            && (forall i :: 0 <= i < |ps| ==>
                  f.pollIntervalMs <= ps[i].pollIntervalMs && f.maxBatchSize >= ps[i].maxBatchSize
                  && f.maxNewBatchesPerTick <= ps[i].maxNewBatchesPerTick && f.maxPollPerTick <= ps[i].maxPollPerTick)
    ensures var f := Fold(acc, ps);
            (f.pollIntervalMs == acc.pollIntervalMs || exists i :: 0 <= i < |ps| && f.pollIntervalMs == ps[i].pollIntervalMs)
            && (f.maxBatchSize == acc.maxBatchSize || exists i :: 0 <= i < |ps| && f.maxBatchSize == ps[i].maxBatchSize)
            && (f.maxNewBatchesPerTick == acc.maxNewBatchesPerTick
                || exists i :: 0 <= i < |ps| && f.maxNewBatchesPerTick == ps[i].maxNewBatchesPerTick)
            && (f.maxPollPerTick == acc.maxPollPerTick || exists i :: 0 <= i < |ps| && f.maxPollPerTick == ps[i].maxPollPerTick)
    decreases |ps|
  {
    if |ps| > 0 {
      var next := FoldStep(acc, ps[0]);
      FoldBounds(next, ps[1..]);
      var f := Fold(next, ps[1..]);
      forall i | 0 <= i < |ps|
        ensures f.pollIntervalMs <= ps[i].pollIntervalMs && f.maxBatchSize >= ps[i].maxBatchSize
                && f.maxNewBatchesPerTick <= ps[i].maxNewBatchesPerTick && f.maxPollPerTick <= ps[i].maxPollPerTick
      {
        if i > 0 { assert ps[i] == ps[1..][i - 1]; }
      }
      if f.pollIntervalMs != acc.pollIntervalMs && f.pollIntervalMs != ps[0].pollIntervalMs {
        var i :| 0 <= i < |ps[1..]| && f.pollIntervalMs == ps[1..][i].pollIntervalMs;
        assert ps[1..][i] == ps[i + 1];
      }
      if f.maxBatchSize != acc.maxBatchSize && f.maxBatchSize != ps[0].maxBatchSize {
        var i :| 0 <= i < |ps[1..]| && f.maxBatchSize == ps[1..][i].maxBatchSize;
        assert ps[1..][i] == ps[i + 1];
      }
      if f.maxNewBatchesPerTick != acc.maxNewBatchesPerTick && f.maxNewBatchesPerTick != ps[0].maxNewBatchesPerTick {
        var i :| 0 <= i < |ps[1..]| && f.maxNewBatchesPerTick == ps[1..][i].maxNewBatchesPerTick;
        assert ps[1..][i] == ps[i + 1];
      }
      if f.maxPollPerTick != acc.maxPollPerTick && f.maxPollPerTick != ps[0].maxPollPerTick {
        var i :| 0 <= i < |ps[1..]| && f.maxPollPerTick == ps[1..][i].maxPollPerTick;
        assert ps[1..][i] == ps[i + 1];
      }
    }
  }

  // ---------------------------------------------------------------------
  // Polling the due batches

  /** `batch.run_id ?? "none"`: batches without a run share one bucket. */
  function BatchKey(b: Batch): string
  {
    b.runId.GetOr("none")
  }

  function KeyIs(key: string): Batch -> bool
  {
    (b: Batch) => BatchKey(b) == key
  }

  /** The polls already scheduled for a bucket. */
  function KeyCount(polls: seq<Batch>, key: string): nat
  {
    Count(polls, KeyIs(key))
  }

  /** The poll loop from the given point: stop at the global cap; skip a batch whose
      bucket has reached its own policy's cap; a policy lookup that throws aborts the tick. */
  function PollFrom(due: seq<Batch>, cap: int, resolve: Batch -> Result<RunPolicy>, polls: seq<Batch>): Result<seq<Batch>>
    decreases |due|
  {
    if |due| == 0 || |polls| >= cap then Success(polls)
    else
      match resolve(due[0])
      case Failure(e) => Failure(e)
      case Success(p) =>
        if KeyCount(polls, BatchKey(due[0])) >= p.maxPollPerTick then PollFrom(due[1..], cap, resolve, polls)
        else PollFrom(due[1..], cap, resolve, polls + [due[0]])
  }

  /** A non-negative bound: `polled >= cap` stops the loop before any poll when cap <= 0. */
  function Bound(cap: int): nat { if cap > 0 then cap else 0 }

  /** The global cap holds, and the polls are the due batches in order, with some skipped. */
  lemma {:induction false} PollWithinCap(due: seq<Batch>, cap: int, resolve: Batch -> Result<RunPolicy>, polls: seq<Batch>)
    requires |polls| <= Bound(cap)
    ensures PollFrom(due, cap, resolve, polls).Success? ==>
              var r := PollFrom(due, cap, resolve, polls).value;
              |r| <= Bound(cap) && |polls| <= |r| && r[..|polls|] == polls && Subsequence(r[|polls|..], due)
    decreases |due|
  {
    if |due| > 0 && |polls| < cap && resolve(due[0]).Success? {
      var p := resolve(due[0]).value;
      if KeyCount(polls, BatchKey(due[0])) >= p.maxPollPerTick {
        PollWithinCap(due[1..], cap, resolve, polls);
        if PollFrom(due, cap, resolve, polls).Success? {
          var r := PollFrom(due, cap, resolve, polls).value;
          SubsequenceSkip(r[|polls|..], due[1..], due[0]);
          assert [due[0]] + due[1..] == due;
        }
      } else {
        var polls' := polls + [due[0]];
        PollWithinCap(due[1..], cap, resolve, polls');
        if PollFrom(due, cap, resolve, polls).Success? {
          var r := PollFrom(due, cap, resolve, polls).value;
          assert r[..|polls'|][..|polls|] == r[..|polls|];
          assert r[|polls|..][0] == due[0] && r[|polls|..][1..] == r[|polls'|..];
        }
      }
    }
  }

  /** Every poll was within its bucket's cap when it was made: fewer polls of its bucket
      came before it than the `max_poll_per_tick` of the policy resolved for it. */
  lemma {:induction false} PollWithinBucket(due: seq<Batch>, cap: int, resolve: Batch -> Result<RunPolicy>,
                                            polls: seq<Batch>, k: nat)
    requires PollFrom(due, cap, resolve, polls).Success?
    requires k < |PollFrom(due, cap, resolve, polls).value|
    requires k >= |polls|
    ensures var r := PollFrom(due, cap, resolve, polls).value;
            resolve(r[k]).Success? && KeyCount(r[..k], BatchKey(r[k])) < resolve(r[k]).value.maxPollPerTick
    decreases |due|
  {
    var p := resolve(due[0]).value;
    if KeyCount(polls, BatchKey(due[0])) >= p.maxPollPerTick {
      PollWithinBucket(due[1..], cap, resolve, polls, k);
    } else {
      var polls' := polls + [due[0]];
      PollPrefix(due[1..], cap, resolve, polls');
      if k == |polls| {
        var r := PollFrom(due, cap, resolve, polls).value;
        assert r[..|polls'|] == polls';
        assert r[k] == due[0];
        assert r[..k] == polls;
      } else {
        PollWithinBucket(due[1..], cap, resolve, polls', k);
      }
    }
  }

  /** The loop only appends. */
  lemma {:induction false} PollPrefix(due: seq<Batch>, cap: int, resolve: Batch -> Result<RunPolicy>, polls: seq<Batch>)
    requires PollFrom(due, cap, resolve, polls).Success?
    ensures var r := PollFrom(due, cap, resolve, polls).value; |polls| <= |r| && r[..|polls|] == polls
    decreases |due|
  {
    if |due| > 0 && |polls| < cap {
      var p := resolve(due[0]).value;
      if KeyCount(polls, BatchKey(due[0])) >= p.maxPollPerTick {
        PollPrefix(due[1..], cap, resolve, polls);
      } else {
        var polls' := polls + [due[0]];
        PollPrefix(due[1..], cap, resolve, polls');
        var r := PollFrom(due, cap, resolve, polls).value;
        assert r[..|polls'|][..|polls|] == r[..|polls|];
      }
    }
  }

  /** When every due batch of a bucket resolves to the same policy, the bucket gets at
      most that policy's `max_poll_per_tick` polls. */
  lemma {:induction false} PollBucketCap(due: seq<Batch>, cap: int, resolve: Batch -> Result<RunPolicy>,
                                         polls: seq<Batch>, key: string, m: int)
    requires forall j :: 0 <= j < |due| && BatchKey(due[j]) == key ==>
               resolve(due[j]).Success? && resolve(due[j]).value.maxPollPerTick == m
    requires KeyCount(polls, key) <= Bound(m)
    ensures PollFrom(due, cap, resolve, polls).Success? ==> KeyCount(PollFrom(due, cap, resolve, polls).value, key) <= Bound(m)
    decreases |due|
  {
    if |due| > 0 && |polls| < cap && resolve(due[0]).Success? {
      var p := resolve(due[0]).value;
      assert forall j :: 0 <= j < |due[1..]| ==> due[1..][j] == due[j + 1];
      if KeyCount(polls, BatchKey(due[0])) >= p.maxPollPerTick {
        PollBucketCap(due[1..], cap, resolve, polls, key, m);
      } else {
        CountSnoc(polls, due[0], KeyIs(key));
        PollBucketCap(due[1..], cap, resolve, polls + [due[0]], key, m);
      }
    }
  }

  // ---------------------------------------------------------------------
  // Policy lookup for a batch

  /** The first run with the given id. */
  function FindRun(runs: seq<RunRow>, id: string): (r: Option<RunRow>)
    ensures r.Some? ==> r.value in runs && r.value.id == id
    ensures r.None? ==> forall k :: 0 <= k < |runs| ==> runs[k].id != id
  {
    if |runs| == 0 then None
    else if runs[0].id == id then Some(runs[0])
    else FindRun(runs[1..], id)
  }

  /** runs_scheduler.ts `resolvePolicyForBatch`: no run → engine policy; an unknown run
      throws "Run not found"; otherwise the run's snapshot or the engine policy. */
  function SnapshotResolve(runs: seq<RunRow>, engine: RunPolicy, b: Batch): Result<RunPolicy>
  {
    if !TruthyId(b.runId) then Success(engine)
    else
      match FindRun(runs, b.runId.value)
      case None => Failure("Run not found")
      case Some(run) => Success(run.policySnapshot.GetOr(engine))
  }

  /** scheduler.ts `resolvePolicyForBatch`: no run or no config id → default; an unknown
      run or config throws; otherwise the config resolved for the batch's provider and model,
      whose schema rejection is not caught. */
  function ConfigResolve(runs: seq<RunRow>, configs: seq<RunConfig>, default: RunPolicy, b: Batch): Result<RunPolicy>
  {
    if !TruthyId(b.runId) then Success(default)
    else
      match FindRun(runs, b.runId.value)
      case None => Failure("Run not found")
      case Some(run) =>
        if !TruthyId(run.runConfigId) then Success(default)
        else
          match FindConfig(configs, run.runConfigId)
          case None => Failure("Run config not found")
          case Some(c) => ResolveOutcome(c.policies, c.teamId, Some(b.provider), Some(b.model))
  }

  /** In runs_scheduler.ts a batch's policy depends on its run id alone. */
  lemma SnapshotResolveByRun(runs: seq<RunRow>, engine: RunPolicy, b: Batch, c: Batch)
    requires b.runId == c.runId
    ensures SnapshotResolve(runs, engine, b) == SnapshotResolve(runs, engine, c)
  {
  }

  /** runs_scheduler.ts: a run gets at most its own `max_poll_per_tick` polls (its snapshot's,
      or the engine's), whatever the global cap; a run named "none" would share the bucket of
      the batches without a run. */
  lemma SnapshotPollsPerRun(runs: seq<RunRow>, engine: RunPolicy, due: seq<Batch>, cap: int, run: RunRow)
    requires FindRun(runs, run.id) == Some(run) && run.id != "none" && run.id != ""
    ensures var resolve := (b: Batch) => SnapshotResolve(runs, engine, b);
            PollFrom(due, cap, resolve, []).Success? ==>
              KeyCount(PollFrom(due, cap, resolve, []).value, run.id) <= Bound(run.policySnapshot.GetOr(engine).maxPollPerTick)
  {
    var resolve := (b: Batch) => SnapshotResolve(runs, engine, b);
    var m := run.policySnapshot.GetOr(engine).maxPollPerTick;
    forall j | 0 <= j < |due| && BatchKey(due[j]) == run.id
      ensures resolve(due[j]).Success? && resolve(due[j]).value.maxPollPerTick == m
    {
      assert due[j].runId == Some(run.id);
    }
    PollBucketCap(due, cap, resolve, [], run.id, m);
  }

  // ---------------------------------------------------------------------
  // Provider and model pairs, and the submit loop

  function PairKey(p: ProviderModel): string
  {
    p.provider + ":" + p.model
  }

  function ModelPairs(provider: string, models: seq<string>): (r: seq<ProviderModel>)
    ensures |r| == |models|
    ensures forall i :: 0 <= i < |models| ==> r[i] == ProviderModel(provider, models[i])
  {
    seq(|models|, i requires 0 <= i < |models| => ProviderModel(provider, models[i]))
  }

  /** The pairs of one `provider_models` list, in loop order. */
  function SpecPairs(specs: seq<ProviderModels>): seq<ProviderModel>
    decreases |specs|
  {
    if |specs| == 0 then [] else ModelPairs(specs[0].provider, specs[0].models) + SpecPairs(specs[1..])
  }

  /** The pairs of every policy, then of the engine (or default) policy: the order of the nested loops. */
  function PolicyPairs(ps: seq<RunPolicy>): seq<ProviderModel>
    decreases |ps|
  {
    if |ps| == 0 then [] else SpecPairs(ps[0].providerModels) + PolicyPairs(ps[1..])
  }

  /** The position of a key in the map, or the map's size. */
  function KeyIndex(entries: seq<Entry>, key: string): (i: nat)
    ensures i <= |entries|
    ensures i < |entries| ==> entries[i].key == key
    ensures forall j :: 0 <= j < i ==> entries[j].key != key
  {
    if |entries| == 0 then 0
    else if entries[0].key == key then 0
    else 1 + KeyIndex(entries[1..], key)
  }

  /** `Map.set`: an existing key keeps its place and takes the new value; a new key goes last. */
  function MapSet(entries: seq<Entry>, p: ProviderModel): seq<Entry>
  {
    var i := KeyIndex(entries, PairKey(p));
    if i < |entries| then entries[i := Entry(PairKey(p), p)] else entries + [Entry(PairKey(p), p)]
  }

  function MapSetAll(entries: seq<Entry>, pairs: seq<ProviderModel>): seq<Entry>
    decreases |pairs|
  {
    if |pairs| == 0 then entries else MapSetAll(MapSet(entries, pairs[0]), pairs[1..])
  }

  /** Keys are pairwise distinct and each entry is keyed by its own value. */
  predicate WellKeyed(entries: seq<Entry>)
  {
    (forall i, j :: 0 <= i < j < |entries| ==> entries[i].key != entries[j].key)
    && forall i :: 0 <= i < |entries| ==> entries[i].key == PairKey(entries[i].value)
  }

  /** `providerModels.values()`. */
  function Values(entries: seq<Entry>): (r: seq<ProviderModel>)
    ensures |r| == |entries| && forall i :: 0 <= i < |entries| ==> r[i] == entries[i].value
  {
    seq(|entries|, i requires 0 <= i < |entries| => entries[i].value)
  }

  /** Setting pairs keeps the map well keyed, and afterwards every pair's key is present. */
  lemma {:induction false} MapSetAllKeyed(entries: seq<Entry>, pairs: seq<ProviderModel>)
    requires WellKeyed(entries)
    ensures WellKeyed(MapSetAll(entries, pairs))
    ensures forall i :: 0 <= i < |entries| ==> KeyIndex(MapSetAll(entries, pairs), entries[i].key) < |MapSetAll(entries, pairs)|
    ensures forall k :: 0 <= k < |pairs| ==> KeyIndex(MapSetAll(entries, pairs), PairKey(pairs[k])) < |MapSetAll(entries, pairs)|
    decreases |pairs|
  {
    if |pairs| > 0 {
      var next := MapSet(entries, pairs[0]);
      var i := KeyIndex(entries, PairKey(pairs[0]));
      assert forall j :: 0 <= j < |entries| ==> next[j].key == entries[j].key;
      assert WellKeyed(next);
      MapSetAllKeyed(next, pairs[1..]);
      var final := MapSetAll(next, pairs[1..]);
      assert next[if i < |entries| then i else |entries|].key == PairKey(pairs[0]);
      forall k | 0 <= k < |pairs|
        ensures KeyIndex(final, PairKey(pairs[k])) < |final|
      {
        if k > 0 { assert pairs[k] == pairs[1..][k - 1]; }
      }
    }
  }

  /** The submit loop from the given point: stop at the cap; a pair whose queue yields no
      batch is skipped; each new batch gets a submit call. */
  function SubmitFrom(pairs: seq<ProviderModel>, cap: int, maxItems: int,
                      create: (string, string, int) -> Option<nat>, subs: seq<Scheduled>): seq<Scheduled>
    decreases |pairs|
  {
    if |pairs| == 0 || |subs| >= cap then subs
    else
      match create(pairs[0].provider, pairs[0].model, maxItems)
      case None => SubmitFrom(pairs[1..], cap, maxItems, create, subs)
      case Some(id) => SubmitFrom(pairs[1..], cap, maxItems, create, subs + [SubmitAfter(id, pairs[0].provider)])
  }

  /** At most the cap of new batches, each one a batch some pair's queue produced. */
  lemma {:induction false} SubmitWithinCap(pairs: seq<ProviderModel>, cap: int, maxItems: int,
                                           create: (string, string, int) -> Option<nat>, subs: seq<Scheduled>)
    requires |subs| <= Bound(cap)
    ensures var r := SubmitFrom(pairs, cap, maxItems, create, subs);
            |r| <= Bound(cap) && |subs| <= |r| && r[..|subs|] == subs
    ensures var r := SubmitFrom(pairs, cap, maxItems, create, subs);
            forall k :: |subs| <= k < |r| ==>
              r[k].SubmitAfter?
              && exists j :: 0 <= j < |pairs| && create(pairs[j].provider, pairs[j].model, maxItems) == Some(r[k].batchId)
                             && r[k].provider == pairs[j].provider
    decreases |pairs|
  {
    if |pairs| > 0 && |subs| < cap {
      var c := create(pairs[0].provider, pairs[0].model, maxItems);
      var subs' := if c.Some? then subs + [SubmitAfter(c.value, pairs[0].provider)] else subs;
      SubmitWithinCap(pairs[1..], cap, maxItems, create, subs');
      var r := SubmitFrom(pairs, cap, maxItems, create, subs);
      assert r == SubmitFrom(pairs[1..], cap, maxItems, create, subs');
      assert r[..|subs'|][..|subs|] == r[..|subs|];
      forall k | |subs| <= k < |r|
        ensures r[k].SubmitAfter?
                && exists j :: 0 <= j < |pairs| && create(pairs[j].provider, pairs[j].model, maxItems) == Some(r[k].batchId)
                               && r[k].provider == pairs[j].provider
      {
        if k < |subs'| {
          assert r[k] == subs'[k];
          assert create(pairs[0].provider, pairs[0].model, maxItems) == Some(r[k].batchId);
        } else {
          var j :| 0 <= j < |pairs[1..]| && create(pairs[1..][j].provider, pairs[1..][j].model, maxItems) == Some(r[k].batchId)
                   && r[k].provider == pairs[1..][j].provider;
          assert pairs[1..][j] == pairs[j + 1];
        }
      }
    }
  }

  // ---------------------------------------------------------------------
  // The tick

  /** The pairs the submit loop walks: every policy's, then the base policy's, deduplicated by key. */
  function TickPairs(policies: seq<RunPolicy>, base: RunPolicy): seq<ProviderModel>
  {
    Values(MapSetAll([], PolicyPairs(policies) + SpecPairs(base.providerModels)))
  }

  /** The end of a tick that did not throw: release the lock, record and schedule the next tick. */
  function Finish(s: SchedulerState, tp: TickPolicy, polls: seq<Batch>, subs: seq<Scheduled>, later: int): TickOut
  {
    var delay := Max(MinDelayMs, tp.pollIntervalMs);
    TickOut(Success(TickResult(|polls|, |subs|)),
            Some(s.(lockedUntil := None, nextTickAt := Some(later + delay), updatedAt := later)),
            PollCalls(polls) + subs + [TickAfter(delay, later + delay)])
  }

  /** The lock is released and the next tick is at least 500 ms and at least the folded
      poll interval away, and is the last call scheduled. */
  lemma FinishReleases(s: SchedulerState, tp: TickPolicy, polls: seq<Batch>, subs: seq<Scheduled>, later: int)
    ensures var out := Finish(s, tp, polls, subs, later);
            out.result == Success(TickResult(|polls|, |subs|))
            && out.state.Some? && out.state.value.lockedUntil.None?
            && |out.calls| == |polls| + |subs| + 1 && out.calls[|out.calls| - 1].TickAfter?
            && out.calls[|out.calls| - 1].delay >= MinDelayMs
            && out.calls[|out.calls| - 1].delay >= tp.pollIntervalMs
            && out.state.value.nextTickAt == Some(later + out.calls[|out.calls| - 1].delay)
            && out.calls[|out.calls| - 1].scheduledAt == later + out.calls[|out.calls| - 1].delay
  {
  }

  /** `tick` given the active runs' policies and the per-batch policy lookup.  A throw
      rolls the whole mutation back, lock and scheduled calls included. */
  function TickSpec(state: Option<SchedulerState>, policies: seq<RunPolicy>, base: RunPolicy,
                    resolve: Batch -> Result<RunPolicy>, batches: seq<Batch>,
                    create: (string, string, int) -> Option<nat>, now: int, later: int): TickOut
  {
    if state.None? || (TruthyTime(state.value.lockedUntil) && state.value.lockedUntil.value > now) then
      TickOut(Success(TickResult(0, 0)), state, [])
    else
      var tp := Fold(Seed(base), policies);
      match PollFrom(DueForPolling(batches, now), tp.maxPollPerTick, resolve, [])
      case Failure(e) => TickOut(Failure(e), state, [])
      case Success(polls) =>
        Finish(state.value, tp, polls, SubmitFrom(TickPairs(policies, base), tp.maxNewBatchesPerTick, tp.maxBatchSize, create, []), later)
  }

  function PollCalls(polls: seq<Batch>): (r: seq<Scheduled>)
    ensures |r| == |polls| && forall i :: 0 <= i < |polls| ==> r[i] == PollAfter(polls[i])
  {
    seq(|polls|, i requires 0 <= i < |polls| => PollAfter(polls[i]))
  }

  /** With no state row, or while the lock is held past now, a tick does nothing. */
  lemma TickWhileLocked(state: Option<SchedulerState>, policies: seq<RunPolicy>, base: RunPolicy,
                        resolve: Batch -> Result<RunPolicy>, batches: seq<Batch>,
                        create: (string, string, int) -> Option<nat>, now: int, later: int)
    requires state.None? || (state.value.lockedUntil.Some? && state.value.lockedUntil.value > now && state.value.lockedUntil.value != 0)
    ensures TickSpec(state, policies, base, resolve, batches, create, now, later) == TickOut(Success(TickResult(0, 0)), state, [])
  {
  }

  /** A tick whose policy lookup throws leaves the state and the scheduled calls as they were. */
  lemma TickFailureRollsBack(state: Option<SchedulerState>, policies: seq<RunPolicy>, base: RunPolicy,
                             resolve: Batch -> Result<RunPolicy>, batches: seq<Batch>,
                             create: (string, string, int) -> Option<nat>, now: int, later: int)
    requires TickSpec(state, policies, base, resolve, batches, create, now, later).result.Failure?
    ensures var out := TickSpec(state, policies, base, resolve, batches, create, now, later);
            out.state == state && out.calls == []
  {
  }

  /** A tick that runs: the caps hold, the lock is released, and the next tick is at
      least 500 ms and at least the folded poll interval away. */
  lemma TickGuarantees(state: Option<SchedulerState>, policies: seq<RunPolicy>, base: RunPolicy,
                       resolve: Batch -> Result<RunPolicy>, batches: seq<Batch>,
                       create: (string, string, int) -> Option<nat>, now: int, later: int)
    requires state.Some? && !(TruthyTime(state.value.lockedUntil) && state.value.lockedUntil.value > now)
    requires TickSpec(state, policies, base, resolve, batches, create, now, later).result.Success?
    ensures var out := TickSpec(state, policies, base, resolve, batches, create, now, later);
            var tp := Fold(Seed(base), policies);
            out.result.value.polled <= Bound(tp.maxPollPerTick)
            && out.result.value.submitted <= Bound(tp.maxNewBatchesPerTick)
            && out.state.Some? && out.state.value.lockedUntil.None?
            && |out.calls| > 0 && out.calls[|out.calls| - 1].TickAfter?
            && out.calls[|out.calls| - 1].delay >= MinDelayMs
            && out.calls[|out.calls| - 1].delay >= tp.pollIntervalMs
            && out.state.value.nextTickAt == Some(later + out.calls[|out.calls| - 1].delay)
  {
    var tp := Fold(Seed(base), policies);
    var due := DueForPolling(batches, now);
    var pairs := TickPairs(policies, base);
    PollWithinCap(due, tp.maxPollPerTick, resolve, []);
    var polls := PollFrom(due, tp.maxPollPerTick, resolve, []).value;
    var subs := SubmitFrom(pairs, tp.maxNewBatchesPerTick, tp.maxBatchSize, create, []);
    SubmitWithinCap(pairs, tp.maxNewBatchesPerTick, tp.maxBatchSize, create, []);
    FinishReleases(state.value, tp, polls, subs, later);
    assert TickSpec(state, policies, base, resolve, batches, create, now, later) == Finish(state.value, tp, polls, subs, later);
  }

  // ---------------------------------------------------------------------
  // The state row and the scheduled-call log

  class SchedulerStore {
    var state: Option<SchedulerState>
    var scheduled: seq<Scheduled>
    const runs: seq<RunRow>
    const configs: seq<RunConfig>
    const batches: seq<Batch>
    /** `ENGINE_SETTINGS.run_policy` (runs_scheduler.ts) and `DEFAULT_RUN_POLICY` (scheduler.ts). */
    const engine: RunPolicy
    const defaultPolicy: RunPolicy

    constructor(state0: Option<SchedulerState>, runs0: seq<RunRow>, configs0: seq<RunConfig>, batches0: seq<Batch>,
                engine0: RunPolicy, default0: RunPolicy)
      ensures state == state0 && scheduled == [] && runs == runs0 && configs == configs0 && batches == batches0
      ensures engine == engine0 && defaultPolicy == default0
    {
      state := state0;
      scheduled := [];
      runs := runs0;
      configs := configs0;
      batches := batches0;
      engine := engine0;
      defaultPolicy := default0;
    }

    /** `ensureScheduler` (both versions), with `Date.now()` as `now`. */
    method EnsureScheduler(now: int) returns (scheduledTick: bool)
      modifies this
      ensures var out := EnsureSpec(old(state), now);
              scheduledTick == out.scheduled && state == Some(out.state) && scheduled == old(scheduled) + out.calls
    {
      if state.None? {
        state := Some(SchedulerState(None, None, now));
      }
      var s := state.value;
      if TruthyTime(s.nextTickAt) && s.nextTickAt.value > now {
        return false;
      }
      var nextTickAt := now + MinDelayMs;
      state := Some(s.(nextTickAt := Some(nextTickAt), updatedAt := now));
      scheduled := scheduled + [TickAfter(MinDelayMs, nextTickAt)];
      return true;
    }

    /** runs_scheduler.ts `tick`; `now` is the first `Date.now()`, `later` the ones after the loops. */
    method TickSnapshots(now: int, later: int, create: (string, string, int) -> Option<nat>) returns (r: Result<TickResult>)
      modifies this
      ensures var out := TickSpec(old(state), SnapshotPolicies(ActiveRuns(runs), engine), engine,
                                  b => SnapshotResolve(runs, engine, b), batches, create, now, later);
              r == out.result && state == out.state && scheduled == old(scheduled) + out.calls
    {
      if state.None? || (TruthyTime(state.value.lockedUntil) && state.value.lockedUntil.value > now) {
        return Success(TickResult(0, 0));
      }
      var policies := CollectSnapshotPolicies(ActiveRuns(runs));
      r := TickWith(now, later, policies, engine, b => SnapshotResolve(runs, engine, b), create);
    }

    /** scheduler.ts `tick`. */
    method TickConfigs(now: int, later: int, create: (string, string, int) -> Option<nat>) returns (r: Result<TickResult>)
      modifies this
      ensures var out := TickSpec(old(state), ConfigPolicies(ActiveRuns(runs), configs, defaultPolicy), defaultPolicy,
                                  b => ConfigResolve(runs, configs, defaultPolicy, b), batches, create, now, later);
              r == out.result && state == out.state && scheduled == old(scheduled) + out.calls
    {
      if state.None? || (TruthyTime(state.value.lockedUntil) && state.value.lockedUntil.value > now) {
        return Success(TickResult(0, 0));
      }
      var policies := CollectConfigPolicies(ActiveRuns(runs));
      r := TickWith(now, later, policies, defaultPolicy, b => ConfigResolve(runs, configs, defaultPolicy, b), create);
    }

    /** The body of a tick once the lock is free: take the lock, poll, submit, release. */
    method TickWith(now: int, later: int, policies: seq<RunPolicy>, base: RunPolicy,
                    resolve: Batch -> Result<RunPolicy>, create: (string, string, int) -> Option<nat>)
      returns (r: Result<TickResult>)
      modifies this
      requires state.Some? && !(TruthyTime(state.value.lockedUntil) && state.value.lockedUntil.value > now)
      ensures var out := TickSpec(old(state), policies, base, resolve, batches, create, now, later);
              r == out.result && state == out.state && scheduled == old(scheduled) + out.calls
    {
      var saved := state;
      state := Some(state.value.(lockedUntil := Some(now + LockMs), nextTickAt := None, updatedAt := now));
      var tp := FoldPolicies(base, policies);
      var polls := PollDue(DueForPolling(batches, now), tp.maxPollPerTick, resolve);
      if polls.Failure? {
        state := saved;
        return Failure(polls.error);
      }
      var entries := BuildProviderModels(PolicyPairs(policies) + SpecPairs(base.providerModels));
      var subs := SubmitQueued(Values(entries), tp.maxNewBatchesPerTick, tp.maxBatchSize, create);
      var out := Finish(saved.value, tp, polls.value, subs, later);
      state := out.state;
      scheduled := scheduled + out.calls;
      r := out.result;
    }

    /** runs_scheduler.ts: `policies.push(run.policy_snapshot ?? ENGINE_SETTINGS.run_policy)` per active run. */
    method CollectSnapshotPolicies(active: seq<RunRow>) returns (policies: seq<RunPolicy>)
      ensures policies == SnapshotPolicies(active, engine)
    {
      policies := [];
      var i := 0;
      while i < |active|
        invariant 0 <= i <= |active| && policies == SnapshotPolicies(active[..i], engine)
      {
        policies := policies + [active[i].policySnapshot.GetOr(engine)];
        i := i + 1;
        assert active[..i] == active[..i - 1] + [active[i - 1]];
      }
      assert active[..|active|] == active;
    }

    /** scheduler.ts: each active run's resolved config policy, or the default when anything throws. */
    method CollectConfigPolicies(active: seq<RunRow>) returns (policies: seq<RunPolicy>)
      ensures policies == ConfigPolicies(active, configs, defaultPolicy)
    {
      policies := [];
      var i := 0;
      while i < |active|
        invariant 0 <= i <= |active| && policies == ConfigPolicies(active[..i], configs, defaultPolicy)
      {
        var config := FindConfig(configs, active[i].runConfigId);
        var p := defaultPolicy;
        if config.Some? {
          var resolved := ResolveRunPolicy(config.value.policies, config.value.teamId, None, None);
          if resolved.Success? {
            p := resolved.value;
          }
        }
        policies := policies + [p];
        i := i + 1;
        assert active[..i] == active[..i - 1] + [active[i - 1]];
      }
      assert active[..|active|] == active;
    }

    /** The `reduce` over the collected policies. */
    method FoldPolicies(base: RunPolicy, policies: seq<RunPolicy>) returns (tp: TickPolicy)
      ensures tp == Fold(Seed(base), policies)
    {
      tp := Seed(base);
      var i := 0;
      while i < |policies|
        invariant 0 <= i <= |policies|
        invariant Fold(tp, policies[i..]) == Fold(Seed(base), policies)
      {
        assert policies[i..][0] == policies[i] && policies[i..][1..] == policies[i + 1..];
        tp := FoldStep(tp, policies[i]);
        i := i + 1;
      }
    }

    /** The poll loop, counting polls per bucket in a map. */
    method PollDue(due: seq<Batch>, cap: int, resolve: Batch -> Result<RunPolicy>) returns (r: Result<seq<Batch>>)
      ensures r == PollFrom(due, cap, resolve, [])
    {
      var counts: map<string, nat> := map[];
      var polls: seq<Batch> := [];
      var i := 0;
      while i < |due|
        invariant 0 <= i <= |due|
        invariant PollFrom(due, cap, resolve, []) == PollFrom(due[i..], cap, resolve, polls)
        invariant forall key :: key in counts ==> counts[key] == KeyCount(polls, key)
        invariant forall key :: key !in counts ==> KeyCount(polls, key) == 0
      {
        assert due[i..][0] == due[i] && due[i..][1..] == due[i + 1..];
        if |polls| >= cap {
          break;
        }
        var policy := resolve(due[i]);
        if policy.Failure? {
          return Failure(policy.error);
        }
        var key := BatchKey(due[i]);
        var current := if key in counts then counts[key] else 0;
        if current >= policy.value.maxPollPerTick {
          i := i + 1;
          continue;
        }
        forall k | true
          ensures KeyCount(polls + [due[i]], k) == KeyCount(polls, k) + if k == key then 1 else 0
        {
          CountSnoc(polls, due[i], KeyIs(k));
        }
        counts := counts[key := current + 1];
        polls := polls + [due[i]];
        i := i + 1;
      }
      return Success(polls);
    }

    /** The nested `providerModels.set` loops, over the pairs in loop order. */
    method BuildProviderModels(pairs: seq<ProviderModel>) returns (entries: seq<Entry>)
      ensures entries == MapSetAll([], pairs)
    {
      entries := [];
      var i := 0;
      while i < |pairs|
        invariant 0 <= i <= |pairs|
        invariant MapSetAll(entries, pairs[i..]) == MapSetAll([], pairs)
      {
        assert pairs[i..][0] == pairs[i] && pairs[i..][1..] == pairs[i + 1..];
        entries := MapSet(entries, pairs[i]);
        i := i + 1;
      }
    }

    /** The submit loop over `providerModels.values()`. */
    method SubmitQueued(pairs: seq<ProviderModel>, cap: int, maxItems: int, create: (string, string, int) -> Option<nat>)
      returns (subs: seq<Scheduled>)
      ensures subs == SubmitFrom(pairs, cap, maxItems, create, [])
    {
      subs := [];
      var i := 0;
      while i < |pairs|
        invariant 0 <= i <= |pairs|
        invariant SubmitFrom(pairs[i..], cap, maxItems, create, subs) == SubmitFrom(pairs, cap, maxItems, create, [])
      {
        assert pairs[i..][0] == pairs[i] && pairs[i..][1..] == pairs[i + 1..];
        if |subs| >= cap {
          break;
        }
        var batchId := create(pairs[i].provider, pairs[i].model, maxItems);
        if batchId.Some? {
          subs := subs + [SubmitAfter(batchId.value, pairs[i].provider)];
        }
        i := i + 1;
      }
    }
  }
}
