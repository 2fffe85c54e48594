/**
 * Run policies: the scheduling and batching knobs of `RunPolicySchema`
 * (`models/core.ts`), and their layering in `utils/policy.ts`, where a
 * global policy is overridden field by field by team, provider, model and
 * experiment layers and the result is validated against the schema.
 */
module RunPolicies {
  import opened Wrappers

  /** `modelTypeSchema` of `models/core.ts`. */
  const ModelTypes: seq<string> := ["gpt-4.1", "gpt-4.1-mini", "gpt-5.2", "gpt-5.2-chat", "claude-sonnet-4.5", "claude-haiku-4.5"]

  /** `providerSchema` of `models/core.ts`. */
  const ProviderNames: seq<string> := ["openai", "anthropic"]

  /** One entry of `provider_models`: a provider and the models a run may use with it. */
  datatype ProviderModels = ProviderModels(provider: string, models: seq<string>)

  datatype RunPolicy = RunPolicy(
    pollIntervalMs: int,
    maxBatchSize: int,
    maxNewBatchesPerTick: int,
    maxPollPerTick: int,
    maxConcurrentBatches: Option<int>,
    maxConcurrentRequests: Option<int>,
    maxTokens: Option<int>,
    maxBatchRetries: int,
    maxRequestAttempts: int,
    retryBackoffMs: int,
    providerModels: seq<ProviderModels>)

  predicate AtLeast(o: Option<int>, lo: int)
  {
    o.None? || o.value >= lo
  }

  predicate ValidProviderModels(pm: seq<ProviderModels>)
  {
    |pm| >= 1 &&
    forall k :: 0 <= k < |pm| ==>
      pm[k].provider in ProviderNames && |pm[k].models| >= 1 &&
      forall j :: 0 <= j < |pm[k].models| ==> pm[k].models[j] in ModelTypes
  }

  /** What `RunPolicySchema.parse` accepts. */
  predicate ValidPolicy(p: RunPolicy)
  {
    p.pollIntervalMs >= 500 && p.maxBatchSize >= 1 && p.maxNewBatchesPerTick >= 1 &&
    p.maxPollPerTick >= 1 && AtLeast(p.maxConcurrentBatches, 1) &&
    AtLeast(p.maxConcurrentRequests, 1) && AtLeast(p.maxTokens, 1) &&
    p.maxBatchRetries >= 0 && p.maxRequestAttempts >= 1 && p.retryBackoffMs >= 0 &&
    ValidProviderModels(p.providerModels)
  }

  /** `Partial<RunPolicy>`: a field is `Some` when the override sets it. */
  datatype PolicyOverride = PolicyOverride(
    pollIntervalMs: Option<int>,
    maxBatchSize: Option<int>,
    maxNewBatchesPerTick: Option<int>,
    maxPollPerTick: Option<int>,
    maxConcurrentBatches: Option<int>,
    maxConcurrentRequests: Option<int>,
    maxTokens: Option<int>,
    maxBatchRetries: Option<int>,
    maxRequestAttempts: Option<int>,
    retryBackoffMs: Option<int>,
    providerModels: Option<seq<ProviderModels>>)

  const NoOverride := PolicyOverride(None, None, None, None, None, None, None, None, None, None, None)

  /** Every field an override sets lies within the schema's bounds. */
  predicate ValidOverride(o: PolicyOverride)
  {
    AtLeast(o.pollIntervalMs, 500) && AtLeast(o.maxBatchSize, 1) &&
    AtLeast(o.maxNewBatchesPerTick, 1) && AtLeast(o.maxPollPerTick, 1) &&
    AtLeast(o.maxConcurrentBatches, 1) && AtLeast(o.maxConcurrentRequests, 1) &&
    AtLeast(o.maxTokens, 1) && AtLeast(o.maxBatchRetries, 0) &&
    AtLeast(o.maxRequestAttempts, 1) && AtLeast(o.retryBackoffMs, 0) &&
    (o.providerModels.None? || ValidProviderModels(o.providerModels.value))
  }

  /** The value a spread gives one field: the override's when it sets one. */
  function Pick<T>(o: Option<T>, base: T): T
  {
    if o.Some? then o.value else base
  }

  /** The same for a field that is itself optional. */
  function PickOpt<T>(o: Option<T>, base: Option<T>): Option<T>
  {
    if o.Some? then o else base
  }

  /** `mergeRunPolicy`: no override gives the base; otherwise `{...base, ...override}`. */
  function Merge(base: RunPolicy, override: Option<PolicyOverride>): RunPolicy
  {
    match override
    case None => base
    case Some(o) =>
      RunPolicy(
        Pick(o.pollIntervalMs, base.pollIntervalMs),
        Pick(o.maxBatchSize, base.maxBatchSize),
        Pick(o.maxNewBatchesPerTick, base.maxNewBatchesPerTick),
        Pick(o.maxPollPerTick, base.maxPollPerTick),
        PickOpt(o.maxConcurrentBatches, base.maxConcurrentBatches),
        PickOpt(o.maxConcurrentRequests, base.maxConcurrentRequests),
        PickOpt(o.maxTokens, base.maxTokens),
        Pick(o.maxBatchRetries, base.maxBatchRetries),
        Pick(o.maxRequestAttempts, base.maxRequestAttempts),
        Pick(o.retryBackoffMs, base.retryBackoffMs),
        Pick(o.providerModels, base.providerModels))
  }

  /** One override applied after another, as a single override: the later one wins each field. */
  function Combine(first: PolicyOverride, second: PolicyOverride): PolicyOverride
  {
    PolicyOverride(
      PickOpt(second.pollIntervalMs, first.pollIntervalMs),
      PickOpt(second.maxBatchSize, first.maxBatchSize),
      PickOpt(second.maxNewBatchesPerTick, first.maxNewBatchesPerTick),
      PickOpt(second.maxPollPerTick, first.maxPollPerTick),
      PickOpt(second.maxConcurrentBatches, first.maxConcurrentBatches),
      PickOpt(second.maxConcurrentRequests, first.maxConcurrentRequests),
      PickOpt(second.maxTokens, first.maxTokens),
      PickOpt(second.maxBatchRetries, first.maxBatchRetries),
      PickOpt(second.maxRequestAttempts, first.maxRequestAttempts),
      PickOpt(second.retryBackoffMs, first.retryBackoffMs),
      PickOpt(second.providerModels, first.providerModels))
  }

  /** An empty override changes nothing, just as no override does. */
  lemma MergeNothing(base: RunPolicy)
    ensures Merge(base, Some(NoOverride)) == base
    ensures Merge(base, None) == base
  {
  }

  /** Merging twice in a row is merging once with the combined override. */
  lemma MergeCompose(base: RunPolicy, first: PolicyOverride, second: PolicyOverride)
    ensures Merge(Merge(base, Some(first)), Some(second)) == Merge(base, Some(Combine(first, second)))
  {
  }

  /** Applying the same override again changes nothing. */
  lemma MergeIdempotent(base: RunPolicy, o: Option<PolicyOverride>)
    ensures Merge(Merge(base, o), o) == Merge(base, o)
  {
  }

  /** A valid override of a valid policy is valid, so `parse` accepts it. */
  lemma MergeValid(base: RunPolicy, o: Option<PolicyOverride>)
    requires ValidPolicy(base)
    requires o.None? || ValidOverride(o.value)
    ensures ValidPolicy(Merge(base, o))
  {
  }

  // ---------------------------------------------------------------------
  // resolveRunPolicy

  /**
   * The layers a run's policy is built from (the `PolicyOverrides` type
   * is not part of this model; its shape is read off its uses): a global
   * policy and optional override tables keyed by team, provider and model.
   */
  datatype PolicyLayers = PolicyLayers(
    global: RunPolicy,
    team: map<string, PolicyOverride>,
    provider: map<string, PolicyOverride>,
    model: map<string, PolicyOverride>,
    experiment: Option<PolicyOverride>)

  /** A selector given and truthy (a non-empty string), whose table has an entry for it. */
  predicate Selects(key: Option<string>, table: map<string, PolicyOverride>)
  {
    key.Some? && key.value != "" && key.value in table
  }

  /** The team layer, when it applies. */
  function TeamLayer(p: PolicyLayers, teamId: Option<string>): seq<PolicyOverride>
  {
    if Selects(teamId, p.team) then [p.team[teamId.value]] else []
  }

  function ProviderLayer(p: PolicyLayers, provider: Option<string>): seq<PolicyOverride>
  {
    if Selects(provider, p.provider) then [p.provider[provider.value]] else []
  }

  function ModelLayer(p: PolicyLayers, model: Option<string>): seq<PolicyOverride>
  {
    if Selects(model, p.model) then [p.model[model.value]] else []
  }

  function ExperimentLayer(p: PolicyLayers): seq<PolicyOverride>
  {
    if p.experiment.Some? then [p.experiment.value] else []
  }

  /** The overrides that apply, in the order they are applied. */
  function Layers(p: PolicyLayers, teamId: Option<string>, provider: Option<string>, model: Option<string>): seq<PolicyOverride>
  {
    TeamLayer(p, teamId) + ProviderLayer(p, provider) + ModelLayer(p, model) + ExperimentLayer(p)
  }

  /** Merging each override in turn. */
  function ApplyLayers(base: RunPolicy, layers: seq<PolicyOverride>): RunPolicy
    decreases |layers|
  {
    if |layers| == 0 then base else ApplyLayers(Merge(base, Some(layers[0])), layers[1..])
  }

  /** All the overrides as one, each field taken from the last layer that sets it. */
  function CombineAll(layers: seq<PolicyOverride>): PolicyOverride
    decreases |layers|
  {
    if |layers| == 0 then NoOverride else Combine(layers[0], CombineAll(layers[1..]))
  }

  lemma CombineAssociative(a: PolicyOverride, b: PolicyOverride, c: PolicyOverride)
    ensures Combine(Combine(a, b), c) == Combine(a, Combine(b, c))
  {
  }

  lemma CombineNothing(a: PolicyOverride)
    ensures Combine(a, NoOverride) == a
  {
  }

  /** Layer-by-layer merging is one merge with the combined override: the later layer wins field-wise. */
  lemma {:induction false} ApplyLayersCombined(base: RunPolicy, layers: seq<PolicyOverride>)
    ensures ApplyLayers(base, layers) == Merge(base, Some(CombineAll(layers)))
    decreases |layers|
  {
    if |layers| == 0 {
      MergeNothing(base);
    } else {
      ApplyLayersCombined(Merge(base, Some(layers[0])), layers[1..]);
      MergeCompose(base, layers[0], CombineAll(layers[1..]));
    }
  }

  /** Layers that each respect the schema keep a valid global policy valid. */
  lemma {:induction false} ApplyLayersValid(base: RunPolicy, layers: seq<PolicyOverride>)
    requires ValidPolicy(base)
    requires forall k :: 0 <= k < |layers| ==> ValidOverride(layers[k])
    ensures ValidPolicy(ApplyLayers(base, layers))
    decreases |layers|
  {
    if |layers| > 0 {
      MergeValid(base, Some(layers[0]));
      ApplyLayersValid(Merge(base, Some(layers[0])), layers[1..]);
    }
  }

  /** Merging one list of layers and then another is merging their concatenation. */
  lemma {:induction false} ApplyLayersAppend(base: RunPolicy, xs: seq<PolicyOverride>, ys: seq<PolicyOverride>)
    ensures ApplyLayers(base, xs + ys) == ApplyLayers(ApplyLayers(base, xs), ys)
    decreases |xs|
  {
    if |xs| == 0 {
      assert xs + ys == ys;
    } else {
      assert (xs + ys)[1..] == xs[1..] + ys;
      ApplyLayersAppend(Merge(base, Some(xs[0])), xs[1..], ys);
    }
  }

  /** Merging at most one layer. */
  lemma ApplyOptional(base: RunPolicy, layer: seq<PolicyOverride>)
    requires |layer| <= 1
    ensures ApplyLayers(base, layer) == if |layer| == 0 then base else Merge(base, Some(layer[0]))
  {
    if |layer| == 1 {
      assert layer[1..] == [];
    }
  }

  /** The policy `resolveRunPolicy` builds before it validates it. */
  function Resolved(p: PolicyLayers, teamId: Option<string>, provider: Option<string>, model: Option<string>): RunPolicy
  {
    ApplyLayers(p.global, Layers(p, teamId, provider, model))
  }

  /** `resolveRunPolicy`: layer global → team → provider → model → experiment, then validate. */
  method ResolveRunPolicy(p: PolicyLayers, teamId: Option<string>, provider: Option<string>, model: Option<string>)
    returns (r: Result<RunPolicy>)
    ensures ValidPolicy(Resolved(p, teamId, provider, model)) ==> r == Success(Resolved(p, teamId, provider, model))
    ensures !ValidPolicy(Resolved(p, teamId, provider, model)) ==> r.Failure?
  {
    var resolved := p.global;
    ghost var t := TeamLayer(p, teamId);
    ghost var pr := ProviderLayer(p, provider);
    ghost var m := ModelLayer(p, model);
    ghost var e := ExperimentLayer(p);
    ApplyOptional(resolved, t);
    if Selects(teamId, p.team) {
      resolved := Merge(resolved, Some(p.team[teamId.value]));
    }
    assert resolved == ApplyLayers(p.global, t);
    ApplyOptional(resolved, pr);
    if Selects(provider, p.provider) {
      resolved := Merge(resolved, Some(p.provider[provider.value]));
    }
    ApplyLayersAppend(p.global, t, pr);
    assert resolved == ApplyLayers(p.global, t + pr);
    ApplyOptional(resolved, m);
    if Selects(model, p.model) {
      resolved := Merge(resolved, Some(p.model[model.value]));
    }
    ApplyLayersAppend(p.global, t + pr, m);
    assert resolved == ApplyLayers(p.global, t + pr + m);
    ApplyOptional(resolved, e);
    if p.experiment.Some? {
      resolved := Merge(resolved, p.experiment);
    }
    ApplyLayersAppend(p.global, t + pr + m, e);
    assert resolved == Resolved(p, teamId, provider, model);
    if ValidPolicy(resolved) {
      r := Success(resolved);
    } else {
      r := Failure("invalid run policy");
    }
  }

  /** A selector with no table entry contributes nothing, exactly as if it were not given. */
  lemma ResolveIgnoresMissing(p: PolicyLayers, teamId: Option<string>, provider: Option<string>, model: Option<string>)
    requires !Selects(teamId, p.team) && !Selects(provider, p.provider) && !Selects(model, p.model)
    ensures Resolved(p, teamId, provider, model) == Merge(p.global, p.experiment)
  {
    assert Layers(p, teamId, provider, model) == ExperimentLayer(p);
    ApplyOptional(p.global, ExperimentLayer(p));
  }

  /** With a valid global policy and valid overrides resolution never fails. */
  lemma ResolveValid(p: PolicyLayers, teamId: Option<string>, provider: Option<string>, model: Option<string>)
    requires ValidPolicy(p.global)
    requires forall t :: t in p.team ==> ValidOverride(p.team[t])
    requires forall t :: t in p.provider ==> ValidOverride(p.provider[t])
    requires forall t :: t in p.model ==> ValidOverride(p.model[t])
    requires p.experiment.None? || ValidOverride(p.experiment.value)
    ensures ValidPolicy(Resolved(p, teamId, provider, model))
  {
    ApplyLayersValid(p.global, Layers(p, teamId, provider, model));
  }

  // ---------------------------------------------------------------------
  // policyAllowsModel

  /** `policy.provider_models.some(spec => spec.provider === provider && spec.models.includes(model))`. */
  function AllowsModel(pm: seq<ProviderModels>, provider: string, model: string): (b: bool)
    ensures b <==> exists k :: 0 <= k < |pm| && pm[k].provider == provider && model in pm[k].models
  {
    if |pm| == 0 then false
    else if pm[0].provider == provider && model in pm[0].models then true
    else
      var rest := AllowsModel(pm[1..], provider, model);
      assert rest <==> exists k :: 1 <= k < |pm| && pm[k].provider == provider && model in pm[k].models by {
        if rest {
          var k :| 0 <= k < |pm[1..]| && pm[1..][k].provider == provider && model in pm[1..][k].models;
          assert pm[k + 1] == pm[1..][k];
        }
        if exists k :: 1 <= k < |pm| && pm[k].provider == provider && model in pm[k].models {
          var k :| 1 <= k < |pm| && pm[k].provider == provider && model in pm[k].models;
          assert pm[1..][k - 1] == pm[k];
        }
      }
      rest
  }

  function PolicyAllowsModel(policy: RunPolicy, provider: string, model: string): bool
  {
    AllowsModel(policy.providerModels, provider, model)
  }

  /** Adding a spec for another provider does not change what a provider may run. */
  lemma AllowsOtherProvider(pm: seq<ProviderModels>, spec: ProviderModels, provider: string, model: string)
    requires spec.provider != provider
    ensures AllowsModel(pm + [spec], provider, model) == AllowsModel(pm, provider, model)
  {
    var s := pm + [spec];
    if AllowsModel(s, provider, model) {
      var k :| 0 <= k < |s| && s[k].provider == provider && model in s[k].models;
      assert k < |pm| && pm[k] == s[k];
    }
    if AllowsModel(pm, provider, model) {
      var k :| 0 <= k < |pm| && pm[k].provider == provider && model in pm[k].models;
      assert s[k] == pm[k];
    }
  }
}
