/**
 * The provider catalogue of `platform/providers/provider_types.ts`: the
 * models the engine knows, whether each can go through a provider's batch
 * API, and the names of the rate-limit buckets a model's calls draw on.
 */
module Providers {
  import opened Wrappers

  datatype ModelDefinition = ModelDefinition(id: string, provider: string, batchable: bool)

  /** `MODELS`. */
  const Models: seq<ModelDefinition> := [
    ModelDefinition("gpt-4.1", "openai", true),
    ModelDefinition("gpt-4.1-mini", "openai", true),
    ModelDefinition("gpt-5.2", "openai", true),
    ModelDefinition("gpt-5.2-chat", "openai", false)
  ]

  /** `MODEL_BY_ID[model]`: an id outside the table reads `undefined`, and reading a field of it throws. */
  function ModelById(model: string): (r: Result<ModelDefinition>)
    ensures r.Success? <==> exists k :: 0 <= k < |Models| && Models[k].id == model
    ensures r.Success? ==> r.value in Models && r.value.id == model
  {
    if model == "gpt-4.1" then Success(Models[0])
    else if model == "gpt-4.1-mini" then Success(Models[1])
    else if model == "gpt-5.2" then Success(Models[2])
    else if model == "gpt-5.2-chat" then Success(Models[3])
    else Failure("Cannot read properties of undefined")
  }

  /** `isBatchableModel`. */
  function IsBatchableModel(model: string): (r: Result<bool>)
    ensures r.Success? <==> ModelById(model).Success?
  {
    match ModelById(model)
    case Success(def) => Success(def.batchable)
    case Failure(e) => Failure(e)
  }

  /** `getProviderForModel`. */
  function ProviderForModel(model: string): (r: Result<string>)
    ensures r.Success? <==> ModelById(model).Success?
  {
    match ModelById(model)
    case Success(def) => Success(def.provider)
    case Failure(e) => Failure(e)
  }

  /** Exactly one known model, `gpt-5.2-chat`, has to be called one request at a time. */
  lemma OnlyChatIsUnbatchable(model: string)
    ensures IsBatchableModel(model) == Success(false) <==> model == "gpt-5.2-chat"
    ensures ModelById(model).Success? && model != "gpt-5.2-chat" ==> IsBatchableModel(model) == Success(true)
  {
  }

  /** Every known model is served by `openai`. */
  lemma EveryModelIsOpenAI(model: string)
    requires ModelById(model).Success?
    ensures ProviderForModel(model) == Success("openai")
  {
  }

  datatype RateLimitScope = Job | Batch
  datatype RateLimitMetric = Requests | InputTokens | OutputTokens

  function MetricName(m: RateLimitMetric): string
  {
    match m
    case Requests => "requests"
    case InputTokens => "input_tokens"
    case OutputTokens => "output_tokens"
  }

  function ScopePrefix(scope: RateLimitScope): string
  {
    if scope == Batch then "batch_" else ""
  }

  /** `rateLimitKey`: `<model>:<metric>`, the metric prefixed with `batch_` in batch scope; job scope by default. */
  function RateLimitKey(model: string, metric: RateLimitMetric, scope: RateLimitScope := Job): (key: string)
    ensures key == model + ":" + ScopePrefix(scope) + MetricName(metric)
    ensures key[..|model|] == model && key[|model|] == ':'
  {
    model + ":" + ScopePrefix(scope) + MetricName(metric)
  }

  /** The part of a key after the model and the colon names scope and metric together, and names them uniquely. */
  lemma SuffixDetermines(m1: RateLimitMetric, s1: RateLimitScope, m2: RateLimitMetric, s2: RateLimitScope)
    requires ScopePrefix(s1) + MetricName(m1) == ScopePrefix(s2) + MetricName(m2)
    ensures m1 == m2 && s1 == s2
  {
  }

  /** For models without a colon, a key identifies its model, metric and scope. */
  lemma RateLimitKeyInjective(model1: string, metric1: RateLimitMetric, scope1: RateLimitScope,
                              model2: string, metric2: RateLimitMetric, scope2: RateLimitScope)
    requires ':' !in model1 && ':' !in model2
    requires RateLimitKey(model1, metric1, scope1) == RateLimitKey(model2, metric2, scope2)
    ensures model1 == model2 && metric1 == metric2 && scope1 == scope2
  {
    var key := RateLimitKey(model1, metric1, scope1);
    assert model1 == key[..|model1|] == model2;
    var n := |model1| + 1;
    assert key[n..] == ScopePrefix(scope1) + MetricName(metric1);
    assert key[n..] == ScopePrefix(scope2) + MetricName(metric2);
    SuffixDetermines(metric1, scope1, metric2, scope2);
  }

  datatype RateLimitKeys = RateLimitKeys(requestsKey: string, inputKey: string, outputKey: string)

  /** `rateLimitKeysForModel`: the three buckets of one model in one scope. */
  function RateLimitKeysForModel(model: string, scope: RateLimitScope := Job): (keys: RateLimitKeys)
    ensures keys.requestsKey != keys.inputKey && keys.inputKey != keys.outputKey && keys.requestsKey != keys.outputKey
    ensures |model| < |keys.requestsKey| && keys.requestsKey[..|model| + 1] == model + ":"
    ensures |model| < |keys.inputKey| && keys.inputKey[..|model| + 1] == model + ":"
    ensures |model| < |keys.outputKey| && keys.outputKey[..|model| + 1] == model + ":"
  {
    var keys := RateLimitKeys(RateLimitKey(model, Requests, scope), RateLimitKey(model, InputTokens, scope), RateLimitKey(model, OutputTokens, scope));
    var n := |model| + 1;
    assert keys.requestsKey[n..] == ScopePrefix(scope) + MetricName(Requests);
    assert keys.inputKey[n..] == ScopePrefix(scope) + MetricName(InputTokens);
    assert keys.outputKey[n..] == ScopePrefix(scope) + MetricName(OutputTokens);
    Distinct(scope, Requests, InputTokens);
    Distinct(scope, InputTokens, OutputTokens);
    Distinct(scope, Requests, OutputTokens);
    keys
  }

  lemma Distinct(scope: RateLimitScope, m1: RateLimitMetric, m2: RateLimitMetric)
    requires m1 != m2
    ensures ScopePrefix(scope) + MetricName(m1) != ScopePrefix(scope) + MetricName(m2)
  {
    if ScopePrefix(scope) + MetricName(m1) == ScopePrefix(scope) + MetricName(m2) {
      SuffixDetermines(m1, scope, m2, scope);
    }
  }

  /** Job-scope and batch-scope buckets never coincide, so the two routes are limited separately. */
  lemma ScopesSeparate(model: string, m1: RateLimitMetric, m2: RateLimitMetric)
    ensures RateLimitKey(model, m1, Job) != RateLimitKey(model, m2, Batch)
  {
    var n := |model| + 1;
    assert RateLimitKey(model, m1, Job) == (model + ":") + MetricName(m1);
    assert RateLimitKey(model, m2, Batch) == (model + ":") + ("batch_" + MetricName(m2));
    assert RateLimitKey(model, m1, Job)[n] == MetricName(m1)[0] != 'b';
    assert RateLimitKey(model, m2, Batch)[n] == 'b';
  }
}
